/**
 * The records the game step works on: the player, the rope, coins, enemies,
 * projectiles, the level description and the outcome reported to the shell.
 */
module Entities {
  import opened Geometry
  import opened Config
  import opened Optional

  datatype Player = Player(
    pos: Vec,
    vel: Vec,
    radius: real,
    grounded: bool,
    facingRight: bool,
    hp: int,
    maxHp: int,
    invulnTimer: nat,
    attackCooldown: nat,
    attackActive: bool,   // is the hitbox live?
    attackFrame: nat      // animation frames left
  )

  datatype Rope = Rope(active: bool, anchor: Vec, length: real)

  datatype Coin = Coin(x: real, y: real, collected: bool, radius: real)

  /** Every enemy of the game is a turret. */
  datatype Enemy = Enemy(x: real, y: real, radius: real, cooldown: nat, dead: bool)

  datatype Projectile = Projectile(x: real, y: real, vx: real, vy: real, radius: real, active: bool)

  datatype Bounds = Bounds(w: real, h: real)

  datatype GameData = GameData(
    platforms: seq<Platform>,
    coins: seq<Coin>,
    enemies: seq<Enemy>,
    spawnPoint: Vec,
    exitPoint: Vec,
    bounds: Bounds
  )

  /** The two callbacks the step may invoke: `onLevelComplete(score, next?)`
      and `onGameOver(score)`. */
  datatype Outcome = LevelComplete(score: int, next: Option<int>) | GameOver(score: int)

  function EnemyPos(e: Enemy): Vec { Vec(e.x, e.y) }
  function CoinPos(c: Coin): Vec { Vec(c.x, c.y) }
  function ProjectilePos(q: Projectile): Vec { Vec(q.x, q.y) }

  /** `if (t > 0) t--` */
  function Dec(t: nat): nat {
    if t > 0 then t - 1 else t
  }

  /** `checkCircleCollision`: the centres are closer than the sum of the radii. */
  predicate CirclesOverlap(a: Vec, ra: real, b: Vec, rb: real) {
    Within(a, b, ra + rb)
  }

  /** The level after `levelIndex`, or none after the last one. */
  function NextLevel(levelIndex: int): (r: Option<int>)
    ensures r.Some? <==> levelIndex < LAST_LEVEL
    ensures r.Some? ==> r.value == levelIndex + 1
  {
    if levelIndex < LAST_LEVEL then Some(levelIndex + 1) else None
  }
}
