/**
 * The game engine's mutable state and its per-frame `update`. The player,
 * the rope, the jump timers, the frame counter, the enemies, the projectile
 * list, the coins and the score are fields that the step rewrites phase by
 * phase, in the engine's order:
 *   timers and the melee attack, jump timers / steering / jump / gravity,
 *   the rope, friction and limits, integration, platform contacts, enemies,
 *   projectiles, coins, and finally the exit and death outcomes.
 * Keyboard and mouse handlers update the held keys, the mouse record and
 * the jump buffer between steps.
 */
module Engine {
  import opened Geometry
  import opened Config
  import opened Entities
  import opened Optional
  import opened Anchor
  import opened Combat
  import opened Collision
  import opened Projectiles
  import opened Motion
  import opened Pickups

  /** The cursor in level coordinates and the two button flags. */
  datatype Mouse = Mouse(x: real, y: real, leftClicked: bool, rightClicked: bool)

  function MousePos(m: Mouse): Vec { Vec(m.x, m.y) }

  /** The player as placed at the start of a level. */
  function Spawned(spawn: Vec): (p: Player)
    ensures p.pos == spawn && p.hp == p.maxHp == PLAYER_MAX_HP && p.invulnTimer == 0
    ensures p.attackCooldown == 0 && !p.attackActive && p.attackFrame == 0 && !p.grounded
    ensures p.vel == Vec(0.0, 0.0) && p.radius == PLAYER_RADIUS && p.facingRight
  {
    Player(spawn, Vec(0.0, 0.0), PLAYER_RADIUS, false, true, PLAYER_MAX_HP, PLAYER_MAX_HP, 0, 0, false, 0)
  }

  /** Every enemy the swing lands on is killed; nothing else changes. */
  function StrikeAll(es: seq<Enemy>, center: Vec): (r: seq<Enemy>)
    ensures |r| == |es|
    ensures forall i :: 0 <= i < |es| ==>
              r[i].(dead := es[i].dead) == es[i]
              && (r[i].dead <==> es[i].dead || Within(center, EnemyPos(es[i]), ATTACK_RANGE + es[i].radius))
  {
    seq(|es|, i requires 0 <= i < |es| => Strike(es[i], center))
  }

  /** The enemies after this step's attack: struck from the player's
      position if the step tests the hitbox, unchanged otherwise. */
  function SwingOutcome(p: Player, clicked: bool, es: seq<Enemy>): (r: seq<Enemy>)
    ensures |r| == |es|
    ensures forall i :: 0 <= i < |es| && es[i].dead ==> r[i].dead
    ensures !AttackUpdate(AttackOf(p), clicked).hitTest ==> r == es
  {
    if AttackUpdate(AttackOf(p), clicked).hitTest then StrikeAll(es, AttackCenter(p)) else es
  }

  /** The rope a search from `pos` leaves behind: attached to the best
      anchor at the distance to it, then reeled, or not attached when no
      platform offers an anchor. */
  ghost predicate SearchedRope(r: Rope, pos: Vec, cursor: Vec, platforms: seq<Platform>,
                               keys: set<string>, sqrt: Sqrt) {
    if r.active then
      IsBestAnchor(pos, cursor, platforms, Some(r.anchor))
      && r.length == Reel(sqrt(DistSq(pos, r.anchor)), keys)
    else
      IsBestAnchor(pos, cursor, platforms, None)
  }

  /** Movement leaves hp, the invulnerability timer, the size and the
      attack state as they were. */
  predicate Unharmed(a: Player, b: Player) {
    a.hp == b.hp && a.invulnTimer == b.invulnTimer && a.maxHp == b.maxHp
    && a.radius == b.radius && AttackOf(a) == AttackOf(b)
  }

  /**
   * The player after the rope rules, from the player and rope the jump left
   * and the rope the rules end with: a rope attached before the step pulls
   * and swings the player; one attached during it does so at the length it
   * was attached with, after grounding is cleared; with no rope attached
   * the player is as the jump left it.
   */
  function RopeMoved(pl: Player, rope: Rope, rope1: Rope, keys: set<string>, sqrt: Sqrt): (r: Player)
    requires 0.0 <= rope.length
    ensures r.(vel := pl.vel, grounded := pl.grounded) == pl
    ensures !rope1.active ==> r == pl
    ensures rope1.active && !rope.active ==> !r.grounded
  {
    if !rope1.active then pl
    else if rope.active then Swing(Spring(pl, rope, sqrt), keys)
    else Swing(Spring(pl.(grounded := false), Rope(true, rope1.anchor, sqrt(DistSq(pl.pos, rope1.anchor))), sqrt), keys)
  }

  /**
   * The player's movement in one step: steering, the jump when `jump`,
   * gravity, the rope rules ending with `rope1`, friction and the speed
   * limits, and integration. It faces the last direction key applied,
   * falls no faster than the fall limit, and keeps hp, the timers, its size
   * and the attack state.
   */
  function Moved(pl: Player, rope: Rope, jump: bool, rope1: Rope, keys: set<string>, sqrt: Sqrt): (r: Player)
    requires 0.0 <= rope.length
    ensures Unharmed(pl, r)
    ensures r.facingRight == (RightHeld(keys) || (pl.facingRight && !LeftHeld(keys)))
    ensures r.vel.y <= MAX_FALL_SPEED
  {
    var jumped := Gravity(if jump then Jump(Steer(pl, keys)) else Steer(pl, keys));
    var ropeJ := if jump then rope.(active := false) else rope;
    Integrate(Limits(RopeMoved(jumped, ropeJ, rope1, keys, sqrt), sqrt))
  }

  /** The player after the attack timers and the invulnerability countdown
      of one step, with `clicked` the attack button's flag. */
  function Armed(pl: Player, clicked: bool): (r: Player)
    ensures AttackOf(r) == AttackUpdate(AttackOf(pl), clicked).state
    ensures r.invulnTimer == Dec(pl.invulnTimer)
    ensures r.(attackCooldown := pl.attackCooldown, attackActive := pl.attackActive,
               attackFrame := pl.attackFrame, invulnTimer := pl.invulnTimer) == pl
  {
    var s := AttackUpdate(AttackOf(pl), clicked).state;
    pl.(attackCooldown := s.cooldown, attackActive := s.active, attackFrame := s.frame,
        invulnTimer := Dec(pl.invulnTimer))
  }

  /** What the player's own actions change: the player, the mouse, the
      rope, the two jump timers and the enemies the swing lands on. */
  datatype Controls = Controls(player: Player, mouse: Mouse, rope: Rope, coyote: nat, buffer: nat,
                               enemies: seq<Enemy>)

  /** What the world changes: the player, the enemies, the projectiles,
      the coins and the score. */
  datatype World = World(player: Player, enemies: seq<Enemy>, projectiles: seq<Projectile>,
                         coins: seq<Coin>, score: nat)

  class Game {
    var player: Player
    var rope: Rope
    var keys: set<string>
    var mouse: Mouse
    var coyoteFrames: nat
    var jumpBufferFrames: nat
    var frameCount: nat
    var enemies: seq<Enemy>
    var projectiles: seq<Projectile>
    var coins: seq<Coin>
    var score: nat

    const platforms: seq<Platform>
    const exitPoint: Vec
    const bounds: Bounds
    const levelIndex: int
    const totalCoins: nat
    /** Coins the level description already marked collected. */
    ghost const startCollected: nat

    ghost function ControlState(): Controls
      reads this
    {
      Controls(player, mouse, rope, coyoteFrames, jumpBufferFrames, enemies)
    }

    ghost function WorldState(): World
      reads this
    {
      World(player, enemies, projectiles, coins, score)
    }

    /**
     * The rules of the player's own actions, from `a` to `b` with `keys`
     * held: no hp is lost
     * and the invulnerability timer counts down once; the attack timers and
     * the right-click flag follow `AttackUpdate`; the jump timers follow
     * `TickJumpTimers`, cleared by a jump; the rope is released with the
     * button up, and with it held a rope that was inactive or released by
     * the jump is the result of the anchor search from the start position,
     * while a rope that stays attached keeps its anchor and is reeled; the
     * player faces the last direction key applied and is exactly `Moved`
     * from the player the attack timers leave; the swing strikes the enemies
     * in reach on a hit-test step.
     */
    ghost predicate ControlStep(a: Controls, b: Controls, keys: set<string>, sqrt: Sqrt)
    {
      && b.player.hp == a.player.hp && b.player.maxHp == a.player.maxHp
      && b.player.invulnTimer == Dec(a.player.invulnTimer)
      && (var t := AttackUpdate(AttackOf(a.player), a.mouse.rightClicked);
          AttackOf(b.player) == t.state && b.mouse == a.mouse.(rightClicked := a.mouse.rightClicked && !t.consumed))
      && (var t := TickJumpTimers(JumpTimers(a.coyote, a.buffer), a.player.grounded);
          && (if CanJump(t, a.rope.active) then b.coyote == 0 && b.buffer == 0
              else b.coyote == t.coyote && b.buffer == t.buffer)
          && (!a.mouse.leftClicked ==> !b.rope.active)
          && (a.mouse.leftClicked && (!a.rope.active || CanJump(t, a.rope.active)) ==>
                SearchedRope(b.rope, a.player.pos, MousePos(a.mouse), platforms, keys, sqrt))
          && (a.mouse.leftClicked && a.rope.active && !CanJump(t, a.rope.active) ==>
                b.rope == a.rope.(length := Reel(a.rope.length, keys)))
          && 0.0 <= a.rope.length
          && b.player == Moved(Armed(a.player, a.mouse.rightClicked), a.rope, CanJump(t, a.rope.active), b.rope, keys, sqrt))
      && b.player.facingRight == (RightHeld(keys) || (a.player.facingRight && !LeftHeld(keys)))
      && b.enemies == SwingOutcome(a.player, a.mouse.rightClicked, a.enemies)
    }

    /**
     * The rules of what the world does, from `a` to `b`, with `landed` the
     * player after the platform contacts: the enemy and projectile passes
     * of `Hazards`; hp drops at most once and the player's size, facing and
     * attack stay; only live projectiles remain; the coins in reach are
     * collected and exactly the new ones are added to the score.
     */
    ghost predicate WorldStep(a: World, landed: Player, b: World, sqrt: Sqrt)
    {
      && landed == ResolveAll(a.player.(grounded := false), platforms, sqrt)
      && Hazards(a.enemies, a.projectiles, landed, sqrt, b.enemies, b.projectiles, b.player)
      && DamageStep(a.player, b.player) && SameBody(a.player, b.player)
      && (forall q :: q in b.projectiles ==> Live(q, platforms, bounds))
      && b.coins == CollectAll(a.coins, b.player.pos, b.player.radius)
      && b.score == a.score + NewlyCollected(a.coins, b.player.pos, b.player.radius)
    }

    /** Across a frame (a control step to `b`, then a world step from the
        enemies `b` left), the enemy list keeps its length and no dead
        enemy comes back. */
    lemma FrameKeepsDead(a: Controls, b: Controls, keys: set<string>, sqrt: Sqrt,
                         mid: World, landed: Player, w: World)
      requires ControlStep(a, b, keys, sqrt) && mid.enemies == b.enemies
      requires WorldStep(mid, landed, w, sqrt)
      ensures |w.enemies| == |a.enemies|
      ensures forall i :: 0 <= i < |a.enemies| && a.enemies[i].dead ==> w.enemies[i].dead
    {
    }

    /** The enemy and projectile passes from `enemies0`/`projectiles0`
        with the player at `landed`: every turret ticks, the shots are
        appended, contact damage applies, and the reverse pass sweeps the
        whole list once. */
    ghost predicate Hazards(enemies0: seq<Enemy>, projectiles0: seq<Projectile>, landed: Player, sqrt: Sqrt,
                            enemies1: seq<Enemy>, projectiles1: seq<Projectile>, player1: Player)
    {
      && enemies1 == TickAll(enemies0, landed.pos)
      && Swept(projectiles1, player1)
         == Sweep(projectiles0 + Shots(enemies0, landed.pos, sqrt), ContactAll(landed, enemies0), platforms, bounds)
    }

    /** The score counts the coins collected during the level; the rope is
        never of negative length; hp never exceeds its maximum; only live
        projectiles are kept. */
    ghost predicate Valid()
      reads this
    {
      && score + startCollected == CountCollected(coins)
      && 0.0 <= rope.length
      && player.hp <= player.maxHp
      && (forall q :: q in projectiles ==> q.active)
    }

    /** The level set-up: the engine's initial state for `data`. */
    constructor (data: GameData, levelIndex: int)
      ensures this.levelIndex == levelIndex && platforms == data.platforms
      ensures exitPoint == data.exitPoint && bounds == data.bounds
      ensures player == Spawned(data.spawnPoint) && rope == Rope(false, Vec(0.0, 0.0), 0.0)
      ensures enemies == data.enemies && projectiles == [] && coins == data.coins
      ensures score == 0 && totalCoins == |data.coins|
      ensures coyoteFrames == 0 && jumpBufferFrames == 0
      ensures Valid()
    {
      this.levelIndex := levelIndex;
      platforms := data.platforms;
      exitPoint := data.exitPoint;
      bounds := data.bounds;
      totalCoins := |data.coins|;
      startCollected := CountCollected(data.coins);
      player := Spawned(data.spawnPoint);
      rope := Rope(false, Vec(0.0, 0.0), 0.0);
      enemies := data.enemies;
      projectiles := [];
      coins := data.coins;
      score := 0;
      coyoteFrames := 0;
      jumpBufferFrames := 0;
      frameCount := 0;
      keys := {};
      mouse := Mouse(0.0, 0.0, false, false);
    }

    // ----------------------------------------------------------------
    // Input handlers
    // ----------------------------------------------------------------

    /** A key goes down; a jump key fills the jump buffer. */
    method KeyDown(code: string)
      modifies this`keys, this`jumpBufferFrames
      ensures keys == old(keys) + {code}
      ensures jumpBufferFrames == if IsJumpKey(code) then JUMP_BUFFER_FRAMES else old(jumpBufferFrames)
    {
      keys := keys + {code};
      if IsJumpKey(code) {
        jumpBufferFrames := JUMP_BUFFER_FRAMES;
      }
    }

    method KeyUp(code: string)
      modifies this`keys
      ensures keys == old(keys) - {code}
    {
      keys := keys - {code};
    }

    /** The cursor moves, already in canvas coordinates. */
    method MouseMove(x: real, y: real)
      modifies this`mouse
      ensures mouse == old(mouse).(x := x, y := y)
    {
      mouse := mouse.(x := x, y := y);
    }

    /** Button 0 holds the grapple, button 2 requests an attack. */
    method MouseDown(button: int)
      modifies this`mouse
      ensures mouse == old(mouse).(leftClicked := old(mouse).leftClicked || button == 0,
                                   rightClicked := old(mouse).rightClicked || button == 2)
    {
      if button == 0 { mouse := mouse.(leftClicked := true); }
      if button == 2 { mouse := mouse.(rightClicked := true); }
    }

    method MouseUp(button: int)
      modifies this`mouse
      ensures mouse == old(mouse).(leftClicked := old(mouse).leftClicked && button != 0,
                                   rightClicked := old(mouse).rightClicked && button != 2)
    {
      if button == 0 { mouse := mouse.(leftClicked := false); }
      if button == 2 { mouse := mouse.(rightClicked := false); }
    }

    // ----------------------------------------------------------------
    // Phases of the step
    // ----------------------------------------------------------------

    /** The melee hit test over all enemies. */
    method StrikeEnemies(center: Vec)
      modifies this`enemies
      ensures enemies == StrikeAll(old(enemies), center)
    {
      for i := 0 to |enemies|
        invariant |enemies| == |old(enemies)|
        invariant forall j :: 0 <= j < i ==> enemies[j] == Strike(old(enemies)[j], center)
        invariant forall j :: i <= j < |enemies| ==> enemies[j] == old(enemies)[j]
      {
        var e := enemies[i];
        if !e.dead && Within(center, EnemyPos(e), ATTACK_RANGE + e.radius) {
          enemies := enemies[i := e.(dead := true)];
        }
      }
    }

    /** Cooldowns, the attack trigger and the melee window. */
    method AttackPhase()
      modifies this`player, this`mouse, this`enemies
      ensures var t := AttackUpdate(AttackOf(old(player)), old(mouse).rightClicked);
              && AttackOf(player) == t.state
              && player.(attackCooldown := old(player).attackCooldown, attackActive := old(player).attackActive,
                         attackFrame := old(player).attackFrame, invulnTimer := old(player).invulnTimer) == old(player)
              && player.invulnTimer == Dec(old(player).invulnTimer)
              && mouse == old(mouse).(rightClicked := old(mouse).rightClicked && !t.consumed)
              && enemies == (if t.hitTest then StrikeAll(old(enemies), AttackCenter(old(player))) else old(enemies))
    ensures player == Armed(old(player), old(mouse).rightClicked)
    {
      var p, consumed, hitTest := TickAttack(player, mouse.rightClicked);
      if consumed {
        mouse := mouse.(rightClicked := false);
      }
      if hitTest {
        StrikeEnemies(AttackCenter(player));
      }
      player := p;
    }

    /** Jump timers, steering, the jump and gravity. */
    method JumpPhase()
      modifies this`coyoteFrames, this`jumpBufferFrames, this`player, this`rope
      ensures var t := TickJumpTimers(JumpTimers(old(coyoteFrames), old(jumpBufferFrames)), old(player).grounded);
              if CanJump(t, old(rope).active) then
                && coyoteFrames == 0 && jumpBufferFrames == 0
                && rope == old(rope).(active := false)
                && player == Gravity(Jump(Steer(old(player), keys)))
              else
                && coyoteFrames == t.coyote && jumpBufferFrames == t.buffer
                && rope == old(rope)
                && player == Gravity(Steer(old(player), keys))
    {
      var coyote, buffer := coyoteFrames, jumpBufferFrames;
      if coyote > 0 { coyote := coyote - 1; }
      if buffer > 0 { buffer := buffer - 1; }
      if player.grounded { coyote := COYOTE_FRAMES; }
      var jump := buffer > 0 && (coyote > 0 || rope.active);
      if jump {
        coyote := 0;
        buffer := 0;
        rope := rope.(active := false);
      }
      player := SteerJumpFall(player, keys, jump);
      coyoteFrames, jumpBufferFrames := coyote, buffer;
    }

    /**
     * The rope: released with the button up; while the button is held an
     * inactive rope searches for an anchor and attaches at the distance to
     * it; an attached rope then springs, swings and reels. `attached` is
     * the anchor found by this step's search, if any.
     */
    method RopePhase(sqrt: Sqrt) returns (attached: Option<Vec>)
      requires 0.0 <= rope.length
      modifies this`rope, this`player
      ensures 0.0 <= rope.length
      ensures Unharmed(old(player), player) && player.facingRight == old(player).facingRight
      ensures !mouse.leftClicked ==> attached.None? && rope == old(rope).(active := false) && player == old(player)
      ensures mouse.leftClicked && !old(rope).active ==>
                IsBestAnchor(old(player).pos, MousePos(mouse), platforms, attached)
      ensures mouse.leftClicked && !old(rope).active && attached.None? ==> rope == old(rope) && player == old(player)
      ensures mouse.leftClicked && !old(rope).active ==>
                SearchedRope(rope, old(player).pos, MousePos(mouse), platforms, keys, sqrt)
      ensures attached.Some? ==>
                var hung := Rope(true, attached.value, sqrt(DistSq(old(player).pos, attached.value)));
                && mouse.leftClicked && !old(rope).active
                && rope == hung.(length := Reel(hung.length, keys))
                && player == Swing(Spring(old(player).(grounded := false), hung, sqrt), keys)
      ensures mouse.leftClicked && old(rope).active ==>
                && attached.None?
                && rope == old(rope).(length := Reel(old(rope).length, keys))
                && player == Swing(Spring(old(player), old(rope), sqrt), keys)
    {
      attached := None;
      if mouse.leftClicked {
        if !rope.active {
          attached := FindAnchor(player.pos, MousePos(mouse), platforms);
          if attached.Some? {
            rope := Rope(true, attached.value, sqrt(DistSq(player.pos, attached.value)));
            player := player.(grounded := false);
          }
        }
      } else {
        rope := rope.(active := false);
      }
      if rope.active {
        player := Spring(player, rope, sqrt);
        player := Swing(player, keys);
        if UpHeld(keys) { rope := rope.(length := Max(rope.length - REEL_STEP, MIN_ROPE_LENGTH)); }
        if DownHeld(keys) { rope := rope.(length := rope.length + REEL_STEP); }
      }
    }

    /** Platform contacts, in platform order, after clearing `grounded`. */
    method CollidePhase(sqrt: Sqrt)
      modifies this`player
      ensures player == ResolveAll(old(player).(grounded := false), platforms, sqrt)
    {
      player := player.(grounded := false);
      for i := 0 to |platforms|
        invariant ResolveAll(player, platforms[i..], sqrt) == ResolveAll(old(player).(grounded := false), platforms, sqrt)
      {
        player := ResolveContact(player, platforms[i], sqrt);
      }
    }

    /** The enemy pass, in enemy order. */
    method EnemyPhase(sqrt: Sqrt)
      modifies this`enemies, this`projectiles, this`player
      ensures enemies == TickAll(old(enemies), old(player).pos)
      ensures projectiles == old(projectiles) + Shots(old(enemies), old(player).pos, sqrt)
      ensures player == ContactAll(old(player), old(enemies))
    {
      var es, shots, pl := EnemyPass(enemies, player, sqrt);
      enemies, projectiles, player := es, projectiles + shots, pl;
    }

    /** The projectile list walked from the back: move, wall and bounds
        tests, player hit, and removal of spent projectiles in place. */
    method ProjectilePhase()
      modifies this`projectiles, this`player
      ensures Swept(projectiles, player) == Sweep(old(projectiles), old(player), platforms, bounds)
    {
      ghost var qs0, pl0 := projectiles, player;
      var qs, pl := projectiles, player;
      var i := |qs|;
      while i > 0
        invariant 0 <= i <= |qs0|
        invariant qs == qs0[..i] + Sweep(qs0[i..], pl0, platforms, bounds).kept
        invariant pl == Sweep(qs0[i..], pl0, platforms, bounds).player
      {
        i := i - 1;
        ghost var rest := Sweep(qs0[i + 1..], pl0, platforms, bounds);
        ghost var v := Visit(qs0[i], rest.player, platforms, bounds);
        ghost var kept := (if v.proj.active then [v.proj] else []) + rest.kept;
        assert Sweep(qs0[i..], pl0, platforms, bounds) == Swept(kept, v.player) by {
          assert qs0[i..][1..] == qs0[i + 1..];
        }
        assert qs == qs0[..i] + [qs0[i]] + rest.kept by {
          assert qs0[..i + 1] == qs0[..i] + [qs0[i]];
        }
        var proj;
        proj, pl := VisitProjectile(qs[i], pl, platforms, bounds);
        qs := qs[i := proj];
        if !proj.active {
          qs := qs[..i] + qs[i + 1..];
        }
        assert qs == qs0[..i] + kept;
      }
      assert qs0[0..] == qs0;
      projectiles, player := qs, pl;
    }

    /** Coin pickup against the player's final position. */
    method CoinPhase()
      modifies this`coins, this`score
      ensures coins == CollectAll(old(coins), player.pos, player.radius)
      ensures score == old(score) + NewlyCollected(old(coins), player.pos, player.radius)
      ensures score + startCollected == CountCollected(coins) <==> old(score) + startCollected == CountCollected(old(coins))
    {
      ghost var cs0 := coins;
      for i := 0 to |coins|
        invariant |coins| == |cs0|
        invariant forall j :: 0 <= j < i ==> coins[j] == Collect(cs0[j], player.pos, player.radius)
        invariant forall j :: i <= j < |coins| ==> coins[j] == cs0[j]
        invariant score + NewlyCollected(cs0[i..], player.pos, player.radius)
                  == old(score) + NewlyCollected(cs0, player.pos, player.radius)
        invariant CountCollected(coins) + old(score) == CountCollected(cs0) + score
      {
        assert cs0[i..][1..] == cs0[i + 1..];
        var c := coins[i];
        if !c.collected && Reached(c, player.pos, player.radius) {
          CountUpdate(coins, i, c.(collected := true));
          coins := coins[i := c.(collected := true)];
          score := score + 1;
        }
      }
    }

    // ----------------------------------------------------------------
    // The step
    // ----------------------------------------------------------------

    /** Jump, rope, limits and integration: the player's movement. None of
        it touches hp, the invulnerability timer or the attack. */
    method MovePhase(sqrt: Sqrt)
      requires 0.0 <= rope.length
      modifies this`player, this`rope, this`coyoteFrames, this`jumpBufferFrames
      ensures 0.0 <= rope.length
      ensures var t := TickJumpTimers(JumpTimers(old(coyoteFrames), old(jumpBufferFrames)), old(player).grounded);
              if CanJump(t, old(rope).active) then coyoteFrames == 0 && jumpBufferFrames == 0
              else coyoteFrames == t.coyote && jumpBufferFrames == t.buffer
      ensures !mouse.leftClicked ==> !rope.active
      ensures var t := TickJumpTimers(JumpTimers(old(coyoteFrames), old(jumpBufferFrames)), old(player).grounded);
              old(mouse).leftClicked && (!old(rope).active || CanJump(t, old(rope).active)) ==>
                SearchedRope(rope, old(player).pos, MousePos(old(mouse)), platforms, keys, sqrt)
      ensures var t := TickJumpTimers(JumpTimers(old(coyoteFrames), old(jumpBufferFrames)), old(player).grounded);
              old(mouse).leftClicked && old(rope).active && !CanJump(t, old(rope).active) ==>
                rope == old(rope).(length := Reel(old(rope).length, keys))
      ensures player.facingRight == (RightHeld(keys) || (old(player).facingRight && !LeftHeld(keys)))
      ensures Unharmed(old(player), player)
      ensures var t := TickJumpTimers(JumpTimers(old(coyoteFrames), old(jumpBufferFrames)), old(player).grounded);
              player == Moved(old(player), old(rope), CanJump(t, old(rope).active), rope, keys, sqrt)
    {
      JumpPhase();
      var _ := RopePhase(sqrt);
      player := Limits(player, sqrt);
      player := Integrate(player);
    }

    /**
     * Platform contacts, enemies and projectiles: every source of damage.
     * `landed` is the player after the platform contacts: the enemies tick
     * against its position, and the projectile pass then moves every
     * projectile once, the ones fired in this step included.
     */
    method HazardPhase(sqrt: Sqrt) returns (ghost landed: Player)
      modifies this`player, this`enemies, this`projectiles
      ensures landed == ResolveAll(old(player).(grounded := false), platforms, sqrt)
      ensures Hazards(old(enemies), old(projectiles), landed, sqrt, enemies, projectiles, player)
      ensures DamageStep(old(player), player) && SameBody(old(player), player)
      ensures forall q :: q in projectiles ==> Live(q, platforms, bounds)
    {
      ghost var start := player;
      CollidePhase(sqrt);
      ResolveAllDamage(start.(grounded := false), platforms, sqrt);
      landed := player;
      ghost var afterCollide, enemiesBefore := player, enemies;
      EnemyPhase(sqrt);
      ContactAllDamage(afterCollide, enemiesBefore);
      ghost var afterEnemies, flying := player, projectiles;
      ProjectilePhase();
      SweepDamage(flying, afterEnemies, platforms, bounds);
      DamageStepCompose(start, afterCollide, afterEnemies);
      DamageStepCompose(start, afterEnemies, player);
    }

    /** The player's own actions: the attack, then the movement. Neither
        costs hp; the invulnerability timer counts down once. */
    method ControlPhase(sqrt: Sqrt)
      requires 0.0 <= rope.length
      modifies this`player, this`rope, this`mouse, this`coyoteFrames, this`jumpBufferFrames, this`enemies
      ensures 0.0 <= rope.length
      ensures ControlStep(old(ControlState()), ControlState(), keys, sqrt)
      ensures player.hp == old(player).hp && player.maxHp == old(player).maxHp
      ensures player.invulnTimer == Dec(old(player).invulnTimer)
    {
      AttackPhase();
      MovePhase(sqrt);
    }

    /** What the world does to the player, the coins it picks up, and the
        reports on the score this phase started with. */
    method WorldPhase(sqrt: Sqrt) returns (events: seq<Outcome>, ghost landed: Player)
      requires score + startCollected == CountCollected(coins)
      modifies this`player, this`enemies, this`projectiles, this`coins, this`score, this`frameCount
      ensures score + startCollected == CountCollected(coins)
      ensures WorldStep(old(WorldState()), landed, WorldState(), sqrt)
      ensures DamageStep(old(player), player) && player.maxHp == old(player).maxHp
      ensures frameCount == old(frameCount) + 1
      ensures events == Outcomes(old(score), totalCoins, player.pos, exitPoint, player.hp, bounds, levelIndex)
    {
      var capturedScore := score;
      landed := HazardPhase(sqrt);
      CoinPhase();
      events := Report(capturedScore);
      frameCount := frameCount + 1;
    }

    /**
     * One frame (`update`), with the host square root as a parameter.
     * Returns the reported outcomes in order. The exit and game-over reports
     * carry the score the step started with, as the engine's captured score
     * does.
     */
    method Step(sqrt: Sqrt) returns (events: seq<Outcome>, ghost controlled: Controls, ghost mid: World, ghost landed: Player)
      requires Valid()
      modifies this`player, this`rope, this`mouse, this`coyoteFrames, this`jumpBufferFrames,
               this`frameCount, this`enemies, this`projectiles, this`coins, this`score
      ensures Valid()
      ensures frameCount == old(frameCount) + 1
      ensures StepDamage(old(player).hp, old(player).invulnTimer, player.hp, player.invulnTimer)
      ensures ControlStep(old(ControlState()), controlled, keys, sqrt)
      ensures ControlState() == controlled.(player := player, enemies := enemies)
      ensures mid == World(controlled.player, controlled.enemies, old(projectiles), old(coins), old(score))
      ensures WorldStep(mid, landed, WorldState(), sqrt)
      ensures events == Outcomes(old(score), totalCoins, player.pos, exitPoint, player.hp, bounds, levelIndex)
    {
      ControlPhase(sqrt);
      controlled, mid := ControlState(), WorldState();
      events, landed := WorldPhase(sqrt);
    }

    /** The exit check, then the death check, both reporting `capturedScore`. */
    method Report(capturedScore: int) returns (events: seq<Outcome>)
      ensures events == Outcomes(capturedScore, totalCoins, player.pos, exitPoint, player.hp, bounds, levelIndex)
    {
      events := [];
      if capturedScore >= totalCoins && Within(player.pos, exitPoint, EXIT_RADIUS) {
        events := events + [LevelComplete(capturedScore, NextLevel(levelIndex))];
      }
      if player.pos.y > bounds.h + FALL_MARGIN || player.hp <= 0 {
        events := events + [GameOver(capturedScore)];
      }
    }
  }
}
