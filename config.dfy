/**
 * Tuning constants of the game: those of `PHYSICS` and `GAME_CONFIG` that
 * the step reads, and the literals written inline in the step itself.
 */
module Config {

  // PHYSICS
  const GRAVITY: real := 0.12
  const FRICTION: real := 0.95
  const GROUND_FRICTION: real := 0.82
  const MOVE_SPEED: real := 0.35
  const JUMP_FORCE: real := -9.2
  const SWING_FORCE: real := 0.4
  const MAX_SPEED: real := 10.0
  const MAX_FALL_SPEED: real := 8.0

  // GAME_CONFIG
  const PLAYER_RADIUS: real := 10.0
  const PROJECTILE_RADIUS: real := 5.0
  const ROPE_RANGE: real := 450.0
  const PLAYER_MAX_HP: int := 3
  const INVULN_TIME: nat := 60
  const ATTACK_COOLDOWN: nat := 20
  const ATTACK_DURATION: nat := 10
  const ENEMY_COOLDOWN: nat := 180
  const PROJECTILE_SPEED: real := 2.5

  // Literals of the step
  const ANCHOR_SNAP: real := 60.0         // cursor-to-surface snap distance
  const ATTACK_RANGE: real := 40.0        // melee reach beyond the enemy radius
  const ATTACK_OFFSET: real := 20.0       // hitbox centre ahead of the player
  const ATTACK_ACTIVE_FRAMES: nat := 5    // hitbox cleared below DURATION - 5
  const COYOTE_FRAMES: nat := 10
  const JUMP_BUFFER_FRAMES: nat := 10
  const ROPE_STIFFNESS: real := 0.05
  const ROPE_DAMPING: real := 0.99
  const REEL_STEP: real := 3.0
  const MIN_ROPE_LENGTH: real := 20.0
  const HAZARD_KNOCKBACK: real := -10.0
  const CONTACT_KNOCKBACK: real := 5.0
  const TURRET_RANGE: real := 400.0
  const EXIT_RADIUS: real := 30.0
  const FALL_MARGIN: real := 100.0
  const LAST_LEVEL: int := 3
}
