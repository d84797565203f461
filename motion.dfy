/**
 * The straight-line movement code of the step, each block a function of
 * the player record: keyboard steering, the coyote / jump-buffer timers and
 * the jump, gravity, the rope spring, swing and reel, friction with the
 * speed limits, and integration of the position.
 */
module Motion {
  import opened Geometry
  import opened Config
  import opened Entities

  // ------------------------------------------------------------------
  // Keys
  // ------------------------------------------------------------------

  predicate LeftHeld(keys: set<string>) { "KeyA" in keys || "ArrowLeft" in keys }
  predicate RightHeld(keys: set<string>) { "KeyD" in keys || "ArrowRight" in keys }
  predicate UpHeld(keys: set<string>) { "KeyW" in keys || "ArrowUp" in keys }
  predicate DownHeld(keys: set<string>) { "KeyS" in keys || "ArrowDown" in keys }

  /** Keys whose press fills the jump buffer. */
  predicate IsJumpKey(code: string) { code == "Space" || code == "KeyW" || code == "ArrowUp" }

  // ------------------------------------------------------------------
  // Steering, jump and gravity
  // ------------------------------------------------------------------

  /** Left and right keys accelerate horizontally and set the facing; with
      both held the pushes cancel and the player faces right. */
  function Steer(pl: Player, keys: set<string>): (r: Player)
    ensures r.(vel := pl.vel, facingRight := pl.facingRight) == pl
    ensures r.vel.y == pl.vel.y
    ensures r.vel.x == pl.vel.x - (if LeftHeld(keys) then MOVE_SPEED else 0.0)
                                + (if RightHeld(keys) then MOVE_SPEED else 0.0)
    ensures r.facingRight == (RightHeld(keys) || (pl.facingRight && !LeftHeld(keys)))
  {
    var p1 := if LeftHeld(keys) then pl.(vel := pl.vel.(x := pl.vel.x - MOVE_SPEED), facingRight := false) else pl;
    if RightHeld(keys) then p1.(vel := p1.vel.(x := p1.vel.x + MOVE_SPEED), facingRight := true) else p1
  }

  datatype JumpTimers = JumpTimers(coyote: nat, buffer: nat)

  /** Both timers count down; standing on ground refills the coyote time. */
  function TickJumpTimers(t: JumpTimers, grounded: bool): (r: JumpTimers)
    ensures r.buffer < t.buffer || r.buffer == t.buffer == 0
    ensures grounded ==> r.coyote == COYOTE_FRAMES
    ensures !grounded ==> r.coyote == Dec(t.coyote)
  {
    JumpTimers(if grounded then COYOTE_FRAMES else Dec(t.coyote), Dec(t.buffer))
  }

  /** A buffered jump is taken while coyote time lasts or while hanging. */
  predicate CanJump(t: JumpTimers, ropeActive: bool) {
    t.buffer > 0 && (t.coyote > 0 || ropeActive)
  }

  /** The timers after `n` airborne steps. */
  function Airborne(t: JumpTimers, n: nat): JumpTimers
    decreases n
  {
    if n == 0 then t else Airborne(TickJumpTimers(t, false), n - 1)
  }

  /**
   * Coyote time: after the last grounded step the player may still jump on
   * the next nine airborne steps, and not on the tenth; a jump key press
   * stays buffered for nine steps the same way.
   */
  lemma {:induction false} AirborneCountdown(t: JumpTimers, n: nat)
    requires n <= t.coyote && n <= t.buffer
    ensures Airborne(t, n) == JumpTimers(t.coyote - n, t.buffer - n)
    decreases n
  {
    if n > 0 {
      AirborneCountdown(TickJumpTimers(t, false), n - 1);
    }
  }

  lemma CoyoteWindow(t: JumpTimers, n: nat)
    requires t == JumpTimers(COYOTE_FRAMES, JUMP_BUFFER_FRAMES) && n <= COYOTE_FRAMES
    ensures Airborne(t, n).coyote > 0 <==> n < COYOTE_FRAMES
    ensures Airborne(t, n).buffer > 0 <==> n < JUMP_BUFFER_FRAMES
  {
    AirborneCountdown(t, n);
  }

  /** The jump impulse. */
  function Jump(pl: Player): (r: Player)
    ensures r.(vel := pl.vel, grounded := pl.grounded) == pl
    ensures r.vel == pl.vel.(y := JUMP_FORCE) && !r.grounded
  {
    pl.(vel := pl.vel.(y := JUMP_FORCE), grounded := false)
  }

  function Gravity(pl: Player): (r: Player)
    ensures r.(vel := pl.vel) == pl
    ensures r.vel.x == pl.vel.x && r.vel.y > pl.vel.y
  {
    pl.(vel := pl.vel.(y := pl.vel.y + GRAVITY))
  }

  /** Gravity applied `n` times. */
  function Fall(pl: Player, n: nat): Player
    decreases n
  {
    if n == 0 then pl else Fall(Gravity(pl), n - 1)
  }

  /** `n` steps of gravity alone add exactly `n` times 0.12 to the vertical
      velocity and change nothing else. */
  lemma {:induction false} FreeFall(pl: Player, n: nat)
    ensures Fall(pl, n) == pl.(vel := pl.vel.(y := pl.vel.y + n as real * GRAVITY))
    decreases n
  {
    if n > 0 {
      FreeFall(Gravity(pl), n - 1);
    }
  }

  /** The player part of the jump code: steering, the jump impulse when
      `jump` holds, then gravity. */
  method SteerJumpFall(pl: Player, keys: set<string>, jump: bool) returns (r: Player)
    ensures r == Gravity(if jump then Jump(Steer(pl, keys)) else Steer(pl, keys))
  {
    var vx, vy, facing, grounded := pl.vel.x, pl.vel.y, pl.facingRight, pl.grounded;
    if LeftHeld(keys) {
      vx, facing := vx - MOVE_SPEED, false;
    }
    if RightHeld(keys) {
      vx, facing := vx + MOVE_SPEED, true;
    }
    if jump {
      vy, grounded := JUMP_FORCE, false;
    }
    vy := vy + GRAVITY;
    r := pl.(vel := Vec(vx, vy), facingRight := facing, grounded := grounded);
  }

  // ------------------------------------------------------------------
  // Rope
  // ------------------------------------------------------------------

  /** The spring acceleration of a taut rope: stiffness times the stretch,
      along the unit vector from the player to the anchor. */
  function Pull(pos: Vec, anchor: Vec, dist: real, length: real): (a: Vec)
    requires dist > length >= 0.0
  {
    var force := (dist - length) * ROPE_STIFFNESS;
    Vec(((anchor.x - pos.x) / dist) * force, ((anchor.y - pos.y) / dist) * force)
  }

  /** The pull never points away from the anchor. */
  lemma PullTowardAnchor(pos: Vec, anchor: Vec, dist: real, length: real)
    requires dist > length >= 0.0
    ensures var a := Pull(pos, anchor, dist, length);
            a.x * (anchor.x - pos.x) + a.y * (anchor.y - pos.y) >= 0.0
  {
    var dx, dy := anchor.x - pos.x, anchor.y - pos.y;
    var force := (dist - length) * ROPE_STIFFNESS;
    var c := force / dist;
    assert 0.0 < c by { PositiveProduct(force, 1.0 / dist); }
    var sq := dx * dx + dy * dy;
    assert (dx / dist) * force * dx + (dy / dist) * force * dy == c * sq;
    assert 0.0 <= c * sq by {
      if sq > 0.0 { PositiveProduct(c, sq); }
    }
  }

  /** A taut rope (farther from the anchor than its length) pulls and damps
      the velocity; a slack one does nothing. */
  function Spring(pl: Player, rope: Rope, sqrt: Sqrt): (r: Player)
    requires 0.0 <= rope.length
    ensures r.(vel := pl.vel) == pl
    ensures sqrt(DistSq(pl.pos, rope.anchor)) <= rope.length ==> r == pl
  {
    var dist := sqrt(DistSq(pl.pos, rope.anchor));
    if dist > rope.length then
      var a := Pull(pl.pos, rope.anchor, dist, rope.length);
      pl.(vel := Vec((pl.vel.x + a.x) * ROPE_DAMPING, (pl.vel.y + a.y) * ROPE_DAMPING))
    else pl
  }

  /** Swinging on the rope pushes horizontally only. */
  function Swing(pl: Player, keys: set<string>): (r: Player)
    ensures r.(vel := pl.vel) == pl
    ensures r.vel.y == pl.vel.y
    ensures r.vel.x == pl.vel.x - (if LeftHeld(keys) then SWING_FORCE else 0.0)
                                + (if RightHeld(keys) then SWING_FORCE else 0.0)
  {
    var vx := if LeftHeld(keys) then pl.vel.x - SWING_FORCE else pl.vel.x;
    pl.(vel := pl.vel.(x := if RightHeld(keys) then vx + SWING_FORCE else vx))
  }

  /** Reel in (not below 20) and reel out by 3. */
  function Reel(length: real, keys: set<string>): (r: real)
    ensures UpHeld(keys) && !DownHeld(keys) ==> r >= MIN_ROPE_LENGTH
    ensures UpHeld(keys) && !DownHeld(keys) && length >= MIN_ROPE_LENGTH + REEL_STEP ==> r == length - REEL_STEP
    ensures !UpHeld(keys) && DownHeld(keys) ==> r == length + REEL_STEP
    ensures !UpHeld(keys) && !DownHeld(keys) ==> r == length
    ensures UpHeld(keys) && !DownHeld(keys) ==> r == Max(length - REEL_STEP, MIN_ROPE_LENGTH)
    ensures UpHeld(keys) && DownHeld(keys) ==> r == Max(length - REEL_STEP, MIN_ROPE_LENGTH) + REEL_STEP
  {
    var l1 := if UpHeld(keys) then Max(length - REEL_STEP, MIN_ROPE_LENGTH) else length;
    if DownHeld(keys) then l1 + REEL_STEP else l1
  }

  /** Reeling in a rope shorter than the minimum lengthens it to the
      minimum. */
  lemma ReelInShortRope(length: real, keys: set<string>)
    requires UpHeld(keys) && !DownHeld(keys) && length < MIN_ROPE_LENGTH
    ensures Reel(length, keys) == MIN_ROPE_LENGTH > length
  {
  }

  // ------------------------------------------------------------------
  // Friction, speed limits and integration
  // ------------------------------------------------------------------

  /** The velocity after friction: ground friction horizontally when
      grounded, air friction otherwise, air friction vertically. */
  function Damped(pl: Player): Vec {
    Vec(pl.vel.x * (if pl.grounded then GROUND_FRICTION else FRICTION), pl.vel.y * FRICTION)
  }

  function SpeedSq(v: Vec): real { v.x * v.x + v.y * v.y }

  /** The speed cap: rescale `v` to MAX_SPEED when its speed exceeds it. */
  function Capped(v: Vec, speed: real): Vec {
    if speed > MAX_SPEED then Vec(v.x * (MAX_SPEED / speed), v.y * (MAX_SPEED / speed)) else v
  }

  /** Friction, then the speed cap, then the fall speed clamp. */
  function Limits(pl: Player, sqrt: Sqrt): (r: Player)
    ensures r.(vel := pl.vel) == pl
    ensures r.vel.y <= MAX_FALL_SPEED
  {
    var v := Damped(pl);
    var w := Capped(v, sqrt(SpeedSq(v)));
    pl.(vel := Vec(w.x, if w.y > MAX_FALL_SPEED then MAX_FALL_SPEED else w.y))
  }

  /** With an exact square root the resulting speed is at most MAX_SPEED. */
  lemma SpeedLimit(pl: Player, sqrt: Sqrt)
    requires IsRoot(sqrt(SpeedSq(Damped(pl))), SpeedSq(Damped(pl)))
    ensures SpeedSq(Limits(pl, sqrt).vel) <= MAX_SPEED * MAX_SPEED
  {
    var v := Damped(pl);
    var w := Capped(v, sqrt(SpeedSq(v)));
    CappedBound(v, sqrt(SpeedSq(v)));
    if w.y > MAX_FALL_SPEED {
      SquareMonotone(MAX_FALL_SPEED, w.y);
    }
  }

  /** The rescaled (or untouched) velocity has speed at most MAX_SPEED. */
  lemma CappedBound(v: Vec, speed: real)
    requires IsRoot(speed, SpeedSq(v))
    ensures SpeedSq(Capped(v, speed)) <= MAX_SPEED * MAX_SPEED
  {
    if speed > MAX_SPEED {
      var ratio := MAX_SPEED / speed;
      assert ratio * speed == MAX_SPEED;
      var w := Vec(v.x * ratio, v.y * ratio);
      assert SpeedSq(w) == (ratio * ratio) * SpeedSq(v);
      assert (ratio * ratio) * (speed * speed) == (ratio * speed) * (ratio * speed);
    } else {
      SquareMonotone(speed, MAX_SPEED);
    }
  }

  function Integrate(pl: Player): (r: Player)
    ensures r.(pos := pl.pos) == pl
    ensures r.pos == Vec(pl.pos.x + pl.vel.x, pl.pos.y + pl.vel.y)
  {
    pl.(pos := Vec(pl.pos.x + pl.vel.x, pl.pos.y + pl.vel.y))
  }
}
