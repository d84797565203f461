/**
 * Combat rules of the step: the melee attack timers and hit test, turret
 * cooldowns and shots, contact damage from enemies, and the damage /
 * invulnerability rule every source of damage follows.
 */
module Combat {
  import opened Geometry
  import opened Config
  import opened Entities

  // ------------------------------------------------------------------
  // Damage and invulnerability
  // ------------------------------------------------------------------

  /** Within one phase, hp either stays (and so does the invulnerability
      timer) or drops by exactly one, which needs the timer at 0 and
      restarts it. */
  ghost predicate DamageStep(before: Player, after: Player) {
    || (after.hp == before.hp && after.invulnTimer == before.invulnTimer)
    || (before.invulnTimer == 0 && after.hp == before.hp - 1 && after.invulnTimer == INVULN_TIME)
  }

  /** The fields no contact changes: size, facing, maximum hp and attack. */
  predicate SameBody(a: Player, b: Player) {
    a.radius == b.radius && a.facingRight == b.facingRight && a.maxHp == b.maxHp
    && a.attackCooldown == b.attackCooldown && a.attackActive == b.attackActive
    && a.attackFrame == b.attackFrame
  }

  /** Two phases in a row still drop hp by at most one: the first drop
      restarts the timer, which blocks the second. */
  lemma DamageStepCompose(a: Player, b: Player, c: Player)
    requires DamageStep(a, b) && DamageStep(b, c)
    ensures DamageStep(a, c)
  {
  }

  /** Damage taken across whole steps, given hp and the timer at the start
      of each step: the timer first counts down, then at most one hit. */
  ghost predicate StepDamage(hp0: int, inv0: nat, hp1: int, inv1: nat) {
    || (hp1 == hp0 && inv1 == Dec(inv0))
    || (Dec(inv0) == 0 && hp1 == hp0 - 1 && inv1 == INVULN_TIME)
  }

  /** After a hit, the next 59 steps cannot take another. */
  lemma {:induction false} InvulnerabilityWindow(hp: seq<int>, inv: seq<nat>, k: nat)
    requires |hp| == |inv| && 2 <= |hp|
    requires forall j :: 0 <= j < |hp| - 1 ==> StepDamage(hp[j], inv[j], hp[j + 1], inv[j + 1])
    requires hp[1] == hp[0] - 1
    requires 1 <= k < |hp| && k <= INVULN_TIME
    ensures hp[k] == hp[1] && inv[k] == INVULN_TIME + 1 - k
  {
    if k > 1 {
      InvulnerabilityWindow(hp, inv, k - 1);
      assert StepDamage(hp[k - 1], inv[k - 1], hp[k], inv[k]);
    } else {
      assert StepDamage(hp[0], inv[0], hp[1], inv[1]);
    }
  }

  // ------------------------------------------------------------------
  // Melee attack
  // ------------------------------------------------------------------

  /** The player's attack timers. */
  datatype AttackState = AttackState(cooldown: nat, active: bool, frame: nat)

  datatype AttackTick = AttackTick(state: AttackState, consumed: bool, hitTest: bool)

  function AttackOf(p: Player): AttackState {
    AttackState(p.attackCooldown, p.attackActive, p.attackFrame)
  }

  /**
   * One step of the attack timers: the cooldown counts down; a pending
   * right click starts a swing only once the cooldown is 0, and is consumed
   * by it; while animation frames remain one is used up, the hitbox is
   * tested if live, and cleared once fewer than 5 frames remain.
   */
  function AttackUpdate(s: AttackState, clicked: bool): (t: AttackTick)
    ensures t.consumed <==> clicked && Dec(s.cooldown) == 0
    ensures t.consumed ==> t.state.cooldown == ATTACK_COOLDOWN && t.hitTest
                           && t.state.frame == ATTACK_DURATION - 1 && t.state.active
    ensures !t.consumed ==> t.state.cooldown == Dec(s.cooldown)
    ensures !t.state.active ==> !t.hitTest || t.state.frame < ATTACK_DURATION - ATTACK_ACTIVE_FRAMES
    ensures t.hitTest ==> (t.state.active <==> t.state.frame >= ATTACK_DURATION - ATTACK_ACTIVE_FRAMES)
    ensures !t.hitTest ==> t.state.active == s.active
    ensures !t.consumed ==> t.state.frame == Dec(s.frame)
    ensures !t.consumed ==> (t.hitTest <==> s.active && s.frame > 0)
  {
    var cooldown := Dec(s.cooldown);
    var consumed := clicked && cooldown == 0;
    var s1 := if consumed then AttackState(ATTACK_COOLDOWN, true, ATTACK_DURATION)
              else AttackState(cooldown, s.active, s.frame);
    if s1.frame > 0 then
      var frame := s1.frame - 1;
      if s1.active then
        AttackTick(AttackState(s1.cooldown, frame >= ATTACK_DURATION - ATTACK_ACTIVE_FRAMES, frame), consumed, true)
      else
        AttackTick(s1.(frame := frame), consumed, false)
    else
      AttackTick(s1, consumed, false)
  }

  /**
   * The timer part of the attack code on the player record: cooldown and
   * invulnerability count down, a pending click starts a swing once the
   * cooldown is 0, and a running swing uses up a frame. Reports whether the
   * click was consumed and whether the hitbox is tested this step.
   */
  method TickAttack(p: Player, clicked: bool) returns (r: Player, consumed: bool, hitTest: bool)
    ensures AttackUpdate(AttackOf(p), clicked) == AttackTick(AttackOf(r), consumed, hitTest)
    ensures r.(attackCooldown := p.attackCooldown, attackActive := p.attackActive,
               attackFrame := p.attackFrame, invulnTimer := p.invulnTimer) == p
    ensures r.invulnTimer == Dec(p.invulnTimer)
  {
    var cooldown, inv, active, frame := p.attackCooldown, p.invulnTimer, p.attackActive, p.attackFrame;
    if cooldown > 0 { cooldown := cooldown - 1; }
    if inv > 0 { inv := inv - 1; }
    consumed := false;
    if clicked && cooldown == 0 {
      active, cooldown, frame := true, ATTACK_COOLDOWN, ATTACK_DURATION;
      consumed := true;
    }
    hitTest := false;
    if frame > 0 {
      frame := frame - 1;
      if active {
        hitTest := true;
        if frame < ATTACK_DURATION - ATTACK_ACTIVE_FRAMES {
          active := false;
        }
      }
    }
    r := p.(attackCooldown := cooldown, invulnTimer := inv, attackActive := active, attackFrame := frame);
  }

  /** The hit-test flags of consecutive steps, one click flag per step. */
  function HitTests(s: AttackState, clicks: seq<bool>): (r: seq<bool>)
    ensures |r| == |clicks|
    decreases clicks
  {
    if clicks == [] then []
    else
      var t := AttackUpdate(s, clicks[0]);
      [t.hitTest] + HitTests(t.state, clicks[1..])
  }

  /** The timers k steps after the step that started a swing, while the
      cooldown (20) still forbids another. */
  function AfterSwing(k: nat): AttackState
    requires k < ATTACK_COOLDOWN
  {
    AttackState(ATTACK_COOLDOWN - k, k < 5, if k < 9 then 9 - k else 0)
  }

  lemma {:induction false} HitTestsAfterSwing(k: nat, clicks: seq<bool>)
    requires k + |clicks| < ATTACK_COOLDOWN
    ensures forall j :: 0 <= j < |clicks| ==> (HitTests(AfterSwing(k), clicks)[j] <==> k + 1 + j <= 5)
    decreases clicks
  {
    if clicks != [] {
      var t := AttackUpdate(AfterSwing(k), clicks[0]);
      assert !t.consumed;
      assert t.state == AfterSwing(k + 1);
      HitTestsAfterSwing(k + 1, clicks[1..]);
    }
  }

  /**
   * A swing tests the hitbox on the step that starts it and on the five
   * after it (six steps), and on none of the fourteen steps after those,
   * whatever is clicked meanwhile.
   */
  lemma SixHitSteps(s: AttackState, clicks: seq<bool>)
    requires 0 < |clicks| <= ATTACK_COOLDOWN
    requires AttackUpdate(s, clicks[0]).consumed
    ensures forall j :: 0 <= j < |clicks| ==> (HitTests(s, clicks)[j] <==> j < 6)
  {
    var t := AttackUpdate(s, clicks[0]);
    assert t.state == AfterSwing(0);
    HitTestsAfterSwing(0, clicks[1..]);
  }

  /** Where the swing lands: 20 units ahead of the player. */
  function AttackCenter(p: Player): Vec {
    Vec(p.pos.x + (if p.facingRight then 1.0 else -1.0) * ATTACK_OFFSET, p.pos.y)
  }

  /** A live enemy closer to the hitbox centre than 40 plus its radius. */
  predicate Struck(e: Enemy, center: Vec) {
    !e.dead && Within(center, EnemyPos(e), ATTACK_RANGE + e.radius)
  }

  function Strike(e: Enemy, center: Vec): (r: Enemy)
    ensures r.dead <==> e.dead || Within(center, EnemyPos(e), ATTACK_RANGE + e.radius)
    ensures r.(dead := e.dead) == e
  {
    if Struck(e, center) then e.(dead := true) else e
  }

  // ------------------------------------------------------------------
  // Turrets
  // ------------------------------------------------------------------

  predicate InTurretRange(e: Enemy, pos: Vec) {
    Within(pos, EnemyPos(e), TURRET_RANGE)
  }

  /** A live turret with the player in range fires when its cooldown is 0. */
  predicate Fires(e: Enemy, pos: Vec) {
    !e.dead && InTurretRange(e, pos) && e.cooldown == 0
  }

  /** The turret's cooldown after this step: reset when it fires, counted
      down while the player is in range, frozen otherwise. */
  function TurretTick(e: Enemy, pos: Vec): (r: Enemy)
    ensures r.(cooldown := e.cooldown) == e
    ensures Fires(e, pos) ==> r.cooldown == ENEMY_COOLDOWN
    ensures !Fires(e, pos) && r.cooldown != e.cooldown ==> r.cooldown == e.cooldown - 1 && InTurretRange(e, pos)
    ensures e.dead || !InTurretRange(e, pos) ==> r == e
    ensures !e.dead && InTurretRange(e, pos) && e.cooldown > 0 ==> r.cooldown == e.cooldown - 1
  {
    if e.dead || !InTurretRange(e, pos) then e
    else if e.cooldown > 0 then e.(cooldown := e.cooldown - 1)
    else e.(cooldown := ENEMY_COOLDOWN)
  }

  /** Ticks a turret n times with the player at `pos`. */
  function TickTimes(e: Enemy, pos: Vec, n: nat): Enemy
    decreases n
  {
    if n == 0 then e else TickTimes(TurretTick(e, pos), pos, n - 1)
  }

  lemma {:induction false} CountdownFrom(e: Enemy, pos: Vec, n: nat)
    requires !e.dead && InTurretRange(e, pos) && n <= e.cooldown
    ensures TickTimes(e, pos, n) == e.(cooldown := e.cooldown - n)
    decreases n
  {
    if n > 0 {
      CountdownFrom(TurretTick(e, pos), pos, n - 1);
    }
  }

  /** With the player staying in range, a turret that fires fires again
      exactly 181 steps later, and not on any step in between. */
  lemma FiringPeriod(e: Enemy, pos: Vec, n: nat)
    requires Fires(e, pos) && 1 <= n <= ENEMY_COOLDOWN + 1
    ensures Fires(TickTimes(e, pos, n), pos) <==> n == ENEMY_COOLDOWN + 1
  {
    var e1 := TurretTick(e, pos);
    CountdownFrom(e1, pos, n - 1);
  }

  /** Out of range, a turret does not change at all. */
  lemma {:induction false} FrozenOutOfRange(e: Enemy, pos: Vec, n: nat)
    requires !InTurretRange(e, pos)
    ensures TickTimes(e, pos, n) == e
    decreases n
  {
    if n > 0 {
      FrozenOutOfRange(TurretTick(e, pos), pos, n - 1);
    }
  }

  /** The projectile a turret fires, aimed at `pos` at projectile speed. */
  function Shot(e: Enemy, pos: Vec, sqrt: Sqrt): (q: Projectile)
    ensures q.x == e.x && q.y == e.y && q.active && q.radius == PROJECTILE_RADIUS
  {
    var dx := pos.x - e.x;
    var dy := pos.y - e.y;
    var mag := sqrt(dx * dx + dy * dy);
    var vx := if mag == 0.0 then 0.0 else (dx / mag) * PROJECTILE_SPEED;
    var vy := if mag == 0.0 then 0.0 else (dy / mag) * PROJECTILE_SPEED;
    Projectile(e.x, e.y, vx, vy, PROJECTILE_RADIUS, true)
  }

  /** Number of turrets that fire. */
  function FiringCount(es: seq<Enemy>, pos: Vec): nat {
    if es == [] then 0
    else FiringCount(es[..|es| - 1], pos) + (if Fires(es[|es| - 1], pos) then 1 else 0)
  }

  /** The shots of one enemy pass, in enemy order. */
  function Shots(es: seq<Enemy>, pos: Vec, sqrt: Sqrt): (r: seq<Projectile>)
    ensures |r| == FiringCount(es, pos)
    ensures forall q :: q in r ==> q.active && q.radius == PROJECTILE_RADIUS
    ensures forall q :: q in r ==> exists e :: e in es && Fires(e, pos) && q.x == e.x && q.y == e.y
  {
    if es == [] then []
    else
      var last := es[|es| - 1];
      Shots(es[..|es| - 1], pos, sqrt) + (if Fires(last, pos) then [Shot(last, pos, sqrt)] else [])
  }

  // ------------------------------------------------------------------
  // Contact damage
  // ------------------------------------------------------------------

  predicate Touches(pl: Player, e: Enemy) {
    CirclesOverlap(pl.pos, pl.radius, EnemyPos(e), e.radius)
  }

  /** Touching a live enemy while vulnerable costs one hp and knocks the
      player away from it horizontally and upwards. */
  function Contact(pl: Player, e: Enemy): (r: Player)
    ensures DamageStep(pl, r)
    ensures r.hp < pl.hp <==> !e.dead && pl.invulnTimer == 0 && Touches(pl, e)
    ensures r.(hp := pl.hp, invulnTimer := pl.invulnTimer, vel := pl.vel) == pl && r.pos == pl.pos
    ensures r.hp < pl.hp ==>
              r.vel == Vec(if pl.pos.x - e.x > 0.0 then CONTACT_KNOCKBACK else -CONTACT_KNOCKBACK, -CONTACT_KNOCKBACK)
    ensures r.hp == pl.hp ==> r == pl
  {
    if !e.dead && pl.invulnTimer == 0 && Touches(pl, e) then
      var dx := pl.pos.x - e.x;
      pl.(hp := pl.hp - 1, invulnTimer := INVULN_TIME,
          vel := Vec(if dx > 0.0 then CONTACT_KNOCKBACK else -CONTACT_KNOCKBACK, -CONTACT_KNOCKBACK))
    else pl
  }

  /** One enemy's turn against the player: a live turret with the player in
      range counts down or fires; a live enemy touching the vulnerable player
      hurts it and knocks it back. */
  method EnemyTurn(e: Enemy, pl: Player, sqrt: Sqrt) returns (ticked: Enemy, shots: seq<Projectile>, r: Player)
    ensures ticked == TurretTick(e, pl.pos)
    ensures shots == if Fires(e, pl.pos) then [Shot(e, pl.pos, sqrt)] else []
    ensures r == Contact(pl, e)
  {
    ticked, shots, r := e, [], pl;
    if e.dead {
      return;
    }
    if InTurretRange(e, pl.pos) {
      if e.cooldown > 0 {
        ticked := e.(cooldown := e.cooldown - 1);
      } else {
        shots := [Shot(e, pl.pos, sqrt)];
        ticked := e.(cooldown := ENEMY_COOLDOWN);
      }
    }
    if pl.invulnTimer == 0 && Touches(pl, e) {
      var dx := pl.pos.x - e.x;
      r := pl.(hp := pl.hp - 1, invulnTimer := INVULN_TIME,
               vel := Vec(if dx > 0.0 then CONTACT_KNOCKBACK else -CONTACT_KNOCKBACK, -CONTACT_KNOCKBACK));
    }
  }

  /** Contact damage of the enemies in order. */
  function ContactAll(pl: Player, es: seq<Enemy>): Player
    decreases es
  {
    if es == [] then pl else ContactAll(Contact(pl, es[0]), es[1..])
  }

  /** The whole enemy pass drops hp by at most one, and only when some live
      enemy touches the still vulnerable player. */
  lemma {:induction false} ContactAllDamage(pl: Player, es: seq<Enemy>)
    ensures DamageStep(pl, ContactAll(pl, es))
    ensures SameBody(pl, ContactAll(pl, es))
    ensures ContactAll(pl, es).pos == pl.pos && ContactAll(pl, es).grounded == pl.grounded
    ensures ContactAll(pl, es).hp < pl.hp ==>
              pl.invulnTimer == 0 && exists e :: e in es && !e.dead && Touches(pl, e)
    decreases es
  {
    if es != [] {
      var p1 := Contact(pl, es[0]);
      ContactAllDamage(p1, es[1..]);
      DamageStepCompose(pl, p1, ContactAll(p1, es[1..]));
      if p1.hp == pl.hp && ContactAll(pl, es).hp < pl.hp {
        var e :| e in es[1..] && !e.dead && Touches(p1, e);
        assert e in es;
      }
    }
  }

  /** Every turret's cooldown after the enemy pass. */
  function TickAll(es: seq<Enemy>, pos: Vec): (r: seq<Enemy>)
    ensures |r| == |es|
    ensures forall i :: 0 <= i < |es| ==> r[i] == TurretTick(es[i], pos)
  {
    seq(|es|, i requires 0 <= i < |es| => TurretTick(es[i], pos))
  }

  /** The enemy loop over values: every turret ticked, the shots of the
      firing turrets in enemy order, and contact damage applied in order. */
  method EnemyPass(es0: seq<Enemy>, pl0: Player, sqrt: Sqrt) returns (es: seq<Enemy>, shots: seq<Projectile>, pl: Player)
    ensures es == TickAll(es0, pl0.pos)
    ensures shots == Shots(es0, pl0.pos, sqrt)
    ensures pl == ContactAll(pl0, es0)
  {
    es, shots, pl := es0, [], pl0;
    var i := 0;
    while i < |es|
      invariant 0 <= i <= |es0| == |es|
      invariant forall j :: 0 <= j < i ==> es[j] == TurretTick(es0[j], pl0.pos)
      invariant forall j :: i <= j < |es0| ==> es[j] == es0[j]
      invariant shots == Shots(es0[..i], pl0.pos, sqrt)
      invariant ContactAll(pl, es0[i..]) == ContactAll(pl0, es0)
      invariant pl.pos == pl0.pos
    {
      ghost var before := pl;
      var e, fired, hit := EnemyTurn(es[i], pl, sqrt);
      assert Shots(es0[..i + 1], pl0.pos, sqrt) == shots + fired by {
        assert es0[..i + 1][..i] == es0[..i];
      }
      assert ContactAll(before, es0[i..]) == ContactAll(hit, es0[i + 1..]) by {
        assert es0[i..][1..] == es0[i + 1..];
      }
      es := es[i := e];
      shots := shots + fired;
      pl := hit;
      i := i + 1;
    }
    assert es0[..i] == es0;
  }
}
