/**
 * The projectile pass of the step. The list is walked from the last
 * projectile to the first; each one moves by its velocity, is put out by
 * leaving the level bounds or by lying strictly inside a platform, and a
 * live one that reaches the vulnerable player costs one hp and is spent.
 * Spent projectiles are removed; the others keep their order.
 */
module Projectiles {
  import opened Geometry
  import opened Config
  import opened Entities
  import opened Combat

  function Move(q: Projectile): (m: Projectile)
    ensures m.(x := q.x, y := q.y) == q
  {
    q.(x := q.x + q.vx, y := q.y + q.vy)
  }

  /** Outside the level box; the edges themselves are inside. */
  predicate OutOfBounds(q: Projectile, b: Bounds) {
    q.x < 0.0 || q.x > b.w || q.y < 0.0 || q.y > b.h
  }

  /** Strictly inside the platform rectangle. */
  predicate InsidePlatform(q: Projectile, p: Platform) {
    q.x > p.x && q.x < p.x + p.w && q.y > p.y && q.y < p.y + p.h
  }

  predicate InsideAnyPlatform(q: Projectile, platforms: seq<Platform>) {
    exists p :: p in platforms && InsidePlatform(q, p)
  }

  /** The wall test: every platform is tried, none breaks the loop. */
  method HitsWall(q: Projectile, platforms: seq<Platform>) returns (inside: bool)
    ensures inside <==> InsideAnyPlatform(q, platforms)
  {
    inside := false;
    for i := 0 to |platforms|
      invariant inside <==> exists j :: 0 <= j < i && InsidePlatform(q, platforms[j])
    {
      if InsidePlatform(q, platforms[i]) {
        inside := true;
      }
    }
  }

  /** Still flying after moving: active, in bounds and in open air. */
  predicate Live(m: Projectile, platforms: seq<Platform>, b: Bounds) {
    m.active && !OutOfBounds(m, b) && !InsideAnyPlatform(m, platforms)
  }

  predicate Reaches(m: Projectile, pl: Player) {
    CirclesOverlap(pl.pos, pl.radius, ProjectilePos(m), m.radius)
  }

  datatype Visited = Visited(proj: Projectile, player: Player)

  /** One projectile's turn against the player as it currently is. */
  function Visit(q: Projectile, pl: Player, platforms: seq<Platform>, b: Bounds): (r: Visited)
    ensures r.proj.active <==> Live(Move(q), platforms, b) && !(pl.invulnTimer == 0 && Reaches(Move(q), pl))
    ensures r.proj.(active := true) == Move(q).(active := true)
    ensures r.player.hp < pl.hp <==> Live(Move(q), platforms, b) && pl.invulnTimer == 0 && Reaches(Move(q), pl)
    ensures DamageStep(pl, r.player)
    ensures r.player.(hp := pl.hp, invulnTimer := pl.invulnTimer) == pl
  {
    var m := Move(q);
    if Live(m, platforms, b) && pl.invulnTimer == 0 && Reaches(m, pl) then
      Visited(m.(active := false), pl.(hp := pl.hp - 1, invulnTimer := INVULN_TIME))
    else
      Visited(m.(active := Live(m, platforms, b)), pl)
  }

  /** One projectile's turn of the backward pass: the move, the bounds and
      wall tests, and the hit on the vulnerable player. */
  method VisitProjectile(q: Projectile, pl: Player, platforms: seq<Platform>, b: Bounds)
    returns (proj: Projectile, player: Player)
    ensures Visited(proj, player) == Visit(q, pl, platforms, b)
  {
    proj := q.(x := q.x + q.vx, y := q.y + q.vy);
    player := pl;
    if OutOfBounds(proj, b) {
      proj := proj.(active := false);
    }
    var wall := HitsWall(proj, platforms);
    if wall {
      proj := proj.(active := false);
    }
    if proj.active && player.invulnTimer == 0 && Reaches(proj, player) {
      player := player.(hp := player.hp - 1, invulnTimer := INVULN_TIME);
      proj := proj.(active := false);
    }
  }

  datatype Swept = Swept(kept: seq<Projectile>, player: Player)

  /**
   * The whole pass: the tail is visited first (higher indices come first in
   * the source's downward loop), then the head against the player the tail
   * left behind.
   */
  function Sweep(qs: seq<Projectile>, pl: Player, platforms: seq<Platform>, b: Bounds): (r: Swept)
    ensures |r.kept| <= |qs|
    ensures forall m :: m in r.kept ==> Live(m, platforms, b)
    ensures r.player.(hp := pl.hp, invulnTimer := pl.invulnTimer) == pl
    decreases qs
  {
    if qs == [] then Swept([], pl)
    else
      var rest := Sweep(qs[1..], pl, platforms, b);
      var v := Visit(qs[0], rest.player, platforms, b);
      Swept((if v.proj.active then [v.proj] else []) + rest.kept, v.player)
  }

  /** The projectiles that would survive if the player were out of reach,
      in order. */
  function Survivors(qs: seq<Projectile>, platforms: seq<Platform>, b: Bounds): seq<Projectile>
    decreases qs
  {
    if qs == [] then []
    else
      var m := Move(qs[0]);
      (if Live(m, platforms, b) then [m] else []) + Survivors(qs[1..], platforms, b)
  }

  /**
   * The pass costs at most one hp; a drop needs the player vulnerable at the
   * start of the pass. Exactly the survivors remain, less the one
   * projectile spent on the player when it hits.
   */
  lemma {:induction false} SweepDamage(qs: seq<Projectile>, pl: Player, platforms: seq<Platform>, b: Bounds)
    ensures DamageStep(pl, Sweep(qs, pl, platforms, b).player)
    ensures |Sweep(qs, pl, platforms, b).kept|
            + (if Sweep(qs, pl, platforms, b).player.hp < pl.hp then 1 else 0)
            == |Survivors(qs, platforms, b)|
    decreases qs
  {
    if qs != [] {
      var rest := Sweep(qs[1..], pl, platforms, b);
      SweepDamage(qs[1..], pl, platforms, b);
      var v := Visit(qs[0], rest.player, platforms, b);
      DamageStepCompose(pl, rest.player, v.player);
    }
  }

  /** `s` with its `k`-th element removed. */
  function RemoveAt<T>(s: seq<T>, k: nat): seq<T>
    requires k < |s|
  {
    s[..k] + s[k + 1..]
  }

  lemma RemoveAfterPrefix<T>(head: seq<T>, tail: seq<T>, k: nat)
    requires k < |tail|
    ensures RemoveAt(head + tail, |head| + k) == head + RemoveAt(tail, k)
  {
    assert (head + tail)[..|head| + k] == head + tail[..k];
    assert (head + tail)[|head| + k + 1..] == tail[k + 1..];
  }

  /**
   * `kept` is `sv` less its `k`-th projectile, which reaches the vulnerable
   * player `pl`, while no projectile after it does.
   */
  predicate HitRemoved(sv: seq<Projectile>, kept: seq<Projectile>, pl: Player, k: int) {
    && 0 <= k < |sv|
    && kept == RemoveAt(sv, k)
    && pl.invulnTimer == 0 && Reaches(sv[k], pl)
    && forall j :: k < j < |sv| ==> !Reaches(sv[j], pl)
  }

  /** A hit further back stays the hit once earlier survivors are put in front. */
  lemma HitBehind(head: seq<Projectile>, tail: seq<Projectile>, kept: seq<Projectile>, pl: Player, k: int)
    requires HitRemoved(tail, kept, pl, k)
    ensures HitRemoved(head + tail, head + kept, pl, |head| + k)
  {
    var sv := head + tail;
    RemoveAfterPrefix(head, tail, k);
    assert sv[|head| + k] == tail[k];
    forall j | |head| + k < j < |sv|
      ensures !Reaches(sv[j], pl)
    {
      assert sv[j] == tail[j - |head|];
    }
  }

  /** The front survivor is the hit when none behind it reaches the player. */
  lemma HitInFront(m: Projectile, tail: seq<Projectile>, pl: Player)
    requires pl.invulnTimer == 0 && Reaches(m, pl)
    requires forall j :: 0 <= j < |tail| ==> !Reaches(tail[j], pl)
    ensures HitRemoved([m] + tail, tail, pl, 0)
  {
    var sv := [m] + tail;
    assert RemoveAt(sv, 0) == tail;
    forall j | 0 < j < |sv|
      ensures !Reaches(sv[j], pl)
    {
      assert sv[j] == tail[j - 1];
    }
  }

  /**
   * When the pass costs hp, the kept projectiles are the survivors, in
   * order, with exactly one of them taken out: a survivor that reaches the
   * player, who was vulnerable, and the last such one, since the pass runs
   * from the back and no later survivor reaches the player.
   */
  lemma {:induction false} SweepHit(qs: seq<Projectile>, pl: Player, platforms: seq<Platform>, b: Bounds)
    ensures Sweep(qs, pl, platforms, b).player.hp < pl.hp ==>
              exists k :: HitRemoved(Survivors(qs, platforms, b), Sweep(qs, pl, platforms, b).kept, pl, k)
    decreases qs
  {
    if qs != [] {
      var rest := Sweep(qs[1..], pl, platforms, b);
      var v := Visit(qs[0], rest.player, platforms, b);
      var m := Move(qs[0]);
      var head := if Live(m, platforms, b) then [m] else [];
      var tail := Survivors(qs[1..], platforms, b);
      assert Survivors(qs, platforms, b) == head + tail;
      if v.player.hp < pl.hp {
        SweepDamage(qs[1..], pl, platforms, b);
        if rest.player.hp < pl.hp {
          // The hit came from the tail: the head projectile then meets an
          // invulnerable player and only moves and filters.
          SweepHit(qs[1..], pl, platforms, b);
          var k :| HitRemoved(tail, rest.kept, pl, k);
          assert v.proj.active ==> v.proj == m;
          assert Sweep(qs, pl, platforms, b).kept == head + rest.kept;
          HitBehind(head, tail, rest.kept, pl, k);
        } else {
          // The head projectile is the one that hits.
          SweepNoHit(qs[1..], pl, platforms, b);
          assert rest.player == pl;
          assert head == [m] && !v.proj.active;
          HitInFront(m, tail, pl);
        }
      }
    }
  }

  /**
   * A pass that costs no hp keeps exactly the survivors, in order; if the
   * player was vulnerable, none of them reaches the player.
   */
  lemma {:induction false} SweepNoHit(qs: seq<Projectile>, pl: Player, platforms: seq<Platform>, b: Bounds)
    requires Sweep(qs, pl, platforms, b).player.hp == pl.hp
    ensures Sweep(qs, pl, platforms, b).kept == Survivors(qs, platforms, b)
    ensures pl.invulnTimer == 0 ==>
              forall j :: 0 <= j < |Survivors(qs, platforms, b)| ==> !Reaches(Survivors(qs, platforms, b)[j], pl)
    decreases qs
  {
    if qs != [] {
      var rest := Sweep(qs[1..], pl, platforms, b);
      SweepDamage(qs[1..], pl, platforms, b);
      SweepNoHit(qs[1..], pl, platforms, b);
      if pl.invulnTimer == 0 {
        assert rest.player == pl;
        var m := Move(qs[0]);
        var head := if Live(m, platforms, b) then [m] else [];
        var tail := Survivors(qs[1..], platforms, b);
        var sv := Survivors(qs, platforms, b);
        assert sv == head + tail;
        forall j | 0 <= j < |sv|
          ensures !Reaches(sv[j], pl)
        {
          if j < |head| {
            assert sv[j] == m;
          } else {
            assert sv[j] == tail[j - |head|];
          }
        }
      }
    }
  }

  /** While the player is invulnerable, the pass only moves and filters. */
  lemma {:induction false} SweepInvulnerable(qs: seq<Projectile>, pl: Player, platforms: seq<Platform>, b: Bounds)
    requires pl.invulnTimer > 0
    ensures Sweep(qs, pl, platforms, b) == Swept(Survivors(qs, platforms, b), pl)
    decreases qs
  {
    if qs != [] {
      SweepInvulnerable(qs[1..], pl, platforms, b);
    }
  }
}
