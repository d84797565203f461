/**
 * Player-versus-platform resolution: the player is a circle, each platform a
 * rectangle. A platform the circle overlaps hurts the player if it is a
 * hazard (subject to invulnerability), pushes the circle out along the
 * normal from the closest point, and, by the normal's direction, grounds
 * the player and stops the velocity component pointing into the platform.
 */
module Collision {
  import opened Geometry
  import opened Config
  import opened Entities
  import opened Combat

  function Abs(v: real): real { if v < 0.0 then -v else v }

  /** Offset of the player's centre from the platform's closest point. */
  function Offset(pl: Player, p: Platform): Vec {
    var c := ClosestPoint(p, pl.pos);
    Vec(pl.pos.x - c.x, pl.pos.y - c.y)
  }

  /** Squared distance from the player's centre to the platform. */
  function GapSq(pl: Player, p: Platform): real {
    DistSq(pl.pos, ClosestPoint(p, pl.pos))
  }

  predicate Overlaps(pl: Player, p: Platform) {
    GapSq(pl, p) < pl.radius * pl.radius
  }

  /** The outward unit normal, straight up when the distance is 0. */
  function Normal(d: Vec, dist: real): Vec {
    if dist == 0.0 then Vec(0.0, -1.0) else Vec(d.x / dist, d.y / dist)
  }

  /** One platform's effect on the player. */
  function ResolveContact(pl: Player, p: Platform, sqrt: Sqrt): (r: Player)
    ensures SameBody(pl, r)
    ensures DamageStep(pl, r)
    ensures r.hp < pl.hp <==> Overlaps(pl, p) && p.kind == Hazard && pl.invulnTimer == 0
    ensures !Overlaps(pl, p) ==> r == pl
    ensures pl.grounded ==> r.grounded
  {
    if !Overlaps(pl, p) then pl
    else
      var p1 := if p.kind == Hazard && pl.invulnTimer == 0
                then pl.(hp := pl.hp - 1, invulnTimer := INVULN_TIME, vel := pl.vel.(y := HAZARD_KNOCKBACK))
                else pl;
      var d := Offset(pl, p);
      var dist := sqrt(GapSq(pl, p));
      var overlap := pl.radius - dist;
      var n := Normal(d, dist);
      var pos := Vec(p1.pos.x + n.x * overlap, p1.pos.y + n.y * overlap);
      var vy := if n.y < -0.5 then (if p1.vel.y > 0.0 then 0.0 else p1.vel.y)
                else if n.y > 0.5 then (if p1.vel.y < 0.0 then 0.0 else p1.vel.y)
                else p1.vel.y;
      var vx := if Abs(n.x) > 0.5 then 0.0 else p1.vel.x;
      p1.(pos := pos, vel := Vec(vx, vy), grounded := p1.grounded || n.y < -0.5)
  }

  /**
   * With an exact square root, a contact grounds a player who was not yet
   * grounded exactly when the player overlaps the platform and the
   * player's centre lies inside it or above the closest point, steeper than
   * 30 degrees from the horizontal; and then the player is no longer moving
   * down.
   */
  lemma GroundingContact(pl: Player, p: Platform, sqrt: Sqrt)
    requires !pl.grounded
    requires IsRoot(sqrt(GapSq(pl, p)), GapSq(pl, p))
    ensures var r := ResolveContact(pl, p, sqrt);
            var dy := Offset(pl, p).y;
            r.grounded <==> Overlaps(pl, p) && (GapSq(pl, p) == 0.0 || (dy < 0.0 && 4.0 * dy * dy > GapSq(pl, p)))
    ensures ResolveContact(pl, p, sqrt).grounded ==> ResolveContact(pl, p, sqrt).vel.y <= 0.0
  {
    var d := Offset(pl, p);
    var dsq := GapSq(pl, p);
    var dist := sqrt(dsq);
    if Overlaps(pl, p) && dist != 0.0 {
      NormalClassification(d.y, dsq, dist);
      SquareStrict(0.0, dist);
      assert Normal(d, dist).y == d.y / dist;
      assert dsq != 0.0;
    } else if Overlaps(pl, p) {
      assert dsq == dist * dist == 0.0;
      assert Normal(d, dist).y == -1.0;
    }
  }

  /**
   * With an exact square root, an overlapping contact stops the horizontal
   * velocity exactly when the centre lies beside the platform, more than
   * 30 degrees away from the vertical through the closest point; it stops a downward velocity when the
   * player lands from above and an upward one when the player hits the
   * platform from below; the velocity it starts from is the hazard
   * knockback when the player is hurt. A hurt player not hitting from below
   * therefore moves up at the knockback speed.
   */
  lemma ContactVelocity(pl: Player, p: Platform, sqrt: Sqrt)
    requires Overlaps(pl, p)
    requires IsRoot(sqrt(GapSq(pl, p)), GapSq(pl, p))
    ensures var r := ResolveContact(pl, p, sqrt);
            var d, dsq := Offset(pl, p), GapSq(pl, p);
            var vy := if p.kind == Hazard && pl.invulnTimer == 0 then HAZARD_KNOCKBACK else pl.vel.y;
            var above := dsq == 0.0 || (d.y < 0.0 && 4.0 * d.y * d.y > dsq);
            var below := 0.0 < dsq && d.y > 0.0 && 4.0 * d.y * d.y > dsq;
            && r.vel.x == (if 0.0 < dsq && 4.0 * d.x * d.x > dsq then 0.0 else pl.vel.x)
            && r.vel.y == (if above && vy > 0.0 then 0.0 else if below && vy < 0.0 then 0.0 else vy)
    ensures var r := ResolveContact(pl, p, sqrt);
            var d, dsq := Offset(pl, p), GapSq(pl, p);
            r.hp < pl.hp && !(0.0 < dsq && d.y > 0.0 && 4.0 * d.y * d.y > dsq) ==> r.vel.y == HAZARD_KNOCKBACK
  {
    NormalAxes(Offset(pl, p), GapSq(pl, p), sqrt(GapSq(pl, p)));
  }

  /** The normal's direction tests, stated on the offset and its squared
      length: pointing up, pointing down, and mostly sideways. */
  lemma NormalAxes(d: Vec, dsq: real, dist: real)
    requires IsRoot(dist, dsq)
    ensures Normal(d, dist).y < -0.5 <==> dsq == 0.0 || (d.y < 0.0 && 4.0 * d.y * d.y > dsq)
    ensures Normal(d, dist).y > 0.5 <==> 0.0 < dsq && d.y > 0.0 && 4.0 * d.y * d.y > dsq
    ensures Abs(Normal(d, dist).x) > 0.5 <==> 0.0 < dsq && 4.0 * d.x * d.x > dsq
  {
    if dist != 0.0 {
      NormalClassification(d.y, dsq, dist);
      NormalClassification(d.x, dsq, dist);
      SquareStrict(0.0, dist);
      assert dsq != 0.0;
    } else {
      assert dsq == dist * dist == 0.0;
    }
  }

  /** The platforms in order, each against the player as the previous ones
      left it. */
  function ResolveAll(pl: Player, ps: seq<Platform>, sqrt: Sqrt): Player
    decreases ps
  {
    if ps == [] then pl else ResolveAll(ResolveContact(pl, ps[0], sqrt), ps[1..], sqrt)
  }

  /** The whole platform pass costs at most one hp, only through a hazard
      platform, and never touches the attack state or the player's size. */
  lemma {:induction false} ResolveAllDamage(pl: Player, ps: seq<Platform>, sqrt: Sqrt)
    ensures SameBody(pl, ResolveAll(pl, ps, sqrt))
    ensures DamageStep(pl, ResolveAll(pl, ps, sqrt))
    ensures ResolveAll(pl, ps, sqrt).hp < pl.hp ==>
              pl.invulnTimer == 0 && exists p :: p in ps && p.kind == Hazard
    decreases ps
  {
    if ps != [] {
      var p1 := ResolveContact(pl, ps[0], sqrt);
      ResolveAllDamage(p1, ps[1..], sqrt);
      DamageStepCompose(pl, p1, ResolveAll(p1, ps[1..], sqrt));
      if p1.hp == pl.hp && ResolveAll(pl, ps, sqrt).hp < pl.hp {
        var p :| p in ps[1..] && p.kind == Hazard;
        assert p in ps;
      }
    }
  }

  /** Away from every platform, the pass leaves the player as it is. */
  lemma {:induction false} ResolveAllClear(pl: Player, ps: seq<Platform>, sqrt: Sqrt)
    requires forall p :: p in ps ==> !Overlaps(pl, p)
    ensures ResolveAll(pl, ps, sqrt) == pl
    decreases ps
  {
    if ps != [] {
      ResolveAllClear(pl, ps[1..], sqrt);
    }
  }
}
