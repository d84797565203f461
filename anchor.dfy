/**
 * `findAnchor`: where the grappling rope attaches. Every platform offers the
 * point of its rectangle nearest to the cursor; a point counts only when it
 * is closer than 60 to the cursor and closer than the rope range to the
 * player, and the one nearest to the player wins, the earliest platform on a
 * tie. Distances are compared squared, which orders them as the engine's
 * square-rooted distances do.
 */
module Anchor {
  import opened Geometry
  import opened Config
  import opened Entities
  import opened Optional

  /** The point platform `p` offers for the cursor `target`. */
  function Candidate(p: Platform, target: Vec): Vec {
    ClosestPoint(p, target)
  }

  predicate Eligible(origin: Vec, target: Vec, p: Platform) {
    Within(target, Candidate(p, target), ANCHOR_SNAP)
    && Within(origin, Candidate(p, target), ROPE_RANGE)
  }

  /** Platform `i` offers the winning point: eligible, no farther from the
      player than any other eligible point, strictly nearer than every
      eligible point of an earlier platform. */
  ghost predicate WinsAt(origin: Vec, target: Vec, platforms: seq<Platform>, i: int) {
    && 0 <= i < |platforms|
    && Eligible(origin, target, platforms[i])
    && (forall j :: 0 <= j < |platforms| && Eligible(origin, target, platforms[j]) ==>
          DistSq(origin, Candidate(platforms[i], target)) <= DistSq(origin, Candidate(platforms[j], target)))
    && (forall j :: 0 <= j < i && Eligible(origin, target, platforms[j]) ==>
          DistSq(origin, Candidate(platforms[i], target)) < DistSq(origin, Candidate(platforms[j], target)))
  }

  ghost predicate IsBestAnchor(origin: Vec, target: Vec, platforms: seq<Platform>, a: Option<Vec>) {
    match a
    case None => forall j :: 0 <= j < |platforms| ==> !Eligible(origin, target, platforms[j])
    case Some(v) => exists i :: WinsAt(origin, target, platforms, i) && v == Candidate(platforms[i], target)
  }

  method FindAnchor(origin: Vec, target: Vec, platforms: seq<Platform>) returns (best: Option<Vec>)
    ensures IsBestAnchor(origin, target, platforms, best)
    ensures best.None? <==> forall j :: 0 <= j < |platforms| ==> !Eligible(origin, target, platforms[j])
    ensures best.Some? ==> Within(target, best.value, ANCHOR_SNAP) && Within(origin, best.value, ROPE_RANGE)
  {
    best := None;
    var minDistSq := ROPE_RANGE * ROPE_RANGE;
    ghost var winner := 0;
    for i := 0 to |platforms|
      invariant best.None? ==> minDistSq == ROPE_RANGE * ROPE_RANGE
      invariant best.None? ==> forall j :: 0 <= j < i ==> !Eligible(origin, target, platforms[j])
      invariant best.Some? ==> WinsAt(origin, target, platforms[..i], winner)
      invariant best.Some? ==> best.value == Candidate(platforms[winner], target)
      invariant best.Some? ==> minDistSq == DistSq(origin, best.value)
    {
      var p := platforms[i];
      var c := Candidate(p, target);
      if Within(target, c, ANCHOR_SNAP) {
        var d := DistSq(origin, c);
        if d < minDistSq {
          minDistSq := d;
          best := Some(c);
          winner := i;
        }
      }
      assert platforms[..i + 1][i] == p;
    }
    assert platforms[..|platforms|] == platforms;
  }

  /** The characterisation leaves no choice: at most one result meets it. */
  lemma BestAnchorUnique(origin: Vec, target: Vec, platforms: seq<Platform>, a1: Option<Vec>, a2: Option<Vec>)
    requires IsBestAnchor(origin, target, platforms, a1)
    requires IsBestAnchor(origin, target, platforms, a2)
    ensures a1 == a2
  {
    if a1.Some? && a2.Some? {
      var i1 :| WinsAt(origin, target, platforms, i1) && a1.value == Candidate(platforms[i1], target);
      var i2 :| WinsAt(origin, target, platforms, i2) && a2.value == Candidate(platforms[i2], target);
      if i1 < i2 {
        assert false;
      } else if i2 < i1 {
        assert false;
      }
    }
  }
}
