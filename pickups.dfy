/**
 * Coin pickup, the score, and the two outcomes a step may report: the
 * level is complete when every coin had been counted before this step and
 * the player stands at the exit; the game is over when the player has
 * fallen below the level or has no hp left.
 */
module Pickups {
  import opened Geometry
  import opened Config
  import opened Entities

  predicate Reached(c: Coin, pos: Vec, radius: real) {
    CirclesOverlap(pos, radius, CoinPos(c), c.radius)
  }

  /** An uncollected coin within reach becomes collected; collected coins
      stay collected. */
  function Collect(c: Coin, pos: Vec, radius: real): (d: Coin)
    ensures d.(collected := c.collected) == c
    ensures d.collected <==> c.collected || Reached(c, pos, radius)
  {
    if !c.collected && Reached(c, pos, radius) then c.(collected := true) else c
  }

  function CollectAll(cs: seq<Coin>, pos: Vec, radius: real): (ds: seq<Coin>)
    ensures |ds| == |cs|
    ensures forall i :: 0 <= i < |cs| ==> ds[i] == Collect(cs[i], pos, radius)
  {
    seq(|cs|, i requires 0 <= i < |cs| => Collect(cs[i], pos, radius))
  }

  function Flag(c: Coin): nat { if c.collected then 1 else 0 }

  function CountCollected(cs: seq<Coin>): (n: nat)
    ensures n <= |cs|
    decreases cs
  {
    if cs == [] then 0 else Flag(cs[0]) + CountCollected(cs[1..])
  }

  /** Replacing one coin changes the count by the difference of its flags. */
  lemma {:induction false} CountUpdate(cs: seq<Coin>, i: nat, c: Coin)
    requires i < |cs|
    ensures CountCollected(cs[i := c]) + Flag(cs[i]) == CountCollected(cs) + Flag(c)
    decreases cs
  {
    if i > 0 {
      CountUpdate(cs[1..], i - 1, c);
      assert cs[i := c][1..] == cs[1..][i - 1 := c];
    } else {
      assert cs[i := c][1..] == cs[1..];
    }
  }

  /** The coins this pass collects. */
  function NewlyCollected(cs: seq<Coin>, pos: Vec, radius: real): nat
    decreases cs
  {
    if cs == [] then 0
    else (if !cs[0].collected && Reached(cs[0], pos, radius) then 1 else 0) + NewlyCollected(cs[1..], pos, radius)
  }

  /** The pass adds exactly the newly collected coins to the count. */
  lemma {:induction false} CollectAllCount(cs: seq<Coin>, pos: Vec, radius: real)
    ensures CountCollected(CollectAll(cs, pos, radius)) == CountCollected(cs) + NewlyCollected(cs, pos, radius)
    decreases cs
  {
    if cs != [] {
      CollectAllCount(cs[1..], pos, radius);
      assert CollectAll(cs, pos, radius)[1..] == CollectAll(cs[1..], pos, radius);
    }
  }

  /**
   * The step's reports, in order: level complete (with the next level, if
   * any), then game over. Both carry the score as it was before the step.
   */
  function Outcomes(scoreBefore: int, totalCoins: int, pos: Vec, exit: Vec, hp: int,
                    bounds: Bounds, levelIndex: int): (r: seq<Outcome>)
    ensures forall o :: o in r ==> o == LevelComplete(scoreBefore, NextLevel(levelIndex)) || o == GameOver(scoreBefore)
    ensures LevelComplete(scoreBefore, NextLevel(levelIndex)) in r
            <==> scoreBefore >= totalCoins && Within(pos, exit, EXIT_RADIUS)
    ensures GameOver(scoreBefore) in r <==> pos.y > bounds.h + FALL_MARGIN || hp <= 0
    ensures forall i, j :: 0 <= i < j < |r| ==> r[i].LevelComplete? && r[j].GameOver?
  {
    (if scoreBefore >= totalCoins && Within(pos, exit, EXIT_RADIUS)
     then [LevelComplete(scoreBefore, NextLevel(levelIndex))] else [])
    + (if pos.y > bounds.h + FALL_MARGIN || hp <= 0 then [GameOver(scoreBefore)] else [])
  }
}
