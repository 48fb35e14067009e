/** The level shown for an amount of XP, read from a fixed ascending threshold table. */
module Levels {

  /** XP needed for levels 1 to 11. */
  const LEVELS: seq<int> := [0, 100, 250, 500, 850, 1300, 1850, 2500, 3300, 4200, 5200]

  ghost predicate Ascending(t: seq<int>) {
    forall i, j :: 0 <= i < j < |t| ==> t[i] < t[j]
  }

  lemma LevelsAscending()
    ensures |LEVELS| == 11 && Ascending(LEVELS)
  {
  }

  /** How many thresholds of `t` the amount `xp` has reached. */
  function Reached(t: seq<int>, xp: int): (n: nat)
    ensures n <= |t|
  {
    if t == [] then 0
    else Reached(t[..|t| - 1], xp) + (if t[|t| - 1] <= xp then 1 else 0)
  }

  /** The level for `xp`: the number of thresholds reached, and at least 1. */
  function Level(xp: int): (lvl: int)
    ensures 1 <= lvl <= |LEVELS|
  {
    var n := Reached(LEVELS, xp);
    if n == 0 then 1 else n
  }

  /** In an ascending table, reaching threshold `k` and none above it means exactly `k + 1` were reached. */
  lemma {:induction false} ReachedUpTo(t: seq<int>, xp: int, k: int)
    requires Ascending(t)
    requires -1 <= k < |t|
    requires k >= 0 ==> t[k] <= xp
    requires forall j :: k < j < |t| ==> xp < t[j]
    ensures Reached(t, xp) == k + 1
  {
    if t != [] {
      var init := t[..|t| - 1];
      if k == |t| - 1 {
        ReachedAll(init, xp);
      } else {
        ReachedUpTo(init, xp, k);
      }
    }
  }

  lemma {:induction false} ReachedAll(t: seq<int>, xp: int)
    requires Ascending(t)
    requires forall j :: 0 <= j < |t| ==> t[j] <= xp
    ensures Reached(t, xp) == |t|
  {
    if t != [] {
      ReachedAll(t[..|t| - 1], xp);
    }
  }

  lemma {:induction false} ReachedMonotone(t: seq<int>, x: int, y: int)
    requires x <= y
    ensures Reached(t, x) <= Reached(t, y)
  {
    if t != [] {
      ReachedMonotone(t[..|t| - 1], x, y);
    }
  }

  /** The level is `i + 1` for the highest threshold `LEVELS[i]` at most `xp`, and 1 below all thresholds. */
  lemma {:induction false} LevelIsHighestThreshold(xp: int)
    ensures 1 <= Level(xp) <= |LEVELS|
    ensures xp < LEVELS[1] ==> Level(xp) == 1
    ensures LEVELS[0] <= xp ==>
      LEVELS[Level(xp) - 1] <= xp && (Level(xp) == |LEVELS| || xp < LEVELS[Level(xp)])
  {
    LevelsAscending();
    var k := |LEVELS| - 1;
    while k >= 0 && xp < LEVELS[k]
      invariant -1 <= k < |LEVELS|
      invariant forall j :: k < j < |LEVELS| ==> xp < LEVELS[j]
    {
      k := k - 1;
    }
    ReachedUpTo(LEVELS, xp, k);
  }

  /** More XP never gives a lower level. */
  lemma {:induction false} LevelMonotone(x: int, y: int)
    requires x <= y
    ensures Level(x) <= Level(y)
  {
    ReachedMonotone(LEVELS, x, y);
  }

  /** getLevel: scan the thresholds from the top and stop at the first one `xp` has reached. */
  method GetLevel(xp: int) returns (lvl: int)
    ensures lvl == Level(xp)
    ensures 1 <= lvl <= |LEVELS|
    ensures LEVELS[0] <= xp ==> LEVELS[lvl - 1] <= xp && (lvl == |LEVELS| || xp < LEVELS[lvl])
  {
    LevelsAscending();
    var i := |LEVELS| - 1;
    while i >= 0
      invariant -1 <= i < |LEVELS|
      invariant forall j :: i < j < |LEVELS| ==> xp < LEVELS[j]
    {
      if xp >= LEVELS[i] {
        ReachedUpTo(LEVELS, xp, i);
        return i + 1;
      }
      i := i - 1;
    }
    ReachedUpTo(LEVELS, xp, -1);
    return 1;
  }
}
