/**
  Level brackets of game items.

  A bracket is named by its starting level, taken from a fixed ascending
  table of thresholds. The bracket of a level is computed by a left fold
  over the table that is seeded with the table's first entry and that,
  for every later entry `curr`, keeps `curr` when `level >= curr` and the
  previous choice otherwise. For an ascending table this is the largest
  threshold not above the level (floor semantics), except that every
  level below the second threshold, however small, lands in the first
  bracket.
 */
module LevelRanges {

  /** The starting levels of the brackets, as the item grouping uses them. */
  const LEVEL_RANGES: seq<int> :=
    [6, 20, 35, 50, 65, 80, 95, 110, 125, 140, 155, 170, 185, 200, 215, 230]

  /** Every threshold is strictly below every later one. */
  ghost predicate StrictlyAscending(ranges: seq<int>) {
    forall i, j :: 0 <= i < j < |ranges| ==> ranges[i] < ranges[j]
  }

  /** The callback of the fold: take `curr` when the level reaches it. */
  function Pick(level: int, prev: int, curr: int): int {
    if level >= curr then curr else prev
  }

  /** Left fold of `Pick` over `rest`, starting from the accumulator `acc`. */
  function FoldRangeStart(level: int, acc: int, rest: seq<int>): (r: int)
    ensures r == acc || r in rest
    decreases |rest|
  {
    if rest == [] then acc
    else FoldRangeStart(level, Pick(level, acc, rest[0]), rest[1..])
  }

  /**
    The fold without an initial value: the accumulator starts as the first
    threshold and the fold runs over the remaining ones. The result is
    always one of the thresholds, so it is a key of the grouping.
   */
  function RangeStart(ranges: seq<int>, level: int): (r: int)
    requires |ranges| > 0
    ensures r in ranges
  {
    FoldRangeStart(level, ranges[0], ranges[1..])
  }

  /**
    Declarative reading of the bracket: `t` is a threshold, it is either
    the first threshold or not above the level, and no threshold that the
    level reaches is larger than `t`.
   */
  ghost predicate IsFloorBracket(ranges: seq<int>, level: int, t: int) {
    && t in ranges
    && (t == ranges[0] || t <= level)
    && forall i :: 0 <= i < |ranges| && ranges[i] <= level ==> ranges[i] <= t
  }

  /** What the fold computes from any accumulator below an ascending rest. */
  lemma {:induction false} FoldIsFloor(level: int, acc: int, rest: seq<int>)
    requires StrictlyAscending(rest)
    requires forall i :: 0 <= i < |rest| ==> acc < rest[i]
    ensures var r := FoldRangeStart(level, acc, rest);
      && (r == acc || (r in rest && r <= level))
      && (r == acc ==> forall i :: 0 <= i < |rest| ==> level < rest[i])
      && (forall i :: 0 <= i < |rest| && rest[i] <= level ==> rest[i] <= r)
    decreases |rest|
  {
    if rest != [] {
      var next := Pick(level, acc, rest[0]);
      var tail := rest[1..];
      assert forall i :: 0 <= i < |tail| ==> tail[i] == rest[i + 1];
      FoldIsFloor(level, next, tail);
      var r := FoldRangeStart(level, acc, rest);
      assert r == FoldRangeStart(level, next, tail);
      if level >= rest[0] {
        assert next == rest[0];
        if r != next {
          assert r in tail && r <= level;
          assert rest[0] < r;
        }
      } else {
        assert next == acc;
      }
    }
  }

  /** The fold computes the floor bracket of an ascending table. */
  lemma RangeStartIsFloor(ranges: seq<int>, level: int)
    requires |ranges| > 0 && StrictlyAscending(ranges)
    ensures IsFloorBracket(ranges, level, RangeStart(ranges, level))
  {
    var tail := ranges[1..];
    assert forall i :: 0 <= i < |tail| ==> tail[i] == ranges[i + 1];
    FoldIsFloor(level, ranges[0], tail);
    var r := RangeStart(ranges, level);
    forall i | 0 <= i < |ranges| && ranges[i] <= level
      ensures ranges[i] <= r
    {
      if i > 0 {
        assert ranges[i] == tail[i - 1];
      } else {
        var k :| 0 <= k < |ranges| && ranges[k] == r;
        assert ranges[0] <= ranges[k];
      }
    }
  }

  /** Exactly one threshold is the floor bracket of a level. */
  lemma {:induction false} FloorBracketUnique(ranges: seq<int>, level: int, t: int, u: int)
    requires |ranges| > 0 && StrictlyAscending(ranges)
    requires IsFloorBracket(ranges, level, t) && IsFloorBracket(ranges, level, u)
    ensures t == u
  {
    var i :| 0 <= i < |ranges| && ranges[i] == t;
    var j :| 0 <= j < |ranges| && ranges[j] == u;
    if t <= level && u <= level {
      assert t <= u && u <= t;
    } else {
      assert ranges[0] <= t && ranges[0] <= u;
    }
  }

  /** The fold's result is the floor bracket, and nothing else is. */
  lemma RangeStartCharacterized(ranges: seq<int>, level: int, t: int)
    requires |ranges| > 0 && StrictlyAscending(ranges)
    ensures t == RangeStart(ranges, level) <==> IsFloorBracket(ranges, level, t)
  {
    RangeStartIsFloor(ranges, level);
    if IsFloorBracket(ranges, level, t) {
      FloorBracketUnique(ranges, level, t, RangeStart(ranges, level));
    }
  }

  /**
    Every level below the second threshold, including levels below the
    first one, lands in the first bracket.
   */
  lemma RangeStartBelowSecond(ranges: seq<int>, level: int)
    requires |ranges| > 0 && StrictlyAscending(ranges)
    requires |ranges| == 1 || level < ranges[1]
    ensures RangeStart(ranges, level) == ranges[0]
  {
    RangeStartIsFloor(ranges, level);
    var r := RangeStart(ranges, level);
    assert forall i :: 1 <= i < |ranges| ==> ranges[1] <= ranges[i];
  }

  /**
    A level in the half-open interval from one threshold to the next (or
    at or above the last threshold) lands in the bracket of that
    threshold; in particular a level equal to a threshold lands in it.
   */
  lemma RangeStartInInterval(ranges: seq<int>, level: int, k: nat)
    requires |ranges| > 0 && StrictlyAscending(ranges)
    requires k < |ranges| && ranges[k] <= level
    requires k + 1 == |ranges| || level < ranges[k + 1]
    ensures RangeStart(ranges, level) == ranges[k]
  {
    RangeStartIsFloor(ranges, level);
    var r := RangeStart(ranges, level);
    assert ranges[k] <= r;
    assert forall i :: k < i < |ranges| ==> ranges[k + 1] <= ranges[i];
  }

  /** A higher level never lands in a lower bracket. */
  lemma RangeStartMonotone(ranges: seq<int>, a: int, b: int)
    requires |ranges| > 0 && StrictlyAscending(ranges)
    requires a <= b
    ensures RangeStart(ranges, a) <= RangeStart(ranges, b)
  {
    RangeStartIsFloor(ranges, a);
    RangeStartIsFloor(ranges, b);
    var ra, rb := RangeStart(ranges, a), RangeStart(ranges, b);
    var i :| 0 <= i < |ranges| && ranges[i] == ra;
    var j :| 0 <= j < |ranges| && ranges[j] == rb;
    if ra == ranges[0] {
      assert ranges[0] <= ranges[j];
    } else {
      assert ranges[i] <= b;
    }
  }

  /** The thresholds of the item grouping are strictly ascending. */
  lemma LevelRangesAscending()
    ensures StrictlyAscending(LEVEL_RANGES)
  {
    forall i, j | 0 <= i < j < |LEVEL_RANGES|
      ensures LEVEL_RANGES[i] < LEVEL_RANGES[j]
    {
      assert forall k :: 0 <= k < |LEVEL_RANGES| ==> LEVEL_RANGES[k] == if k == 0 then 6 else 5 + 15 * k;
    }
  }

  /** The bracket of a level in the item grouping's own table. */
  function GetLevelRangeStart(level: int): (r: int)
    ensures r in LEVEL_RANGES
    ensures IsFloorBracket(LEVEL_RANGES, level, r)
  {
    LevelRangesAscending();
    RangeStartIsFloor(LEVEL_RANGES, level);
    RangeStart(LEVEL_RANGES, level)
  }

  /** Boundary cases of the item grouping's table. */
  lemma GetLevelRangeStartExamples()
    ensures GetLevelRangeStart(-4) == 6 && GetLevelRangeStart(0) == 6
    ensures GetLevelRangeStart(6) == 6 && GetLevelRangeStart(19) == 6
    ensures GetLevelRangeStart(20) == 20 && GetLevelRangeStart(21) == 20
    ensures GetLevelRangeStart(34) == 20 && GetLevelRangeStart(35) == 35
    ensures GetLevelRangeStart(229) == 215 && GetLevelRangeStart(230) == 230
    ensures GetLevelRangeStart(1000) == 230
  {
    LevelRangesAscending();
    RangeStartBelowSecond(LEVEL_RANGES, -4);
    RangeStartBelowSecond(LEVEL_RANGES, 0);
    RangeStartBelowSecond(LEVEL_RANGES, 6);
    RangeStartBelowSecond(LEVEL_RANGES, 19);
    RangeStartInInterval(LEVEL_RANGES, 20, 1);
    RangeStartInInterval(LEVEL_RANGES, 21, 1);
    RangeStartInInterval(LEVEL_RANGES, 34, 1);
    RangeStartInInterval(LEVEL_RANGES, 35, 2);
    RangeStartInInterval(LEVEL_RANGES, 229, 14);
    RangeStartInInterval(LEVEL_RANGES, 230, 15);
    RangeStartInInterval(LEVEL_RANGES, 1000, 15);
  }
}
