/**
  Grouping of game items by level bracket.

  The grouping builds a dictionary with one key per bracket start of the
  level table, every key starting with an empty list, and then walks the
  items in order, appending each item to the list of the bracket its
  level falls into.
 */
module Grouping {
  import opened LevelRanges

  /** The fields of an item record that the grouping reads or carries. */
  datatype GameItem = GameItem(
    id: int,
    level: int,
    title: map<string, string>,
    description: map<string, string>)

  /**
    The items of `items` whose bracket is `start`, in input order. It is
    defined from the end of the list, the way the grouping's loop extends
    a bucket: the last item is appended when it belongs to the bracket.
   */
  function BucketOf(ranges: seq<int>, items: seq<GameItem>, start: int): (b: seq<GameItem>)
    requires |ranges| > 0
    ensures forall x :: x in b ==> x in items && RangeStart(ranges, x.level) == start
    decreases |items|
  {
    if items == [] then []
    else
      var last := items[|items| - 1];
      BucketOf(ranges, items[..|items| - 1], start)
        + if RangeStart(ranges, last.level) == start then [last] else []
  }

  /** `a` is obtained from `b` by deleting some of its elements. */
  predicate IsSubsequence(a: seq<GameItem>, b: seq<GameItem>)
    decreases |b|
  {
    if a == [] then true
    else if b == [] then false
    else
      (a[|a| - 1] == b[|b| - 1] && IsSubsequence(a[..|a| - 1], b[..|b| - 1]))
      || IsSubsequence(a, b[..|b| - 1])
  }

  /** The buckets of `keys`, one after the other. */
  function AllBuckets(ranges: seq<int>, items: seq<GameItem>, keys: seq<int>): seq<GameItem>
    requires |ranges| > 0
    decreases |keys|
  {
    if keys == [] then []
    else BucketOf(ranges, items, keys[0]) + AllBuckets(ranges, items, keys[1..])
  }

  /** The lists of `grouped` under `keys`, one after the other. */
  function Flatten(grouped: map<int, seq<GameItem>>, keys: seq<int>): seq<GameItem>
    requires forall i :: 0 <= i < |keys| ==> keys[i] in grouped
    decreases |keys|
  {
    if keys == [] then []
    else grouped[keys[0]] + Flatten(grouped, keys[1..])
  }

  /**
    Fills one list per bracket start: the first loop creates every key
    with an empty list, the second appends each item, in input order, to
    the list of its bracket. The bracket is always a key, so the append
    never misses.
   */
  method GroupItemsByLevel(ranges: seq<int>, items: seq<GameItem>)
    returns (grouped: map<int, seq<GameItem>>)
    requires |ranges| > 0
    ensures forall t :: t in grouped <==> t in ranges
    ensures forall t :: t in grouped ==> grouped[t] == BucketOf(ranges, items, t)
    ensures forall i :: 0 <= i < |ranges| ==> ranges[i] in grouped
    ensures StrictlyAscending(ranges) ==>
      && multiset(Flatten(grouped, ranges)) == multiset(items)
      && |Flatten(grouped, ranges)| == |items|
  {
    grouped := map[];
    for i := 0 to |ranges|
      invariant forall t :: t in grouped <==> t in ranges[..i]
      invariant forall t :: t in grouped ==> grouped[t] == []
    {
      grouped := grouped[ranges[i] := []];
    }
    assert ranges[..|ranges|] == ranges;
    for j := 0 to |items|
      invariant forall t :: t in grouped <==> t in ranges
      invariant forall t :: t in grouped ==> grouped[t] == BucketOf(ranges, items[..j], t)
    {
      var item := items[j];
      var start := RangeStart(ranges, item.level);
      grouped := grouped[start := grouped[start] + [item]];
      assert items[..j + 1][..j] == items[..j];
    }
    assert items[..|items|] == items;
    assert forall i :: 0 <= i < |ranges| ==> ranges[i] in ranges;
    FlattenIsAllBuckets(ranges, items, grouped, ranges);
    if StrictlyAscending(ranges) {
      GroupingIsPartition(ranges, items);
    }
  }

  /**
    The grouping with the fixed bracket table: every bracket start is a
    key, each list is that bracket's items in input order, and the lists
    together are the input items, so their lengths add up to its length.
   */
  method GroupItemsByFixedLevels(items: seq<GameItem>)
    returns (grouped: map<int, seq<GameItem>>)
    ensures forall t :: t in grouped <==> t in LEVEL_RANGES
    ensures forall t :: t in grouped ==> grouped[t] == BucketOf(LEVEL_RANGES, items, t)
    ensures forall i :: 0 <= i < |LEVEL_RANGES| ==> LEVEL_RANGES[i] in grouped
    ensures multiset(Flatten(grouped, LEVEL_RANGES)) == multiset(items)
    ensures |Flatten(grouped, LEVEL_RANGES)| == |items|
  {
    LevelRangesAscending();
    grouped := GroupItemsByLevel(LEVEL_RANGES, items);
  }

  /** The lists of a map holding each key's bucket are the buckets themselves. */
  lemma {:induction false} FlattenIsAllBuckets(ranges: seq<int>, items: seq<GameItem>,
                                               grouped: map<int, seq<GameItem>>, keys: seq<int>)
    requires |ranges| > 0
    requires forall i :: 0 <= i < |keys| ==> keys[i] in grouped && grouped[keys[i]] == BucketOf(ranges, items, keys[i])
    ensures Flatten(grouped, keys) == AllBuckets(ranges, items, keys)
    decreases |keys|
  {
    if keys != [] {
      assert forall i :: 0 <= i < |keys| - 1 ==> keys[1..][i] == keys[i + 1];
      FlattenIsAllBuckets(ranges, items, grouped, keys[1..]);
    }
  }

  /**
    An item occurs in a bucket exactly as often as in the input when the
    bucket is its bracket, and not at all otherwise.
   */
  lemma {:induction false} BucketCount(ranges: seq<int>, items: seq<GameItem>, start: int, x: GameItem)
    requires |ranges| > 0
    ensures multiset(BucketOf(ranges, items, start))[x]
         == if RangeStart(ranges, x.level) == start then multiset(items)[x] else 0
    decreases |items|
  {
    if items != [] {
      var init, last := items[..|items| - 1], items[|items| - 1];
      assert items == init + [last];
      BucketCount(ranges, init, start, x);
    }
  }

  /** Every input item is in the bucket of its own bracket and in no other. */
  lemma ItemInOneBucket(ranges: seq<int>, items: seq<GameItem>, i: nat, start: int)
    requires |ranges| > 0 && i < |items|
    ensures items[i] in BucketOf(ranges, items, start)
        <==> start == RangeStart(ranges, items[i].level)
  {
    BucketCount(ranges, items, start, items[i]);
  }

  /** A bucket keeps the relative order of the input. */
  lemma {:induction false} BucketPreservesOrder(ranges: seq<int>, items: seq<GameItem>, start: int)
    requires |ranges| > 0
    ensures IsSubsequence(BucketOf(ranges, items, start), items)
    decreases |items|
  {
    if items != [] {
      var init, last := items[..|items| - 1], items[|items| - 1];
      var b := BucketOf(ranges, init, start);
      BucketPreservesOrder(ranges, init, start);
      if RangeStart(ranges, last.level) == start {
        var b' := b + [last];
        assert b'[..|b'| - 1] == b;
      } else {
        assert BucketOf(ranges, items, start) == b;
      }
    }
  }

  /** With distinct keys, the buckets of `keys` hold every item whose bracket is a key. */
  lemma {:induction false} AllBucketsCount(ranges: seq<int>, items: seq<GameItem>, keys: seq<int>, x: GameItem)
    requires |ranges| > 0
    requires forall i, j :: 0 <= i < j < |keys| ==> keys[i] != keys[j]
    ensures multiset(AllBuckets(ranges, items, keys))[x]
         == if RangeStart(ranges, x.level) in keys then multiset(items)[x] else 0
    decreases |keys|
  {
    if keys != [] {
      var rest := keys[1..];
      assert forall i, j :: 0 <= i < j < |rest| ==> rest[i] == keys[i + 1] && rest[j] == keys[j + 1];
      AllBucketsCount(ranges, items, rest, x);
      BucketCount(ranges, items, keys[0], x);
      assert keys == [keys[0]] + rest;
      if RangeStart(ranges, x.level) == keys[0] {
        assert keys[0] !in rest;
      }
    }
  }

  /**
    The buckets of an ascending table partition the input: together they
    hold every item exactly as often as the input does, so their lengths
    add up to the number of items.
   */
  lemma GroupingIsPartition(ranges: seq<int>, items: seq<GameItem>)
    requires |ranges| > 0 && StrictlyAscending(ranges)
    ensures multiset(AllBuckets(ranges, items, ranges)) == multiset(items)
    ensures |AllBuckets(ranges, items, ranges)| == |items|
  {
    forall x ensures multiset(AllBuckets(ranges, items, ranges))[x] == multiset(items)[x] {
      AllBucketsCount(ranges, items, ranges, x);
    }
    assert multiset(AllBuckets(ranges, items, ranges)) == multiset(items);
    assert |multiset(AllBuckets(ranges, items, ranges))| == |multiset(items)|;
  }
}
