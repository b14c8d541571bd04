/**
 * `IntRange.mapToRanges` and `IntRange.remove` of `kodex-common/.../utils/DocUtils.kt`:
 * both walk a range once and cut it into maximal runs of consecutive values.
 */
module RangeMapping {
  import opened Ranges

  /** `mapping(first), mapping(first + 1), …` for `count` values. */
  function MappedValues(first: int, count: nat, mapping: int -> int): (vs: seq<int>)
    ensures |vs| == count
    ensures forall k :: 0 <= k < count ==> vs[k] == mapping(first + k)
  {
    seq(count, k => mapping(first + k))
  }

  lemma {:induction false} MappedSnoc(first: int, count: nat, mapping: int -> int)
    ensures MappedValues(first, count + 1, mapping) == MappedValues(first, count, mapping) + [mapping(first + count)]
  {
    assert MappedValues(first, count + 1, mapping)[..count] == MappedValues(first, count, mapping);
  }

  /** The values among `first, …, first + count - 1` that are not in `removed`, in order. */
  function KeptValues(first: int, count: nat, removed: iset<int>): seq<int> {
    if count == 0 then []
    else if first + count - 1 in removed then KeptValues(first, count - 1, removed)
    else KeptValues(first, count - 1, removed) + [first + count - 1]
  }

  /** `filterNot { it.isEmpty() }` */
  function NonEmpty(rs: seq<IntRange>): (out: seq<IntRange>)
    ensures forall k :: 0 <= k < |out| ==> !out[k].IsEmpty()
  {
    if rs == [] then []
    else if rs[|rs| - 1].IsEmpty() then NonEmpty(rs[..|rs| - 1])
    else NonEmpty(rs[..|rs| - 1]) + [rs[|rs| - 1]]
  }

  lemma {:induction false} NonEmptySnoc(rs: seq<IntRange>, r: IntRange)
    ensures r.IsEmpty() ==> NonEmpty(rs + [r]) == NonEmpty(rs)
    ensures !r.IsEmpty() ==> NonEmpty(rs + [r]) == NonEmpty(rs) + [r]
  {
    assert (rs + [r])[..|rs|] == rs;
  }

  /** Filtering changes nothing when no range is empty. */
  lemma {:induction false} NonEmptyOfNonEmpty(rs: seq<IntRange>)
    requires forall k :: 0 <= k < |rs| ==> !rs[k].IsEmpty()
    ensures NonEmpty(rs) == rs
  {
    if rs != [] {
      NonEmptyOfNonEmpty(rs[..|rs| - 1]);
      assert rs == rs[..|rs| - 1] + [rs[|rs| - 1]];
    }
  }

  /** One more value for `Runs`: extend the last run or start a new one. */
  lemma {:induction false} RunsSnoc(vs: seq<int>, v: int)
    ensures var rs := Runs(vs);
      Runs(vs + [v]) == if rs != [] && v == rs[|rs| - 1].last + 1 then rs[..|rs| - 1] + [IntRange(rs[|rs| - 1].first, v)] else rs + [IntRange(v, v)]
  {
    assert (vs + [v])[..|vs|] == vs;
  }

  /** `mapToRanges(mapping)`, lines 340-359: a new range whenever a mapped value does not continue the previous one. */
  method MapToRanges(r: IntRange, mapping: int -> int) returns (ranges: seq<IntRange>)
    ensures ranges == Runs(MappedValues(r.first, r.Size(), mapping))
  {
    if r.IsEmpty() {
      return [];
    }
    ranges := [];
    var start := mapping(r.first);
    var end := start;
    assert MappedValues(r.first, 1, mapping) == [start];
    var x := r.first + 1;
    var count: nat := 1;
    while x <= r.last
      invariant x == r.first + count && x <= r.last + 1
      invariant end == mapping(x - 1)
      invariant Runs(MappedValues(r.first, count, mapping)) == ranges + [IntRange(start, end)]
    {
      var mappedNum := mapping(x);
      MappedStep(ranges, start, end, r.first, count, mapping);
      if mappedNum != end + 1 {
        ranges := ranges + [IntRange(start, end)];
        start := mappedNum;
      }
      end := mappedNum;
      x := x + 1;
      count := count + 1;
    }
    assert count == r.Size();
    ranges := ranges + [IntRange(start, end)];
    RunsNonEmpty(MappedValues(r.first, count, mapping));
    ranges := NonEmpty(ranges);
  }

  /** Line 358's `filterNot { it.isEmpty() }` drops nothing from runs. */
  lemma {:induction false} RunsNonEmpty(vs: seq<int>)
    ensures NonEmpty(Runs(vs)) == Runs(vs)
  {
    RunsMaximal(vs);
    NonEmptyOfNonEmpty(Runs(vs));
  }

  /** One iteration of the loop of lines 347-356. */
  lemma {:induction false} MappedStep(ranges: seq<IntRange>, start: int, end: int, first: int, count: nat, mapping: int -> int)
    requires Runs(MappedValues(first, count, mapping)) == ranges + [IntRange(start, end)]
    ensures var v := mapping(first + count);
      v != end + 1 ==> Runs(MappedValues(first, count + 1, mapping)) == ranges + [IntRange(start, end)] + [IntRange(v, v)]
    ensures var v := mapping(first + count);
      v == end + 1 ==> Runs(MappedValues(first, count + 1, mapping)) == ranges + [IntRange(start, v)]
  {
    MappedSnoc(first, count, mapping);
    RunsSnoc(MappedValues(first, count, mapping), mapping(first + count));
  }

  /**
   * `remove(predicate)`, lines 364-386: the runs of the values the predicate keeps.
   * The predicate is given as the set of values it holds for.
   */
  method Remove(r: IntRange, removed: iset<int>) returns (ranges: seq<IntRange>)
    ensures ranges == Runs(KeptValues(r.first, r.Size(), removed))
  {
    if r.IsEmpty() {
      return [];
    }
    var start, allRemoved := FirstKept(r, removed);
    if allRemoved {
      return [];
    }
    ranges := KeptRuns(r, removed, start);
  }

  /** Lines 369-373: skip the removed values at the front; all of them removed gives `emptyList()`. */
  method FirstKept(r: IntRange, removed: iset<int>) returns (start: int, allRemoved: bool)
    requires !r.IsEmpty()
    ensures allRemoved ==> KeptValues(r.first, r.Size(), removed) == []
    ensures !allRemoved ==> r.first <= start <= r.last && start !in removed && KeptValues(r.first, start - r.first, removed) == []
  {
    start := r.first;
    while start in removed
      invariant r.first <= start <= r.last
      invariant KeptValues(r.first, start - r.first, removed) == []
      decreases r.last - start
    {
      if start == r.last {
        return start, true;
      }
      start := start + 1;
    }
    allRemoved := false;
  }

  /**
   * The loop state of `KeptRuns` after scanning `count` values from `first`:
   * the closed ranges plus the open one give the runs of the kept values so far.
   */
  ghost predicate Tracks(ranges: seq<IntRange>, start: int, end: int, first: int, count: nat, removed: iset<int>) {
    NonEmpty(ranges + [IntRange(start, end)]) == Runs(KeptValues(first, count, removed))
  }

  /** Lines 374-385: cut the rest of the range at every removed value. */
  method KeptRuns(r: IntRange, removed: iset<int>, start0: int) returns (ranges: seq<IntRange>)
    requires r.first <= start0 <= r.last && start0 !in removed && KeptValues(r.first, start0 - r.first, removed) == []
    ensures ranges == Runs(KeptValues(r.first, r.Size(), removed))
  {
    var start := start0;
    var count: nat := start0 - r.first;
    KeptRunsStart(r.first, count, removed);
    count := count + 1;
    ranges := [];
    var end := start;
    var x := start + 1;
    while x <= r.last
      invariant start0 <= x <= r.last + 1 && end == x - 1 && x == r.first + count
      invariant (end in removed && start == end + 1) || (end !in removed && start <= end)
      invariant Tracks(ranges, start, end, r.first, count, removed)
    {
      if x in removed {
        // a removed `x` closes the current range
        KeptRunsDropped(ranges, start, end, r.first, count, x, removed);
        ranges := ranges + [IntRange(start, end)];
        start := x + 1;
      } else {
        KeptRunsKept(ranges, start, end, r.first, count, x, removed);
      }
      end := x;
      x := x + 1;
      count := count + 1;
    }
    assert count == r.Size();
    // the open range is added unless it is the empty one a removed last value left
    if end in removed {
      NonEmptySnoc(ranges, IntRange(start, end));
      ranges := NonEmpty(ranges);
    } else {
      ranges := NonEmpty(ranges + [IntRange(start, end)]);
    }
  }

  /** A removed value closes the current range and opens an empty one after it. */
  lemma {:induction false} KeptRunsDropped(ranges: seq<IntRange>, start: int, end: int, first: int, count: nat, x: int, removed: iset<int>)
    requires x == first + count && x in removed
    requires Tracks(ranges, start, end, first, count, removed)
    ensures Tracks(ranges + [IntRange(start, end)], x + 1, x, first, count + 1, removed)
  {
    KeptSnoc(first, count, removed);
    RunsDropped(ranges, start, end, x, Runs(KeptValues(first, count, removed)));
  }

  /** A kept value extends the current range, or starts a new one after a removed value. */
  lemma {:induction false} KeptRunsKept(ranges: seq<IntRange>, start: int, end: int, first: int, count: nat, x: int, removed: iset<int>)
    requires x == first + count && end == x - 1 && x !in removed
    requires (end in removed && start == end + 1) || (end !in removed && start <= end)
    requires Tracks(ranges, start, end, first, count, removed)
    ensures Tracks(ranges, start, x, first, count + 1, removed)
  {
    if end !in removed {
      KeptExtends(ranges, start, end, first, count, x, removed);
    } else {
      KeptRestarts(ranges, end, first, count, x, removed);
    }
  }

  lemma {:induction false} KeptExtends(ranges: seq<IntRange>, start: int, end: int, first: int, count: nat, x: int, removed: iset<int>)
    requires x == first + count && end == x - 1 && x !in removed && start <= end
    requires Tracks(ranges, start, end, first, count, removed)
    ensures Tracks(ranges, start, x, first, count + 1, removed)
  {
    KeptSnoc(first, count, removed);
    RunsExtend(ranges, start, end, KeptValues(first, count, removed));
  }

  lemma {:induction false} KeptRestarts(ranges: seq<IntRange>, end: int, first: int, count: nat, x: int, removed: iset<int>)
    requires x == first + count && end == x - 1 && x !in removed && end in removed
    requires Tracks(ranges, end + 1, end, first, count, removed)
    ensures Tracks(ranges, end + 1, x, first, count + 1, removed)
  {
    var vs := KeptValues(first, count, removed);
    KeptLast(first, count, removed);
    assert vs == [] || vs[|vs| - 1] < end;
    KeptSnoc(first, count, removed);
    RunsStartNew(ranges, end, vs);
  }

  /** Lines 374-375: the first kept value opens the first range. */
  lemma {:induction false} KeptRunsStart(first: int, count: nat, removed: iset<int>)
    requires first + count !in removed && KeptValues(first, count, removed) == []
    ensures Tracks([], first + count, first + count, first, count + 1, removed)
  {
    KeptSnoc(first, count, removed);
    assert KeptValues(first, count + 1, removed) == [first + count];
    RunsSnoc([], first + count);
    NonEmptySnoc([], IntRange(first + count, first + count));
    assert [] + [IntRange(first + count, first + count)] == [IntRange(first + count, first + count)];
  }

  lemma {:induction false} KeptSnoc(first: int, count: nat, removed: iset<int>)
    ensures first + count in removed ==> KeptValues(first, count + 1, removed) == KeptValues(first, count, removed)
    ensures first + count !in removed ==> KeptValues(first, count + 1, removed) == KeptValues(first, count, removed) + [first + count]
  {
  }

  /** A removed value closes the current range and starts an empty one after it. */
  lemma {:induction false} RunsDropped(ranges: seq<IntRange>, start: int, end: int, x: int, target: seq<IntRange>)
    requires NonEmpty(ranges + [IntRange(start, end)]) == target
    ensures NonEmpty(ranges + [IntRange(start, end)] + [IntRange(x + 1, x)]) == target
  {
    NonEmptySnoc(ranges + [IntRange(start, end)], IntRange(x + 1, x));
  }

  /** A kept value right after a kept value extends the current range. */
  lemma {:induction false} RunsExtend(ranges: seq<IntRange>, start: int, end: int, vs: seq<int>)
    requires start <= end
    requires NonEmpty(ranges + [IntRange(start, end)]) == Runs(vs)
    ensures NonEmpty(ranges + [IntRange(start, end + 1)]) == Runs(vs + [end + 1])
  {
    NonEmptySnoc(ranges, IntRange(start, end));
    NonEmptySnoc(ranges, IntRange(start, end + 1));
    RunsSnoc(vs, end + 1);
  }

  /** A kept value right after a removed one starts a new range. */
  lemma {:induction false} RunsStartNew(ranges: seq<IntRange>, end: int, vs: seq<int>)
    requires vs == [] || vs[|vs| - 1] < end
    requires NonEmpty(ranges + [IntRange(end + 1, end)]) == Runs(vs)
    ensures NonEmpty(ranges + [IntRange(end + 1, end + 1)]) == Runs(vs + [end + 1])
  {
    var rs := Runs(vs);
    assert Runs(vs + [end + 1]) == rs + [IntRange(end + 1, end + 1)] by {
      RunsSnoc(vs, end + 1);
      if rs != [] {
        RunsLast(vs);
      }
    }
    NonEmptySnoc(ranges, IntRange(end + 1, end));
    NonEmptySnoc(ranges, IntRange(end + 1, end + 1));
  }

  // ---------------------------------------------------------------------------
  // What the runs mean
  // ---------------------------------------------------------------------------

  /** The last kept value is a kept value of the scanned part. */
  lemma {:induction false} KeptLast(first: int, count: nat, removed: iset<int>)
    ensures var vs := KeptValues(first, count, removed);
      vs != [] ==> first <= vs[|vs| - 1] < first + count && vs[|vs| - 1] !in removed
  {
    if count > 0 && first + count - 1 in removed {
      KeptLast(first, count - 1, removed);
    }
  }

  /** Membership in the kept values is exactly "in the range and not removed". */
  lemma {:induction false} KeptIn(first: int, count: nat, removed: iset<int>, x: int)
    ensures x in KeptValues(first, count, removed) <==> first <= x < first + count && x !in removed
  {
    if count > 0 {
      KeptIn(first, count - 1, removed, x);
    }
  }

  /**
   * No range `removed` returns contains a removed index, and every kept index of
   * the range is covered by one of them.
   */
  lemma {:induction false} RemoveCovers(r: IntRange, removed: iset<int>, x: int)
    ensures Covered(Runs(KeptValues(r.first, r.Size(), removed)), x) <==> r.Contains(x) && x !in removed
  {
    var vs := KeptValues(r.first, r.Size(), removed);
    RunsFlatten(vs);
    FlattenCovered(Runs(vs), x);
    KeptIn(r.first, r.Size(), removed, x);
  }

  /** The ranges of `mapToRanges` list exactly the mapped values, in order, as maximal runs. */
  lemma {:induction false} MapToRangesSpec(r: IntRange, mapping: int -> int)
    ensures Flatten(Runs(MappedValues(r.first, r.Size(), mapping))) == MappedValues(r.first, r.Size(), mapping)
    ensures MaximalRuns(Runs(MappedValues(r.first, r.Size(), mapping)))
  {
    RunsFlatten(MappedValues(r.first, r.Size(), mapping));
    RunsMaximal(MappedValues(r.first, r.Size(), mapping));
  }

  /** The ranges of `removed` are maximal runs as well. */
  lemma {:induction false} RemoveMaximal(r: IntRange, removed: iset<int>)
    ensures MaximalRuns(Runs(KeptValues(r.first, r.Size(), removed)))
  {
    RunsMaximal(KeptValues(r.first, r.Size(), removed));
  }

  /** Mapping a non-empty range through the identity gives back that range. */
  lemma {:induction false} IdentityMapping(r: IntRange)
    requires !r.IsEmpty()
    ensures Runs(MappedValues(r.first, r.Size(), x => x)) == [r]
  {
    assert MappedValues(r.first, r.Size(), x => x) == Elements(r);
    RunsOfRange(r);
  }
}
