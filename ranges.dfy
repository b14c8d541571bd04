/** Kotlin's `IntRange` and the maximal runs of consecutive integers. */
module Ranges {

  /** `first..last`; empty when `first > last`. */
  datatype IntRange = IntRange(first: int, last: int) {
    predicate IsEmpty() { first > last }
    predicate Contains(x: int) { first <= x <= last }
    function Size(): nat { if last < first then 0 else last - first + 1 }
  }

  /** `a..<b` */
  function Until(a: int, b: int): (r: IntRange)
    ensures b >= a ==> r.Size() == b - a
  {
    IntRange(a, b - 1)
  }

  /** The elements `first, first + 1, …, last` in iteration order. */
  function Elements(r: IntRange): (xs: seq<int>)
    ensures |xs| == r.Size()
    ensures forall k :: 0 <= k < |xs| ==> xs[k] == r.first + k
  {
    seq(r.Size(), k => r.first + k)
  }

  /** The elements of all ranges, one range after another (`flatMap`). */
  function Flatten(rs: seq<IntRange>): seq<int> {
    if rs == [] then [] else Flatten(rs[..|rs| - 1]) + Elements(rs[|rs| - 1])
  }

  /** Some range of `rs` contains `x`. */
  predicate Covered(rs: seq<IntRange>, x: int) {
    exists k :: 0 <= k < |rs| && rs[k].Contains(x)
  }

  /**
   * The maximal runs of consecutive values of `vs`, in order: a new run starts
   * whenever a value is not the previous one plus one.
   */
  function Runs(vs: seq<int>): seq<IntRange> {
    if vs == [] then []
    else
      var rs := Runs(vs[..|vs| - 1]);
      var v := vs[|vs| - 1];
      if rs != [] && v == rs[|rs| - 1].last + 1 then rs[..|rs| - 1] + [IntRange(rs[|rs| - 1].first, v)]
      else rs + [IntRange(v, v)]
  }

  /** Runs are non-empty and no run continues the one before it. */
  predicate MaximalRuns(rs: seq<IntRange>) {
    (forall k :: 0 <= k < |rs| ==> !rs[k].IsEmpty())
    && (forall k :: 0 < k < |rs| ==> rs[k].first != rs[k - 1].last + 1)
  }

  lemma {:induction false} FlattenSnoc(rs: seq<IntRange>, r: IntRange)
    ensures Flatten(rs + [r]) == Flatten(rs) + Elements(r)
  {
    assert (rs + [r])[..|rs|] == rs;
  }

  lemma {:induction false} ElementsExtend(first: int, last: int)
    requires first <= last + 1
    ensures Elements(IntRange(first, last + 1)) == Elements(IntRange(first, last)) + [last + 1]
  {
  }

  /** The last run of non-empty values ends with the last value. */
  lemma {:induction false} RunsLast(vs: seq<int>)
    requires vs != []
    ensures Runs(vs) != [] && Runs(vs)[|Runs(vs)| - 1].last == vs[|vs| - 1]
  {
  }

  lemma {:induction false} FlattenExtendLast(front: seq<IntRange>, lastRun: IntRange, v: int)
    requires !lastRun.IsEmpty() && v == lastRun.last + 1
    ensures Flatten(front + [IntRange(lastRun.first, v)]) == Flatten(front + [lastRun]) + [v]
  {
    FlattenSnoc(front, IntRange(lastRun.first, v));
    ElementsExtend(lastRun.first, lastRun.last);
    FlattenSnoc(front, lastRun);
  }

  /** `Runs` loses and invents nothing: the runs' elements are exactly the values. */
  lemma {:induction false} RunsFlatten(vs: seq<int>)
    ensures Flatten(Runs(vs)) == vs
  {
    if vs != [] {
      var init := vs[..|vs| - 1];
      RunsFlatten(init);
      assert vs == init + [vs[|vs| - 1]];
      RunsFlattenSnoc(init, vs[|vs| - 1]);
    }
  }

  lemma {:induction false} RunsFlattenSnoc(init: seq<int>, v: int)
    requires Flatten(Runs(init)) == init
    ensures Flatten(Runs(init + [v])) == init + [v]
  {
    var vs := init + [v];
    assert vs[..|vs| - 1] == init && vs[|vs| - 1] == v;
    var rs := Runs(init);
    if rs != [] && v == rs[|rs| - 1].last + 1 {
      var front := rs[..|rs| - 1];
      assert Runs(vs) == front + [IntRange(rs[|rs| - 1].first, v)];
      RunsMaximal(init);
      assert rs == front + [rs[|rs| - 1]];
      FlattenExtendLast(front, rs[|rs| - 1], v);
    } else {
      assert Runs(vs) == rs + [IntRange(v, v)];
      FlattenSnoc(rs, IntRange(v, v));
      assert Elements(IntRange(v, v)) == [v];
    }
  }

  /** The runs are non-empty and maximal. */
  lemma {:induction false} RunsMaximal(vs: seq<int>)
    ensures MaximalRuns(Runs(vs))
  {
    if vs != [] {
      var init := vs[..|vs| - 1];
      RunsMaximal(init);
      var rs := Runs(init);
      var v := vs[|vs| - 1];
      if rs != [] && v == rs[|rs| - 1].last + 1 {
        var front := rs[..|rs| - 1];
        var out := front + [IntRange(rs[|rs| - 1].first, v)];
        assert Runs(vs) == out;
        assert forall k :: 0 <= k < |front| ==> out[k] == rs[k];
      } else {
        var out := rs + [IntRange(v, v)];
        assert Runs(vs) == out;
        assert forall k :: 0 <= k < |rs| ==> out[k] == rs[k];
      }
    }
  }

  /** A run of consecutive values is one range. */
  lemma {:induction false} RunsOfRange(r: IntRange)
    requires !r.IsEmpty()
    ensures Runs(Elements(r)) == [r]
    decreases r.Size()
  {
    if r.first == r.last {
      assert Elements(r) == [r.first];
    } else {
      var shorter := IntRange(r.first, r.last - 1);
      RunsOfRange(shorter);
      assert Elements(r)[..|Elements(r)| - 1] == Elements(shorter);
    }
  }

  lemma {:induction false} ElementsIn(r: IntRange, x: int)
    ensures r.Contains(x) <==> x in Elements(r)
  {
    if r.Contains(x) {
      assert Elements(r)[x - r.first] == x;
    }
  }

  /** A value is in the flattening exactly when some range covers it. */
  lemma {:induction false} FlattenCovered(rs: seq<IntRange>, x: int)
    ensures x in Flatten(rs) <==> Covered(rs, x)
  {
    if rs != [] {
      var init := rs[..|rs| - 1];
      FlattenCovered(init, x);
      ElementsIn(rs[|rs| - 1], x);
      if Covered(init, x) {
        var k :| 0 <= k < |init| && init[k].Contains(x);
        assert rs[k] == init[k];
      }
      if Covered(rs, x) && !rs[|rs| - 1].Contains(x) {
        var k :| 0 <= k < |rs| && rs[k].Contains(x);
        assert init[k] == rs[k];
      }
    }
  }
}
