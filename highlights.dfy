/**
 * `HighlightInfo` of `kodex-common/.../intellij/HighlightInfo.kt`: the
 * highlights a tag processor reports on a doc, with `applyMapping`,
 * `removeIndices` and `contains`.
 */
module Highlights {
  import opened Ranges
  import opened RangeMapping

  /** `HighlightType` (lines 25-52). */
  datatype HighlightType = Bracket | Tag | TagKey | TagValue | Comment | CommentTag | Background

  /** `HighlightInfo` (lines 17-23). */
  datatype HighlightInfo = HighlightInfo(
    ranges: seq<IntRange>,
    kind: HighlightType,
    related: seq<HighlightInfo>,
    tagProcessorName: string,
    description: string)

  // ---------------------------------------------------------------------------
  // The ranges of one highlight
  // ---------------------------------------------------------------------------

  /** `mapToRanges(mapping)` of `utils/DocUtils.kt`, as `MapToRanges` computes it. */
  function MappedRanges(r: IntRange, mapping: int -> int): seq<IntRange> {
    Runs(MappedValues(r.first, r.Size(), mapping))
  }

  /** `remove(predicate)` of `utils/DocUtils.kt`, as `Remove` computes it. */
  function RemainingRanges(r: IntRange, removed: iset<int>): seq<IntRange> {
    Runs(KeptValues(r.first, r.Size(), removed))
  }

  /** Line 63: `ranges.flatMap { it.mapToRanges(mapping) }`. */
  function MapAll(rs: seq<IntRange>, mapping: int -> int): seq<IntRange> {
    if rs == [] then [] else MappedRanges(rs[0], mapping) + MapAll(rs[1..], mapping)
  }

  /** Line 74: `ranges.flatMap { it.remove(predicate) }`. */
  function RemoveAll(rs: seq<IntRange>, removed: iset<int>): seq<IntRange> {
    if rs == [] then [] else RemainingRanges(rs[0], removed) + RemoveAll(rs[1..], removed)
  }

  // ---------------------------------------------------------------------------
  // applyMapping, removeIndices, contains (lines 60-82)
  // ---------------------------------------------------------------------------

  /** Lines 62-68 for one highlight, before `takeUnless { it.ranges.isEmpty() }`. */
  function Mapped(h: HighlightInfo, mapping: int -> int): HighlightInfo
    decreases h, 0
  {
    HighlightInfo(MapAll(h.ranges, mapping), h.kind, ApplyMapping(h.related, mapping), h.tagProcessorName, h.description)
  }

  /** `applyMapping` (lines 60-69). */
  function ApplyMapping(hs: seq<HighlightInfo>, mapping: int -> int): seq<HighlightInfo>
    decreases hs, 1
  {
    if hs == [] then []
    else
      var m := Mapped(hs[0], mapping);
      (if m.ranges == [] then [] else [m]) + ApplyMapping(hs[1..], mapping)
  }

  /** Lines 73-79 for one highlight, before `takeUnless { it.ranges.isEmpty() }`. */
  function Removed(h: HighlightInfo, removed: iset<int>): HighlightInfo
    decreases h, 0
  {
    HighlightInfo(RemoveAll(h.ranges, removed), h.kind, RemoveIndices(h.related, removed), h.tagProcessorName, h.description)
  }

  /** `removeIndices` (lines 71-80), with the predicate as the set of indices it holds for. */
  function RemoveIndices(hs: seq<HighlightInfo>, removed: iset<int>): seq<HighlightInfo>
    decreases hs, 1
  {
    if hs == [] then []
    else
      var m := Removed(hs[0], removed);
      (if m.ranges == [] then [] else [m]) + RemoveIndices(hs[1..], removed)
  }

  /** `ranges.any { index in it }`. */
  function AnyContains(rs: seq<IntRange>, index: int): bool {
    rs != [] && (rs[0].Contains(index) || AnyContains(rs[1..], index))
  }

  /** `HighlightInfo.contains` (line 82). */
  function Contains(h: HighlightInfo, index: int): bool {
    AnyContains(h.ranges, index)
  }

  // ---------------------------------------------------------------------------
  // Shapes of highlight lists
  // ---------------------------------------------------------------------------

  /** Every highlight, at every depth of `related`, has at least one range. */
  predicate Pruned(hs: seq<HighlightInfo>)
    decreases hs
  {
    hs == [] || (hs[0].ranges != [] && Pruned(hs[0].related) && Pruned(hs[1..]))
  }

  /** Every range of every highlight, at every depth, is non-empty. */
  predicate Proper(hs: seq<HighlightInfo>)
    decreases hs
  {
    hs == []
    || ((forall k :: 0 <= k < |hs[0].ranges| ==> !hs[0].ranges[k].IsEmpty())
        && Proper(hs[0].related) && Proper(hs[1..]))
  }

  /** No range of any highlight, at any depth, covers an index of `removed`. */
  ghost predicate Avoids(hs: seq<HighlightInfo>, removed: iset<int>)
    decreases hs
  {
    hs == []
    || ((forall x :: Covered(hs[0].ranges, x) ==> x !in removed)
        && Avoids(hs[0].related, removed) && Avoids(hs[1..], removed))
  }

  // ---------------------------------------------------------------------------
  // Coverage of the flat-mapped ranges
  // ---------------------------------------------------------------------------

  lemma {:induction false} CoveredConcat(a: seq<IntRange>, b: seq<IntRange>, x: int)
    ensures Covered(a + b, x) <==> Covered(a, x) || Covered(b, x)
  {
    if Covered(a + b, x) {
      var k :| 0 <= k < |a + b| && (a + b)[k].Contains(x);
      if k >= |a| {
        assert b[k - |a|] == (a + b)[k];
      }
    }
    if Covered(a, x) {
      var k :| 0 <= k < |a| && a[k].Contains(x);
      assert (a + b)[k] == a[k];
    }
    if Covered(b, x) {
      var k :| 0 <= k < |b| && b[k].Contains(x);
      assert (a + b)[|a| + k] == b[k];
    }
  }

  lemma {:induction false} CoveredCons(rs: seq<IntRange>, x: int)
    requires rs != []
    ensures Covered(rs, x) <==> rs[0].Contains(x) || Covered(rs[1..], x)
  {
    assert rs == [rs[0]] + rs[1..];
    CoveredConcat([rs[0]], rs[1..], x);
  }

  /** `index in range` for some range is the same as some range covering it. */
  lemma {:induction false} AnyContainsCovered(rs: seq<IntRange>, index: int)
    ensures AnyContains(rs, index) <==> Covered(rs, index)
  {
    if rs != [] {
      AnyContainsCovered(rs[1..], index);
      CoveredCons(rs, index);
    }
  }

  /** The mapped ranges of one range cover exactly the images of its indices. */
  lemma {:induction false} MappedRangesCover(r: IntRange, mapping: int -> int, y: int)
    ensures Covered(MappedRanges(r, mapping), y) <==> exists x :: r.Contains(x) && mapping(x) == y
  {
    var vs := MappedValues(r.first, r.Size(), mapping);
    RunsFlatten(vs);
    FlattenCovered(Runs(vs), y);
    if y in vs {
      var k :| 0 <= k < |vs| && vs[k] == y;
      assert r.Contains(r.first + k) && mapping(r.first + k) == y;
    }
    if exists x :: r.Contains(x) && mapping(x) == y {
      var x :| r.Contains(x) && mapping(x) == y;
      assert vs[x - r.first] == y;
    }
  }

  /** `MapAll` covers exactly the images of the indices the ranges cover. */
  lemma {:induction false} MapAllCovers(rs: seq<IntRange>, mapping: int -> int, y: int)
    ensures Covered(MapAll(rs, mapping), y) <==> exists x :: Covered(rs, x) && mapping(x) == y
  {
    if rs != [] {
      MapAllCovers(rs[1..], mapping, y);
      MappedRangesCover(rs[0], mapping, y);
      CoveredConcat(MappedRanges(rs[0], mapping), MapAll(rs[1..], mapping), y);
      if exists x :: Covered(rs, x) && mapping(x) == y {
        var x :| Covered(rs, x) && mapping(x) == y;
        CoveredCons(rs, x);
      }
      if exists x :: rs[0].Contains(x) && mapping(x) == y {
        var x :| rs[0].Contains(x) && mapping(x) == y;
        CoveredCons(rs, x);
      }
      if exists x :: Covered(rs[1..], x) && mapping(x) == y {
        var x :| Covered(rs[1..], x) && mapping(x) == y;
        CoveredCons(rs, x);
      }
    }
  }

  /** `RemoveAll` covers exactly the covered indices that are not removed. */
  lemma {:induction false} RemoveAllCovers(rs: seq<IntRange>, removed: iset<int>, x: int)
    ensures Covered(RemoveAll(rs, removed), x) <==> Covered(rs, x) && x !in removed
  {
    if rs != [] {
      RemoveAllCovers(rs[1..], removed, x);
      RemoveCovers(rs[0], removed, x);
      CoveredConcat(RemainingRanges(rs[0], removed), RemoveAll(rs[1..], removed), x);
      CoveredCons(rs, x);
    }
  }

  /** A range that covers something leaves non-empty mapped ranges. */
  lemma {:induction false} MapAllNonEmpty(rs: seq<IntRange>, mapping: int -> int, x: int)
    requires Covered(rs, x)
    ensures MapAll(rs, mapping) != []
  {
    MapAllCovers(rs, mapping, mapping(x));
  }

  // ---------------------------------------------------------------------------
  // What applyMapping and removeIndices promise
  // ---------------------------------------------------------------------------

  /** `contains` is "some range contains the index". */
  lemma ContainsCovered(h: HighlightInfo, index: int)
    ensures Contains(h, index) <==> Covered(h.ranges, index)
  {
    AnyContainsCovered(h.ranges, index);
  }

  /**
   * A mapped highlight keeps its type, tag processor and description, maps its
   * related highlights, and contains exactly the images of the indices it contained.
   */
  lemma MappedMeaning(h: HighlightInfo, mapping: int -> int, y: int)
    ensures Mapped(h, mapping).kind == h.kind
    ensures Mapped(h, mapping).tagProcessorName == h.tagProcessorName
    ensures Mapped(h, mapping).description == h.description
    ensures Mapped(h, mapping).related == ApplyMapping(h.related, mapping)
    ensures Contains(Mapped(h, mapping), y) <==> exists x :: Contains(h, x) && mapping(x) == y
  {
    ContainsCovered(Mapped(h, mapping), y);
    MapAllCovers(h.ranges, mapping, y);
    if exists x :: Covered(h.ranges, x) && mapping(x) == y {
      var x :| Covered(h.ranges, x) && mapping(x) == y;
      ContainsCovered(h, x);
    }
    if exists x :: Contains(h, x) && mapping(x) == y {
      var x :| Contains(h, x) && mapping(x) == y;
      ContainsCovered(h, x);
    }
  }

  /**
   * A highlight with its removed indices dropped keeps its type, tag processor
   * and description, and contains exactly the indices it contained that are not removed.
   */
  lemma RemovedMeaning(h: HighlightInfo, removed: iset<int>, x: int)
    ensures Removed(h, removed).kind == h.kind
    ensures Removed(h, removed).tagProcessorName == h.tagProcessorName
    ensures Removed(h, removed).description == h.description
    ensures Removed(h, removed).related == RemoveIndices(h.related, removed)
    ensures Contains(Removed(h, removed), x) <==> Contains(h, x) && x !in removed
  {
    ContainsCovered(Removed(h, removed), x);
    ContainsCovered(h, x);
    RemoveAllCovers(h.ranges, removed, x);
  }

  /** `applyMapping` drops every highlight (at every depth) whose ranges all map to nothing. */
  lemma {:induction false} ApplyMappingPruned(hs: seq<HighlightInfo>, mapping: int -> int)
    ensures Pruned(ApplyMapping(hs, mapping))
    decreases hs
  {
    if hs != [] {
      ApplyMappingPruned(hs[0].related, mapping);
      ApplyMappingPruned(hs[1..], mapping);
      var m := Mapped(hs[0], mapping);
      var out := ApplyMapping(hs, mapping);
      if m.ranges != [] {
        assert out[0] == m && out[1..] == ApplyMapping(hs[1..], mapping);
      } else {
        assert out == ApplyMapping(hs[1..], mapping);
      }
    }
  }

  /**
   * Every highlight `applyMapping` returns is the mapping of one of its inputs,
   * and every input that contained an index is returned mapped.
   */
  lemma {:induction false} ApplyMappingMembers(hs: seq<HighlightInfo>, mapping: int -> int)
    ensures forall o :: o in ApplyMapping(hs, mapping) ==> exists h :: h in hs && o == Mapped(h, mapping)
    ensures forall h, x :: h in hs && Contains(h, x) ==> Mapped(h, mapping) in ApplyMapping(hs, mapping)
  {
    if hs != [] {
      ApplyMappingMembers(hs[1..], mapping);
      var rest := ApplyMapping(hs[1..], mapping);
      forall o | o in ApplyMapping(hs, mapping)
        ensures exists h :: h in hs && o == Mapped(h, mapping)
      {
        if o in rest {
          var h :| h in hs[1..] && o == Mapped(h, mapping);
          assert h in hs;
        } else {
          assert hs[0] in hs;
        }
      }
      forall h, x | h in hs && Contains(h, x)
        ensures Mapped(h, mapping) in ApplyMapping(hs, mapping)
      {
        if h == hs[0] {
          ContainsCovered(h, x);
          MapAllNonEmpty(h.ranges, mapping, x);
        } else {
          assert h in hs[1..];
        }
      }
    }
  }

  /**
   * No highlight `removeIndices` returns, at any depth, covers a removed
   * index, and none has lost all its ranges.
   */
  lemma {:induction false} RemoveIndicesAvoids(hs: seq<HighlightInfo>, removed: iset<int>)
    ensures Avoids(RemoveIndices(hs, removed), removed)
    ensures Pruned(RemoveIndices(hs, removed))
    decreases hs
  {
    if hs != [] {
      RemoveIndicesAvoids(hs[0].related, removed);
      RemoveIndicesAvoids(hs[1..], removed);
      var m := Removed(hs[0], removed);
      var out := RemoveIndices(hs, removed);
      forall x | Covered(m.ranges, x)
        ensures x !in removed
      {
        RemoveAllCovers(hs[0].ranges, removed, x);
      }
      if m.ranges != [] {
        assert out[0] == m && out[1..] == RemoveIndices(hs[1..], removed);
      } else {
        assert out == RemoveIndices(hs[1..], removed);
      }
    }
  }

  /**
   * Every highlight `removeIndices` returns comes from one of its inputs, and
   * an input that contained an index that is not removed is returned.
   */
  lemma {:induction false} RemoveIndicesMembers(hs: seq<HighlightInfo>, removed: iset<int>)
    ensures forall o :: o in RemoveIndices(hs, removed) ==> exists h :: h in hs && o == Removed(h, removed)
    ensures forall h, x :: h in hs && Contains(h, x) && x !in removed ==> Removed(h, removed) in RemoveIndices(hs, removed)
  {
    if hs != [] {
      RemoveIndicesMembers(hs[1..], removed);
      var rest := RemoveIndices(hs[1..], removed);
      forall o | o in RemoveIndices(hs, removed)
        ensures exists h :: h in hs && o == Removed(h, removed)
      {
        if o in rest {
          var h :| h in hs[1..] && o == Removed(h, removed);
          assert h in hs;
        } else {
          assert hs[0] in hs;
        }
      }
      forall h, x | h in hs && Contains(h, x) && x !in removed
        ensures Removed(h, removed) in RemoveIndices(hs, removed)
      {
        if h == hs[0] {
          RemovedMeaning(h, removed, x);
          assert Removed(h, removed).ranges != [];
        } else {
          assert h in hs[1..];
        }
      }
    }
  }

  // ---------------------------------------------------------------------------
  // Neutral arguments
  // ---------------------------------------------------------------------------

  lemma {:induction false} MapAllIdentity(rs: seq<IntRange>, mapping: int -> int)
    requires forall x :: mapping(x) == x
    requires forall k :: 0 <= k < |rs| ==> !rs[k].IsEmpty()
    ensures MapAll(rs, mapping) == rs
  {
    if rs != [] {
      MapAllIdentity(rs[1..], mapping);
      assert MappedValues(rs[0].first, rs[0].Size(), mapping) == Elements(rs[0]);
      RunsOfRange(rs[0]);
    }
  }

  /** Mapping through the identity gives back a proper, pruned list of highlights. */
  lemma {:induction false} ApplyIdentity(hs: seq<HighlightInfo>, mapping: int -> int)
    requires forall x :: mapping(x) == x
    requires Pruned(hs) && Proper(hs)
    ensures ApplyMapping(hs, mapping) == hs
    decreases hs
  {
    if hs != [] {
      ApplyIdentity(hs[0].related, mapping);
      ApplyIdentity(hs[1..], mapping);
      MapAllIdentity(hs[0].ranges, mapping);
      assert hs == [hs[0]] + hs[1..];
    }
  }

  lemma {:induction false} KeptNothing(first: int, count: nat)
    ensures KeptValues(first, count, iset{}) == Elements(IntRange(first, first + count - 1))
  {
    if count > 0 {
      KeptNothing(first, count - 1);
      ElementsExtend(first, first + count - 2);
    }
  }

  lemma {:induction false} RemoveAllNothing(rs: seq<IntRange>)
    requires forall k :: 0 <= k < |rs| ==> !rs[k].IsEmpty()
    ensures RemoveAll(rs, iset{}) == rs
  {
    if rs != [] {
      RemoveAllNothing(rs[1..]);
      KeptNothing(rs[0].first, rs[0].Size());
      RunsOfRange(rs[0]);
    }
  }

  /** Removing no index gives back a proper, pruned list of highlights. */
  lemma {:induction false} RemoveNothing(hs: seq<HighlightInfo>)
    requires Pruned(hs) && Proper(hs)
    ensures RemoveIndices(hs, iset{}) == hs
    decreases hs
  {
    if hs != [] {
      RemoveNothing(hs[0].related);
      RemoveNothing(hs[1..]);
      RemoveAllNothing(hs[0].ranges);
      assert hs == [hs[0]] + hs[1..];
    }
  }
}
