/**
 * `nextOrNull` and `expandPath` of doc-processor-gradle-plugin's docUtils.kt:
 * a dotted path written relative to the path of the current documentable,
 * expanded to a full path.
 */
module GradlePaths {
  import opened Wrappers
  import opened Text

  /**
   * `nextOrNull` (line 126) on an iterator over `xs` that has handed out `i`
   * elements: the next element, or `None` once `xs` is exhausted.
   */
  function NextOrNull<T>(xs: seq<T>, i: nat): (r: Option<T>)
    ensures r.Some? <==> i < |xs|
    ensures r.Some? ==> r.value == xs[i]
  {
    if i < |xs| then Some(xs[i]) else None
  }

  /** Every segment followed by a dot, the way the loop of lines 148-160 adds them to `result`. */
  function Dotted(xs: seq<string>): string {
    if xs == [] then "" else xs[0] + "." + Dotted(xs[1..])
  }

  /**
   * What the loop of lines 148-160 appends to `result` while `ts` targets and
   * `ps` parents are left: a shared head once, otherwise the next parent, and
   * the targets only when no parent is left.
   */
  function Walk(ts: seq<string>, ps: seq<string>): string
    decreases |ts| + |ps|
  {
    if ts == [] && ps == [] then ""
    else if ts != [] && ps != [] && ts[0] == ps[0] then ps[0] + "." + Walk(ts[1..], ps[1..])
    else if ps != [] then ps[0] + "." + Walk(ts, ps[1..])
    else ts[0] + "." + Walk(ts[1..], ps)
  }

  /**
   * `dropLastWhile { it == '.' }` (line 162): the longest prefix that does
   * not end with a dot such that only dots follow it.
   */
  function DropTrailingDots(s: string): (r: string)
    ensures |r| <= |s| && r == s[..|r|]
    ensures r == [] || r[|r| - 1] != '.'
    ensures forall k :: |r| <= k < |s| ==> s[k] == '.'
  {
    if s != [] && s[|s| - 1] == '.' then DropTrailingDots(s[..|s| - 1]) else s
  }

  /** `expandPath` (lines 133-163), as a value. */
  function Expansion(target: string, current: string): (r: string)
    ensures target == [] ==> r == current
    ensures current == [] ==> r == target
    ensures target != [] && current != [] ==> (r == [] || r[|r| - 1] != '.')
  {
    if target == [] && current == [] then ""
    else if target == [] then current
    else if current == [] then target
    else DropTrailingDots(Walk(Split(target, '.'), Split(current, '.')))
  }

  /** `expandPath` (lines 133-163), with its two iterators and the loop that builds `result`. */
  method ExpandPath(target: string, current: string) returns (r: string)
    ensures r == Expansion(target, current)
  {
    if target == [] && current == [] {
      return "";
    }
    if target == [] {
      return current;
    }
    if current == [] {
      return target;
    }
    var targetPath := Split(target, '.');
    var parentPath := Split(current, '.');
    var result := "";
    var ti, pi := 0, 0;
    var nextTarget := NextOrNull(targetPath, ti);
    var nextParent := NextOrNull(parentPath, pi);
    while nextTarget.Some? || nextParent.Some?
      invariant ti <= |targetPath| && pi <= |parentPath|
      invariant nextTarget == NextOrNull(targetPath, ti) && nextParent == NextOrNull(parentPath, pi)
      invariant result + Walk(targetPath[ti..], parentPath[pi..]) == Walk(targetPath, parentPath)
      decreases |targetPath| - ti + |parentPath| - pi
    {
      ghost var ts, ps := targetPath[ti..], parentPath[pi..];
      if nextTarget == nextParent {
        assert ts[1..] == targetPath[ti + 1..] && ps[1..] == parentPath[pi + 1..];
        Appended(result, ps[0], Walk(ts[1..], ps[1..]));
        result := result + nextParent.value + ".";
        ti, pi := ti + 1, pi + 1;
        nextTarget := NextOrNull(targetPath, ti);
        nextParent := NextOrNull(parentPath, pi);
      } else if nextParent.Some? {
        assert ps[1..] == parentPath[pi + 1..];
        Appended(result, ps[0], Walk(ts, ps[1..]));
        result := result + nextParent.value + ".";
        pi := pi + 1;
        nextParent := NextOrNull(parentPath, pi);
      } else {
        assert ts[1..] == targetPath[ti + 1..];
        Appended(result, ts[0], Walk(ts[1..], ps));
        result := result + nextTarget.value + ".";
        ti := ti + 1;
        nextTarget := NextOrNull(targetPath, ti);
      }
    }
    assert targetPath[ti..] == [] && parentPath[pi..] == [];
    assert result == Walk(targetPath, parentPath);
    r := DropTrailingDots(result);
    assert r == Expansion(target, current);
  }

  lemma Regrouped(a: string, b: string, c: string)
    ensures a + b + c == a + (b + c)
  {
  }

  lemma Appended(result: string, x: string, w: string)
    ensures result + (x + "." + w) == result + x + "." + w
  {
  }

  // ---------------------------------------------------------------------------
  // What the walk produces
  // ---------------------------------------------------------------------------

  /**
   * The targets the walk does not meet as it passes the parents: a target is
   * used up when it equals the parent the walk is at.
   */
  function Unmatched(ts: seq<string>, ps: seq<string>): (u: seq<string>)
    ensures |u| <= |ts| && u == ts[|ts| - |u|..]
    decreases |ps|
  {
    if ps == [] then ts
    else if ts != [] && ts[0] == ps[0] then Unmatched(ts[1..], ps[1..])
    else Unmatched(ts, ps[1..])
  }

  /** The walk keeps every parent, in order, and then adds the targets it did not meet. */
  lemma {:induction false} WalkParentsFirst(ts: seq<string>, ps: seq<string>)
    ensures Walk(ts, ps) == Dotted(ps) + Dotted(Unmatched(ts, ps))
    decreases |ts| + |ps|
  {
    if ps == [] {
      WalkTargets(ts);
    } else if ts != [] && ts[0] == ps[0] {
      WalkParentsFirst(ts[1..], ps[1..]);
    } else {
      WalkParentsFirst(ts, ps[1..]);
    }
  }

  lemma {:induction false} WalkTargets(ts: seq<string>)
    ensures Walk(ts, []) == Dotted(ts)
  {
    if ts != [] {
      WalkTargets(ts[1..]);
    }
  }

  /** `ts` occurs in `ps` in order, not necessarily next to each other. */
  predicate Subsequence(ts: seq<string>, ps: seq<string>)
    decreases |ps|
  {
    ts == [] || (ps != [] && ((ts[0] == ps[0] && Subsequence(ts[1..], ps[1..])) || Subsequence(ts, ps[1..])))
  }

  lemma {:induction false} SubsequenceTail(ts: seq<string>, ps: seq<string>)
    requires ts != [] && Subsequence(ts, ps)
    ensures Subsequence(ts[1..], ps)
    decreases |ps|
  {
    if ts[0] == ps[0] && Subsequence(ts[1..], ps[1..]) {
      SubsequenceLonger(ts[1..], ps[0], ps[1..]);
      assert [ps[0]] + ps[1..] == ps;
    } else {
      SubsequenceTail(ts, ps[1..]);
      SubsequenceLonger(ts[1..], ps[0], ps[1..]);
      assert [ps[0]] + ps[1..] == ps;
    }
  }

  lemma {:induction false} SubsequenceLonger(ts: seq<string>, p: string, ps: seq<string>)
    requires Subsequence(ts, ps)
    ensures Subsequence(ts, [p] + ps)
  {
    assert ([p] + ps)[1..] == ps;
  }

  /** Matching each target to the first parent equal to it finds every target exactly for a subsequence. */
  lemma {:induction false} UnmatchedNoneIffSubsequence(ts: seq<string>, ps: seq<string>)
    ensures Unmatched(ts, ps) == [] <==> Subsequence(ts, ps)
    decreases |ps|
  {
    if ps != [] {
      if ts != [] && ts[0] == ps[0] {
        UnmatchedNoneIffSubsequence(ts[1..], ps[1..]);
        if Subsequence(ts, ps[1..]) {
          SubsequenceTail(ts, ps[1..]);
        }
      } else {
        UnmatchedNoneIffSubsequence(ts, ps[1..]);
      }
    }
  }

  lemma {:induction false} DottedJoin(xs: seq<string>)
    requires xs != []
    ensures Dotted(xs) == Join(xs, ".") + "."
  {
    if |xs| > 1 {
      DottedJoin(xs[1..]);
    }
  }

  lemma {:induction false} DottedConcat(a: seq<string>, b: seq<string>)
    ensures Dotted(a + b) == Dotted(a) + Dotted(b)
  {
    if a != [] {
      assert (a + b)[1..] == a[1..] + b;
      DottedConcat(a[1..], b);
    } else {
      assert a + b == b;
    }
  }

  /** Only the dot after `s` goes, when `s` itself does not end with a dot. */
  lemma DropOneDot(s: string)
    requires s == [] || s[|s| - 1] != '.'
    ensures DropTrailingDots(s + ".") == s
  {
    var r := DropTrailingDots(s + ".");
    assert |r| == |s|;
    assert r == (s + ".")[..|s|];
  }

  /** Dropping dots never reaches into a leading part that does not end with a dot. */
  lemma DropKeepsPrefix(a: string, b: string)
    requires a != [] && a[|a| - 1] != '.'
    ensures StartsWith(DropTrailingDots(a + b), a)
  {
    var r := DropTrailingDots(a + b);
    assert |r| >= |a|;
    assert r[..|a|] == (a + b)[..|a|] == a;
  }

  // ---------------------------------------------------------------------------
  // expandPath
  // ---------------------------------------------------------------------------

  /** For two non-empty paths the result is the current path, a dot, and the unmet targets. */
  lemma {:induction false} ExpansionShape(target: string, current: string)
    requires target != [] && current != []
    ensures Expansion(target, current)
      == DropTrailingDots(current + "." + Dotted(Unmatched(Split(target, '.'), Split(current, '.'))))
  {
    var ps := Split(current, '.');
    WalkParentsFirst(Split(target, '.'), ps);
    DottedJoin(ps);
    JoinSplit(current, '.');
  }

  /** The expansion starts with the current path, when that does not end with a dot. */
  lemma {:induction false} ExpansionExtendsCurrent(target: string, current: string)
    requires target != [] && current != [] && current[|current| - 1] != '.'
    ensures StartsWith(Expansion(target, current), current)
  {
    var d := Dotted(Unmatched(Split(target, '.'), Split(current, '.')));
    assert Expansion(target, current) == DropTrailingDots(current + ("." + d)) by {
      ExpansionShape(target, current);
      Regrouped(current, ".", d);
    }
    DropKeepsPrefix(current, "." + d);
  }

  /** A target whose segments all occur in order in the current path expands to the current path. */
  lemma {:induction false} ExpansionOfSubsequence(target: string, current: string)
    requires target != [] && current != [] && current[|current| - 1] != '.'
    requires Subsequence(Split(target, '.'), Split(current, '.'))
    ensures Expansion(target, current) == current
  {
    ExpansionShape(target, current);
    UnmatchedNoneIffSubsequence(Split(target, '.'), Split(current, '.'));
    assert current + "." + Dotted([]) == current + ".";
    DropOneDot(current);
  }

  lemma {:induction false} UnmatchedSkip(ts: seq<string>, pre: seq<string>, ps: seq<string>)
    requires ts != [] && ts[0] !in pre
    ensures Unmatched(ts, pre + ps) == Unmatched(ts, ps)
  {
    if pre != [] {
      assert (pre + ps)[0] == pre[0] && (pre + ps)[1..] == pre[1..] + ps;
      UnmatchedSkip(ts, pre[1..], ps);
    } else {
      assert pre + ps == ps;
    }
  }

  lemma {:induction false} UnmatchedShared(shared: seq<string>, extra: seq<string>)
    ensures Unmatched(shared + extra, shared) == extra
  {
    if shared != [] {
      assert (shared + extra)[0] == shared[0] && (shared + extra)[1..] == shared[1..] + extra;
      UnmatchedShared(shared[1..], extra);
    } else {
      assert shared + extra == extra;
    }
  }

  /** Segments that can be joined with dots and split back. */
  predicate Segments(xs: seq<string>) {
    forall k :: 0 <= k < |xs| ==> xs[k] != [] && '.' !in xs[k]
  }

  lemma SegmentsSplit(xs: seq<string>, a: seq<string>, b: seq<string>)
    requires Segments(xs) && xs == a + b
    ensures Segments(a) && Segments(b)
  {
    assert forall k :: 0 <= k < |a| ==> a[k] == xs[k];
    assert forall k :: 0 <= k < |b| ==> b[k] == xs[|a| + k];
  }

  lemma {:induction false} JoinNonEmpty(xs: seq<string>)
    requires xs != [] && Segments(xs)
    ensures Join(xs, ".") != [] && Join(xs, ".")[|Join(xs, ".")| - 1] != '.'
  {
    if |xs| > 1 {
      JoinNonEmpty(xs[1..]);
      var j := Join(xs[1..], ".");
      assert Join(xs, ".") == xs[0] + "." + j;
    } else {
      assert xs[0][|xs[0]| - 1] in xs[0];
    }
  }

  /**
   * The case the comment of lines 128-132 describes: a target that starts
   * where the current path goes on (`shared`) is completed with the part of
   * the current path before it (`pre`).
   */
  lemma {:induction false} ExpandRelative(pre: seq<string>, shared: seq<string>, extra: seq<string>)
    requires shared != [] && shared[0] !in pre
    requires Segments(pre + shared + extra)
    ensures Expansion(Join(shared + extra, "."), Join(pre + shared, ".")) == Join(pre + shared + extra, ".")
  {
    var all := pre + shared + extra;
    var ts, ps := shared + extra, pre + shared;
    assert all == pre + ts && all == ps + extra;
    assert Segments(ts) && Segments(ps) by {
      SegmentsSplit(all, pre, ts);
      SegmentsSplit(all, ps, extra);
    }
    var target, current := Join(ts, "."), Join(ps, ".");
    assert target != [] && current != [] && current[|current| - 1] != '.' by {
      JoinNonEmpty(ts);
      JoinNonEmpty(ps);
    }
    assert Unmatched(Split(target, '.'), Split(current, '.')) == extra by {
      SplitJoin(ts, '.');
      SplitJoin(ps, '.');
      UnmatchedSkip(ts, pre, shared);
      UnmatchedShared(shared, extra);
    }
    ExpansionShape(target, current);
    assert current + "." + Dotted(extra) == Join(all, ".") + "." by {
      DottedJoin(ps);
      DottedConcat(ps, extra);
      DottedJoin(all);
    }
    assert Join(all, ".") == [] || Join(all, ".")[|Join(all, ".")| - 1] != '.' by {
      JoinNonEmpty(all);
    }
    DropOneDot(Join(all, "."));
  }

  /** The example of lines 129-131. */
  lemma ExpansionExample(target: string, current: string)
    requires target == "plugin.Class.Class2" && current == "com.example.plugin.Class"
    ensures Expansion(target, current) == "com.example.plugin.Class.Class2"
  {
    var pre, shared, extra := ["com", "example"], ["plugin", "Class"], ["Class2"];
    assert shared + extra == ["plugin", "Class", "Class2"];
    assert pre + shared == ["com", "example", "plugin", "Class"];
    assert pre + shared + extra == ["com", "example", "plugin", "Class", "Class2"];
    ExampleTarget();
    ExampleCurrent();
    ExampleResult();
    ExpandRelative(pre, shared, extra);
  }

  lemma ExampleTarget()
    ensures Join(["plugin", "Class", "Class2"], ".") == "plugin.Class.Class2"
  {
    JoinThree("plugin", "Class", "Class2");
  }

  lemma ExampleCurrent()
    ensures Join(["com", "example", "plugin", "Class"], ".") == "com.example.plugin.Class"
  {
    JoinFour("com", "example", "plugin", "Class");
  }

  lemma ExampleResult()
    ensures Join(["com", "example", "plugin", "Class", "Class2"], ".") == "com.example.plugin.Class.Class2"
  {
    JoinFive("com", "example", "plugin", "Class", "Class2");
  }

  lemma JoinThree(a: string, b: string, c: string)
    ensures Join([a, b, c], ".") == a + "." + b + "." + c
  {
    assert [a, b, c][1..] == [b, c] && [b, c][1..] == [c];
    assert Join([c], ".") == c;
    assert Join([b, c], ".") == b + "." + c;
  }

  lemma JoinFour(a: string, b: string, c: string, d: string)
    ensures Join([a, b, c, d], ".") == a + "." + b + "." + c + "." + d
  {
    assert [a, b, c, d][1..] == [b, c, d];
    JoinThree(b, c, d);
  }

  lemma JoinFive(a: string, b: string, c: string, d: string, e: string)
    ensures Join([a, b, c, d, e], ".") == a + "." + b + "." + c + "." + d + "." + e
  {
    assert [a, b, c, d, e][1..] == [b, c, d, e];
    JoinFour(b, c, d, e);
  }
}
