/**
 * `findInlineTagNamesWithRanges`, `findInlineTagNames` and `findTagNames` of
 * `kodex-common/.../docContent/DocContent.kt`: every `{@tag …}` of a doc,
 * nested ones included, with its range, the deepest first.
 */
module InlineTags {
  import opened Wrappers
  import opened Text
  import opened Ranges
  import opened TagNames
  import opened BlockSplit

  /** A tag found by the scan: its name, its inclusive range and how many tags enclose it. */
  datatype Entry = Entry(name: string, range: IntRange, depth: nat)

  /**
   * The scan state: whether the next character is escaped, the start
   * indices of the open `{@` (most recent first, the source's `ArrayDeque`
   * used from its front) and the tags found so far in order of closing.
   */
  datatype Finder = Finder(escapeNext: bool, queue: seq<nat>, found: seq<Entry>)

  /** Every index of `q` lies before `k`. */
  predicate Below(q: seq<nat>, k: nat) {
    forall j :: 0 <= j < |q| ==> q[j] < k
  }

  /** The `when` of lines 171-193 for the character at index `i`. */
  function FinderStep(text: string, i: nat, st: Finder): Finder
    requires i < |text| && Below(st.queue, i)
  {
    var c := text[i];
    if st.escapeNext then st.(escapeNext := false)
    else if c == '\\' then st.(escapeNext := true)
    else if c == '{' && CharAt(text, i + 1).GetOr(' ') == '@' then st.(queue := [i] + st.queue)
    else if c == '}' && st.queue != [] then
      var start := st.queue[0];
      var rest := st.queue[1..];
      var tagName := GetTagNameOrNull(text[start..i + 1]);
      if tagName.Some? then Finder(false, rest, st.found + [Entry(tagName.value, IntRange(start, i), |rest|)])
      else st.(queue := rest)
    else st
  }

  /** The scan state after the first `k` characters. */
  function FinderFold(text: string, k: nat): (st: Finder)
    requires k <= |text|
    ensures Below(st.queue, k) && |st.queue| <= k
  {
    if k == 0 then Finder(false, [], []) else FinderStep(text, k - 1, FinderFold(text, k - 1))
  }

  /** The tags the scan finds, in order of closing. */
  function Entries(text: string): seq<Entry> {
    FinderFold(text, |text|).found
  }

  function Pair(e: Entry): (string, IntRange) {
    (e.name, e.range)
  }

  /** The tags found at depth `d`, in order of closing. */
  function AtDepth(es: seq<Entry>, d: nat): seq<(string, IntRange)> {
    if es == [] then []
    else AtDepth(es[..|es| - 1], d) + (if es[|es| - 1].depth == d then [Pair(es[|es| - 1])] else [])
  }

  /** The groups of depths `hi`, `hi - 1`, …, `hi - n + 1`, one after another. */
  function Descending(es: seq<Entry>, hi: nat, n: nat): seq<(string, IntRange)>
    requires n <= hi + 1
  {
    if n == 0 then [] else Descending(es, hi, n - 1) + AtDepth(es, hi - (n - 1))
  }

  /**
   * Line 194: the values of the map sorted by reverse key, flattened. Depths
   * stay below the length of the text, so every key is among `|text|`, …, `0`.
   */
  function InlineTagsWithRanges(text: string): seq<(string, IntRange)> {
    Descending(Entries(text), |text|, |text| + 1)
  }

  /** `findInlineTagNames` (line 201). */
  function InlineTagNames(text: string): seq<string> {
    Firsts(InlineTagsWithRanges(text))
  }

  /** `findTagNames` (lines 219-221). */
  function AllTagNames(text: string): seq<string> {
    InlineTagNames(text) + BlockTagNames(text)
  }

  /**
   * `findTagNames` lists the inline tag names and then the block tag names,
   * and each of them consists of tag-name characters.
   */
  lemma {:induction false} AllTagNamesChars(text: string, k: nat)
    requires k < |AllTagNames(text)|
    ensures |AllTagNames(text)| == |InlineTagNames(text)| + |BlockTagNames(text)|
    ensures forall c :: 0 <= c < |AllTagNames(text)[k]| ==> TagNameChar(AllTagNames(text)[k][c])
  {
    var i := InlineTagNames(text);
    if k < |i| {
      InlineNamesChars(text, k);
    } else {
      TagNamesChars(Blocks(text, false), k - |i|);
    }
  }

  // ---------------------------------------------------------------------------
  // The method
  // ---------------------------------------------------------------------------

  /** The map of the method holds, per depth, exactly the found tags of that depth. */
  ghost predicate ByDepth(m: map<nat, seq<(string, IntRange)>>, found: seq<Entry>) {
    (forall d :: d in m ==> m[d] == AtDepth(found, d))
    && (forall d :: d !in m ==> AtDepth(found, d) == [])
  }

  lemma {:induction false} AtDepthSnoc(es: seq<Entry>, e: Entry, d: nat)
    ensures AtDepth(es + [e], d) == AtDepth(es, d) + (if e.depth == d then [Pair(e)] else [])
  {
    assert (es + [e])[..|es|] == es;
  }

  /** `map.getOrPut(depth) { mutableListOf() } += …` keeps the map in step with the found tags. */
  lemma {:induction false} ByDepthAdd(m: map<nat, seq<(string, IntRange)>>, found: seq<Entry>, e: Entry)
    requires ByDepth(m, found)
    ensures ByDepth(m[e.depth := (if e.depth in m then m[e.depth] else []) + [Pair(e)]], found + [e])
  {
    forall d
      ensures AtDepth(found + [e], d) == AtDepth(found, d) + (if e.depth == d then [Pair(e)] else [])
    {
      AtDepthSnoc(found, e, d);
    }
  }

  /** One pass of the loop of lines 170-193. */
  method ScanAt(text: string, i: nat, escapeNext: bool, queue: seq<nat>, m: map<nat, seq<(string, IntRange)>>,
                ghost found: seq<Entry>)
    returns (escapeNext': bool, queue': seq<nat>, m': map<nat, seq<(string, IntRange)>>, ghost found': seq<Entry>)
    requires i < |text| && Below(queue, i) && ByDepth(m, found)
    ensures Finder(escapeNext', queue', found') == FinderStep(text, i, Finder(escapeNext, queue, found))
    ensures ByDepth(m', found')
  {
    escapeNext', queue', m', found' := escapeNext, queue, m, found;
    var c := text[i];
    if escapeNext {
      escapeNext' := false;
    } else if c == '\\' {
      escapeNext' := true;
    } else if c == '{' && CharAt(text, i + 1).GetOr(' ') == '@' {
      queue' := [i] + queue;
    } else if c == '}' {
      if queue != [] {
        var start := queue[0];
        queue' := queue[1..];
        var end := i;
        var depth := |queue'|;
        var tag := text[start..end + 1];
        var tagName := GetTagNameOrNull(tag);
        if tagName.Some? {
          var e := Entry(tagName.value, IntRange(start, end), depth);
          ByDepthAdd(m, found, e);
          m' := m[depth := (if depth in m then m[depth] else []) + [(tagName.value, IntRange(start, end))]];
          found' := found + [e];
        }
      }
    }
  }

  /** `map.values.flatten()` over the map sorted by reverse key. */
  method FlattenByDepth(text: string, m: map<nat, seq<(string, IntRange)>>, ghost found: seq<Entry>)
    returns (r: seq<(string, IntRange)>)
    requires ByDepth(m, found)
    ensures r == Descending(found, |text|, |text| + 1)
  {
    r := [];
    for j := 0 to |text| + 1
      invariant r == Descending(found, |text|, j)
    {
      var depth := |text| - j;
      assert Descending(found, |text|, j + 1) == Descending(found, |text|, j) + AtDepth(found, depth);
      if depth in m {
        r := r + m[depth];
      } else {
        assert AtDepth(found, depth) == [];
      }
    }
  }

  /** `findInlineTagNamesWithRanges`, proved to compute `InlineTagsWithRanges`. */
  method FindInlineTagNamesWithRanges(text: string) returns (r: seq<(string, IntRange)>)
    ensures r == InlineTagsWithRanges(text)
  {
    var m: map<nat, seq<(string, IntRange)>> := map[];
    var queue: seq<nat> := [];
    var escapeNext := false;
    ghost var found: seq<Entry> := [];
    for i := 0 to |text|
      invariant Finder(escapeNext, queue, found) == FinderFold(text, i)
      invariant ByDepth(m, found)
    {
      escapeNext, queue, m, found := ScanAt(text, i, escapeNext, queue, m, found);
    }
    r := FlattenByDepth(text, m, found);
  }

  // ---------------------------------------------------------------------------
  // What the scan finds
  // ---------------------------------------------------------------------------

  /** Every open index points at a `{` followed by `@`. */
  predicate Opens(text: string, q: seq<nat>) {
    forall j :: 0 <= j < |q| ==> q[j] + 1 < |text| && text[q[j]] == '{' && text[q[j] + 1] == '@'
  }

  /**
   * `r` spans a `{@` … `}` of the text, both ends included, and `name` is
   * what `getTagNameOrNull` reads from that span.
   */
  predicate Spans(text: string, name: string, r: IntRange) {
    0 <= r.first && r.first + 1 < r.last < |text|
    && text[r.first] == '{' && text[r.first + 1] == '@' && text[r.last] == '}'
    && GetTagNameOrNull(text[r.first..r.last + 1]) == Some(name)
  }

  /** A found tag spans a `{@` … `}` of the text and is named after it. */
  predicate Sound(text: string, e: Entry) {
    Spans(text, e.name, e.range)
  }

  predicate FinderInv(text: string, st: Finder, k: nat) {
    Opens(text, st.queue)
    && forall j :: 0 <= j < |st.found| ==> Sound(text, st.found[j]) && st.found[j].depth < k
  }

  /** An unescaped `{@` opens a tag at `i`. */
  lemma {:induction false} FinderInvPush(text: string, i: nat, st: Finder)
    requires i < |text| && Below(st.queue, i) && FinderInv(text, st, i)
    requires !st.escapeNext && text[i] == '{' && CharAt(text, i + 1).GetOr(' ') == '@'
    ensures FinderInv(text, FinderStep(text, i, st), i + 1)
  {
    var next := FinderStep(text, i, st);
    assert next == st.(queue := [i] + st.queue);
    assert text[i + 1] == '@';
  }

  /** A `}` closes the most recent open tag, named after its span. */
  lemma {:induction false} FinderInvClose(text: string, i: nat, st: Finder)
    requires i < |text| && Below(st.queue, i) && |st.queue| <= i && FinderInv(text, st, i)
    requires !st.escapeNext && text[i] == '}' && st.queue != []
    ensures FinderInv(text, FinderStep(text, i, st), i + 1)
  {
    var start := st.queue[0];
    var rest := st.queue[1..];
    OpensTail(text, st.queue);
    var tagName := GetTagNameOrNull(text[start..i + 1]);
    if tagName.Some? {
      var e := Entry(tagName.value, IntRange(start, i), |rest|);
      assert FinderStep(text, i, st) == Finder(false, rest, st.found + [e]);
      CloseSound(text, start, i, |rest|);
      AllSoundSnoc(text, st.found, e, i);
    } else {
      assert FinderStep(text, i, st) == st.(queue := rest);
    }
  }

  lemma {:induction false} OpensTail(text: string, q: seq<nat>)
    requires Opens(text, q) && q != []
    ensures Opens(text, q[1..])
  {
    assert forall j :: 0 <= j < |q| - 1 ==> q[1..][j] == q[j + 1];
  }

  lemma {:induction false} AllSoundSnoc(text: string, found: seq<Entry>, e: Entry, i: nat)
    requires forall j :: 0 <= j < |found| ==> Sound(text, found[j]) && found[j].depth < i
    requires Sound(text, e) && e.depth < i + 1
    ensures forall j :: 0 <= j < |found + [e]| ==> Sound(text, (found + [e])[j]) && (found + [e])[j].depth < i + 1
  {
    forall j | 0 <= j < |found + [e]|
      ensures Sound(text, (found + [e])[j]) && (found + [e])[j].depth < i + 1
    {
      if j < |found| {
        assert (found + [e])[j] == found[j];
      }
    }
  }

  lemma {:induction false} CloseSound(text: string, start: nat, i: nat, depth: nat)
    requires start + 1 < |text| && text[start] == '{' && text[start + 1] == '@'
    requires start < i < |text| && text[i] == '}'
    requires GetTagNameOrNull(text[start..i + 1]).Some?
    ensures Sound(text, Entry(GetTagNameOrNull(text[start..i + 1]).value, IntRange(start, i), depth))
  {
  }

  lemma {:induction false} FinderInvStep(text: string, i: nat, st: Finder, next: Finder)
    requires i < |text| && Below(st.queue, i) && |st.queue| <= i
    requires FinderInv(text, st, i) && next == FinderStep(text, i, st)
    ensures FinderInv(text, next, i + 1)
  {
    if st.escapeNext || text[i] == '\\' {
      assert next.queue == st.queue && next.found == st.found;
    } else if text[i] == '{' && CharAt(text, i + 1).GetOr(' ') == '@' {
      FinderInvPush(text, i, st);
    } else if text[i] == '}' && st.queue != [] {
      FinderInvClose(text, i, st);
    } else {
      assert next == st;
    }
  }

  lemma {:induction false} FinderInvFold(text: string, k: nat)
    requires k <= |text|
    ensures FinderInv(text, FinderFold(text, k), k)
  {
    if k > 0 {
      FinderInvFold(text, k - 1);
      FinderInvNext(text, k);
    }
  }

  lemma {:induction false} FinderInvNext(text: string, k: nat)
    requires 0 < k <= |text| && FinderInv(text, FinderFold(text, k - 1), k - 1)
    ensures FinderInv(text, FinderFold(text, k), k)
  {
    var i := k - 1;
    var prev := FinderFold(text, i);
    var next := FinderFold(text, k);
    assert next == FinderStep(text, i, prev);
    FinderInvStep(text, i, prev, next);
    assert i + 1 == k;
  }

  /** The number of backslashes directly before index `i`. */
  function BackslashesBefore(text: string, i: nat): nat
    requires i <= |text|
  {
    if i == 0 || text[i - 1] != '\\' then 0 else 1 + BackslashesBefore(text, i - 1)
  }

  /** The character at `i` is not escaped: an even run of backslashes precedes it. */
  predicate Unescaped(text: string, i: nat)
    requires i <= |text|
  {
    BackslashesBefore(text, i) % 2 == 0
  }

  /** One step escapes the next character exactly after an unescaped backslash. */
  lemma {:induction false} StepEscape(text: string, i: nat, st: Finder)
    requires i < |text| && Below(st.queue, i)
    ensures FinderStep(text, i, st).escapeNext <==> !st.escapeNext && text[i] == '\\'
  {
  }

  /** The scan escapes the next character exactly after an odd run of backslashes. */
  lemma {:induction false} EscapeAfterOddRun(text: string, k: nat)
    requires k <= |text|
    ensures FinderFold(text, k).escapeNext <==> !Unescaped(text, k)
  {
    if k > 0 {
      EscapeAfterOddRun(text, k - 1);
      EscapeNext(text, k);
    }
  }

  lemma {:induction false} EscapeNext(text: string, k: nat)
    requires 0 < k <= |text|
    requires FinderFold(text, k - 1).escapeNext <==> !Unescaped(text, k - 1)
    ensures FinderFold(text, k).escapeNext <==> !Unescaped(text, k)
  {
    var i := k - 1;
    var st := FinderFold(text, i);
    assert FinderFold(text, k) == FinderStep(text, i, st);
    StepEscape(text, i, st);
    assert BackslashesBefore(text, k) == if text[i] != '\\' then 0 else 1 + BackslashesBefore(text, i);
  }

  /** Every open `{@` and every found tag of `st` starts at an unescaped `{`. */
  predicate OpensUnescaped(text: string, st: Finder) {
    (forall j :: 0 <= j < |st.queue| ==> st.queue[j] <= |text| && Unescaped(text, st.queue[j]))
    && forall j :: 0 <= j < |st.found| ==>
         0 <= st.found[j].range.first <= |text| && Unescaped(text, st.found[j].range.first)
  }

  /** A step keeps every open `{@` and every found tag unescaped. */
  lemma {:induction false} OpensUnescapedStep(text: string, i: nat, st: Finder)
    requires i < |text| && Below(st.queue, i) && OpensUnescaped(text, st)
    requires st.escapeNext <==> !Unescaped(text, i)
    ensures OpensUnescaped(text, FinderStep(text, i, st))
  {
    var next := FinderStep(text, i, st);
    if st.escapeNext || text[i] == '\\' {
      assert next.queue == st.queue && next.found == st.found;
    } else if text[i] == '{' && CharAt(text, i + 1).GetOr(' ') == '@' {
      assert next.queue == [i] + st.queue && next.found == st.found;
      assert forall j :: 0 < j < |next.queue| ==> next.queue[j] == st.queue[j - 1];
    } else if text[i] == '}' && st.queue != [] {
      var rest := st.queue[1..];
      assert forall j :: 0 <= j < |rest| ==> rest[j] == st.queue[j + 1];
      var tagName := GetTagNameOrNull(text[st.queue[0]..i + 1]);
      if tagName.Some? {
        var e := Entry(tagName.value, IntRange(st.queue[0], i), |rest|);
        assert next == Finder(false, rest, st.found + [e]);
        assert forall j :: 0 <= j < |st.found| ==> (st.found + [e])[j] == st.found[j];
      } else {
        assert next == st.(queue := rest);
      }
    } else {
      assert next == st;
    }
  }

  /** Every open `{@` and every found tag starts at an unescaped `{`. */
  lemma {:induction false} OpenedUnescaped(text: string, k: nat)
    requires k <= |text|
    ensures OpensUnescaped(text, FinderFold(text, k))
  {
    if k > 0 {
      OpenedUnescaped(text, k - 1);
      EscapeAfterOddRun(text, k - 1);
      OpenedUnescapedNext(text, k);
    }
  }

  lemma {:induction false} OpenedUnescapedNext(text: string, k: nat)
    requires 0 < k <= |text| && OpensUnescaped(text, FinderFold(text, k - 1))
    requires FinderFold(text, k - 1).escapeNext <==> !Unescaped(text, k - 1)
    ensures OpensUnescaped(text, FinderFold(text, k))
  {
    var i := k - 1;
    var st := FinderFold(text, i);
    assert FinderFold(text, k) == FinderStep(text, i, st);
    OpensUnescapedStep(text, i, st);
  }

  lemma {:induction false} FoundUnescaped(text: string, j: nat)
    requires j < |Entries(text)|
    ensures 0 <= Entries(text)[j].range.first <= |text| && Unescaped(text, Entries(text)[j].range.first)
  {
    OpenedUnescaped(text, |text|);
  }

  /** The found tags, without their depths. */
  function Pairs(es: seq<Entry>): (r: seq<(string, IntRange)>)
    ensures |r| == |es|
  {
    if es == [] then [] else Pairs(es[..|es| - 1]) + [Pair(es[|es| - 1])]
  }

  lemma {:induction false} PairsAt(es: seq<Entry>, j: nat)
    requires j < |es|
    ensures Pairs(es)[j] == Pair(es[j])
  {
    if j < |es| - 1 {
      PairsAt(es[..|es| - 1], j);
    }
  }

  lemma {:induction false} AtDepthSnocCount(es: seq<Entry>, e: Entry, d: nat)
    ensures multiset(AtDepth(es + [e], d))
      == multiset(AtDepth(es, d)) + (if e.depth == d then multiset{Pair(e)} else multiset{})
  {
    AtDepthSnoc(es, e, d);
  }

  lemma {:induction false} DescendingUnfold(es: seq<Entry>, hi: nat, n: nat)
    requires 0 < n <= hi + 1
    ensures multiset(Descending(es, hi, n)) == multiset(Descending(es, hi, n - 1)) + multiset(AtDepth(es, hi - (n - 1)))
  {
  }

  lemma {:induction false} DescendingSnoc(es: seq<Entry>, e: Entry, hi: nat, n: nat)
    requires n <= hi + 1
    ensures multiset(Descending(es + [e], hi, n))
      == multiset(Descending(es, hi, n)) + (if hi - n < e.depth <= hi then multiset{Pair(e)} else multiset{})
  {
    if n > 0 {
      DescendingSnoc(es, e, hi, n - 1);
      DescendingUnfold(es + [e], hi, n);
      DescendingUnfold(es, hi, n);
      AtDepthSnocCount(es, e, hi - (n - 1));
    }
  }

  /** Grouping by depth loses and duplicates nothing. */
  lemma {:induction false} DescendingPermutes(es: seq<Entry>, hi: nat)
    requires forall j :: 0 <= j < |es| ==> es[j].depth <= hi
    ensures multiset(Descending(es, hi, hi + 1)) == multiset(Pairs(es))
  {
    if es == [] {
      EmptyDescending(hi, hi + 1);
    } else {
      var front := es[..|es| - 1];
      var last := es[|es| - 1];
      assert es == front + [last];
      assert forall j :: 0 <= j < |front| ==> front[j] == es[j];
      DescendingPermutes(front, hi);
      DescendingPermutesStep(front, last, hi);
    }
  }

  lemma {:induction false} DescendingPermutesStep(front: seq<Entry>, last: Entry, hi: nat)
    requires last.depth <= hi
    requires multiset(Descending(front, hi, hi + 1)) == multiset(Pairs(front))
    ensures multiset(Descending(front + [last], hi, hi + 1)) == multiset(Pairs(front + [last]))
  {
    DescendingSnoc(front, last, hi, hi + 1);
    PairsSnoc(front, last);
  }

  lemma {:induction false} PairsSnoc(es: seq<Entry>, e: Entry)
    ensures multiset(Pairs(es + [e])) == multiset(Pairs(es)) + multiset{Pair(e)}
  {
    assert (es + [e])[..|es|] == es;
    assert Pairs(es + [e]) == Pairs(es) + [Pair(e)];
  }

  lemma {:induction false} EmptyDescending(hi: nat, n: nat)
    requires n <= hi + 1
    ensures Descending([], hi, n) == []
  {
    if n > 0 {
      EmptyDescending(hi, n - 1);
    }
  }

  /** `findInlineTagNamesWithRanges` returns each tag the scan closes exactly once, reordered by depth. */
  lemma {:induction false} InlineTagsPermutation(text: string)
    ensures multiset(InlineTagsWithRanges(text)) == multiset(Pairs(Entries(text)))
  {
    FinderInvFold(text, |text|);
    DescendingPermutes(Entries(text), |text|);
  }

  // ---------------------------------------------------------------------------
  // Deepest first (lines 156-163 and 194)
  // ---------------------------------------------------------------------------

  /** The found tags of depth `d`, with their depths, in order of closing. */
  function EntriesAt(es: seq<Entry>, d: nat): seq<Entry> {
    if es == [] then []
    else EntriesAt(es[..|es| - 1], d) + (if es[|es| - 1].depth == d then [es[|es| - 1]] else [])
  }

  /** The found tags in the order of `Descending`, with their depths. */
  function OrderedEntries(es: seq<Entry>, hi: nat, n: nat): seq<Entry>
    requires n <= hi + 1
  {
    if n == 0 then [] else OrderedEntries(es, hi, n - 1) + EntriesAt(es, hi - (n - 1))
  }

  lemma {:induction false} PairsConcat(a: seq<Entry>, b: seq<Entry>)
    ensures Pairs(a + b) == Pairs(a) + Pairs(b)
    decreases |b|
  {
    if b == [] {
      assert a + b == a;
    } else {
      var front := b[..|b| - 1];
      PairsConcat(a, front);
      assert (a + b)[..|a + b| - 1] == a + front;
      assert (a + b)[|a + b| - 1] == b[|b| - 1];
    }
  }

  lemma {:induction false} EntriesAtPairs(es: seq<Entry>, d: nat)
    ensures Pairs(EntriesAt(es, d)) == AtDepth(es, d)
    ensures forall x :: x in EntriesAt(es, d) ==> x in es && x.depth == d
  {
    if es != [] {
      var front := es[..|es| - 1];
      var last := es[|es| - 1];
      EntriesAtPairs(front, d);
      PairsConcat(EntriesAt(front, d), if last.depth == d then [last] else []);
      assert Pairs([last]) == [Pair(last)] by {
        assert [last][..0] == [];
      }
      assert Pairs([]) == [];
      assert forall x :: x in front ==> x in es;
    }
  }

  lemma {:induction false} OrderedEntriesSorted(es: seq<Entry>, hi: nat, n: nat)
    requires n <= hi + 1
    ensures var os := OrderedEntries(es, hi, n);
      && Pairs(os) == Descending(es, hi, n)
      && (forall i :: 0 <= i < |os| ==> os[i] in es && hi - n < os[i].depth <= hi)
      && (forall i, j :: 0 <= i < j < |os| ==> os[i].depth >= os[j].depth)
  {
    if n > 0 {
      var front := OrderedEntries(es, hi, n - 1);
      var group := EntriesAt(es, hi - (n - 1));
      OrderedEntriesSorted(es, hi, n - 1);
      EntriesAtPairs(es, hi - (n - 1));
      PairsConcat(front, group);
      SortedAppend(es, front, group, hi - (n - 1), hi);
    }
  }

  /** A group of depth `d` after tags deeper than `d` keeps the order. */
  lemma {:induction false} SortedAppend(es: seq<Entry>, front: seq<Entry>, group: seq<Entry>, d: int, hi: int)
    requires d <= hi
    requires forall i :: 0 <= i < |front| ==> front[i] in es && d < front[i].depth <= hi
    requires forall i, j :: 0 <= i < j < |front| ==> front[i].depth >= front[j].depth
    requires forall x :: x in group ==> x in es && x.depth == d
    ensures var os := front + group;
      && (forall i :: 0 <= i < |os| ==> os[i] in es && d - 1 < os[i].depth <= hi)
      && (forall i, j :: 0 <= i < j < |os| ==> os[i].depth >= os[j].depth)
  {
    var os := front + group;
    forall i | 0 <= i < |os|
      ensures os[i] in es && d - 1 < os[i].depth <= hi
    {
      if i >= |front| {
        assert os[i] == group[i - |front|] && group[i - |front|] in group;
      }
    }
    forall i, j | 0 <= i < j < |os|
      ensures os[i].depth >= os[j].depth
    {
      if j < |front| {
      } else if i < |front| {
        assert os[j] == group[j - |front|] && group[j - |front|] in group;
      } else {
        assert os[i] == group[i - |front|] && group[i - |front|] in group;
        assert os[j] == group[j - |front|] && group[j - |front|] in group;
      }
    }
  }

  /**
   * The tags come deepest first: the result lists the found tags, each once,
   * ordered by non-increasing depth.
   */
  lemma {:induction false} InlineTagsDeepestFirst(text: string)
    ensures var os := OrderedEntries(Entries(text), |text|, |text| + 1);
      && Pairs(os) == InlineTagsWithRanges(text)
      && (forall i :: 0 <= i < |os| ==> os[i] in Entries(text))
      && (forall i, j :: 0 <= i < j < |os| ==> os[i].depth >= os[j].depth)
      && multiset(InlineTagsWithRanges(text)) == multiset(Pairs(Entries(text)))
  {
    OrderedEntriesSorted(Entries(text), |text|, |text| + 1);
    InlineTagsPermutation(text);
  }

  /**
   * Every result is a `{@` … `}` span of the text with the name read from it,
   * and its `{` is not escaped.
   */
  lemma {:induction false} InlineTagsSound(text: string, x: (string, IntRange))
    requires x in InlineTagsWithRanges(text)
    ensures Spans(text, x.0, x.1) && Unescaped(text, x.1.first)
  {
    var j := EntryOf(text, x);
    var e := Entries(text)[j];
    FoundSound(text, j);
    FoundUnescaped(text, j);
    assert e.range == x.1 && e.name == x.0;
  }

  lemma {:induction false} FoundSound(text: string, j: nat)
    requires j < |Entries(text)|
    ensures Sound(text, Entries(text)[j])
  {
    FinderInvFold(text, |text|);
  }

  /** The found tag a result comes from. */
  lemma {:induction false} EntryOf(text: string, x: (string, IntRange)) returns (j: nat)
    requires x in InlineTagsWithRanges(text)
    ensures j < |Entries(text)| && Pair(Entries(text)[j]) == x
  {
    var es := Entries(text);
    InlineTagsPermutation(text);
    assert x in multiset(Pairs(es));
    j :| 0 <= j < |Pairs(es)| && Pairs(es)[j] == x;
    PairsAt(es, j);
  }

  /** Every inline tag name consists of tag-name characters. */
  lemma {:induction false} InlineNamesChars(text: string, k: nat)
    requires k < |InlineTagNames(text)|
    ensures forall c :: 0 <= c < |InlineTagNames(text)[k]| ==> TagNameChar(InlineTagNames(text)[k][c])
  {
    var r := InlineTagsWithRanges(text);
    FirstsAt(r, k);
    InlineTagsSound(text, r[k]);
  }

  lemma {:induction false} FirstsAt<A, B>(ps: seq<(A, B)>, k: nat)
    requires k < |ps|
    ensures Firsts(ps)[k] == ps[k].0
  {
    if k > 0 {
      FirstsAt(ps[1..], k - 1);
    }
  }

  // ---------------------------------------------------------------------------
  // A single tag and an escaped one
  // ---------------------------------------------------------------------------

  /** Characters the scan passes over without any effect. */
  predicate Plain(name: string) {
    forall k :: 0 <= k < |name| ==> TagNameChar(name[k]) && name[k] != '\\'
  }

  lemma {:induction false} PlainFold(text: string, name: string, from: nat, k: nat, st: Finder)
    requires Plain(name) && from + |name| <= |text| && text[from..from + |name|] == name
    requires k <= |name| && Below(st.queue, from)
    requires FinderFold(text, from) == st && !st.escapeNext
    ensures FinderFold(text, from + k) == st
  {
    if k > 0 {
      PlainFold(text, name, from, k - 1, st);
      assert text[from + k - 1] == name[k - 1];
    }
  }

  lemma {:induction false} DescendingOne(e: Entry, hi: nat, n: nat)
    requires n <= hi + 1
    ensures Descending([e], hi, n) == if hi - n < e.depth <= hi then [Pair(e)] else []
  {
    if n > 0 {
      DescendingOne(e, hi, n - 1);
      AtDepthSnoc([], e, hi - (n - 1));
      assert [] + [e] == [e];
      assert AtDepth([], hi - (n - 1)) == [];
    }
  }

  lemma {:induction false} SingleInlineOpen(text: string, name: string)
    requires Plain(name) && text == "{@" + name + "}"
    ensures FinderFold(text, |text| - 1) == Finder(false, [0], [])
  {
    assert text[0] == '{' && text[1] == '@';
    assert FinderFold(text, 0) == Finder(false, [], []);
    assert CharAt(text, 1) == Some('@');
    var s1 := FinderFold(text, 1);
    assert s1 == FinderStep(text, 0, Finder(false, [], []));
    assert s1 == Finder(false, [0], []);
    assert FinderFold(text, 2) == s1;
    assert text[2..2 + |name|] == name;
    PlainFold(text, name, 2, |name|, s1);
  }

  /** A `}` closing the only open tag records it at depth 0. */
  lemma {:induction false} CloseOnly(text: string, i: nat, st: Finder, start: nat, name: string)
    requires i < |text| && text[i] == '}' && !st.escapeNext && st.queue == [start] && start < i
    requires GetTagNameOrNull(text[start..i + 1]) == Some(name)
    ensures FinderStep(text, i, st) == Finder(false, [], st.found + [Entry(name, IntRange(start, i), 0)])
  {
  }

  /** `{@name}` is found once, at depth 0, over its whole span. */
  lemma {:induction false} SingleInlineTag(name: string)
    requires Plain(name)
    ensures InlineTagsWithRanges("{@" + name + "}") == [(name, IntRange(0, |name| + 2))]
  {
    var text := "{@" + name + "}";
    SingleInlineOpen(text, name);
    InlineTagName(name, "}");
    assert text[0..|text|] == text;
    CloseOnly(text, |text| - 1, Finder(false, [0], []), 0, name);
    DescendingOne(Entry(name, IntRange(0, |text| - 1), 0), |text|, |text| + 1);
  }

  /** The escaped `\{@` opens nothing. */
  lemma {:induction false} EscapedOpen(text: string, name: string)
    requires text == "\\{@" + name + "}"
    ensures FinderFold(text, 3) == Finder(false, [], [])
  {
    assert text[0] == '\\' && text[1] == '{' && text[2] == '@';
    assert FinderFold(text, 0) == Finder(false, [], []);
    assert FinderFold(text, 1) == Finder(true, [], []);
    assert FinderFold(text, 2) == Finder(false, [], []);
  }

  /** `\{@name}`: the escaped `{` opens nothing, and the `}` closes nothing. */
  lemma {:induction false} EscapedInlineTag(name: string)
    requires Plain(name)
    ensures InlineTagsWithRanges("\\{@" + name + "}") == []
  {
    var text := "\\{@" + name + "}";
    var n := |text|;
    EscapedOpen(text, name);
    assert text[3..3 + |name|] == name;
    PlainFold(text, name, 3, |name|, Finder(false, [], []));
    assert text[n - 1] == '}' && n - 1 == 3 + |name|;
    assert FinderFold(text, n) == Finder(false, [], []);
    EmptyDescending(n, n + 1);
  }
}
