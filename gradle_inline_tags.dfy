/**
 * `findInlineTagRangeWithDepthOrNull`, `findInlineTagNamesInDocContentWithRanges`
 * and `findInlineTagNamesInDocContent` of doc-processor-gradle-plugin's
 * docUtils.kt (lines 212-258): the innermost `{@ … }` is found, recorded with
 * its depth and masked to `<@ … >`, until none is left; the tags come out
 * deepest first.
 */
module GradleInlineTags {
  import opened Wrappers
  import opened Text
  import opened Ranges
  import opened InlineTags
  import opened GradleTagTargets
  import opened GradleBlocks

  // ---------------------------------------------------------------------------
  // findInlineTagRangeWithDepthOrNull (lines 213-227)
  // ---------------------------------------------------------------------------

  /** A `{` followed by `@` at index `j`. */
  predicate OpensAt(text: string, j: int) {
    0 <= j && j + 1 < |text| && text[j] == '{' && text[j + 1] == '@'
  }

  /** How many `{@` start before index `k`. */
  function OpenCount(text: string, k: nat): nat
    requires k <= |text|
  {
    if k == 0 then 0 else OpenCount(text, k - 1) + (if OpensAt(text, k - 1) then 1 else 0)
  }

  /**
   * The scan of lines 216-225 from index `i` on, with `depth` and `start` as
   * the loop has left them.
   */
  function RangeFrom(text: string, i: nat, depth: nat, start: Option<nat>): Option<(IntRange, nat)>
    requires i <= |text|
    decreases |text| - i
  {
    if i == |text| then None
    else if text[i] == '{' && CharAt(text, i + 1) == Some('@') then RangeFrom(text, i + 1, depth + 1, Some(i))
    else if text[i] == '}' && start.Some? then Some((IntRange(start.value, i), depth))
    else RangeFrom(text, i + 1, depth, start)
  }

  function InlineRange(text: string): Option<(IntRange, nat)> {
    RangeFrom(text, 0, 0, None)
  }

  /** `findInlineTagRangeWithDepthOrNull`, with its loop and early return. */
  method FindInlineTagRange(text: string) returns (r: Option<(IntRange, nat)>)
    ensures r == InlineRange(text)
  {
    var depth := 0;
    var start: Option<nat> := None;
    for i := 0 to |text|
      invariant RangeFrom(text, i, depth, start) == InlineRange(text)
    {
      if text[i] == '{' && CharAt(text, i + 1) == Some('@') {
        start := Some(i);
        depth := depth + 1;
      } else if text[i] == '}' {
        if start.Some? {
          return Some((IntRange(start.value, i), depth));
        }
      }
    }
    return None;
  }

  /** No `}` before index `k` comes after a `{@`. */
  predicate NoCloseBefore(text: string, k: int) {
    forall o, j :: 0 <= o < j < k && j < |text| && OpensAt(text, o) ==> text[j] != '}'
  }

  /**
   * `r` runs from a `{@` to the first `}` after it, with no other `{@` in
   * between: the innermost tag.
   */
  predicate Innermost(text: string, r: IntRange) {
    0 <= r.first < r.last < |text| && OpensAt(text, r.first) && text[r.last] == '}'
    && forall j :: r.first < j < r.last ==> !OpensAt(text, j)
  }

  /** What the loop of lines 216-225 knows after `i` characters. */
  predicate Scanned(text: string, i: nat, depth: nat, start: Option<nat>) {
    i <= |text| && NoCloseBefore(text, i) && depth == OpenCount(text, i)
    && (start.None? ==> forall o :: 0 <= o < i ==> !OpensAt(text, o))
    && (start.Some? ==> start.value < i && OpensAt(text, start.value)
                        && forall j :: start.value < j < i ==> !OpensAt(text, j))
  }

  /** The result of the scan, characterised. */
  predicate RangeResult(text: string, res: Option<(IntRange, nat)>) {
    match res
    case None => NoCloseBefore(text, |text|)
    case Some((r, d)) => Innermost(text, r) && NoCloseBefore(text, r.last) && d == OpenCount(text, r.last)
  }

  lemma {:induction false} OpenCountNone(text: string, k: nat)
    requires k <= |text| && forall o :: 0 <= o < k ==> !OpensAt(text, o)
    ensures OpenCount(text, k) == 0
  {
    if k > 0 {
      OpenCountNone(text, k - 1);
    }
  }

  lemma {:induction false} RangeFromResult(text: string, i: nat, depth: nat, start: Option<nat>)
    requires Scanned(text, i, depth, start)
    ensures RangeResult(text, RangeFrom(text, i, depth, start))
    decreases |text| - i
  {
    if i < |text| {
      if text[i] == '{' && CharAt(text, i + 1) == Some('@') {
        assert OpensAt(text, i);
        RangeFromResult(text, i + 1, depth + 1, Some(i));
      } else if text[i] == '}' && start.Some? {
        assert !OpensAt(text, i);
      } else {
        assert !OpensAt(text, i);
        RangeFromResult(text, i + 1, depth, start);
      }
    }
  }

  /**
   * The scan finds the innermost tag closed by the first `}` that follows a
   * `{@`, with as depth the number of `{@` before that `}`; it finds nothing
   * exactly when no `}` follows a `{@`.
   */
  lemma InlineRangeResult(text: string)
    ensures RangeResult(text, InlineRange(text))
    ensures InlineRange(text).None? <==> NoCloseBefore(text, |text|)
  {
    RangeFromResult(text, 0, 0, None);
    if InlineRange(text).Some? {
      var r := InlineRange(text).value.0;
      assert OpensAt(text, r.first) && text[r.last] == '}';
    }
  }

  /** The depth counts the tag itself, so it is at least one and at most the length of the text. */
  lemma {:induction false} OpenCountBound(text: string, k: nat)
    requires k <= |text|
    ensures OpenCount(text, k) <= k
  {
    if k > 0 {
      OpenCountBound(text, k - 1);
    }
  }

  lemma {:induction false} OpenCountPositive(text: string, o: nat, k: nat)
    requires o < k <= |text| && OpensAt(text, o)
    ensures OpenCount(text, k) >= 1
  {
    if k - 1 > o {
      OpenCountPositive(text, o, k - 1);
    }
  }

  lemma InlineDepth(text: string)
    requires InlineRange(text).Some?
    ensures 1 <= InlineRange(text).value.1 <= |text|
  {
    InlineRangeResult(text);
    var (r, d) := InlineRange(text).value;
    OpenCountPositive(text, r.first, r.last);
    OpenCountBound(text, r.last);
  }

  // ---------------------------------------------------------------------------
  // findInlineTagNamesInDocContentWithRanges (lines 234-254)
  // ---------------------------------------------------------------------------

  /** `replace('{', '<').replace('}', '>')` of lines 246-248, on one character. */
  function MaskChar(c: char): char {
    if c == '{' then '<' else if c == '}' then '>' else c
  }

  /**
   * `replaceRange(range, comment.replace('{', '<').replace('}', '>'))` of
   * lines 244-249: the characters of the range masked, the others kept.
   */
  function Masked(text: string, r: IntRange): (t: string)
    requires 0 <= r.first <= r.last < |text|
    ensures |t| == |text|
  {
    seq(|text|, j requires 0 <= j < |text| => if r.first <= j <= r.last then MaskChar(text[j]) else text[j])
  }

  /** `t` is `orig` with some braces turned into angle brackets. */
  predicate Masks(orig: string, t: string) {
    |t| == |orig|
    && forall j :: 0 <= j < |t| ==> t[j] == orig[j] || (t[j] == '<' && orig[j] == '{') || (t[j] == '>' && orig[j] == '}')
  }

  lemma MaskedMasks(orig: string, text: string, r: IntRange)
    requires Masks(orig, text) && 0 <= r.first <= r.last < |text|
    ensures Masks(orig, Masked(text, r))
  {
  }

  /**
   * A text that has a `c` only where `s` has one, and lacks one that `s`
   * has, has fewer of them.
   */
  lemma {:induction false} OccurrencesFewer(s: string, t: string, c: char, j0: nat)
    requires |t| == |s| && j0 < |s| && s[j0] == c && t[j0] != c
    requires forall j :: 0 <= j < |s| && t[j] == c ==> s[j] == c
    ensures Occurrences(t, c) < Occurrences(s, c)
  {
    if j0 > 0 {
      assert s[1..][j0 - 1] == c && t[1..][j0 - 1] != c;
      OccurrencesFewer(s[1..], t[1..], c, j0 - 1);
    } else {
      OccurrencesAtMost(s[1..], t[1..], c);
    }
  }

  lemma {:induction false} OccurrencesAtMost(s: string, t: string, c: char)
    requires |t| == |s|
    requires forall j :: 0 <= j < |s| && t[j] == c ==> s[j] == c
    ensures Occurrences(t, c) <= Occurrences(s, c)
  {
    if s != [] {
      assert forall j :: 0 <= j < |s[1..]| && t[1..][j] == c ==> s[1..][j] == c by {
        assert forall j :: 0 <= j < |s[1..]| ==> s[1..][j] == s[j + 1] && t[1..][j] == t[j + 1];
      }
      OccurrencesAtMost(s[1..], t[1..], c);
    }
  }

  /** Masking the innermost tag turns at least its own `}` into `>`, so the loop ends. */
  lemma MaskedCloses(text: string, r: IntRange)
    requires 0 <= r.first <= r.last < |text| && text[r.last] == '}'
    ensures Occurrences(Masked(text, r), '}') < Occurrences(text, '}')
  {
    OccurrencesFewer(text, Masked(text, r), '}', r.last);
  }

  /** Lines 241-243: the tag of the range, when `getTagNameOrNull` reads a name from it. */
  function Record(text: string, r: IntRange, d: nat): seq<Entry>
    requires 0 <= r.first <= r.last < |text|
  {
    var name := TagNameOrNull(text[r.first..r.last + 1]);
    if name.Some? then [Entry(name.value, r, d)] else []
  }

  /**
   * The tags the loop of lines 238-250 records, in the order of the passes,
   * each with its range and its depth.
   */
  function Passes(text: string): seq<Entry>
    decreases Occurrences(text, '}')
  {
    match InlineRange(text)
    case None => []
    case Some((r, d)) =>
      InlineRangeResult(text);
      MaskedCloses(text, r);
      Record(text, r, d) + Passes(Masked(text, r))
  }

  /** One pass: the tag of the innermost range, then the passes over the masked text. */
  lemma PassesStep(text: string, r: IntRange, d: nat)
    requires InlineRange(text) == Some((r, d))
    ensures 0 <= r.first <= r.last < |text|
    ensures Occurrences(Masked(text, r), '}') < Occurrences(text, '}')
    ensures Passes(text) == Record(text, r, d) + Passes(Masked(text, r))
  {
    InlineRangeResult(text);
    MaskedCloses(text, r);
  }

  /** Lines 252-253: the groups sorted by decreasing depth, flattened. */
  function InlineTagsWithRanges(content: string): seq<(string, IntRange)> {
    Descending(Passes(content), |content|, |content| + 1)
  }

  /** `findInlineTagNamesInDocContent` (lines 257-258). */
  function InlineTagNames(content: string): seq<string> {
    BlockSplit.Firsts(InlineTagsWithRanges(content))
  }

  /** Lines 241-243: `getOrPut(depth) { mutableListOf() } += Pair(tagName, range)`. */
  method AddTag(tagName: Option<string>, range: IntRange, depth: nat, m: map<nat, seq<(string, IntRange)>>,
                ghost found: seq<Entry>)
    returns (m': map<nat, seq<(string, IntRange)>>, ghost found': seq<Entry>)
    requires ByDepth(m, found)
    ensures found' == found + (if tagName.Some? then [Entry(tagName.value, range, depth)] else [])
    ensures ByDepth(m', found')
  {
    m', found' := m, found;
    if tagName.Some? {
      var e := Entry(tagName.value, range, depth);
      ByDepthAdd(m, found, e);
      m' := m[depth := (if depth in m then m[depth] else []) + [(tagName.value, range)]];
      found' := found + [e];
    }
  }

  lemma Regroup(found: seq<Entry>, recorded: seq<Entry>, rest: seq<Entry>, all: seq<Entry>)
    requires found + (recorded + rest) == all
    ensures (found + recorded) + rest == all
  {
    assert found + (recorded + rest) == (found + recorded) + rest;
  }

  /** `findInlineTagNamesInDocContentWithRanges`, proved to compute `InlineTagsWithRanges`. */
  method FindInlineTagNamesWithRanges(content: string) returns (r: seq<(string, IntRange)>)
    ensures r == InlineTagsWithRanges(content)
  {
    var text := content;
    var m: map<nat, seq<(string, IntRange)>> := map[];
    ghost var found: seq<Entry> := [];
    var next := FindInlineTagRange(text);
    while next.Some?
      invariant next == InlineRange(text)
      invariant found + Passes(text) == Passes(content)
      invariant ByDepth(m, found)
      decreases Occurrences(text, '}')
    {
      var (range, depth) := next.value;
      PassesStep(text, range, depth);
      ghost var recorded, before := Record(text, range, depth), found;
      var comment := text[range.first..range.last + 1];
      var tagName := TagNameOrNull(comment);
      assert recorded == if tagName.Some? then [Entry(tagName.value, range, depth)] else [];
      m, found := AddTag(tagName, range, depth, m, found);
      text := Masked(text, range);
      Regroup(before, recorded, Passes(text), Passes(content));
      next := FindInlineTagRange(text);
    }
    assert Passes(text) == [];
    assert found == Passes(content);
    r := FlattenByDepth(content, m, found);
  }

  // ---------------------------------------------------------------------------
  // What the passes find
  // ---------------------------------------------------------------------------

  /**
   * A recorded tag runs from a `{@` of the original content to a `}` of it,
   * has a depth between one and the length of the content and a name without
   * whitespace.
   */
  predicate Found(content: string, e: Entry) {
    0 <= e.range.first && e.range.first + 1 < e.range.last < |content|
    && content[e.range.first] == '{' && content[e.range.first + 1] == '@' && content[e.range.last] == '}'
    && 1 <= e.depth <= |content|
    && forall k :: 0 <= k < |e.name| ==> !IsWhitespace(e.name[k])
  }

  lemma RecordFound(text: string, r: IntRange, d: nat, e: Entry)
    requires Innermost(text, r) && 1 <= d <= |text| && e in Record(text, r, d)
    ensures Found(text, e)
  {
    assert r.first + 1 != r.last;
  }

  lemma FoundMasks(content: string, text: string, e: Entry)
    requires Masks(content, text) && Found(text, e)
    ensures Found(content, e)
  {
    assert text[e.range.first] == '{' && text[e.range.first + 1] == '@' && text[e.range.last] == '}';
  }

  lemma {:induction false} PassesFound(content: string, text: string, k: nat)
    requires Masks(content, text) && k < |Passes(text)|
    ensures Found(content, Passes(text)[k])
    decreases Occurrences(text, '}')
  {
    InlineRangeResult(text);
    var (r, d) := InlineRange(text).value;
    InlineDepth(text);
    MaskedCloses(text, r);
    var recorded := Record(text, r, d);
    var rest := Passes(Masked(text, r));
    assert Passes(text) == recorded + rest;
    if k < |recorded| {
      RecordFound(text, r, d, recorded[k]);
      FoundMasks(content, text, recorded[k]);
    } else {
      MaskedMasks(content, text, r);
      PassesFound(content, Masked(text, r), k - |recorded|);
      assert Passes(text)[k] == rest[k - |recorded|];
    }
  }

  lemma MasksItself(content: string)
    ensures Masks(content, content)
  {
  }

  /** Every result of `findInlineTagNamesInDocContentWithRanges` is a tag of the content. */
  lemma InlineTagsFound(content: string, k: nat)
    requires k < |Passes(content)|
    ensures Found(content, Passes(content)[k])
  {
    MasksItself(content);
    PassesFound(content, content, k);
  }

  /** Grouping by depth loses and duplicates no recorded tag. */
  lemma InlineTagsPermutes(content: string)
    ensures multiset(InlineTagsWithRanges(content)) == multiset(Pairs(Passes(content)))
  {
    forall j | 0 <= j < |Passes(content)|
      ensures Passes(content)[j].depth <= |content|
    {
      InlineTagsFound(content, j);
    }
    DescendingPermutes(Passes(content), |content|);
  }

  /** Each pass uses up a `}` of the content, so there are at most as many tags as closing braces. */
  lemma {:induction false} PassesBound(text: string)
    ensures |Passes(text)| <= Occurrences(text, '}')
    decreases Occurrences(text, '}')
  {
    if InlineRange(text).Some? {
      var (r, d) := InlineRange(text).value;
      PassesStep(text, r, d);
      PassesBound(Masked(text, r));
    }
  }
}
