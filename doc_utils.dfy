/**
 * Tag-argument splitting and the small list and range utilities of
 * `kodex-common/.../utils/DocUtils.kt`.
 */
module DocUtils {
  import opened Wrappers
  import opened Text
  import opened Ranges

  // The block indicators kept while scanning tag content.
  const CurlyBraces := '{'
  const SquareBrackets := '['
  const Parentheses := '('
  const AngularBrackets := '<'
  const Backticks := '`'
  const DoubleQuotes := '"'
  const SingleQuotes := '\''

  // ---------------------------------------------------------------------------
  // removeAllElementsFromLast
  // ---------------------------------------------------------------------------

  /** `lastIndexOf(e)`: the index of the last `e`, or -1. */
  function LastIndexOf<T(==)>(xs: seq<T>, e: T): (k: int)
    ensures -1 <= k < |xs|
    ensures k >= 0 ==> xs[k] == e
  {
    if xs == [] then -1 else if xs[|xs| - 1] == e then |xs| - 1 else LastIndexOf(xs[..|xs| - 1], e)
  }

  /** No `e` follows the index `LastIndexOf` finds, and -1 means there is none. */
  lemma {:induction false} LastIndexOfSpec<T>(xs: seq<T>, e: T)
    ensures forall j :: LastIndexOf(xs, e) < j < |xs| ==> xs[j] != e
    ensures LastIndexOf(xs, e) == -1 <==> e !in xs
  {
    if xs != [] && xs[|xs| - 1] != e {
      var init := xs[..|xs| - 1];
      LastIndexOfSpec(init, e);
      assert xs == init + [xs[|xs| - 1]];
    }
  }

  /**
   * What `removeAllElementsFromLast(e)` returns and leaves in the list: false and
   * the list unchanged when `e` is absent, otherwise true and the prefix before
   * the last occurrence of `e`.
   */
  function RemovedFromLast<T(==)>(xs: seq<T>, e: T): (r: (bool, seq<T>))
    ensures |r.1| <= |xs|
  {
    var k := LastIndexOf(xs, e);
    if k == -1 then (false, xs) else (true, xs[..k])
  }

  lemma {:induction false} RemovedFromLastSpec<T>(xs: seq<T>, e: T)
    ensures var r := RemovedFromLast(xs, e);
      && (r.0 <==> e in xs)
      && (!r.0 ==> r.1 == xs)
      && (r.0 ==> |r.1| < |xs| && xs[|r.1|] == e && r.1 == xs[..|r.1|] && e !in xs[|r.1| + 1..])
  {
    LastIndexOfSpec(xs, e);
    var k := LastIndexOf(xs, e);
    if k >= 0 {
      var t := xs[k + 1..];
      assert forall j :: 0 <= j < |t| ==> t[j] == xs[k + 1 + j];
    }
  }

  /** The source's loop: find the last `e`, then remove elements from the end down to it. */
  method RemoveAllElementsFromLast<T(==)>(list: seq<T>, e: T) returns (found: bool, result: seq<T>)
    ensures (found, result) == RemovedFromLast(list, e)
  {
    var index := LastIndexOf(list, e);
    if index == -1 {
      return false, list;
    }
    result := list;
    var i := |list| - 1;
    while i >= index
      invariant index - 1 <= i <= |list| - 1
      invariant result == list[..i + 1]
    {
      result := result[..i];
      i := i - 1;
    }
    found := true;
  }

  // ---------------------------------------------------------------------------
  // getTagArgumentsWithRanges / getTagArguments(tag, n)
  // ---------------------------------------------------------------------------

  /** Toggle of a quote-like indicator: remove from its last occurrence, or push it. */
  function Toggle(ind: seq<char>, mark: char): seq<char> {
    var (found, rest) := RemovedFromLast(ind, mark);
    if found then rest else rest + [mark]
  }

  /** The `when (char)` on lines 79-105: brackets push and pop, quotes toggle. */
  function UpdateBrackets(ind: seq<char>, c: char): seq<char> {
    if c == '{' then ind + [CurlyBraces]
    else if c == '}' then RemovedFromLast(ind, CurlyBraces).1
    else if c == '[' then ind + [SquareBrackets]
    else if c == ']' then RemovedFromLast(ind, SquareBrackets).1
    else if c == '(' then ind + [Parentheses]
    else if c == ')' then RemovedFromLast(ind, Parentheses).1
    else if c == '<' then ind + [AngularBrackets]
    else if c == '>' then RemovedFromLast(ind, AngularBrackets).1
    else if c == '"' then Toggle(ind, DoubleQuotes)
    else if c == '\'' then
      // a single quote is put back only when one was already open
      var (found, rest) := RemovedFromLast(ind, SingleQuotes);
      if found then rest + [SingleQuotes] else rest
    else ind
  }

  /**
   * One argument as collected by the loop: its text, the range the source
   * computes for it, and the index in the scanned content where the text
   * actually starts.
   */
  datatype RawArgument = RawArgument(text: string, range: IntRange, start: int)

  /** The loop variables of `getTagArgumentsWithRanges`; `pos` counts the characters seen. */
  datatype ArgumentsState = ArgumentsState(
    arguments: seq<RawArgument>,
    currentBlock: string,
    blocksIndicators: seq<char>,
    escapeNext: bool,
    i: int,
    pos: nat)

  /** `isDone()` */
  predicate IsDone(arguments: seq<RawArgument>, n: int) {
    |arguments| >= n - 1
  }

  /** The body of the `for (char in content)` loop, lines 58-109. */
  function ArgumentsStep(st: ArgumentsState, c: char, n: int): ArgumentsState {
    var afterWhen :=
      if st.escapeNext then st.(escapeNext := false)
      else if c == '\\' then st.(escapeNext := true)
      else if IsDone(st.arguments, n) then st
      else if IsWhitespace(c) && st.blocksIndicators == [] then
        if !IsBlank(st.currentBlock) then
          var arg := RawArgument(st.currentBlock, Until(st.i, st.i + |st.currentBlock|), st.pos - |st.currentBlock|);
          st.(arguments := st.arguments + [arg], i := st.i + |st.currentBlock|, currentBlock := "")
        else st.(currentBlock := "")
      else if c == '`' then st.(blocksIndicators := Toggle(st.blocksIndicators, Backticks))
      else st;
    var ind :=
      if Backticks in afterWhen.blocksIndicators then afterWhen.blocksIndicators
      else UpdateBrackets(afterWhen.blocksIndicators, c);
    var block :=
      if IsDone(afterWhen.arguments, n) || !(afterWhen.currentBlock == [] && IsWhitespace(c)) then afterWhen.currentBlock + [c]
      else afterWhen.currentBlock;
    afterWhen.(blocksIndicators := ind, currentBlock := block, pos := st.pos + 1)
  }

  /** The loop state after scanning `content`, starting with `i == offset`. */
  function ArgumentsFold(content: string, n: int, offset: int): ArgumentsState {
    if content == [] then ArgumentsState([], "", [], false, offset, 0)
    else ArgumentsStep(ArgumentsFold(content[..|content| - 1], n, offset), content[|content| - 1], n)
  }

  lemma {:induction false} FoldSnoc(content: string, c: char, n: int, offset: int)
    ensures ArgumentsFold(content + [c], n, offset) == ArgumentsStep(ArgumentsFold(content, n, offset), c, n)
  {
    assert (content + [c])[..|content|] == content;
  }

  /** The arguments after the final `this += Pair(currentBlock, …)`, before trimming. */
  function CollectedArguments(content: string, n: int, offset: int): seq<RawArgument> {
    var st := ArgumentsFold(content, n, offset);
    st.arguments + [RawArgument(st.currentBlock, Until(st.i, st.i + |st.currentBlock|), st.pos - |st.currentBlock|)]
  }

  predicate IsSpaceOrTab(c: char) {
    c == ' ' || c == '\t'
  }

  /** The number of leading spaces and tabs: what `trimStart(' ', '\t')` removes. */
  function LeadingSpacesOrTabs(s: string): (k: nat)
    ensures k <= |s|
    ensures forall j :: 0 <= j < k ==> IsSpaceOrTab(s[j])
    ensures k < |s| ==> !IsSpaceOrTab(s[k])
  {
    if s != [] && IsSpaceOrTab(s[0]) then 1 + LeadingSpacesOrTabs(s[1..]) else 0
  }

  /** How many characters the last argument loses: one leading space or tab (lines 121-126). */
  function LastTrimCount(text: string): (d: nat)
    ensures d <= |text|
  {
    if StartsWithChar(text, ' ') || StartsWithChar(text, '\t') then 1 else 0
  }

  /** How many characters another argument loses: `removePrefix("\n").trimStart(' ', '\t')` (lines 128-131). */
  function OtherTrimCount(text: string): (d: nat)
    ensures d <= |text|
  {
    var k := if StartsWithChar(text, '\n') then 1 else 0;
    k + LeadingSpacesOrTabs(text[k..])
  }

  /** Lines 118-133: drop the trimmed characters from the text and from the start of the range. */
  function TrimArgument(a: RawArgument, isLast: bool): (r: RawArgument)
    ensures 0 <= r.start - a.start <= |a.text| && r.text == a.text[r.start - a.start..]
    ensures r.range.first == a.range.first + (r.start - a.start) && r.range.last == a.range.last
  {
    var d := if isLast then LastTrimCount(a.text) else OtherTrimCount(a.text);
    RawArgument(a.text[d..], IntRange(a.range.first + d, a.range.last), a.start + d)
  }

  function TrimArguments(raw: seq<RawArgument>): (r: seq<RawArgument>)
    ensures |r| == |raw|
    ensures forall k :: 0 <= k < |raw| ==> r[k] == TrimArgument(raw[k], k == |raw| - 1)
  {
    seq(|raw|, k requires 0 <= k < |raw| => TrimArgument(raw[k], k == |raw| - 1))
  }

  /** The content the loop scans (braces, leading blanks and `@tag` removed) and the initial `i`. */
  datatype Prepared = Prepared(content: string, offset: int)

  /**
   * Lines 29-46: strip surrounding braces, leading whitespace, `@tag` and the
   * whitespace after it; the content is the rest of the string, and `offset`
   * (the source's initial `i`) is where it starts.
   */
  function PrepareContent(s: string, tag: string): (p: Prepared)
    ensures 0 <= p.offset && p.offset + |p.content| <= |s| && s[p.offset..p.offset + |p.content|] == p.content
  {
    var braced := StartsWithChar(s, '{') && EndsWithChar(s, '}');
    var b := if braced then 1 else 0;
    var e := if braced then |s| - 1 else |s|;
    var w1 := LeadingWhitespace(s[b..e]);
    var t := if StartsWith(s[b + w1..e], "@" + tag) then |tag| + 1 else 0;
    var w2 := LeadingWhitespace(s[b + w1 + t..e]);
    Prepared(s[b + w1 + t + w2..e], b + w1 + t + w2)
  }

  /** The trimmed arguments of an input that passes both `require`s. */
  function TagArguments(s: string, tag: string, n: int): seq<RawArgument> {
    var p := PrepareContent(s, tag);
    TrimArguments(CollectedArguments(p.content, n, p.offset))
  }

  function RequireTagArguments(s: string, tag: string, n: int): Option<Failure> {
    if !Contains(s, "@" + tag) then Some(IllegalArgument("Could not find @" + tag + " in " + s))
    else if n <= 0 then Some(IllegalArgument("numberOfArguments must be greater than 0"))
    else None
  }

  /** The texts of the arguments. */
  function Texts(args: seq<RawArgument>): (t: seq<string>)
    ensures |t| == |args| && forall k :: 0 <= k < |args| ==> t[k] == args[k].text
  {
    seq(|args|, k requires 0 <= k < |args| => args[k].text)
  }

  /** Each argument's text with the range the source reports for it. */
  function WithRanges(args: seq<RawArgument>): (t: seq<(string, IntRange)>)
    ensures |t| == |args| && forall k :: 0 <= k < |args| ==> t[k] == (args[k].text, args[k].range)
  {
    seq(|args|, k requires 0 <= k < |args| => (args[k].text, args[k].range))
  }

  /** Each argument's text with the range it occupies in the original string, shifted by `off`. */
  function WithFixedRanges(args: seq<RawArgument>, off: int): (t: seq<(string, IntRange)>)
    ensures |t| == |args|
    ensures forall k :: 0 <= k < |args| ==> t[k] == (args[k].text, Until(off + args[k].start, off + args[k].start + |args[k].text|))
  {
    seq(|args|, k requires 0 <= k < |args| => (args[k].text, Until(off + args[k].start, off + args[k].start + |args[k].text|)))
  }

  /** `getTagArgumentsWithRanges` as the source computes it, ranges included. */
  function TagArgumentsWithRanges(s: string, tag: string, n: int): Result<seq<(string, IntRange)>> {
    match RequireTagArguments(s, tag, n)
    case Some(f) => Err(f)
    case None =>
      Ok(WithRanges(TagArguments(s, tag, n)))
  }

  /** The same arguments with each range placed where its text really is. */
  function TagArgumentsWithFixedRanges(s: string, tag: string, n: int): Result<seq<(string, IntRange)>> {
    match RequireTagArguments(s, tag, n)
    case Some(f) => Err(f)
    case None =>
      Ok(WithFixedRanges(TagArguments(s, tag, n), PrepareContent(s, tag).offset))
  }

  /** `getTagArguments(tag, n)`: the texts of `getTagArgumentsWithRanges`. */
  function GetTagArguments(s: string, tag: string, n: int): (r: Result<seq<string>>)
    ensures r.Err? <==> RequireTagArguments(s, tag, n).Some?
    ensures r.Ok? ==> var ranged := TagArgumentsWithRanges(s, tag, n).value;
      |r.value| == |ranged| && forall k :: 0 <= k < |ranged| ==> r.value[k] == ranged[k].0
  {
    match RequireTagArguments(s, tag, n)
    case Some(f) => Err(f)
    case None => Ok(Texts(TagArguments(s, tag, n)))
  }

  /** `getTagArgumentWithRangeByIndexOrNull`: `getOrNull(index)` on the ranged arguments. */
  function TagArgumentWithRangeByIndexOrNull(s: string, index: int, tag: string, n: int): (r: Result<Option<(string, IntRange)>>)
    ensures r.Err? <==> RequireTagArguments(s, tag, n).Some?
    ensures r.Ok? ==> var all := TagArgumentsWithRanges(s, tag, n).value;
      (r.value.Some? <==> 0 <= index < |all|) && (r.value.Some? ==> r.value.value == all[index])
  {
    match TagArgumentsWithRanges(s, tag, n)
    case Err(f) => Err(f)
    case Ok(all) => Ok(if 0 <= index < |all| then Some(all[index]) else None)
  }

  /** One pass of the loop body on the character `c` at index `k`. */
  method ScanChar(st: ArgumentsState, c: char, n: int) returns (next: ArgumentsState)
    ensures next == ArgumentsStep(st, c, n)
  {
    var arguments, currentBlock, blocksIndicators, escapeNext, i := st.arguments, st.currentBlock, st.blocksIndicators, st.escapeNext, st.i;
    if escapeNext {
      escapeNext := false;
    } else if c == '\\' {
      escapeNext := true;
    } else if |arguments| >= n - 1 {
    } else if IsWhitespace(c) && blocksIndicators == [] {
      if !IsBlank(currentBlock) {
        arguments := arguments + [RawArgument(currentBlock, Until(i, i + |currentBlock|), st.pos - |currentBlock|)];
        i := i + |currentBlock|;
      }
      currentBlock := "";
    } else if c == '`' {
      var found, rest := RemoveAllElementsFromLast(blocksIndicators, Backticks);
      blocksIndicators := if found then rest else rest + [Backticks];
    }
    if Backticks !in blocksIndicators {
      blocksIndicators := UpdateBrackets(blocksIndicators, c);
    }
    if |arguments| >= n - 1 || !(currentBlock == [] && IsWhitespace(c)) {
      currentBlock := currentBlock + [c];
    }
    next := ArgumentsState(arguments, currentBlock, blocksIndicators, escapeNext, i, st.pos + 1);
  }

  /** The `for (char in content)` loop and the final `this += …` of lines 55-112. */
  method CollectArguments(content: string, n: int, offset: int) returns (collected: seq<RawArgument>)
    ensures collected == CollectedArguments(content, n, offset)
  {
    var st := ArgumentsState([], "", [], false, offset, 0);
    var k := 0;
    assert content[..0] == [];
    while k < |content|
      invariant 0 <= k <= |content|
      invariant st == ArgumentsFold(content[..k], n, offset)
    {
      FoldNext(content, k, n, offset);
      st := ScanChar(st, content[k], n);
      k := k + 1;
    }
    assert content[..k] == content;
    collected := st.arguments + [RawArgument(st.currentBlock, Until(st.i, st.i + |st.currentBlock|), st.pos - |st.currentBlock|)];
  }

  lemma {:induction false} FoldNext(content: string, k: nat, n: int, offset: int)
    requires k < |content|
    ensures ArgumentsFold(content[..k + 1], n, offset) == ArgumentsStep(ArgumentsFold(content[..k], n, offset), content[k], n)
  {
    assert content[..k] + [content[k]] == content[..k + 1];
    FoldSnoc(content[..k], content[k], n, offset);
  }

  /** `getTagArgumentsWithRanges`, proved to compute `TagArgumentsWithRanges`. */
  method GetTagArgumentsWithRanges(s: string, tag: string, n: int) returns (r: Result<seq<(string, IntRange)>>)
    ensures r == TagArgumentsWithRanges(s, tag, n)
  {
    var failure := RequireTagArguments(s, tag, n);
    if failure.Some? {
      return Err(failure.value);
    }
    var p := PrepareContent(s, tag);
    var collected := CollectArguments(p.content, n, p.offset);
    r := Ok(WithRanges(TrimArguments(collected)));
  }

  // ---------------------------------------------------------------------------
  // Properties of the argument splitter
  // ---------------------------------------------------------------------------

  /** The range the loop records has as many elements as the text has characters. */
  predicate RangeFits(a: RawArgument) {
    a.range.last == a.range.first + |a.text| - 1
  }

  /** The text really occurs at `start` in `content`. */
  predicate LocatedIn(a: RawArgument, content: string) {
    0 <= a.start && a.start + |a.text| <= |content| && content[a.start..a.start + |a.text|] == a.text
  }

  /** What the loop keeps true after each character. */
  predicate FoldInvariant(st: ArgumentsState, content: string, n: int) {
    && st.pos == |content|
    && (n >= 1 ==> |st.arguments| <= n - 1)
    && |st.currentBlock| <= |content|
    && st.currentBlock == content[|content| - |st.currentBlock|..]
    && (forall k :: 0 <= k < |st.arguments| ==> RangeFits(st.arguments[k]))
    && (forall k :: 0 <= k < |st.arguments| ==> LocatedIn(st.arguments[k], content))
  }

  lemma {:induction false} LocatedExtend(a: RawArgument, p: string, c: char)
    requires LocatedIn(a, p)
    ensures LocatedIn(a, p + [c])
  {
    assert (p + [c])[a.start..a.start + |a.text|] == p[a.start..a.start + |a.text|];
  }

  lemma {:induction false} FoldKeepsInvariant(content: string, n: int, offset: int)
    ensures FoldInvariant(ArgumentsFold(content, n, offset), content, n)
  {
    if content != [] {
      var p := content[..|content| - 1];
      var c := content[|content| - 1];
      assert content == p + [c];
      FoldKeepsInvariant(p, n, offset);
      FoldSnoc(p, c, n, offset);
      InvariantStep(ArgumentsFold(p, n, offset), p, c, n);
    }
  }

  /** One character keeps `FoldInvariant`. */
  lemma {:induction false} InvariantStep(st: ArgumentsState, p: string, c: char, n: int)
    requires FoldInvariant(st, p, n)
    ensures FoldInvariant(ArgumentsStep(st, c, n), p + [c], n)
  {
    var st' := ArgumentsStep(st, c, n);
    var content := p + [c];
    forall k | 0 <= k < |st.arguments| ensures LocatedIn(st.arguments[k], content) {
      LocatedExtend(st.arguments[k], p, c);
    }
    if |st'.arguments| > |st.arguments| {
      var a := st'.arguments[|st.arguments|];
      assert a.text == st.currentBlock && a.start == |p| - |st.currentBlock|;
      assert LocatedIn(a, p);
      LocatedExtend(a, p, c);
    }
    assert forall k :: 0 <= k < |st.arguments| ==> st'.arguments[k] == st.arguments[k];
  }

  lemma {:induction false} TrimKeepsLocated(a: RawArgument, isLast: bool, content: string)
    requires LocatedIn(a, content)
    ensures LocatedIn(TrimArgument(a, isLast), content)
  {
    var t := TrimArgument(a, isLast);
    SliceDrop(content, a.text, a.start, t.start - a.start);
  }

  lemma {:induction false} SliceDrop(content: string, text: string, start: int, d: int)
    requires 0 <= start && start + |text| <= |content| && content[start..start + |text|] == text
    requires 0 <= d <= |text|
    ensures content[start + d..start + |text|] == text[d..]
  {
    assert content[start + d..start + |text|] == content[start..start + |text|][d..];
  }

  /** Shape of the trimmed arguments: between one and `n`, each range as long as its text, each located. */
  lemma {:induction false} TagArgumentsShape(s: string, tag: string, n: int)
    requires n >= 1
    ensures var args := TagArguments(s, tag, n);
      && 1 <= |args| <= n
      && (forall k :: 0 <= k < |args| ==> RangeFits(args[k]))
      && (forall k :: 0 <= k < |args| ==> LocatedIn(args[k], PrepareContent(s, tag).content))
  {
    var p := PrepareContent(s, tag);
    ContentShape(p.content, n, p.offset);
  }

  lemma {:induction false} ContentShape(content: string, n: int, offset: int)
    requires n >= 1
    ensures var args := TrimArguments(CollectedArguments(content, n, offset));
      && 1 <= |args| <= n
      && (forall k :: 0 <= k < |args| ==> RangeFits(args[k]))
      && (forall k :: 0 <= k < |args| ==> LocatedIn(args[k], content))
  {
    FoldKeepsInvariant(content, n, offset);
    CollectedShape(ArgumentsFold(content, n, offset), content, n);
    TrimmedShape(CollectedArguments(content, n, offset), content);
  }

  lemma {:induction false} CollectedShape(st: ArgumentsState, content: string, n: int)
    requires n >= 1 && FoldInvariant(st, content, n)
    ensures var raw := st.arguments + [RawArgument(st.currentBlock, Until(st.i, st.i + |st.currentBlock|), st.pos - |st.currentBlock|)];
      && 1 <= |raw| <= n
      && (forall k :: 0 <= k < |raw| ==> RangeFits(raw[k]) && LocatedIn(raw[k], content))
  {
  }

  lemma {:induction false} TrimmedShape(raw: seq<RawArgument>, content: string)
    requires forall k :: 0 <= k < |raw| ==> RangeFits(raw[k]) && LocatedIn(raw[k], content)
    ensures forall k :: 0 <= k < |raw| ==> RangeFits(TrimArguments(raw)[k]) && LocatedIn(TrimArguments(raw)[k], content)
  {
    forall k | 0 <= k < |raw| ensures RangeFits(TrimArguments(raw)[k]) && LocatedIn(TrimArguments(raw)[k], content) {
      TrimKeepsLocated(raw[k], k == |raw| - 1, content);
    }
  }

  /**
   * The `require`s decide failure, and otherwise the result has between one
   * and `n` arguments, each range having as many elements as its text has characters.
   */
  lemma {:induction false} TagArgumentsWithRangesShape(s: string, tag: string, n: int)
    ensures var r := TagArgumentsWithRanges(s, tag, n);
      && (r.Err? <==> !Contains(s, "@" + tag) || n <= 0)
      && (r.Ok? ==> 1 <= |r.value| <= n && forall k :: 0 <= k < |r.value| ==> r.value[k].1.Size() == |r.value[k].0|)
  {
    if RequireTagArguments(s, tag, n).None? {
      TagArgumentsShape(s, tag, n);
    }
  }

  /** The ranges selects each argument in the original string. */
  predicate SelectsArguments(s: string, ranged: seq<(string, IntRange)>) {
    forall k :: 0 <= k < |ranged| ==>
      0 <= ranged[k].1.first && ranged[k].1.first + |ranged[k].0| <= |s| && ranged[k].1.Size() == |ranged[k].0|
      && s[ranged[k].1.first..ranged[k].1.first + |ranged[k].0|] == ranged[k].0
  }

  /** With the corrected ranges every argument is exactly the text its range selects from the input. */
  lemma {:induction false} FixedRangesSelectArguments(s: string, tag: string, n: int)
    ensures var r := TagArgumentsWithFixedRanges(s, tag, n);
      r.Ok? ==> SelectsArguments(s, r.value)
  {
    if RequireTagArguments(s, tag, n).None? {
      assert n >= 1;
      FixedSelect(s, tag, n);
    }
  }

  lemma {:induction false} FixedSelect(s: string, tag: string, n: int)
    requires n >= 1
    ensures SelectsArguments(s, WithFixedRanges(TagArguments(s, tag, n), PrepareContent(s, tag).offset))
  {
    var p := PrepareContent(s, tag);
    TagArgumentsShape(s, tag, n);
    ShiftedSelect(s, p.content, p.offset, TagArguments(s, tag, n));
  }

  lemma {:induction false} ShiftedSelect(s: string, content: string, off: int, args: seq<RawArgument>)
    requires 0 <= off && off + |content| <= |s| && s[off..off + |content|] == content
    requires forall k :: 0 <= k < |args| ==> LocatedIn(args[k], content)
    ensures SelectsArguments(s, WithFixedRanges(args, off))
  {
    var ranged := WithFixedRanges(args, off);
    forall k | 0 <= k < |args|
      ensures 0 <= ranged[k].1.first && ranged[k].1.first + |ranged[k].0| <= |s| && ranged[k].1.Size() == |ranged[k].0|
      ensures s[ranged[k].1.first..ranged[k].1.first + |ranged[k].0|] == ranged[k].0
    {
      var a := args[k];
      assert LocatedIn(a, content);
      assert ranged[k] == (a.text, Until(off + a.start, off + a.start + |a.text|));
      SliceOfSlice(s, off, off + |content|, a.start, a.start + |a.text|);
    }
  }

  lemma {:induction false} SliceOfSlice(s: string, i: int, j: int, k: int, l: int)
    requires 0 <= i <= j <= |s| && 0 <= k <= l <= j - i
    ensures s[i..j][k..l] == s[i + k..i + l]
  {
    forall m | 0 <= m < l - k ensures s[i..j][k..l][m] == s[i + k..i + l][m] {
      assert s[i..j][k..l][m] == s[i..j][k + m] == s[i + k + m];
    }
  }

  lemma {:induction false} DoneStep(st: ArgumentsState, c: char, n: int)
    requires IsDone(st.arguments, n)
    ensures ArgumentsStep(st, c, n).arguments == st.arguments
    ensures ArgumentsStep(st, c, n).currentBlock == st.currentBlock + [c]
  {
  }

  lemma {:induction false} OpenBlockStep(st: ArgumentsState, c: char, n: int)
    requires st.blocksIndicators != []
    ensures ArgumentsStep(st, c, n).arguments == st.arguments
  {
  }

  lemma {:induction false} OpenFoldStep(u: string, c: char, n: int, offset: int)
    requires ArgumentsFold(u, n, offset).blocksIndicators != []
    ensures ArgumentsFold(u + [c], n, offset).arguments == ArgumentsFold(u, n, offset).arguments
  {
    FoldSnoc(u, c, n, offset);
    OpenBlockStep(ArgumentsFold(u, n, offset), c, n);
  }

  /** Once `n - 1` arguments are split off, nothing is split any more and every further character joins the last one. */
  lemma {:induction false} DoneAbsorbs(p: string, q: string, n: int, offset: int)
    requires IsDone(ArgumentsFold(p, n, offset).arguments, n)
    ensures ArgumentsFold(p + q, n, offset).arguments == ArgumentsFold(p, n, offset).arguments
    ensures ArgumentsFold(p + q, n, offset).currentBlock == ArgumentsFold(p, n, offset).currentBlock + q
  {
    if q == [] {
      assert p + q == p;
    } else {
      var q', c := q[..|q| - 1], q[|q| - 1];
      var block := ArgumentsFold(p, n, offset).currentBlock;
      assert q == q' + [c];
      assert p + q == (p + q') + [c];
      assert block + q == (block + q') + [c];
      DoneAbsorbs(p, q', n, offset);
      DoneFoldStep(p + q', c, n, offset, ArgumentsFold(p, n, offset).arguments, block + q');
    }
  }

  lemma {:induction false} DoneFoldStep(u: string, c: char, n: int, offset: int, args: seq<RawArgument>, block: string)
    requires ArgumentsFold(u, n, offset).arguments == args && IsDone(args, n)
    requires ArgumentsFold(u, n, offset).currentBlock == block
    ensures ArgumentsFold(u + [c], n, offset).arguments == args
    ensures ArgumentsFold(u + [c], n, offset).currentBlock == block + [c]
  {
    FoldSnoc(u, c, n, offset);
    DoneStep(ArgumentsFold(u, n, offset), c, n);
  }

  /** While some block stays open, whitespace does not split: no argument is added. */
  lemma {:induction false} NoSplitInsideBlocks(p: string, q: string, n: int, offset: int)
    requires forall j :: 0 <= j < |q| ==> ArgumentsFold(p + q[..j], n, offset).blocksIndicators != []
    ensures ArgumentsFold(p + q, n, offset).arguments == ArgumentsFold(p, n, offset).arguments
  {
    if q == [] {
      assert p + q == p;
    } else {
      var q' := q[..|q| - 1];
      var c := q[|q| - 1];
      assert p + q == (p + q') + [c];
      assert q[..|q'|] == q';
      forall j | 0 <= j < |q'| ensures ArgumentsFold(p + q'[..j], n, offset).blocksIndicators != [] {
        assert q'[..j] == q[..j];
      }
      NoSplitInsideBlocks(p, q', n, offset);
      OpenFoldStep(p + q', c, n, offset);
    }
  }

  // ---------------------------------------------------------------------------
  // The range drift of lines 65-71
  // ---------------------------------------------------------------------------

  /**
   * Skipped separator whitespace never advances `i`, so when three or more
   * arguments are asked for, every argument after the first is reported one
   * position too early per separator before it: for `@tag a b c` "b" is
   * reported at 6..6 and "c" at 8..8, both of which are spaces.
   */
  lemma {:induction false} RangesDriftExample()
    ensures var r := TagArgumentsWithRanges("@tag a b c", "tag", 3);
      r.Ok? && |r.value| == 3
      && r.value[0] == ("a", IntRange(5, 5)) && r.value[1] == ("b", IntRange(6, 6)) && r.value[2] == ("c", IntRange(8, 8))
      && !SelectsArguments("@tag a b c", r.value)
  {
    var s := "@tag a b c";
    assert s[6] == ' ';
    DriftPrepared();
    DriftArgs();
    DriftRanges(TagArguments(s, "tag", 3));
    MisplacedArgument(s, WithRanges(TagArguments(s, "tag", 3)), 1);
  }

  /** A range whose first character differs from its text's first character does not select it. */
  lemma {:induction false} MisplacedArgument(s: string, ranged: seq<(string, IntRange)>, k: int)
    requires 0 <= k < |ranged| && ranged[k].0 != [] && 0 <= ranged[k].1.first < |s|
    requires s[ranged[k].1.first] != ranged[k].0[0]
    ensures !SelectsArguments(s, ranged)
  {
  }

  /** The corrected ranges of the same example are where the texts are. */
  lemma {:induction false} FixedRangesExample()
    ensures var r := TagArgumentsWithFixedRanges("@tag a b c", "tag", 3);
      r.Ok? && |r.value| == 3
      && r.value[0] == ("a", IntRange(5, 5)) && r.value[1] == ("b", IntRange(7, 7)) && r.value[2] == ("c", IntRange(9, 9))
  {
    DriftPrepared();
    DriftArgs();
    DriftRanges(TagArguments("@tag a b c", "tag", 3));
  }

  lemma {:induction false} DriftRanges(args: seq<RawArgument>)
    requires |args| == 3
    requires args[0].text == "a" && args[0].range == IntRange(5, 5) && args[0].start == 0
    requires args[1].text == "b" && args[1].range == IntRange(6, 6) && args[1].start == 2
    requires args[2].text == "c" && args[2].range == IntRange(8, 8) && args[2].start == 4
    ensures var r := WithRanges(args);
      |r| == 3 && r[0] == ("a", IntRange(5, 5)) && r[1] == ("b", IntRange(6, 6)) && r[2] == ("c", IntRange(8, 8))
    ensures var r := WithFixedRanges(args, 5);
      |r| == 3 && r[0] == ("a", IntRange(5, 5)) && r[1] == ("b", IntRange(7, 7)) && r[2] == ("c", IntRange(9, 9))
  {
  }

  /** The trimmed arguments of the example, field by field. */
  lemma {:induction false} DriftArgs()
    ensures var args := TagArguments("@tag a b c", "tag", 3);
      |args| == 3
      && args[0].text == "a" && args[0].range == IntRange(5, 5) && args[0].start == 0
      && args[1].text == "b" && args[1].range == IntRange(6, 6) && args[1].start == 2
      && args[2].text == "c" && args[2].range == IntRange(8, 8) && args[2].start == 4
  {
    DriftPrepared();
    assert "a b c" == ['a', ' ', 'b', ' ', 'c'];
    assert PlainChar('a') && PlainChar('b') && PlainChar('c') && IsWhitespace(' ') && IsSpaceOrTab(' ');
    ThreeWordsDrift('a', ' ', 'b', ' ', 'c', 5);
  }

  lemma {:induction false} DriftPrepared()
    ensures RequireTagArguments("@tag a b c", "tag", 3).None?
    ensures PrepareContent("@tag a b c", "tag") == Prepared("a b c", 5)
  {
    DriftRequire();
    DriftContent();
  }

  lemma {:induction false} DriftRequire()
    ensures RequireTagArguments("@tag a b c", "tag", 3).None?
  {
    var s := "@tag a b c";
    assert s[..4] == "@tag";
    assert IndexOf(s, "@tag") == Some(0);
  }

  lemma {:induction false} DriftContent()
    ensures PrepareContent("@tag a b c", "tag") == Prepared("a b c", 5)
  {
    var s := "@tag a b c";
    assert s[..4] == "@" + "tag" && s[5..] == "a b c";
    PrepareAfterTag(s, "tag");
  }

  /** Content that starts with `@tag`, one whitespace and a non-blank character loses exactly those. */
  lemma {:induction false} PrepareAfterTag(s: string, tag: string)
    requires |s| >= |tag| + 3 && s[..|tag| + 1] == "@" + tag
    requires IsWhitespace(s[|tag| + 1]) && !IsWhitespace(s[|tag| + 2])
    ensures PrepareContent(s, tag) == Prepared(s[|tag| + 2..], |tag| + 2)
  {
    assert s[0] == '@';
    assert s[0..|s|] == s;
    var rest := s[|tag| + 1..|s|];
    assert rest[0] == s[|tag| + 1] && rest[1..][0] == s[|tag| + 2];
    assert LeadingWhitespace(rest[1..]) == 0;
  }

  /**
   * Three one-character arguments `x`, `y`, `z` separated by single whitespace
   * characters, asked for as three arguments: "y" is reported at `o + 1`
   * although it sits at `o + 2`, and "z" at `o + 3` although it sits at `o + 4`.
   */
  lemma {:induction false} ThreeWordsDrift(x: char, w1: char, y: char, w2: char, z: char, o: int)
    requires PlainChar(x) && PlainChar(y) && PlainChar(z) && IsWhitespace(w1) && IsSpaceOrTab(w2)
    ensures var args := TrimArguments(CollectedArguments([x, w1, y, w2, z], 3, o));
      |args| == 3
      && args[0].text == [x] && args[0].range == IntRange(o, o) && args[0].start == 0
      && args[1].text == [y] && args[1].range == IntRange(o + 1, o + 1) && args[1].start == 2
      && args[2].text == [z] && args[2].range == IntRange(o + 3, o + 3) && args[2].start == 4
  {
    ThreeWordsCollected(x, w1, y, w2, z, o);
    ThreeWordsTrimmed(CollectedArguments([x, w1, y, w2, z], 3, o), x, y, w2, z, o);
  }

  lemma {:induction false} ThreeWordsCollected(x: char, w1: char, y: char, w2: char, z: char, o: int)
    requires PlainChar(x) && PlainChar(y) && PlainChar(z) && IsWhitespace(w1) && IsWhitespace(w2)
    ensures var raw := CollectedArguments([x, w1, y, w2, z], 3, o);
      |raw| == 3 && raw[0] == RawArgument([x], IntRange(o, o), 0) && raw[1] == RawArgument([y], IntRange(o + 1, o + 1), 2)
      && raw[2] == RawArgument([w2, z], IntRange(o + 2, o + 3), 3)
  {
    ThreeWordsFold(x, w1, y, w2, z, o);
  }

  lemma {:induction false} ThreeWordsTrimmed(raw: seq<RawArgument>, x: char, y: char, w2: char, z: char, o: int)
    requires PlainChar(x) && PlainChar(y) && IsSpaceOrTab(w2)
    requires |raw| == 3 && raw[0] == RawArgument([x], IntRange(o, o), 0) && raw[1] == RawArgument([y], IntRange(o + 1, o + 1), 2)
    requires raw[2] == RawArgument([w2, z], IntRange(o + 2, o + 3), 3)
    ensures var args := TrimArguments(raw);
      |args| == 3
      && args[0].text == [x] && args[0].range == IntRange(o, o) && args[0].start == 0
      && args[1].text == [y] && args[1].range == IntRange(o + 1, o + 1) && args[1].start == 2
      && args[2].text == [z] && args[2].range == IntRange(o + 3, o + 3) && args[2].start == 4
  {
    var args := TrimArguments(raw);
    TrimPlain(raw[0], x);
    TrimPlain(raw[1], y);
    TrimLastBlank(raw[2], w2, z);
    assert args[0] == TrimArgument(raw[0], false);
    assert args[1] == TrimArgument(raw[1], false);
    assert args[2] == TrimArgument(raw[2], true);
  }

  /** A one-character argument that is not blank is not trimmed. */
  lemma {:induction false} TrimPlain(a: RawArgument, x: char)
    requires a.text == [x] && PlainChar(x)
    ensures TrimArgument(a, false) == a
  {
    assert OtherTrimCount([x]) == 0;
    assert a.text[0..] == a.text;
  }

  /** The last argument loses its one leading space or tab. */
  lemma {:induction false} TrimLastBlank(a: RawArgument, w: char, z: char)
    requires a.text == [w, z] && IsSpaceOrTab(w)
    ensures TrimArgument(a, true) == RawArgument([z], IntRange(a.range.first + 1, a.range.last), a.start + 1)
  {
    assert [w, z][1..] == [z];
    assert StartsWithChar([w, z], w);
    assert LastTrimCount([w, z]) == 1;
  }

  /** The loop state the example reaches: `st` has these fields and nothing is open. */
  predicate Scanned(st: ArgumentsState, args: seq<RawArgument>, block: string, i: int, pos: nat) {
    st.arguments == args && st.currentBlock == block && st.blocksIndicators == [] && !st.escapeNext
    && st.i == i && st.pos == pos
  }

  /** A character that is neither whitespace, an escape, a backtick, a bracket nor a quote. */
  predicate PlainChar(c: char) {
    !IsWhitespace(c) && c != '\\' && c != '`' && c != '{' && c != '}' && c != '[' && c != ']'
    && c != '(' && c != ')' && c != '<' && c != '>' && c != '"' && c != '\''
  }

  /** A plain character outside any block only joins the current block. */
  lemma {:induction false} PlainStep(st: ArgumentsState, c: char, n: int)
    requires !st.escapeNext && st.blocksIndicators == [] && PlainChar(c)
    ensures Scanned(ArgumentsStep(st, c, n), st.arguments, st.currentBlock + [c], st.i, st.pos + 1)
  {
  }

  /** Whitespace outside any block, before the last argument, ends a non-blank block. */
  lemma {:induction false} SeparatorStep(st: ArgumentsState, c: char, n: int)
    requires !st.escapeNext && st.blocksIndicators == [] && IsWhitespace(c)
    requires !IsDone(st.arguments, n) && !IsBlank(st.currentBlock)
    ensures var args := st.arguments + [RawArgument(st.currentBlock, Until(st.i, st.i + |st.currentBlock|), st.pos - |st.currentBlock|)];
      Scanned(ArgumentsStep(st, c, n), args, if IsDone(args, n) then [c] else [], st.i + |st.currentBlock|, st.pos + 1)
  {
  }

  lemma {:induction false} ThreeWordsFold(x: char, w1: char, y: char, w2: char, z: char, o: int)
    requires PlainChar(x) && PlainChar(y) && PlainChar(z) && IsWhitespace(w1) && IsWhitespace(w2)
    ensures Scanned(ArgumentsFold([x, w1, y, w2, z], 3, o),
      [RawArgument([x], IntRange(o, o), 0), RawArgument([y], IntRange(o + 1, o + 1), 2)], [w2, z], o + 2, 5)
  {
    FoldFive(x, w1, y, w2, z, 3, o);
    ThreeWordsSteps(ArgumentsFold([], 3, o), x, w1, y, w2, z, o);
  }

  /** Unrolling the fold over five characters. */
  lemma {:induction false} FoldFive(x: char, w1: char, y: char, w2: char, z: char, n: int, o: int)
    ensures ArgumentsFold([x, w1, y, w2, z], n, o)
      == ArgumentsStep(ArgumentsStep(ArgumentsStep(ArgumentsStep(ArgumentsStep(ArgumentsFold([], n, o), x, n), w1, n), y, n), w2, n), z, n)
  {
    FoldSnoc([], x, n, o);
    assert [] + [x] == [x];
    FoldSnoc([x], w1, n, o);
    assert [x] + [w1] == [x, w1];
    FoldSnoc([x, w1], y, n, o);
    assert [x, w1] + [y] == [x, w1, y];
    FoldSnoc([x, w1, y], w2, n, o);
    assert [x, w1, y] + [w2] == [x, w1, y, w2];
    FoldSnoc([x, w1, y, w2], z, n, o);
    assert [x, w1, y, w2] + [z] == [x, w1, y, w2, z];
  }

  lemma {:induction false} ThreeWordsSteps(s0: ArgumentsState, x: char, w1: char, y: char, w2: char, z: char, o: int)
    requires Scanned(s0, [], [], o, 0)
    requires PlainChar(x) && PlainChar(y) && PlainChar(z) && IsWhitespace(w1) && IsWhitespace(w2)
    ensures Scanned(ArgumentsStep(ArgumentsStep(ArgumentsStep(ArgumentsStep(ArgumentsStep(s0, x, 3), w1, 3), y, 3), w2, 3), z, 3),
      [RawArgument([x], IntRange(o, o), 0), RawArgument([y], IntRange(o + 1, o + 1), 2)], [w2, z], o + 2, 5)
  {
    var a := RawArgument([x], IntRange(o, o), 0);
    var b := RawArgument([y], IntRange(o + 1, o + 1), 2);
    var s1 := ArgumentsStep(s0, x, 3);
    PlainStep(s0, x, 3);
    assert [] + [x] == [x];
    assert !IsBlank([x]) by { assert [x][0] == x; }
    var s2 := ArgumentsStep(s1, w1, 3);
    SeparatorStep(s1, w1, 3);
    assert Scanned(s2, [a], [], o + 1, 2);
    var s3 := ArgumentsStep(s2, y, 3);
    PlainStep(s2, y, 3);
    assert [] + [y] == [y];
    assert !IsBlank([y]) by { assert [y][0] == y; }
    var s4 := ArgumentsStep(s3, w2, 3);
    SeparatorStep(s3, w2, 3);
    assert Scanned(s4, [a, b], [w2], o + 2, 4);
    PlainStep(s4, z, 3);
    assert [w2] + [z] == [w2, z];
  }
}
