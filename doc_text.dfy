// DocText.kt: the text of a KDoc/Javadoc comment (`DocText`), the content it
// holds (`getDocContentWithMap`, with an index map back into the comment text),
// and the way back from content to comment text (`toDocText`).
//
// (Line comments are used in this file because the comment markers of KDoc
// would open and close Dafny block comments.)
module DocTexts {
  import opened Wrappers
  import opened Text
  import BlockSplit

  // ---------------------------------------------------------------------------
  // The DocText invariant (lines 7-25)
  // ---------------------------------------------------------------------------

  // Lines 10 and 21: non-blank, "/**" after the leading whitespace and "*/"
  // before the trailing whitespace.
  predicate IsDocText(s: string) {
    !IsBlank(s) && StartsWith(TrimStart(s), "/**") && EndsWith(TrimEnd(s), "*/")
  }

  // `value class DocText`: only strings passing the `init` check exist as a DocText.
  type DocText = s: string | IsDocText(s) witness (assert !IsWhitespace("/***/"[0]); "/***/")

  // `asDocText()` (line 18): the `require` of the `init` block throws on any other string.
  function AsDocText(s: string): (r: Result<DocText>)
    ensures r.Ok? <==> IsDocText(s)
    ensures r.Ok? ==> r.value == s
  {
    if IsDocText(s) then var d: DocText := s; Ok(d) else Err(IllegalArgument("DocText must start with '/**' and end with '*/'."))
  }

  // `asDocTextOrNull()` (lines 20-25): null exactly when the invariant fails.
  function AsDocTextOrNull(s: string): (r: Option<DocText>)
    ensures r.Some? <==> IsDocText(s)
    ensures r.Some? ==> r.value == s
  {
    if !IsBlank(s) && StartsWith(TrimStart(s), "/**") && EndsWith(TrimEnd(s), "*/") then Some(s) else None
  }

  // ---------------------------------------------------------------------------
  // getDocContentWithMap (lines 38-97)
  // ---------------------------------------------------------------------------

  // What is left of one line, and how many of its characters before that were dropped.
  datatype Cut = Cut(kept: string, skipped: nat)

  // `alsoUpdateOriginalCharIndex()` (line 50): the line becomes `r`, and the
  // characters it lost are counted as skipped.
  function Updated(c: Cut, r: string): Cut
    requires |r| <= |c.kept|
  {
    Cut(r, c.skipped + |c.kept| - |r|)
  }

  // Lines 53-56: the first line loses its leading whitespace and the "/**".
  function CutFirst(c: Cut, lineIndex: nat): Cut {
    if lineIndex == 0 then Updated(c, RemovePrefix(TrimStart(c.kept), "/**")) else c
  }

  // Lines 58-68: the last line is dropped when it is only "*/"; otherwise it
  // loses its leading whitespace and "*" (counted), then its "*/" and one
  // trailing space (not counted: they follow the kept text).
  function CutLast(c: Cut, lineIndex: nat, count: nat): Cut {
    if lineIndex == count - 1 then
      var lastLine := TrimStart(c.kept);
      if lastLine == "*/" then Cut("", c.skipped)
      else
        var d := Updated(c, RemovePrefixChar(lastLine, '*'));
        Cut(RemoveSuffixChar(RemoveSuffix(d.kept, "*/"), ' '), d.skipped)
    else c
  }

  // Lines 70-73: a middle line loses its leading whitespace and "*".
  function CutMiddle(c: Cut, lineIndex: nat, count: nat): Cut {
    if lineIndex != 0 && lineIndex != count - 1 then Updated(c, RemovePrefixChar(TrimStart(c.kept), '*')) else c
  }

  // Lines 47-77: line `lineIndex` of `count` lines, with one optional space
  // removed at the start (line 76).
  function CutLine(line: string, lineIndex: nat, count: nat): Cut {
    var c := CutMiddle(CutLast(CutFirst(Cut(line, 0), lineIndex), lineIndex, count), lineIndex, count);
    Updated(c, RemovePrefixChar(c.kept, ' '))
  }

  // The values lines 80-84 store for a line of `n` kept characters and the `\n` after it.
  function Entries(base: int, n: nat): (r: seq<int>)
    ensures |r| == n + 1 && forall j :: 0 <= j <= n ==> r[j] == base + j
  {
    seq(n + 1, j requires 0 <= j <= n => base + j)
  }

  // The state carried from line to line: `originalCharIndex`, the lines of the
  // result so far, and the values of `resultToOriginalMap` in insertion order.
  // Its keys are always 0, 1, 2, ..., so the list of values is the whole map.
  datatype MapState = MapState(originalCharIndex: int, result: seq<string>, values: seq<int>)

  // Lines 47-77 applied to every line.
  function Cuts(lines: seq<string>): (cuts: seq<Cut>)
    ensures |cuts| == |lines|
  {
    seq(|lines|, i requires 0 <= i < |lines| => CutLine(lines[i], i, |lines|))
  }

  // One pass of the lambda of lines 46-91, given what lines 47-77 made of the line.
  function MapStep(cut: Cut, lineIndex: nat, st: MapState): MapState {
    var originalCharIndex := st.originalCharIndex + cut.skipped;
    MapState(originalCharIndex + |cut.kept|, st.result + [cut.kept],
             st.values + Entries(originalCharIndex + lineIndex, |cut.kept|))
  }

  // The state after the first `k` lines.
  function MapFold(cuts: seq<Cut>, k: nat): (st: MapState)
    requires k <= |cuts|
    ensures |st.result| == k
    ensures k > 0 ==> |st.values| > 0
  {
    if k == 0 then MapState(0, [], []) else MapStep(cuts[k - 1], k - 1, MapFold(cuts, k - 1))
  }

  // Lines 93-96: the lines joined with `\n`, and the map without the entry
  // of the final `\n`.
  function DocContentWithMap(text: DocText): (string, seq<int>) {
    var cuts := Cuts(Split(text, '\n'));
    var st := MapFold(cuts, |cuts|);
    (Join(st.result, "\n"), st.values[..|st.values| - 1])
  }

  // `getDocContent()` (line 30).
  function GetDocContent(text: DocText): string {
    DocContentWithMap(text).0
  }

  // `getDocContentWithMap()`: the loop of lines 46-91 with its two counters
  // and the map, filled key by key.
  method GetDocContentWithMap(text: DocText) returns (content: string, values: seq<int>)
    ensures (content, values) == DocContentWithMap(text)
  {
    var lines := Split(text, '\n');
    ghost var cuts := Cuts(lines);
    var originalCharIndex := 0;
    var resultCharIndex := 0;
    var result: seq<string> := [];
    var resultToOriginalMap: seq<int> := [];
    for lineIndex := 0 to |lines|
      invariant MapFold(cuts, lineIndex) == MapState(originalCharIndex, result, resultToOriginalMap)
      invariant resultCharIndex == |resultToOriginalMap|
    {
      originalCharIndex, resultCharIndex, result, resultToOriginalMap :=
        MapLine(lines, lineIndex, originalCharIndex, resultCharIndex, result, resultToOriginalMap);
    }
    content := Join(result, "\n");
    values := resultToOriginalMap[..|resultToOriginalMap| - 1];
  }

  // One pass of the lambda of lines 46-91.
  method MapLine(lines: seq<string>, lineIndex: nat, originalCharIndex: int, resultCharIndex: int,
                 result: seq<string>, resultToOriginalMap: seq<int>)
    returns (originalCharIndex': int, resultCharIndex': int, result': seq<string>, resultToOriginalMap': seq<int>)
    requires lineIndex < |lines| && resultCharIndex == |resultToOriginalMap|
    ensures MapState(originalCharIndex', result', resultToOriginalMap')
         == MapStep(Cuts(lines)[lineIndex], lineIndex, MapState(originalCharIndex, result, resultToOriginalMap))
    ensures resultCharIndex' == |resultToOriginalMap'|
  {
    var cut := CutOf(lines, lineIndex);
    var index := originalCharIndex + cut.skipped;
    var line := cut.kept;
    resultToOriginalMap' := PutLine(resultToOriginalMap, resultCharIndex, index, lineIndex, line);
    resultCharIndex' := resultCharIndex + |line| + 1;
    originalCharIndex' := index + |line|;
    result' := result + [line];
    assert MapStep(cut, lineIndex, MapState(originalCharIndex, result, resultToOriginalMap))
        == MapState(originalCharIndex', result', resultToOriginalMap');
  }

  // Lines 79-84: one entry per character of the result line, and one for the
  // `\n` after it, at the keys following `resultCharIndex`.
  method PutLine(resultToOriginalMap: seq<int>, resultCharIndex: int, originalCharIndex: int, lineIndex: nat, line: string)
    returns (m: seq<int>)
    requires resultCharIndex == |resultToOriginalMap|
    ensures m == resultToOriginalMap + Entries(originalCharIndex + lineIndex, |line|)
  {
    m := resultToOriginalMap;
    for j := 0 to |line|
      invariant |m| == resultCharIndex + j
      invariant m[..|resultToOriginalMap|] == resultToOriginalMap
      invariant forall t :: |resultToOriginalMap| <= t < |m| ==> m[t] == originalCharIndex + lineIndex + (t - resultCharIndex)
    {
      m := m + [originalCharIndex + lineIndex + j];
    }
    m := m + [originalCharIndex + lineIndex + |line|];
    EntriesAppended(resultToOriginalMap, m, originalCharIndex + lineIndex, |line|);
  }

  // Lines 47-77 for line `lineIndex`.
  method CutOf(lines: seq<string>, lineIndex: nat) returns (cut: Cut)
    requires lineIndex < |lines|
    ensures cut == Cuts(lines)[lineIndex]
  {
    cut := CutLine(lines[lineIndex], lineIndex, |lines|);
  }

  lemma {:induction false} EntriesAppended(before: seq<int>, m: seq<int>, base: int, n: nat)
    requires |m| == |before| + n + 1 && m[..|before|] == before
    requires forall t :: |before| <= t < |m| ==> m[t] == base + (t - |before|)
    ensures m == before + Entries(base, n)
  {
    var e := Entries(base, n);
    forall t | 0 <= t < |m|
      ensures m[t] == (before + e)[t]
    {
      if t < |before| {
        assert m[t] == m[..|before|][t];
      }
    }
  }

  // ---------------------------------------------------------------------------
  // The index map points at the same characters (lines 35-36)
  // ---------------------------------------------------------------------------

  // `values` has one entry per character of `s`, and each one is the index
  // of that same character in `text`.
  predicate MapsInto(s: string, values: seq<int>, text: string) {
    |values| == |s| && forall i :: 0 <= i < |s| ==> 0 <= values[i] < |text| && s[i] == text[values[i]]
  }

  // The kept text is a slice of the line, starting after the skipped characters;
  // on every line but the last it runs to the end of the line.
  predicate Slice(c: Cut, line: string) {
    c.skipped + |c.kept| <= |line| && line[c.skipped..c.skipped + |c.kept|] == c.kept
  }

  predicate Tail(c: Cut, line: string) {
    c.skipped + |c.kept| == |line|
  }

  lemma {:induction false} UpdatedSlice(c: Cut, line: string, r: string)
    requires Slice(c, line) && |r| <= |c.kept| && r == c.kept[|c.kept| - |r|..]
    ensures Slice(Updated(c, r), line)
    ensures Tail(c, line) ==> Tail(Updated(c, r), line)
  {
    var o := c.skipped + |c.kept| - |r|;
    assert line[o..o + |r|] == line[c.skipped..c.skipped + |c.kept|][|c.kept| - |r|..];
  }

  lemma {:induction false} TruncatedSlice(c: Cut, line: string, r: string)
    requires Slice(c, line) && |r| <= |c.kept| && r == c.kept[..|r|]
    ensures Slice(Cut(r, c.skipped), line)
  {
    assert line[c.skipped..c.skipped + |r|] == line[c.skipped..c.skipped + |c.kept|][..|r|];
  }

  lemma {:induction false} CutFirstSlice(c: Cut, line: string, lineIndex: nat)
    requires Slice(c, line)
    ensures Slice(CutFirst(c, lineIndex), line)
    ensures Tail(c, line) ==> Tail(CutFirst(c, lineIndex), line)
  {
    if lineIndex == 0 {
      OpeningSlice(c, line, "/**");
    }
  }

  lemma {:induction false} OpeningSlice(c: Cut, line: string, p: string)
    requires Slice(c, line)
    ensures Slice(Updated(c, RemovePrefix(TrimStart(c.kept), p)), line)
    ensures Tail(c, line) ==> Tail(Updated(c, RemovePrefix(TrimStart(c.kept), p)), line)
  {
    var t := TrimStart(c.kept);
    var d := Updated(c, t);
    assert Slice(d, line) && (Tail(c, line) ==> Tail(d, line)) by {
      UpdatedSlice(c, line, t);
    }
    var r := RemovePrefix(t, p);
    UpdatedSlice(d, line, r);
    assert Updated(d, r) == Updated(c, r);
  }

  lemma {:induction false} CutLastSlice(c: Cut, line: string, lineIndex: nat, count: nat)
    requires Slice(c, line)
    ensures Slice(CutLast(c, lineIndex, count), line)
    ensures lineIndex != count - 1 ==> CutLast(c, lineIndex, count) == c
  {
    if lineIndex == count - 1 && TrimStart(c.kept) != "*/" {
      StarSlice(c, line);
      EndSlice(Updated(c, RemovePrefixChar(TrimStart(c.kept), '*')), line);
    }
  }

  lemma {:induction false} StarSlice(c: Cut, line: string)
    requires Slice(c, line)
    ensures Slice(Updated(c, RemovePrefixChar(TrimStart(c.kept), '*')), line)
  {
    var t := TrimStart(c.kept);
    var r := RemovePrefixChar(t, '*');
    SuffixTrans(c.kept, t, r);
    UpdatedSlice(c, line, r);
  }

  lemma {:induction false} EndSlice(d: Cut, line: string)
    requires Slice(d, line)
    ensures Slice(Cut(RemoveSuffixChar(RemoveSuffix(d.kept, "*/"), ' '), d.skipped), line)
  {
    var e := RemoveSuffix(d.kept, "*/");
    TruncatedSlice(d, line, e);
    TruncatedSlice(Cut(e, d.skipped), line, RemoveSuffixChar(e, ' '));
  }

  lemma {:induction false} CutMiddleSlice(c: Cut, line: string, lineIndex: nat, count: nat)
    requires Slice(c, line)
    ensures Slice(CutMiddle(c, lineIndex, count), line)
    ensures Tail(c, line) ==> Tail(CutMiddle(c, lineIndex, count), line)
  {
    if lineIndex != 0 && lineIndex != count - 1 {
      var t := TrimStart(c.kept);
      var r := RemovePrefixChar(t, '*');
      SuffixTrans(c.kept, t, r);
      UpdatedSlice(c, line, r);
    }
  }

  // Every line keeps one slice of itself; all lines but the last keep a
  // suffix, so that the next line's characters follow on.
  lemma {:induction false} CutLineSlice(line: string, lineIndex: nat, count: nat)
    ensures Slice(CutLine(line, lineIndex, count), line)
    ensures lineIndex != count - 1 ==> Tail(CutLine(line, lineIndex, count), line)
  {
    var c0 := Cut(line, 0);
    assert line[0..|line|] == line;
    CutFirstSlice(c0, line, lineIndex);
    var c1 := CutFirst(c0, lineIndex);
    CutLastSlice(c1, line, lineIndex, count);
    var c2 := CutLast(c1, lineIndex, count);
    CutMiddleSlice(c2, line, lineIndex, count);
    var c3 := CutMiddle(c2, lineIndex, count);
    UpdatedSlice(c3, line, RemovePrefixChar(c3.kept, ' '));
  }

  lemma {:induction false} MapsConcat(s: string, vs: seq<int>, t: string, ws: seq<int>, text: string)
    requires MapsInto(s, vs, text) && MapsInto(t, ws, text)
    ensures MapsInto(s + t, vs + ws, text)
  {
    assert forall i :: |s| <= i < |s| + |t| ==> (s + t)[i] == t[i - |s|] && (vs + ws)[i] == ws[i - |s|];
  }

  // The entries of a kept slice of the line at `offset` point at its characters.
  lemma {:induction false} KeptMaps(text: string, line: string, offset: nat, c: Cut)
    requires offset + |line| <= |text| && text[offset..offset + |line|] == line
    requires Slice(c, line)
    ensures MapsInto(c.kept, Entries(offset + c.skipped, |c.kept|)[..|c.kept|], text)
  {
    var e := Entries(offset + c.skipped, |c.kept|);
    forall i | 0 <= i < |c.kept|
      ensures e[..|c.kept|][i] == offset + c.skipped + i && c.kept[i] == text[offset + c.skipped + i]
    {
      assert c.kept[i] == line[c.skipped..c.skipped + |c.kept|][i] == line[c.skipped + i];
      assert line[c.skipped + i] == text[offset..offset + |line|][c.skipped + i];
    }
  }

  lemma {:induction false} TerminatedMaps(text: string, line: string, offset: nat, c: Cut)
    requires offset + |line| < |text| && text[offset..offset + |line|] == line && text[offset + |line|] == '\n'
    requires Slice(c, line) && Tail(c, line)
    ensures MapsInto(c.kept + "\n", Entries(offset + c.skipped, |c.kept|), text)
  {
    var e := Entries(offset + c.skipped, |c.kept|);
    KeptMaps(text, line, offset, c);
    assert MapsInto("\n", [e[|c.kept|]], text);
    assert e == e[..|c.kept|] + [e[|c.kept|]];
    MapsConcat(c.kept, e[..|c.kept|], "\n", [e[|c.kept|]], text);
  }

  // What every line keeps is a slice of it; on all lines but the last it is a suffix.
  predicate Sliced(cuts: seq<Cut>, lines: seq<string>) {
    |cuts| == |lines|
    && forall i :: 0 <= i < |lines| ==> Slice(cuts[i], lines[i]) && (i < |lines| - 1 ==> Tail(cuts[i], lines[i]))
  }

  lemma {:induction false} CutsSliced(lines: seq<string>)
    ensures Sliced(Cuts(lines), lines)
  {
    forall i | 0 <= i < |lines|
      ensures Slice(Cuts(lines)[i], lines[i]) && (i < |lines| - 1 ==> Tail(Cuts(lines)[i], lines[i]))
    {
      CutLineSlice(lines[i], i, |lines|);
    }
  }

  // What one pass adds, with the counter of the line it starts on written as `o - lineIndex`.
  lemma {:induction false} StepFacts(st: MapState, cut: Cut, lineIndex: nat, o: int, next: MapState)
    requires next == MapStep(cut, lineIndex, st) && st.originalCharIndex + lineIndex == o
    ensures next.originalCharIndex + lineIndex + 1 == o + cut.skipped + |cut.kept| + 1
    ensures next.result == st.result + [cut.kept]
    ensures next.values == st.values + Entries(o + cut.skipped, |cut.kept|)
  {
  }

  // Before the last line, the counter plus the line number is where the next
  // line starts, and every character so far, `\n`s included, maps back.
  lemma {:induction false} MapFoldMaps(lines: seq<string>, cuts: seq<Cut>, text: string, k: nat)
    requires Join(lines, "\n") == text && k < |lines| && Sliced(cuts, lines)
    ensures var st := MapFold(cuts, k);
      st.originalCharIndex + k == BlockSplit.Offset(lines, k)
      && MapsInto(BlockSplit.Terminated(st.result), st.values, text)
  {
    if k > 0 {
      MapFoldMaps(lines, cuts, text, k - 1);
      var st := MapFold(cuts, k - 1);
      var o := BlockSplit.Offset(lines, k - 1);
      StepFacts(st, cuts[k - 1], k - 1, o, MapFold(cuts, k));
      BlockSplit.OffsetNext(lines, k - 1);
      MiddleLineMaps(lines, text, k - 1, st, cuts[k - 1], o, MapFold(cuts, k));
    }
  }

  lemma {:induction false} MiddleLineMaps(lines: seq<string>, text: string, k: nat, st: MapState, cut: Cut, o: nat, next: MapState)
    requires Join(lines, "\n") == text && k < |lines| - 1 && o == BlockSplit.Offset(lines, k)
    requires Slice(cut, lines[k]) && Tail(cut, lines[k])
    requires MapsInto(BlockSplit.Terminated(st.result), st.values, text)
    requires next.result == st.result + [cut.kept]
    requires next.values == st.values + Entries(o + cut.skipped, |cut.kept|)
    ensures MapsInto(BlockSplit.Terminated(next.result), next.values, text)
  {
    BlockSplit.JoinSelects(lines, k);
    TerminatedMaps(text, lines[k], o, cut);
    TerminatedStep(st.result, cut.kept, next.result);
    MapsConcat(BlockSplit.Terminated(st.result), st.values, cut.kept + "\n", Entries(o + cut.skipped, |cut.kept|), text);
  }

  lemma {:induction false} TerminatedStep(parts: seq<string>, x: string, next: seq<string>)
    requires next == parts + [x]
    ensures BlockSplit.Terminated(next) == BlockSplit.Terminated(parts) + (x + "\n")
  {
    BlockSplit.TerminatedSnoc(parts, x);
  }

  // Lines 35-36: `result[key] == this[value]`: the content has one map entry
  // per character, and each entry is that character's index in the comment text.
  lemma {:induction false} ContentMapsBack(text: DocText)
    ensures var (content, values) := DocContentWithMap(text); MapsInto(content, values, text)
  {
    var lines := Split(text, '\n');
    CutsSliced(lines);
    JoinSplit(text, '\n');
    FoldMaps(lines, Cuts(lines), text);
  }

  lemma {:induction false} FoldMaps(lines: seq<string>, cuts: seq<Cut>, text: string)
    requires Join(lines, "\n") == text && |lines| > 0 && Sliced(cuts, lines)
    ensures var st := MapFold(cuts, |cuts|);
      MapsInto(Join(st.result, "\n"), st.values[..|st.values| - 1], text)
  {
    var n := |lines|;
    MapFoldMaps(lines, cuts, text, n - 1);
    var st := MapFold(cuts, n - 1);
    var o := BlockSplit.Offset(lines, n - 1);
    StepFacts(st, cuts[n - 1], n - 1, o, MapFold(cuts, n));
    LastLineMaps(lines, text, st, cuts[n - 1], o, MapFold(cuts, n));
  }

  lemma {:induction false} LastLineMaps(lines: seq<string>, text: string, st: MapState, cut: Cut, o: nat, next: MapState)
    requires Join(lines, "\n") == text && |lines| > 0 && o == BlockSplit.Offset(lines, |lines| - 1)
    requires Slice(cut, lines[|lines| - 1])
    requires MapsInto(BlockSplit.Terminated(st.result), st.values, text)
    requires next.result == st.result + [cut.kept]
    requires next.values == st.values + Entries(o + cut.skipped, |cut.kept|)
    ensures |next.values| > 0 && MapsInto(Join(next.result, "\n"), next.values[..|next.values| - 1], text)
  {
    var e := Entries(o + cut.skipped, |cut.kept|);
    BlockSplit.JoinSelects(lines, |lines| - 1);
    KeptMaps(text, lines[|lines| - 1], o, cut);
    DropLast(st.values, e, next.values);
    BlockSplit.JoinSnoc(st.result, cut.kept);
    MapsConcat(BlockSplit.Terminated(st.result), st.values, cut.kept, e[..|cut.kept|], text);
  }

  lemma {:induction false} DropLast(a: seq<int>, e: seq<int>, all: seq<int>)
    requires all == a + e && e != []
    ensures all[..|all| - 1] == a + e[..|e| - 1]
  {
  }

  // ---------------------------------------------------------------------------
  // toDocText (lines 102-125)
  // ---------------------------------------------------------------------------

  // Line 107: the first line opens the comment.
  function Opened(first: string): string {
    if first == "" then "/**" else "/** " + first
  }

  // Lines 104-111: the list of lines after its two edits, and whether its last
  // line was blank in between (after the first edit, before the second).
  function Edited(content: string): (e: (seq<string>, bool))
    ensures |e.0| == |Split(content, '\n')|
  {
    var it0 := Split(content, '\n');
    var it1 := it0[0 := Opened(it0[0])];
    var lastIsBlank := IsBlank(it1[|it1| - 1]);
    (it1[|it1| - 1 := Trim(it1[|it1| - 1]) + " */"], lastIsBlank)
  }

  // Lines 118-121: the " *" (and a space when the line has text) of a continuation line.
  function Star(s: string, index: nat, lastIndex: nat, lastIsBlank: bool): string {
    if !(index == 0 || (index == lastIndex && lastIsBlank)) then " *" + (if s != "" then " " else "") else ""
  }

  // Lines 114-123: line `index` as `buildString` prints it.
  function Printed(s: string, index: nat, lastIndex: nat, lastIsBlank: bool, indent: nat): string {
    (if index != 0 then "\n" else "") + Spaces(indent) + Star(s, index, lastIndex, lastIsBlank) + s
  }

  // Lines 103-124: the printed lines joined with "" (before `asDocText()`).
  function Rendered(content: string, indent: nat): string {
    var (it, lastIsBlank) := Edited(content);
    Join(seq(|it|, index requires 0 <= index < |it| => Printed(it[index], index, |it| - 1, lastIsBlank, indent)), "")
  }

  // The lines of the rendered text, without the `\n`s between them.
  function DocLines(content: string, indent: nat): (ls: seq<string>)
    ensures |ls| == |Split(content, '\n')|
  {
    var (it, lastIsBlank) := Edited(content);
    seq(|it|, index requires 0 <= index < |it| => Spaces(indent) + Star(it[index], index, |it| - 1, lastIsBlank) + it[index])
  }

  // `toDocText(indent)`: the `asDocText()` of line 125 never throws, since the
  // rendered text always meets the DocText invariant. A negative `indent`
  // makes `repeat` throw, so the model takes a `nat`.
  function ToDocText(content: string, indent: nat): (r: DocText)
    ensures AsDocText(Rendered(content, indent)) == Ok(r)
  {
    RenderedIsDocText(content, indent);
    Rendered(content, indent)
  }

  // ---------------------------------------------------------------------------
  // What toDocText renders
  // ---------------------------------------------------------------------------

  lemma {:induction false} NewlinesJoin(ls: seq<string>, ps: seq<string>)
    requires |ls| >= 1 && |ps| == |ls|
    requires forall i :: 0 <= i < |ls| ==> ps[i] == "\n" + ls[i]
    ensures Join(ps, "") == "\n" + Join(ls, "\n")
  {
    if |ls| > 1 {
      NewlinesJoin(ls[1..], ps[1..]);
      assert Join(ps, "") == ps[0] + "" + Join(ps[1..], "");
      assert Join(ls, "\n") == ls[0] + "\n" + Join(ls[1..], "\n");
    }
  }

  // Printing `\n` before every line but the first is joining the lines with `\n`.
  lemma {:induction false} NewlineJoin(ls: seq<string>, ps: seq<string>)
    requires |ls| >= 1 && |ps| == |ls| && ps[0] == ls[0]
    requires forall i :: 1 <= i < |ls| ==> ps[i] == "\n" + ls[i]
    ensures Join(ps, "") == Join(ls, "\n")
  {
    if |ls| > 1 {
      NewlinesJoin(ls[1..], ps[1..]);
      assert Join(ps, "") == ps[0] + "" + Join(ps[1..], "");
      assert Join(ls, "\n") == ls[0] + "\n" + Join(ls[1..], "\n");
    }
  }

  lemma {:induction false} RenderedLines(content: string, indent: nat)
    ensures Rendered(content, indent) == Join(DocLines(content, indent), "\n")
  {
    var (it, lastIsBlank) := Edited(content);
    PrintedLines(it, lastIsBlank, indent,
                 seq(|it|, index requires 0 <= index < |it| => Printed(it[index], index, |it| - 1, lastIsBlank, indent)),
                 DocLines(content, indent));
  }

  // The printed lines of `it` joined with "" are its lines joined with "\n".
  lemma {:induction false} PrintedLines(it: seq<string>, lastIsBlank: bool, indent: nat, ps: seq<string>, ls: seq<string>)
    requires |it| >= 1 && |ps| == |it| && |ls| == |it|
    requires forall i :: 0 <= i < |it| ==> ps[i] == Printed(it[i], i, |it| - 1, lastIsBlank, indent)
    requires forall i :: 0 <= i < |it| ==> ls[i] == Spaces(indent) + Star(it[i], i, |it| - 1, lastIsBlank) + it[i]
    ensures Join(ps, "") == Join(ls, "\n")
  {
    assert ps[0] == ls[0] by {
      assert ps[0] == "" + ls[0];
    }
    forall i | 1 <= i < |ls|
      ensures ps[i] == "\n" + ls[i]
    {
      assert ps[i] == "\n" + Spaces(indent) + Star(it[i], i, |it| - 1, lastIsBlank) + it[i];
    }
    NewlineJoin(ls, ps);
  }

  lemma {:induction false} SliceNoNewline(s: string, r: string, a: nat)
    requires '\n' !in s && a <= |s| && (r == s[a..] || r == s[..a])
    ensures '\n' !in r
  {
    forall k | 0 <= k < |r|
      ensures r[k] != '\n'
    {
      if r == s[a..] {
        assert r[k] == s[a + k];
      } else {
        assert r[k] == s[k];
      }
    }
  }

  lemma {:induction false} TrimNoNewline(s: string)
    requires '\n' !in s
    ensures '\n' !in Trim(s)
  {
    var t := TrimStart(s);
    SliceNoNewline(s, t, |s| - |t|);
    SliceNoNewline(t, TrimEnd(t), |TrimEnd(t)|);
  }

  lemma {:induction false} EditedNoNewline(content: string)
    ensures forall i :: 0 <= i < |Edited(content).0| ==> '\n' !in Edited(content).0[i]
  {
    var it0 := Split(content, '\n');
    var it1 := it0[0 := Opened(it0[0])];
    assert '\n' !in Opened(it0[0]);
    TrimNoNewline(it1[|it1| - 1]);
  }

  lemma {:induction false} DocLinesNoNewline(content: string, indent: nat)
    ensures forall i :: 0 <= i < |DocLines(content, indent)| ==> '\n' !in DocLines(content, indent)[i]
  {
    EditedNoNewline(content);
    assert '\n' !in Spaces(indent);
  }

  // The lines of `toDocText`'s text, one per line of the content.
  lemma {:induction false} ToDocTextLines(content: string, indent: nat)
    ensures Split(ToDocText(content, indent), '\n') == DocLines(content, indent)
  {
    RenderedLines(content, indent);
    DocLinesNoNewline(content, indent);
    SplitJoin(DocLines(content, indent), '\n');
  }

  // Whitespace in front of a non-whitespace character is what `trimStart()` removes.
  lemma {:induction false} LeadingBlank(w: string, x: string)
    requires IsBlank(w) && (x == [] || !IsWhitespace(x[0]))
    ensures TrimStart(w + x) == x
    decreases |w|
  {
    if w == [] {
      assert w + x == x;
    } else {
      assert (w + x)[1..] == w[1..] + x;
      LeadingBlank(w[1..], x);
      assert LeadingWhitespace(w + x) == 1 + LeadingWhitespace(w[1..] + x);
    }
  }

  lemma {:induction false} EndsNoTrim(r: string)
    requires r != [] && !IsWhitespace(r[|r| - 1])
    ensures TrimEnd(r) == r
  {
  }

  lemma {:induction false} TrimKeepsOpening(s: string)
    requires StartsWith(s, "/**")
    ensures StartsWith(Trim(s), "/**")
  {
    assert s[0] == '/' && s[2] == '*';
    assert TrimStart(s) == s;
    TrimEndSkips(s);
  }

  lemma {:induction false} JoinHead(ls: seq<string>, sep: string)
    requires |ls| >= 1
    ensures StartsWith(Join(ls, sep), ls[0])
  {
    if |ls| > 1 {
      assert Join(ls, sep) == ls[0] + (sep + Join(ls[1..], sep));
    }
  }

  lemma {:induction false} JoinLast(ls: seq<string>, sep: string)
    requires |ls| >= 1
    ensures EndsWith(Join(ls, sep), ls[|ls| - 1])
  {
    if |ls| > 1 {
      JoinLast(ls[1..], sep);
      var rest := Join(ls[1..], sep);
      assert Join(ls, sep) == (ls[0] + sep) + rest;
    }
  }

  // The edited list opens with "/**" and closes with "*/".
  lemma {:induction false} EditedEnds(content: string)
    ensures var it := Edited(content).0; StartsWith(it[0], "/**") && EndsWith(it[|it| - 1], "*/")
  {
    var it0 := Split(content, '\n');
    var first := Opened(it0[0]);
    assert StartsWith(first, "/**");
    if |it0| == 1 {
      TrimKeepsOpening(first);
    }
  }

  lemma {:induction false} RenderedIsDocText(content: string, indent: nat)
    ensures IsDocText(Rendered(content, indent))
  {
    var it := Edited(content).0;
    var ls := DocLines(content, indent);
    RenderedLines(content, indent);
    EditedEnds(content);
    DocLinesEnds(content, indent);
    FramedIsDocText(ls, Spaces(indent), it[0], it[|it| - 1]);
  }

  lemma {:induction false} DocLinesEnds(content: string, indent: nat)
    ensures var ls := DocLines(content, indent); var it := Edited(content).0;
      ls[0] == Spaces(indent) + it[0] && EndsWith(ls[|ls| - 1], it[|it| - 1])
  {
    var (it, lastIsBlank) := Edited(content);
    LinesEnds(it, lastIsBlank, indent, DocLines(content, indent));
  }

  lemma {:induction false} LinesEnds(it: seq<string>, lastIsBlank: bool, indent: nat, ls: seq<string>)
    requires |it| >= 1 && |ls| == |it|
    requires forall i :: 0 <= i < |it| ==> ls[i] == Spaces(indent) + Star(it[i], i, |it| - 1, lastIsBlank) + it[i]
    ensures ls[0] == Spaces(indent) + it[0] && EndsWith(ls[|ls| - 1], it[|it| - 1])
  {
    assert ls[0] == Spaces(indent) + "" + it[0];
    var n := |it| - 1;
    assert ls[n] == (Spaces(indent) + Star(it[n], n, n, lastIsBlank)) + it[n];
  }

  // A text whose first line opens with "/**" after blanks, and whose last line
  // closes with "*/", is a DocText.
  lemma {:induction false} FramedIsDocText(ls: seq<string>, w: string, first: string, last: string)
    requires |ls| >= 1 && IsBlank(w) && ls[0] == w + first && StartsWith(first, "/**")
    requires EndsWith(ls[|ls| - 1], last) && EndsWith(last, "*/")
    ensures IsDocText(Join(ls, "\n"))
  {
    var r := Join(ls, "\n");
    JoinHead(ls, "\n");
    JoinLast(ls, "\n");
    var x := r[|w|..];
    assert r[..|ls[0]|] == ls[0];
    assert r == w + x by {
      assert r[..|w|] == ls[0][..|w|] == w;
    }
    assert x[..3] == "/**" by {
      assert x[..3] == ls[0][|w|..|w| + 3] == first[..3];
    }
    assert !IsWhitespace(r[|w|]) by {
      assert r[|w|] == x[0] == '/';
    }
    LeadingBlank(w, x);
    var l := ls[|ls| - 1];
    assert r[|r| - |l|..] == l;
    assert l[|l| - |last|..] == last;
    assert r[|r| - 2..] == "*/" by {
      assert r[|r| - 2..] == l[|l| - 2..] == last[|last| - 2..];
    }
    assert r[|r| - 1] == '/';
    EndsNoTrim(r);
  }

  // ---------------------------------------------------------------------------
  // The lines toDocText prints, in terms of the content's lines
  // ---------------------------------------------------------------------------

  lemma {:induction false} TrimBlank(s: string)
    requires IsBlank(s)
    ensures Trim(s) == ""
  {
    assert TrimStart(s) == [];
  }

  // With two or more lines, the first opens the comment (line 107).
  lemma {:induction false} DocLineFirst(content: string, indent: nat)
    requires |Split(content, '\n')| >= 2
    ensures DocLines(content, indent)[0] == Spaces(indent) + Opened(Split(content, '\n')[0])
  {
    var (it, lastIsBlank) := Edited(content);
    assert it[0] == Opened(Split(content, '\n')[0]);
    assert DocLines(content, indent)[0] == Spaces(indent) + "" + it[0];
  }

  // A single line both opens and closes the comment (lines 107 and 111).
  lemma {:induction false} DocLineOnly(content: string, indent: nat)
    requires |Split(content, '\n')| == 1
    ensures DocLines(content, indent)[0] == Spaces(indent) + (Trim(Opened(Split(content, '\n')[0])) + " */")
  {
    var (it, lastIsBlank) := Edited(content);
    assert it[0] == Trim(Opened(Split(content, '\n')[0])) + " */";
    assert DocLines(content, indent)[0] == Spaces(indent) + "" + it[0];
  }

  // A middle line gets " *", and a space before its text when it has any (lines 118-121).
  lemma {:induction false} DocLineMiddle(content: string, indent: nat, i: nat)
    requires 0 < i < |Split(content, '\n')| - 1
    ensures var c := Split(content, '\n')[i];
      DocLines(content, indent)[i] == Spaces(indent) + " *" + (if c != "" then " " else "") + c
  {
    var (it, lastIsBlank) := Edited(content);
    var c := Split(content, '\n')[i];
    assert it[i] == c;
    assert Star(c, i, |it| - 1, lastIsBlank) == " *" + (if c != "" then " " else "");
  }

  // The last of several lines closes the comment; it gets no " *" when it was blank (lines 109-121).
  lemma {:induction false} DocLineLast(content: string, indent: nat)
    requires |Split(content, '\n')| >= 2
    ensures var cs := Split(content, '\n'); var c := cs[|cs| - 1];
      DocLines(content, indent)[|cs| - 1]
        == Spaces(indent) + (if IsBlank(c) then " */" else " * " + Trim(c) + " */")
  {
    var (it, lastIsBlank) := Edited(content);
    var cs := Split(content, '\n');
    EditedLast(content);
    LastLine(it, lastIsBlank, indent, DocLines(content, indent), cs[|cs| - 1]);
  }

  // With two or more lines, the last is trimmed and closed, and it is blank
  // exactly when the content's last line is.
  lemma {:induction false} EditedLast(content: string)
    requires |Split(content, '\n')| >= 2
    ensures var cs := Split(content, '\n'); var e := Edited(content);
      e.1 == IsBlank(cs[|cs| - 1]) && e.0[|cs| - 1] == Trim(cs[|cs| - 1]) + " */"
  {
    var it0 := Split(content, '\n');
    var it1 := it0[0 := Opened(it0[0])];
    assert it1[|it1| - 1] == it0[|it0| - 1];
  }

  lemma {:induction false} LastLine(it: seq<string>, lastIsBlank: bool, indent: nat, ls: seq<string>, c: string)
    requires |it| >= 2 && |ls| == |it|
    requires forall i :: 0 <= i < |it| ==> ls[i] == Spaces(indent) + Star(it[i], i, |it| - 1, lastIsBlank) + it[i]
    requires lastIsBlank == IsBlank(c) && it[|it| - 1] == Trim(c) + " */"
    ensures ls[|ls| - 1] == Spaces(indent) + (if IsBlank(c) then " */" else " * " + Trim(c) + " */")
  {
    var n := |it| - 1;
    var line := ls[n];
    assert line == Spaces(indent) + Star(it[n], n, n, lastIsBlank) + it[n];
    if IsBlank(c) {
      TrimBlank(c);
      assert line == Spaces(indent) + "" + " */";
    } else {
      assert Star(it[n], n, n, lastIsBlank) == " *" + " ";
    }
  }

  lemma {:induction false} DocLinesIndented(content: string, indent: nat)
    ensures var ls := DocLines(content, indent);
      forall i :: 0 <= i < |ls| ==> StartsWith(ls[i], Spaces(indent))
  {
    var ls := DocLines(content, indent);
    var (it, lastIsBlank) := Edited(content);
    forall i | 0 <= i < |ls|
      ensures StartsWith(ls[i], Spaces(indent))
    {
      PrefixStarts(Spaces(indent), Star(it[i], i, |it| - 1, lastIsBlank) + it[i]);
    }
  }

  lemma {:induction false} PrefixStarts(w: string, x: string)
    ensures StartsWith(w + x, w)
  {
    assert (w + x)[..|w|] == w;
  }

  // Lines 102-125: the text has one line per line of the content, and every
  // one of them starts with `indent` spaces.
  lemma {:induction false} ToDocTextIndented(content: string, indent: nat)
    ensures var ls := Split(ToDocText(content, indent), '\n');
      |ls| == |Split(content, '\n')| && forall i :: 0 <= i < |ls| ==> StartsWith(ls[i], Spaces(indent))
  {
    ToDocTextLines(content, indent);
    DocLinesIndented(content, indent);
  }

  // Lines 102-125: after the indent the text opens with "/**", and it ends with "*/".
  lemma {:induction false} ToDocTextFramed(content: string, indent: nat)
    ensures var r := ToDocText(content, indent);
      StartsWith(r, Spaces(indent) + "/**") && EndsWith(r, "*/")
  {
    var it := Edited(content).0;
    RenderedLines(content, indent);
    EditedEnds(content);
    DocLinesEnds(content, indent);
    Framed(DocLines(content, indent), Spaces(indent), it[0], it[|it| - 1]);
  }

  lemma {:induction false} Framed(ls: seq<string>, w: string, first: string, last: string)
    requires |ls| >= 1 && ls[0] == w + first && StartsWith(first, "/**")
    requires EndsWith(ls[|ls| - 1], last) && EndsWith(last, "*/")
    ensures StartsWith(Join(ls, "\n"), w + "/**") && EndsWith(Join(ls, "\n"), "*/")
  {
    var r := Join(ls, "\n");
    JoinHead(ls, "\n");
    JoinLast(ls, "\n");
    assert r[..|ls[0]|] == ls[0];
    assert r[..|w| + 3] == ls[0][..|w| + 3] == w + "/**";
    var l := ls[|ls| - 1];
    assert r[|r| - |l|..] == l;
    assert l[|l| - |last|..] == last;
    assert r[|r| - 2..] == l[|l| - 2..] == last[|last| - 2..];
  }

  // Lines 118-121 on the text: a middle line is `indent` spaces and " *",
  // then a space and the content line when that is not empty.
  lemma {:induction false} ToDocTextContinuation(content: string, indent: nat, i: nat)
    requires 0 < i < |Split(content, '\n')| - 1
    ensures var c := Split(content, '\n')[i]; var ls := Split(ToDocText(content, indent), '\n');
      |ls| == |Split(content, '\n')| && ls[i] == Spaces(indent) + " *" + (if c != "" then " " else "") + c
  {
    ToDocTextLines(content, indent);
    DocLineMiddle(content, indent, i);
  }

  // Lines 109-121 on the text: the last line is " */" after the indent when
  // the content's last line is blank, and " * " + its trimmed text + " */" otherwise.
  lemma {:induction false} ToDocTextClosing(content: string, indent: nat)
    requires |Split(content, '\n')| >= 2
    ensures var cs := Split(content, '\n'); var c := cs[|cs| - 1]; var ls := Split(ToDocText(content, indent), '\n');
      |ls| == |cs| && ls[|cs| - 1]
        == Spaces(indent) + (if IsBlank(c) then " */" else " * " + Trim(c) + " */")
  {
    ToDocTextLines(content, indent);
    DocLineLast(content, indent);
  }

  // ---------------------------------------------------------------------------
  // getDocContent undoes toDocText
  // ---------------------------------------------------------------------------

  lemma {:induction false} TrimmedEnds(s: string)
    requires s != "" && Trim(s) == s
    ensures !IsWhitespace(s[0]) && !IsWhitespace(s[|s| - 1])
  {
    var t := TrimStart(s);
    assert Trim(s)[0] == t[0];
  }

  lemma {:induction false} TrimOpened(s: string)
    requires s == "" || Trim(s) == s
    ensures Trim(Opened(s)) == Opened(s)
  {
    var o := Opened(s);
    assert o != [] && !IsWhitespace(o[0]) && !IsWhitespace(o[|o| - 1]) by {
      assert o[0] == '/';
      if s != "" {
        TrimmedEnds(s);
        assert o[|o| - 1] == s[|s| - 1];
      }
    }
    NoTrim(o);
  }

  // A string with no whitespace at either end is its own trim.
  lemma {:induction false} NoTrim(o: string)
    requires o != [] && !IsWhitespace(o[0]) && !IsWhitespace(o[|o| - 1])
    ensures Trim(o) == o
  {
    LeadingBlank("", o);
    assert "" + o == o;
    EndsNoTrim(o);
  }


  // The stages of CutLine, each on a line of a known shape.

  lemma {:induction false} OpeningCut(c: Cut, w: string, o: string)
    requires c.kept == w + o && IsBlank(w) && |o| >= 3 && o[..3] == "/**"
    ensures CutFirst(c, 0).kept == o[3..]
  {
    assert o[0] == "/**"[0];
    LeadingBlank(w, o);
  }

  lemma {:induction false} ClosingCut(c: Cut, n: nat, b: string, x: string)
    requires n >= 1 && c.kept == b + x && IsBlank(b) && x != [] && !IsWhitespace(x[0]) && x != "*/"
    ensures CutLast(c, n - 1, n).kept == RemoveSuffixChar(RemoveSuffix(RemovePrefixChar(x, '*'), "*/"), ' ')
  {
    LeadingBlank(b, x);
  }

  lemma {:induction false} ClosingDropped(c: Cut, n: nat, b: string)
    requires n >= 1 && c.kept == b + "*/" && IsBlank(b)
    ensures CutLast(c, n - 1, n).kept == ""
  {
    LeadingBlank(b, "*/");
  }

  lemma {:induction false} StarCut(c: Cut, i: nat, n: nat, b: string, x: string)
    requires 0 < i < n - 1 && c.kept == b + ("*" + x) && IsBlank(b)
    ensures CutMiddle(c, i, n).kept == x
  {
    LeadingBlank(b, "*" + x);
  }

  lemma {:induction false} StripClose(y: string)
    ensures RemoveSuffixChar(RemoveSuffix(y + " */", "*/"), ' ') == y
  {
    var l := y + " */";
    assert EndsWith(l, "*/") && l[..|l| - 2] == y + " ";
    assert (y + " ")[..|y|] == y;
  }

  // The first of several lines: `removePrefix("/**")` and then one space.
  lemma {:induction false} CutOpenedFirst(w: string, s: string, n: nat)
    requires IsBlank(w) && n >= 2
    ensures CutLine(w + Opened(s), 0, n).kept == s
  {
    var o := Opened(s);
    assert o[..3] == "/**" && o[3..] == if s == "" then "" else " " + s;
    OpeningCut(Cut(w + o, 0), w, o);
  }

  // A one-line comment "/** s */", and "/** */" for the empty content.
  lemma {:induction false} CutOpenedOnly(w: string, s: string)
    requires IsBlank(w) && (s == "" || (!IsWhitespace(s[0]) && s[0] != '*'))
    ensures CutLine(w + (Opened(s) + " */"), 0, 1).kept == s
  {
    var c1 := CutFirst(Cut(w + (Opened(s) + " */"), 0), 0);
    OnlyFirst(w, s);
    OnlyLast(c1, s);
    assert RemovePrefixChar(s, ' ') == s by {
      if s != "" {
        assert s[0] != ' ';
      }
    }
  }

  lemma {:induction false} OnlyFirst(w: string, s: string)
    requires IsBlank(w) && (s == "" || (!IsWhitespace(s[0]) && s[0] != '*'))
    ensures CutFirst(Cut(w + (Opened(s) + " */"), 0), 0).kept == (if s == "" then " " + "*/" else " " + (s + " */"))
  {
    var o := Opened(s) + " */";
    OnlyShape(s);
    OpeningCut(Cut(w + o, 0), w, o);
  }

  lemma {:induction false} OnlyLast(c1: Cut, s: string)
    requires s == "" || (!IsWhitespace(s[0]) && s[0] != '*')
    requires c1.kept == (if s == "" then " " + "*/" else " " + (s + " */"))
    ensures CutLast(c1, 0, 1).kept == s
  {
    if s == "" {
      ClosingDropped(c1, 1, " ");
    } else {
      OnlyShape(s);
      ClosingCut(c1, 1, " ", s + " */");
      StripClose(s);
    }
  }

  lemma {:induction false} OnlyShape(s: string)
    requires s == "" || (!IsWhitespace(s[0]) && s[0] != '*')
    ensures var o := Opened(s) + " */"; var l := s + " */";
      |o| >= 3 && o[..3] == "/**" && o[3..] == (if s == "" then " " + "*/" else " " + l)
      && (s != "" ==> RemovePrefixChar(l, '*') == l && RemovePrefixChar(s, ' ') == s)
  {
    var o := Opened(s) + " */";
    assert o[..3] == "/**";
    assert o[3..] == (if s == "" then " " + "*/" else " " + (s + " */"));
  }

  // A middle line "w *" or "w * s".
  lemma {:induction false} CutStarred(w: string, s: string, i: nat, n: nat)
    requires IsBlank(w) && 0 < i < n - 1
    ensures CutLine(w + " *" + (if s != "" then " " else "") + s, i, n).kept == s
  {
    var x := (if s != "" then " " else "") + s;
    var line := w + " *" + (if s != "" then " " else "") + s;
    assert line == (w + " ") + ("*" + x);
    StarCut(Cut(line, 0), i, n, w + " ", x);
  }

  // The closing line " */" of a content whose last line is empty.
  lemma {:induction false} CutClosedBlank(w: string, n: nat)
    requires IsBlank(w) && n >= 2
    ensures CutLine(w + " */", n - 1, n).kept == ""
  {
    assert w + " */" == (w + " ") + "*/";
    ClosingDropped(Cut(w + " */", 0), n, w + " ");
  }

  // The closing line " * s */".
  lemma {:induction false} CutClosedText(w: string, s: string, n: nat)
    requires IsBlank(w) && n >= 2 && s != ""
    ensures CutLine(w + (" * " + s + " */"), n - 1, n).kept == s
  {
    var x := "*" + (" " + s) + " */";
    ClosedShape(w, s);
    ClosingCut(Cut(w + (" * " + s + " */"), 0), n, w + " ", x);
    StripClose(" " + s);
  }

  lemma {:induction false} ClosedShape(w: string, s: string)
    ensures var x := "*" + (" " + s) + " */";
      w + (" * " + s + " */") == (w + " ") + x && RemovePrefixChar(x, '*') == (" " + s) + " */"
      && RemovePrefixChar(" " + s, ' ') == s
  {
    var x := "*" + (" " + s) + " */";
    assert x[1..] == (" " + s) + " */";
    assert (" " + s)[1..] == s;
  }

  /**
   * The contents toDocText renders so that getDocContent gives them back:
   * the last line is empty or already trimmed (line 111 trims it), and a
   * one-line content does not start with '*' (line 64 would drop it).
   */
  predicate Restorable(content: string) {
    RestorableLines(Split(content, '\n'))
  }

  predicate RestorableLines(cs: seq<string>)
    requires |cs| >= 1
  {
    var last := cs[|cs| - 1];
    (last == "" || Trim(last) == last) && (|cs| == 1 ==> !StartsWithChar(last, '*'))
  }

  lemma {:induction false} KeptLine(content: string, indent: nat, i: nat)
    requires Restorable(content) && i < |Split(content, '\n')|
    ensures var cs := Split(content, '\n');
      CutLine(DocLines(content, indent)[i], i, |cs|).kept == cs[i]
  {
    DocLineFramed(content, indent, i);
    SpacesBlank(indent);
    KeptFramed(Split(content, '\n'), i, Spaces(indent), DocLines(content, indent)[i]);
  }


  // Line `i` of the comment toDocText renders for the lines `cs`, indented by `w`.
  function FramedLine(cs: seq<string>, i: nat, w: string): string
    requires i < |cs|
  {
    var c := cs[i];
    if |cs| == 1 then w + (Trim(Opened(c)) + " */")
    else if i == 0 then w + Opened(c)
    else if i < |cs| - 1 then w + " *" + (if c != "" then " " else "") + c
    else w + (if IsBlank(c) then " */" else " * " + Trim(c) + " */")
  }

  lemma {:induction false} DocLineFramed(content: string, indent: nat, i: nat)
    requires i < |Split(content, '\n')|
    ensures DocLines(content, indent)[i] == FramedLine(Split(content, '\n'), i, Spaces(indent))
  {
    var cs := Split(content, '\n');
    var l := DocLines(content, indent)[i];
    var w := Spaces(indent);
    if |cs| == 1 {
      assert l == w + (Trim(Opened(cs[0])) + " */") by {
        DocLineOnly(content, indent);
      }
    } else if i == 0 {
      assert l == w + Opened(cs[0]) by {
        DocLineFirst(content, indent);
      }
    } else if i < |cs| - 1 {
      assert l == w + " *" + (if cs[i] != "" then " " else "") + cs[i] by {
        DocLineMiddle(content, indent, i);
      }
    } else {
      assert l == w + (if IsBlank(cs[i]) then " */" else " * " + Trim(cs[i]) + " */") by {
        DocLineLast(content, indent);
      }
    }
  }

  lemma {:induction false} KeptFramed(cs: seq<string>, i: nat, w: string, l: string)
    requires IsBlank(w) && i < |cs| && l == FramedLine(cs, i, w) && RestorableLines(cs)
    ensures CutLine(l, i, |cs|).kept == cs[i]
  {
    var n := |cs|;
    if n == 1 {
      KeptOnly(l, w, cs[0]);
    } else if i == 0 {
      CutOpenedFirst(w, cs[0], n);
    } else if i < n - 1 {
      CutStarred(w, cs[i], i, n);
    } else {
      KeptLast(l, w, cs[i], n);
    }
  }

  // The only line of a one-line content.
  lemma {:induction false} KeptOnly(l: string, w: string, c: string)
    requires IsBlank(w) && l == w + (Trim(Opened(c)) + " */")
    requires (c == "" || Trim(c) == c) && !StartsWithChar(c, '*')
    ensures CutLine(l, 0, 1).kept == c
  {
    assert Trim(Opened(c)) == Opened(c) by {
      TrimOpened(c);
    }
    assert c == "" || (!IsWhitespace(c[0]) && c[0] != '*') by {
      if c != "" {
        TrimmedEnds(c);
      }
    }
    CutOpenedOnly(w, c);
  }

  // The closing line of a content of two or more lines.
  lemma {:induction false} KeptLast(l: string, w: string, c: string, n: nat)
    requires IsBlank(w) && n >= 2 && (c == "" || Trim(c) == c)
    requires l == w + (if IsBlank(c) then " */" else " * " + Trim(c) + " */")
    ensures CutLine(l, n - 1, n).kept == c
  {
    if IsBlank(c) {
      assert c == "" by {
        if c != "" {
          TrimmedEnds(c);
        }
      }
      CutClosedBlank(w, n);
    } else {
      CutClosedText(w, c, n);
    }
  }

  lemma {:induction false} FoldResult(cuts: seq<Cut>, k: nat)
    requires k <= |cuts|
    ensures forall i :: 0 <= i < k ==> MapFold(cuts, k).result[i] == cuts[i].kept
  {
    if k > 0 {
      FoldResult(cuts, k - 1);
    }
  }

  // Lines 30 and 102-125: reading back the text toDocText renders gives the
  // content, whatever the indent, for every content `Restorable` admits.
  lemma {:induction false} RoundTrip(content: string, indent: nat)
    requires Restorable(content)
    ensures GetDocContent(ToDocText(content, indent)) == content
  {
    var cs := Split(content, '\n');
    var ls := DocLines(content, indent);
    assert Split(ToDocText(content, indent), '\n') == ls by {
      ToDocTextLines(content, indent);
    }
    var cuts := Cuts(ls);
    forall i | 0 <= i < |cs|
      ensures cuts[i].kept == cs[i]
    {
      KeptLine(content, indent, i);
    }
    assert MapFold(cuts, |cuts|).result == cs by {
      FoldKept(cuts, cs);
    }
    assert Join(cs, "\n") == content by {
      JoinSplit(content, '\n');
    }
  }

  lemma {:induction false} FoldKept(cuts: seq<Cut>, cs: seq<string>)
    requires |cuts| == |cs| && forall i :: 0 <= i < |cs| ==> cuts[i].kept == cs[i]
    ensures MapFold(cuts, |cuts|).result == cs
  {
    FoldResult(cuts, |cuts|);
  }

}
