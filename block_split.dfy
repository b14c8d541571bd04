/**
 * `splitPerBlock`, `splitPerBlockWithRanges` and `findBlockTagNames` of
 * `kodex-common/.../docContent/DocContent.kt`: doc content cut into the
 * text before the first block tag and one block per block tag.
 */
module BlockSplit {
  import opened Wrappers
  import opened Text
  import opened Ranges
  import opened DocUtils
  import opened TagNames

  /** Lines 56-65: the form of a line that is inspected, KDoc markers cut off when asked. */
  function LineToCheck(line: string, ignoreKDocMarkers: bool): string {
    if ignoreKDocMarkers then
      RemoveSuffixChar(RemoveSuffix(RemovePrefix(RemovePrefixChar(TrimStart(line), '*'), "/**"), "*/"), ' ')
    else line
  }

  /** Lines 69-72: after at most two spaces the line starts with `@`. */
  predicate StartsWithTag(check: string) {
    StartsWithChar(RemovePrefixChar(RemovePrefixChar(check, ' '), ' '), '@')
  }

  // ---------------------------------------------------------------------------
  // The scan of one line for `{@`, `${` and triple backticks (lines 95-123)
  // ---------------------------------------------------------------------------

  datatype Scan = Scan(indicators: seq<char>, escapeNext: bool)

  /** The loop body of lines 96-123 for the character at index `i`. */
  function ScanStep(line: string, i: nat, st: Scan): Scan
    requires i < |line|
  {
    if st.escapeNext then Scan(st.indicators, false) else ScanChar(line, i, st.indicators)
  }

  /** The loop body for an unescaped character at index `i`, with `indicators` open before it. */
  function ScanChar(line: string, i: nat, indicators: seq<char>): Scan
    requires i < |line|
  {
    var c := line[i];
    var ind := if c == '`' && CharAt(line, i + 1) == Some('`') && CharAt(line, i + 2) == Some('`')
      then Toggle(indicators, Backticks) else indicators;
    var esc := c == '\\';
    if Backticks in ind then Scan(ind, esc)
    else if c == '{' && CharAt(line, i + 1) == Some('@') then Scan(ind + [CurlyBraces], esc)
    else if c == '{' && CharAt(line, i - 1) == Some('$') && CharAt(line, i - 2) != Some('\\') then
      Scan(ind + [CurlyBraces], esc)
    else if c == '}' then Scan(RemovedFromLast(ind, CurlyBraces).1, esc)
    else Scan(ind, esc)
  }

  /** The scan state after the first `k` characters of the line. */
  function ScanFold(line: string, k: nat, ind0: seq<char>): Scan
    requires k <= |line|
  {
    if k == 0 then Scan(ind0, false) else ScanStep(line, k - 1, ScanFold(line, k - 1, ind0))
  }

  /** The open indicators after the whole line. */
  function LineIndicators(line: string, ind0: seq<char>): seq<char> {
    ScanFold(line, |line|, ind0).indicators
  }

  /** The inner `for ((i, char) in lineToCheck.withIndex())` loop. */
  method ScanLine(line: string, ind0: seq<char>) returns (blocksIndicators: seq<char>)
    ensures blocksIndicators == LineIndicators(line, ind0)
  {
    blocksIndicators := ind0;
    var escapeNext := false;
    for i := 0 to |line|
      invariant Scan(blocksIndicators, escapeNext) == ScanFold(line, i, ind0)
    {
      var c := line[i];
      if escapeNext {
        escapeNext := false;
        continue;
      } else if c == '\\' {
        escapeNext := true;
      } else if c == '`' && CharAt(line, i + 1) == Some('`') && CharAt(line, i + 2) == Some('`') {
        var found, rest := RemoveAllElementsFromLast(blocksIndicators, Backticks);
        blocksIndicators := if found then rest else rest + [Backticks];
      }
      if Backticks in blocksIndicators {
        continue;
      }
      if c == '{' && CharAt(line, i + 1) == Some('@') {
        blocksIndicators := blocksIndicators + [CurlyBraces];
      } else if c == '{' && CharAt(line, i - 1) == Some('$') && CharAt(line, i - 2) != Some('\\') {
        blocksIndicators := blocksIndicators + [CurlyBraces];
      } else if c == '}' {
        var _, rest := RemoveAllElementsFromLast(blocksIndicators, CurlyBraces);
        blocksIndicators := rest;
      }
    }
  }

  // ---------------------------------------------------------------------------
  // The line loop (lines 43-126)
  // ---------------------------------------------------------------------------

  datatype BlockState = BlockState(blocks: seq<string>, current: string, indicators: seq<char>)

  /**
   * Lines 74-94: a tag line outside any indicator closes the current block
   * and opens a new one; otherwise the line joins the current block. With
   * `keepLines` false a line whose inspected form is empty contributes only
   * its `\n`, as the source does; `keepLines` true is the corrected form,
   * which keeps the line.
   */
  function Place(st: BlockState, line: string, check: string, keepLines: bool): BlockState {
    if StartsWithTag(check) && st.indicators == [] then
      BlockState(if st.current != [] then st.blocks + [RemoveSuffixChar(st.current, '\n')] else st.blocks,
        line + "\n", st.indicators)
    else if !keepLines && check == [] && st.indicators == [] then
      st.(current := st.current + "\n")
    else
      st.(current := st.current + line + "\n")
  }

  /** One pass of the outer loop. */
  function LineStep(st: BlockState, line: string, ignoreKDocMarkers: bool, keepLines: bool): BlockState {
    var check := LineToCheck(line, ignoreKDocMarkers);
    var p := Place(st, line, check, keepLines);
    p.(indicators := LineIndicators(check, p.indicators))
  }

  function BlockFold(lines: seq<string>, ignoreKDocMarkers: bool, keepLines: bool): BlockState {
    if lines == [] then BlockState([], "", [])
    else LineStep(BlockFold(lines[..|lines| - 1], ignoreKDocMarkers, keepLines), lines[|lines| - 1], ignoreKDocMarkers, keepLines)
  }

  /** The blocks of `content` for the given line treatment. */
  function BlocksWith(content: string, ignoreKDocMarkers: bool, keepLines: bool): (blocks: seq<string>)
    ensures |blocks| >= 1
  {
    var st := BlockFold(Split(content, '\n'), ignoreKDocMarkers, keepLines);
    st.blocks + [RemoveSuffixChar(st.current, '\n')]
  }

  /** `splitPerBlock(ignoreKDocMarkers)` as the source computes it. */
  function Blocks(content: string, ignoreKDocMarkers: bool): (blocks: seq<string>)
    ensures |blocks| >= 1
  {
    BlocksWith(content, ignoreKDocMarkers, false)
  }

  /** The `when` of lines 74-94. */
  method PlaceLine(blocks: seq<string>, currentBlock: string, blocksIndicators: seq<char>, lineToUse: string, lineToCheck: string)
    returns (newBlocks: seq<string>, newCurrent: string)
    ensures BlockState(newBlocks, newCurrent, blocksIndicators)
      == Place(BlockState(blocks, currentBlock, blocksIndicators), lineToUse, lineToCheck, false)
  {
    newBlocks := blocks;
    var lineStartsWithTag := StartsWithTag(lineToCheck);
    if lineStartsWithTag && blocksIndicators == [] {
      if currentBlock != [] {
        newBlocks := blocks + [RemoveSuffixChar(currentBlock, '\n')];
      }
      newCurrent := lineToUse + "\n";
    } else if lineToCheck == [] && blocksIndicators == [] {
      newCurrent := currentBlock + "\n";
    } else {
      if currentBlock == [] {
        newCurrent := lineToUse + "\n";
      } else {
        newCurrent := currentBlock + lineToUse + "\n";
      }
    }
  }

  /** `splitPerBlock`, proved to compute `Blocks`. */
  method SplitPerBlock(content: string, ignoreKDocMarkers: bool) returns (blocks: seq<string>)
    ensures blocks == Blocks(content, ignoreKDocMarkers)
  {
    var docContent := Split(content, '\n');
    blocks := [];
    var currentBlock := "";
    var blocksIndicators: seq<char> := [];
    for k := 0 to |docContent|
      invariant BlockState(blocks, currentBlock, blocksIndicators) == BlockFold(docContent[..k], ignoreKDocMarkers, false)
    {
      var lineToUse := docContent[k];
      var lineToCheck := LineToCheck(lineToUse, ignoreKDocMarkers);
      blocks, currentBlock := PlaceLine(blocks, currentBlock, blocksIndicators, lineToUse, lineToCheck);
      blocksIndicators := ScanLine(lineToCheck, blocksIndicators);
      assert docContent[..k + 1][..k] == docContent[..k];
      assert docContent[..k + 1][k] == lineToUse;
    }
    assert docContent[..|docContent|] == docContent;
    blocks := blocks + [RemoveSuffixChar(currentBlock, '\n')];
  }

  // ---------------------------------------------------------------------------
  // Rejoining the blocks with '\n'
  // ---------------------------------------------------------------------------

  /** Every part followed by a `\n`. */
  function Terminated(parts: seq<string>): string {
    if parts == [] then "" else parts[0] + "\n" + Terminated(parts[1..])
  }

  lemma {:induction false} TerminatedSnoc(parts: seq<string>, x: string)
    ensures Terminated(parts + [x]) == Terminated(parts) + x + "\n"
  {
    if parts != [] {
      assert (parts + [x])[1..] == parts[1..] + [x];
      TerminatedSnoc(parts[1..], x);
    } else {
      assert [] + [x] == [x];
      assert [x][1..] == [];
    }
  }

  lemma {:induction false} JoinSnoc(parts: seq<string>, x: string)
    ensures Join(parts + [x], "\n") == Terminated(parts) + x
  {
    if parts != [] {
      assert (parts + [x])[1..] == parts[1..] + [x];
      JoinSnoc(parts[1..], x);
    } else {
      assert [] + [x] == [x];
    }
  }

  /** A non-empty list terminated line by line is its join plus one `\n`. */
  lemma {:induction false} TerminatedJoin(parts: seq<string>)
    requires parts != []
    ensures Terminated(parts) == Join(parts, "\n") + "\n"
  {
    var front := parts[..|parts| - 1];
    assert parts == front + [parts[|parts| - 1]];
    TerminatedSnoc(front, parts[|parts| - 1]);
    JoinSnoc(front, parts[|parts| - 1]);
  }

  /** What the state holds so far, as one string: the closed blocks with their `\n`, then the open one. */
  function Flat(st: BlockState): string {
    Terminated(st.blocks) + st.current
  }

  /** The `when` of lines 74-94 adds the line and its `\n` to the flat text, unless it drops an empty inspected line. */
  lemma {:induction false} FlatPlace(st: BlockState, line: string, check: string, keepLines: bool)
    requires st.current == [] || st.current[|st.current| - 1] == '\n'
    requires keepLines || check != [] || line == []
    ensures var p := Place(st, line, check, keepLines);
      Flat(p) == Flat(st) + line + "\n" && p.current != [] && p.current[|p.current| - 1] == '\n'
  {
    if StartsWithTag(check) && st.indicators == [] {
      FlatOpen(st, line);
    }
  }

  /** Closing the open block and opening one on `line` keeps the flat text. */
  lemma {:induction false} FlatOpen(st: BlockState, line: string)
    requires st.current == [] || st.current[|st.current| - 1] == '\n'
    ensures var p := BlockState(if st.current != [] then st.blocks + [RemoveSuffixChar(st.current, '\n')] else st.blocks,
        line + "\n", st.indicators);
      Flat(p) == Flat(st) + line + "\n"
  {
    if st.current != [] {
      var b := RemoveSuffixChar(st.current, '\n');
      assert b + "\n" == st.current;
      TerminatedSnoc(st.blocks, b);
    }
  }

  /** One line adds itself and its `\n` to the flat text. */
  lemma {:induction false} FlatStep(st: BlockState, line: string, ignoreKDocMarkers: bool, keepLines: bool, next: BlockState)
    requires st.current == [] || st.current[|st.current| - 1] == '\n'
    requires keepLines || !ignoreKDocMarkers
    requires next == LineStep(st, line, ignoreKDocMarkers, keepLines)
    ensures Flat(next) == Flat(st) + line + "\n" && next.current != [] && next.current[|next.current| - 1] == '\n'
  {
    var check := LineToCheck(line, ignoreKDocMarkers);
    FlatPlace(st, line, check, keepLines);
    var p := Place(st, line, check, keepLines);
    assert next.blocks == p.blocks && next.current == p.current;
  }

  /** Every line fed to the loop comes back, each with its `\n`. */
  lemma {:induction false} FlatFold(lines: seq<string>, ignoreKDocMarkers: bool, keepLines: bool)
    requires keepLines || !ignoreKDocMarkers
    ensures var st := BlockFold(lines, ignoreKDocMarkers, keepLines);
      Flat(st) == Terminated(lines) && (lines == [] <==> st.current == [])
      && (st.current == [] || st.current[|st.current| - 1] == '\n')
  {
    if lines != [] {
      var front := lines[..|lines| - 1];
      var last := lines[|lines| - 1];
      assert lines == front + [last];
      TerminatedSnoc(front, last);
      FlatFold(front, ignoreKDocMarkers, keepLines);
      FlatStep(BlockFold(front, ignoreKDocMarkers, keepLines), last, ignoreKDocMarkers, keepLines, BlockFold(lines, ignoreKDocMarkers, keepLines));
    }
  }

  /** `x + "\n" == y + "\n"` only when `x == y`. */
  lemma {:induction false} NewlineCancel(x: string, y: string)
    requires x + "\n" == y + "\n"
    ensures x == y
  {
    assert x == (x + "\n")[..|x|];
    assert y == (y + "\n")[..|y|];
  }

  /** Joining the blocks with `\n` gives the content back whenever every line is kept. */
  lemma {:induction false} BlocksWithJoin(content: string, ignoreKDocMarkers: bool, keepLines: bool)
    requires keepLines || !ignoreKDocMarkers
    ensures Join(BlocksWith(content, ignoreKDocMarkers, keepLines), "\n") == content
  {
    var lines := Split(content, '\n');
    assert "\n" == ['\n'];
    JoinSplit(content, '\n');
    FlatFold(lines, ignoreKDocMarkers, keepLines);
    var st := BlockFold(lines, ignoreKDocMarkers, keepLines);
    JoinBack(st.blocks, st.current, lines, content);
  }

  /** Closed blocks and a `\n`-terminated open block that spell out the lines terminated join back to the content. */
  lemma {:induction false} JoinBack(blocks: seq<string>, current: string, lines: seq<string>, content: string)
    requires lines != [] && Join(lines, "\n") == content
    requires Terminated(blocks) + current == Terminated(lines) && current != [] && current[|current| - 1] == '\n'
    ensures Join(blocks + [RemoveSuffixChar(current, '\n')], "\n") == content
  {
    var b := RemoveSuffixChar(current, '\n');
    assert b + "\n" == current;
    JoinSnoc(blocks, b);
    TerminatedJoin(lines);
    assert Terminated(blocks) + b + "\n" == content + "\n";
    NewlineCancel(Terminated(blocks) + b, content);
  }

  /** `splitPerBlock()` blocks joined with `\n` reproduce the content. */
  lemma {:induction false} BlocksJoin(content: string)
    ensures Join(Blocks(content, false), "\n") == content
  {
    BlocksWithJoin(content, false, false);
  }

  /** With lines kept, the round trip also holds when KDoc markers are ignored. */
  lemma {:induction false} FixedBlocksJoin(content: string)
    ensures Join(BlocksWith(content, true, true), "\n") == content
  {
    BlocksWithJoin(content, true, true);
  }

  /** A single line whose inspected form is empty comes back as one empty block. */
  lemma {:induction false} EmptyCheckLine(line: string, ignoreKDocMarkers: bool)
    requires '\n' !in line && LineToCheck(line, ignoreKDocMarkers) == []
    ensures Blocks(line, ignoreKDocMarkers) == [""]
  {
    assert IndexOfChar(line, '\n') == |line|;
    assert Split(line, '\n') == [line];
    assert [line][..0] == [];
    var st0 := BlockFold([], ignoreKDocMarkers, false);
    assert st0 == BlockState([], "", []);
    var check := LineToCheck(line, ignoreKDocMarkers);
    assert !StartsWithTag(check);
    var p := Place(st0, line, check, false);
    assert p == BlockState([], "\n", []);
    assert BlockFold([line], ignoreKDocMarkers, false) == LineStep(st0, line, ignoreKDocMarkers, false);
    assert LineIndicators(check, []) == [];
  }

  /** A ` *` line inspected without its marker is empty, and only its `\n` survives. */
  lemma {:induction false} MarkerLineDropped(content: string)
    requires content == " *"
    ensures Blocks(content, true) == [""]
    ensures Join(Blocks(content, true), "\n") != content
  {
    var t := TrimStart(content);
    TrimStartSkips(content);
    assert t == content[1..] by {
      assert !IsWhitespace(content[1]) && IsWhitespace(content[0]);
    }
    assert RemovePrefixChar(t, '*') == [];
    assert LineToCheck(content, true) == [];
    EmptyCheckLine(content, true);
  }

  // ---------------------------------------------------------------------------
  // Where blocks start
  // ---------------------------------------------------------------------------

  /** The text up to the first `\n`. */
  function FirstLine(s: string): string {
    s[..IndexOfChar(s, '\n')]
  }

  /** The block's first line is a tag line. */
  predicate TagBlock(b: string, ignoreKDocMarkers: bool) {
    StartsWithTag(LineToCheck(FirstLine(b), ignoreKDocMarkers))
  }

  lemma {:induction false} FirstLineAppend(s: string, x: string)
    requires '\n' in s
    ensures FirstLine(s + x) == FirstLine(s)
  {
    var j := IndexOfChar(s, '\n');
    var w :| 0 <= w < |s| && s[w] == '\n';
    assert j <= w;
    assert (s + x)[j] == '\n';
    assert forall i :: 0 <= i < j ==> (s + x)[i] == s[i];
    assert IndexOfChar(s + x, '\n') == j;
    assert (s + x)[..j] == s[..j];
  }

  lemma {:induction false} FirstLineOfLine(line: string, x: string)
    requires '\n' !in line
    ensures FirstLine(line + "\n" + x) == line
  {
    var s := line + "\n" + x;
    assert s[|line|] == '\n';
    assert forall i :: 0 <= i < |line| ==> s[i] == line[i];
    assert IndexOfChar(s, '\n') == |line|;
    assert s[..|line|] == line;
  }

  lemma {:induction false} FirstLineDropNewline(s: string)
    requires s != [] && s[|s| - 1] == '\n'
    ensures FirstLine(RemoveSuffixChar(s, '\n')) == FirstLine(s)
  {
    var t := s[..|s| - 1];
    assert RemoveSuffixChar(s, '\n') == t;
    assert s == t + "\n";
    if '\n' in t {
      FirstLineAppend(t, "\n");
    } else {
      FirstLineOfLine(t, "");
      assert t + "\n" + "" == s;
    }
  }

  /** What the loop keeps true about block starts. */
  predicate StartsInv(st: BlockState, ignoreKDocMarkers: bool) {
    (st.current == [] || st.current[|st.current| - 1] == '\n')
    && (forall k :: 1 <= k < |st.blocks| ==> TagBlock(st.blocks[k], ignoreKDocMarkers))
    && (st.blocks != [] ==> st.current != [] && TagBlock(st.current, ignoreKDocMarkers))
  }

  /** A tag line opens a block that starts with it. */
  lemma {:induction false} StartsPlaceTag(st: BlockState, line: string, check: string, keepLines: bool, ignoreKDocMarkers: bool)
    requires StartsInv(st, ignoreKDocMarkers)
    requires '\n' !in line && check == LineToCheck(line, ignoreKDocMarkers)
    requires StartsWithTag(check) && st.indicators == []
    ensures StartsInv(Place(st, line, check, keepLines), ignoreKDocMarkers)
  {
    TagLineBlock(line, ignoreKDocMarkers);
    if st.current != [] {
      ClosedBlocksStart(st.blocks, st.current, ignoreKDocMarkers);
    }
  }

  /** The block a tag line opens starts with that tag line. */
  lemma {:induction false} TagLineBlock(line: string, ignoreKDocMarkers: bool)
    requires '\n' !in line && StartsWithTag(LineToCheck(line, ignoreKDocMarkers))
    ensures TagBlock(line + "\n", ignoreKDocMarkers)
  {
    FirstLineOfLine(line, "");
    assert line + "\n" + "" == line + "\n";
  }

  /** Closing a tag block keeps every block after the first a tag block. */
  lemma {:induction false} ClosedBlocksStart(blocks: seq<string>, current: string, ignoreKDocMarkers: bool)
    requires forall k :: 1 <= k < |blocks| ==> TagBlock(blocks[k], ignoreKDocMarkers)
    requires current != [] && current[|current| - 1] == '\n'
    requires blocks != [] ==> TagBlock(current, ignoreKDocMarkers)
    ensures var bs := blocks + [RemoveSuffixChar(current, '\n')];
      forall k :: 1 <= k < |bs| ==> TagBlock(bs[k], ignoreKDocMarkers)
  {
    var b := RemoveSuffixChar(current, '\n');
    var bs := blocks + [b];
    if blocks != [] {
      FirstLineDropNewline(current);
      assert TagBlock(b, ignoreKDocMarkers);
    }
    assert forall k :: 1 <= k < |blocks| ==> bs[k] == blocks[k];
  }

  /** Any other line extends the open block and keeps its first line. */
  lemma {:induction false} StartsPlaceAppend(st: BlockState, line: string, check: string, keepLines: bool, ignoreKDocMarkers: bool)
    requires StartsInv(st, ignoreKDocMarkers)
    requires !(StartsWithTag(check) && st.indicators == [])
    ensures StartsInv(Place(st, line, check, keepLines), ignoreKDocMarkers)
  {
    var next := Place(st, line, check, keepLines);
    assert next.blocks == st.blocks;
    if st.current != [] {
      var x := next.current[|st.current|..];
      assert next.current == st.current + x;
      assert st.current[|st.current| - 1] == '\n';
      FirstLineAppend(st.current, x);
    }
  }

  lemma {:induction false} StartsStep(st: BlockState, line: string, ignoreKDocMarkers: bool, keepLines: bool, next: BlockState)
    requires StartsInv(st, ignoreKDocMarkers)
    requires '\n' !in line && next == LineStep(st, line, ignoreKDocMarkers, keepLines)
    ensures StartsInv(next, ignoreKDocMarkers)
  {
    var check := LineToCheck(line, ignoreKDocMarkers);
    if StartsWithTag(check) && st.indicators == [] {
      StartsPlaceTag(st, line, check, keepLines, ignoreKDocMarkers);
    } else {
      StartsPlaceAppend(st, line, check, keepLines, ignoreKDocMarkers);
    }
    var p := Place(st, line, check, keepLines);
    assert next.blocks == p.blocks && next.current == p.current;
  }

  lemma {:induction false} StartsFold(lines: seq<string>, ignoreKDocMarkers: bool, keepLines: bool)
    requires forall k :: 0 <= k < |lines| ==> '\n' !in lines[k]
    ensures StartsInv(BlockFold(lines, ignoreKDocMarkers, keepLines), ignoreKDocMarkers)
  {
    if lines != [] {
      var front := lines[..|lines| - 1];
      StartsFold(front, ignoreKDocMarkers, keepLines);
      StartsStep(BlockFold(front, ignoreKDocMarkers, keepLines), lines[|lines| - 1], ignoreKDocMarkers, keepLines,
        BlockFold(lines, ignoreKDocMarkers, keepLines));
    }
  }

  /** Every block but the first starts with a tag line, after at most two spaces. */
  lemma {:induction false} BlockStartsWithTag(content: string, ignoreKDocMarkers: bool, k: int)
    requires 1 <= k < |Blocks(content, ignoreKDocMarkers)|
    ensures TagBlock(Blocks(content, ignoreKDocMarkers)[k], ignoreKDocMarkers)
  {
    var lines := Split(content, '\n');
    StartsFold(lines, ignoreKDocMarkers, false);
    var st := BlockFold(lines, ignoreKDocMarkers, false);
    if k == |st.blocks| {
      FirstLineDropNewline(st.current);
    }
  }

  /** A block is closed only at a tag line while no `{@`, `${` or triple-backtick region is open. */
  lemma {:induction false} NewBlockOnlyAtTag(st: BlockState, line: string, ignoreKDocMarkers: bool)
    requires LineStep(st, line, ignoreKDocMarkers, false).blocks != st.blocks
    ensures StartsWithTag(LineToCheck(line, ignoreKDocMarkers)) && st.indicators == []
  {
  }

  /** Inside a triple-backtick region a `{@` does not open an indicator. */
  lemma {:induction false} CodeBlockIgnoresTags(line: string, i: nat, st: Scan)
    requires i + 1 < |line| && line[i] == '{' && line[i + 1] == '@'
    requires !st.escapeNext && Backticks in st.indicators
    ensures ScanStep(line, i, st) == Scan(st.indicators, false)
  {
  }

  /** Outside any code region an unescaped `{@` opens one. */
  lemma {:induction false} InlineTagOpens(line: string, i: nat, st: Scan)
    requires i + 1 < |line| && line[i] == '{' && line[i + 1] == '@'
    requires !st.escapeNext && Backticks !in st.indicators
    ensures ScanStep(line, i, st) == Scan(st.indicators + [CurlyBraces], false)
  {
  }

  // ---------------------------------------------------------------------------
  // splitPerBlockWithRanges (lines 137-153)
  // ---------------------------------------------------------------------------

  /** Where block `k` starts once the blocks are joined with `\n`. */
  function Offset(bs: seq<string>, k: nat): nat
    requires k <= |bs|
  {
    if k == 0 then 0 else |bs[0]| + 1 + Offset(bs[1..], k - 1)
  }

  lemma {:induction false} OffsetNext(bs: seq<string>, k: nat)
    requires k < |bs|
    ensures Offset(bs, k + 1) == Offset(bs, k) + |bs[k]| + 1
  {
    if k > 0 {
      OffsetNext(bs[1..], k - 1);
    }
  }

  /** Lines 143-148: the last block's range stops before its end, every other one takes in the `\n` after it. */
  function BlockRange(bs: seq<string>, k: nat): IntRange
    requires k < |bs|
  {
    var i := Offset(bs, k);
    if k == |bs| - 1 then Until(i, i + |bs[k]|) else IntRange(i, i + |bs[k]|)
  }

  /** Every block paired with its range. */
  function WithBlockRanges(bs: seq<string>): (r: seq<(string, IntRange)>)
    ensures |r| == |bs| && forall k :: 0 <= k < |bs| ==> r[k] == (bs[k], BlockRange(bs, k))
  {
    seq(|bs|, k requires 0 <= k < |bs| => (bs[k], BlockRange(bs, k)))
  }

  /** `splitPerBlockWithRanges`, proved to pair the blocks of `splitPerBlock` with their ranges. */
  method SplitPerBlockWithRanges(content: string) returns (r: seq<(string, IntRange)>)
    ensures r == WithBlockRanges(Blocks(content, false))
  {
    var splitDocContents := SplitPerBlock(content, false);
    r := PairWithRanges(splitDocContents);
  }

  /** Lines 142-150: walk the blocks, pairing each with its range and moving past it and its `\n`. */
  method PairWithRanges(splitDocContents: seq<string>) returns (r: seq<(string, IntRange)>)
    ensures r == WithBlockRanges(splitDocContents)
  {
    ghost var target := WithBlockRanges(splitDocContents);
    var i := 0;
    r := [];
    for index := 0 to |splitDocContents|
      invariant i == Offset(splitDocContents, index)
      invariant r == target[..index]
    {
      var docContent := splitDocContents[index];
      var range := if index == |splitDocContents| - 1 then Until(i, i + |docContent|) else IntRange(i, i + |docContent|);
      assert target[index] == (docContent, range);
      assert target[..index + 1] == target[..index] + [(docContent, range)];
      r := r + [(docContent, range)];
      OffsetNext(splitDocContents, index);
      i := i + |docContent| + 1;
    }
    assert target[..|splitDocContents|] == target;
  }

  /** In `Join(bs, "\n")` block `k` sits at `Offset(bs, k)`, followed by a `\n` unless it is the last. */
  lemma {:induction false} JoinSelects(bs: seq<string>, k: nat)
    requires k < |bs|
    ensures var o := Offset(bs, k); var j := Join(bs, "\n");
      o + |bs[k]| <= |j| && j[o..o + |bs[k]|] == bs[k]
      && (k < |bs| - 1 ==> o + |bs[k]| < |j| && j[o + |bs[k]|] == '\n')
      && (k == |bs| - 1 ==> o + |bs[k]| == |j|)
  {
    if |bs| > 1 {
      var rest := Join(bs[1..], "\n");
      assert Join(bs, "\n") == bs[0] + "\n" + rest;
      if k == 0 {
        HeadSelect(bs[0], rest);
      } else {
        assert bs[k] == bs[1..][k - 1];
        JoinSelects(bs[1..], k - 1);
        ShiftSelect(bs[0], rest, Offset(bs[1..], k - 1), |bs[k]|);
      }
    }
  }

  lemma {:induction false} HeadSelect(a: string, rest: string)
    ensures var j := a + "\n" + rest; |a| < |j| && j[..|a|] == a && j[|a|] == '\n'
  {
    var j := a + "\n" + rest;
    assert j[..|a|] == a;
  }

  /** A slice of `rest` is found `|a| + 1` further in `a + "\n" + rest`. */
  lemma {:induction false} ShiftSelect(a: string, rest: string, o: nat, m: nat)
    requires o + m <= |rest|
    ensures var j := a + "\n" + rest; |j| == |a| + 1 + |rest| && j[|a| + 1 + o..|a| + 1 + o + m] == rest[o..o + m]
    ensures var j := a + "\n" + rest; o + m < |rest| ==> j[|a| + 1 + o + m] == rest[o + m]
  {
    var j := a + "\n" + rest;
    var n := |a| + 1;
    assert j[n..] == rest;
    assert j[n + o..n + o + m] == j[n..][o..o + m];
  }

  lemma {:induction false} BlockRangeSelects(content: string, k: nat)
    requires k < |Blocks(content, false)|
    ensures var bs := Blocks(content, false); var r := BlockRange(bs, k);
      r.first + |bs[k]| <= |content| && content[r.first..r.first + |bs[k]|] == bs[k]
      && (k == 0 ==> r.first == 0)
      && (k < |bs| - 1 ==>
            r.last == r.first + |bs[k]| && r.last < |content| && content[r.last] == '\n'
            && BlockRange(bs, k + 1).first == r.last + 1)
      && (k == |bs| - 1 ==> r.last == |content| - 1)
  {
    BlocksJoin(content);
    RangeSelects(Blocks(content, false), content, k);
  }

  lemma {:induction false} RangeSelects(bs: seq<string>, content: string, k: nat)
    requires k < |bs| && Join(bs, "\n") == content
    ensures var r := BlockRange(bs, k);
      r.first + |bs[k]| <= |content| && content[r.first..r.first + |bs[k]|] == bs[k]
      && (k == 0 ==> r.first == 0)
      && (k < |bs| - 1 ==>
            r.last == r.first + |bs[k]| && r.last < |content| && content[r.last] == '\n'
            && BlockRange(bs, k + 1).first == r.last + 1)
      && (k == |bs| - 1 ==> r.last == |content| - 1)
  {
    JoinSelects(bs, k);
    if k < |bs| - 1 {
      OffsetNext(bs, k);
    }
  }

  // ---------------------------------------------------------------------------
  // findBlockTagNames and findBlockTagsWithRanges (lines 204-216)
  // ---------------------------------------------------------------------------

  /** The `filter` of lines 206 and 212. */
  predicate IsTagBlock(b: string) {
    StartsWithChar(TrimStart(b), '@')
  }

  /**
   * `filter { trimStart().startsWith("@") }.mapNotNull { getTagNameOrNull() }`:
   * `getTagNameOrNull` finds a name in every block the filter lets through,
   * so `mapNotNull` drops nothing.
   */
  function TagNamesOf(bs: seq<string>): seq<string> {
    if bs == [] then []
    else if IsTagBlock(bs[0]) then [GetTagNameOrNull(bs[0]).value] + TagNamesOf(bs[1..])
    else TagNamesOf(bs[1..])
  }

  /** The same over blocks paired with their ranges. */
  function TagsWithRangesOf(ps: seq<(string, IntRange)>): seq<(string, IntRange)> {
    if ps == [] then []
    else if IsTagBlock(ps[0].0) then [(GetTagNameOrNull(ps[0].0).value, ps[0].1)] + TagsWithRangesOf(ps[1..])
    else TagsWithRangesOf(ps[1..])
  }

  /** `findBlockTagNames`. */
  function BlockTagNames(content: string): seq<string> {
    TagNamesOf(Blocks(content, false))
  }

  /** `findBlockTagsWithRanges`. */
  function BlockTagsWithRanges(content: string): seq<(string, IntRange)> {
    TagsWithRangesOf(WithBlockRanges(Blocks(content, false)))
  }

  /** Every block tag name consists of tag-name characters. */
  lemma {:induction false} TagNamesChars(bs: seq<string>, k: nat)
    requires k < |TagNamesOf(bs)|
    ensures forall c :: 0 <= c < |TagNamesOf(bs)[k]| ==> TagNameChar(TagNamesOf(bs)[k][c])
    decreases |bs|
  {
    if !IsTagBlock(bs[0]) {
      TagNamesChars(bs[1..], k);
    } else if k > 0 {
      TagNamesChars(bs[1..], k - 1);
    }
  }

  /** A block starting with a tag line is kept by the filter. */
  lemma {:induction false} TagBlockTrim(b: string)
    requires TagBlock(b, false)
    ensures IsTagBlock(b)
  {
    var l := FirstLine(b);
    assert l == b[..|l|];
    var c1 := RemovePrefixChar(l, ' ');
    var c2 := RemovePrefixChar(c1, ' ');
    var m := |l| - |c2|;
    assert c2 == l[m..];
    assert m <= 2 && forall i :: 0 <= i < m ==> l[i] == ' ';
    assert b == b[..m] + b[m..];
    assert b[m] == '@';
    TrimStartBlank(b[..m], b[m..]);
  }

  /** The filter lets only blocks through whose name `getTagNameOrNull` finds, so `mapNotNull` drops nothing. */
  lemma {:induction false} TagNamesCount(bs: seq<string>, from: nat)
    requires from <= |bs|
    requires forall k :: from <= k < |bs| ==> IsTagBlock(bs[k])
    ensures |TagNamesOf(bs)| >= |bs| - from
  {
    if bs != [] {
      TagNamesCount(bs[1..], if from == 0 then 0 else from - 1);
    }
  }

  /** Every block after the first contributes its tag name. */
  lemma {:induction false} BlockTagNamesCount(content: string)
    ensures |BlockTagNames(content)| >= |Blocks(content, false)| - 1
  {
    var bs := Blocks(content, false);
    forall k | 1 <= k < |bs|
      ensures IsTagBlock(bs[k])
    {
      BlockStartsWithTag(content, false, k);
      TagBlockTrim(bs[k]);
    }
    TagNamesCount(bs, 1);
  }

  /** The first components of a list of pairs (`map { it.first }`). */
  function Firsts<A, B>(ps: seq<(A, B)>): (r: seq<A>)
    ensures |r| == |ps|
  {
    if ps == [] then [] else [ps[0].0] + Firsts(ps[1..])
  }

  /** Both finders keep the same blocks: the names with ranges are the names, paired. */
  lemma {:induction false} TagsWithRangesNames(bs: seq<string>, ps: seq<(string, IntRange)>)
    requires Firsts(ps) == bs
    ensures Firsts(TagsWithRangesOf(ps)) == TagNamesOf(bs)
  {
    if ps != [] {
      assert bs[0] == ps[0].0 && bs[1..] == Firsts(ps[1..]);
      TagsWithRangesNames(bs[1..], ps[1..]);
    }
  }

  lemma {:induction false} FirstsOfRanges(bs: seq<string>, ps: seq<(string, IntRange)>)
    requires |ps| == |bs| && forall k :: 0 <= k < |bs| ==> ps[k].0 == bs[k]
    ensures Firsts(ps) == bs
  {
    if ps != [] {
      FirstsOfRanges(bs[1..], ps[1..]);
    }
  }

  /** `findBlockTagsWithRanges` names exactly what `findBlockTagNames` names. */
  lemma {:induction false} BlockTagsWithRangesNames(content: string)
    ensures Firsts(BlockTagsWithRanges(content)) == BlockTagNames(content)
  {
    var bs := Blocks(content, false);
    FirstsOfRanges(bs, WithBlockRanges(bs));
    TagsWithRangesNames(bs, WithBlockRanges(bs));
  }
}
