/**
 * The `Test split Doc Content` example of DocProcessorPluginTest.kt (lines
 * 29-64): how the two block splitters cut the test's `difficultKdoc`. The
 * splitter of doc-processor-common and kodex-common (`BlockSplit`) yields the
 * three blocks the test expects and rejoins to the input. The splitter of
 * doc-processor-gradle-plugin (`GradleBlocks`) also tracks brackets, so an
 * unclosed `[` such as the one of the fourth line keeps a later tag line in
 * the open block (`GradleBlocks.UnclosedBracketJoins`); the last lemma here
 * gives the common splitter's answer on that content.
 */
module PluginTestBlocks {
  import opened Wrappers
  import opened Text
  import opened DocUtils
  import B = BlockSplit

  // ---------------------------------------------------------------------------
  // The scan of BlockSplit, one line at a time
  // ---------------------------------------------------------------------------

  /** A character the scan of BlockSplit passes over outside a code block. */
  predicate Quiet(c: char) {
    c != '`' && c != '\\' && c != '{' && c != '}'
  }

  /** A run of quiet characters leaves the scan state as it is. */
  lemma {:induction false} QuietRun(line: string, i: nat, j: nat, ind0: seq<char>, ind: seq<char>)
    requires i <= j <= |line| && B.ScanFold(line, i, ind0) == B.Scan(ind, false)
    requires forall k :: i <= k < j ==> Quiet(line[k])
    ensures B.ScanFold(line, j, ind0) == B.Scan(ind, false)
    decreases j
  {
    if j > i {
      var k := j - 1;
      QuietRun(line, i, k, ind0, ind);
      QuietFoldStep(line, k, ind0, ind);
      assert k + 1 == j;
    }
  }

  /** A quiet character outside an escape leaves the scan state as it is. */
  lemma {:induction false} QuietFoldStep(line: string, k: nat, ind0: seq<char>, ind: seq<char>)
    requires k < |line| && Quiet(line[k]) && B.ScanFold(line, k, ind0) == B.Scan(ind, false)
    ensures B.ScanFold(line, k + 1, ind0) == B.Scan(ind, false)
  {
    QuietStep(line, k, B.Scan(ind, false));
  }

  /** A quiet character outside an escape leaves the scan state as it is. */
  lemma {:induction false} QuietStep(line: string, k: nat, st: B.Scan)
    requires k < |line| && Quiet(line[k]) && !st.escapeNext
    ensures B.ScanStep(line, k, st) == st
  {
  }

  /** Inside a code block, characters other than a backtick or backslash leave the scan state as it is. */
  lemma {:induction false} CodeRun(line: string, i: nat, j: nat, ind0: seq<char>, ind: seq<char>)
    requires i <= j <= |line| && B.ScanFold(line, i, ind0) == B.Scan(ind, false) && Backticks in ind
    requires forall k :: i <= k < j ==> line[k] != '`' && line[k] != '\\'
    ensures B.ScanFold(line, j, ind0) == B.Scan(ind, false)
    decreases j
  {
    if j > i {
      CodeRun(line, i, j - 1, ind0, ind);
      CodeFoldStep(line, j - 1, ind0, ind);
    }
  }

  /** Inside a code block, a character other than a backtick or backslash leaves the scan state as it is. */
  lemma {:induction false} CodeFoldStep(line: string, k: nat, ind0: seq<char>, ind: seq<char>)
    requires k < |line| && line[k] != '`' && line[k] != '\\' && Backticks in ind
    requires B.ScanFold(line, k, ind0) == B.Scan(ind, false)
    ensures B.ScanFold(line, k + 1, ind0) == B.Scan(ind, false)
  {
    CodeStep(line, k, B.Scan(ind, false));
  }

  /** Inside a code block, a character other than a backtick or backslash leaves the scan state as it is. */
  lemma {:induction false} CodeStep(line: string, k: nat, st: B.Scan)
    requires k < |line| && line[k] != '`' && line[k] != '\\' && !st.escapeNext && Backticks in st.indicators
    ensures B.ScanStep(line, k, st) == st
  {
  }

  /** A backtick that does not start a triple leaves the scan state outside a code block as it is. */
  lemma {:induction false} LoneBacktickStep(line: string, k: nat, st: B.Scan)
    requires k < |line| && line[k] == '`' && CharAt(line, k + 1) != Some('`') && !st.escapeNext
    requires Backticks !in st.indicators
    ensures B.ScanStep(line, k, st) == st
  {
  }

  /** `{@` outside a code block opens an indicator. */
  lemma {:induction false} OpenTagStep(line: string, k: nat, st: B.Scan)
    requires k < |line| && line[k] == '{' && CharAt(line, k + 1) == Some('@') && !st.escapeNext
    requires Backticks !in st.indicators
    ensures B.ScanStep(line, k, st) == B.Scan(st.indicators + [CurlyBraces], false)
  {
  }

  /** `}` outside a code block closes the last open indicator. */
  lemma {:induction false} CloseStep(line: string, k: nat, st: B.Scan)
    requires k < |line| && line[k] == '}' && !st.escapeNext && Backticks !in st.indicators
    ensures B.ScanStep(line, k, st) == B.Scan(RemovedFromLast(st.indicators, CurlyBraces).1, false)
  {
  }

  /** A line of quiet characters leaves the indicators as they are. */
  lemma {:induction false} QuietLine(line: string, ind: seq<char>)
    requires forall k :: 0 <= k < |line| ==> Quiet(line[k])
    ensures B.LineIndicators(line, ind) == ind
  {
    QuietRun(line, 0, |line|, ind, ind);
  }

  lemma {:induction false} ScanLine0(line: string)
    requires line == "blablah"
    ensures B.LineIndicators(line, []) == []
  {
    QuietLine(line, []);
  }

  lemma {:induction false} ScanLine2(line: string)
    requires line == "Some extra text. @b nothing, this is skipped"
    ensures B.LineIndicators(line, []) == []
  {
    QuietLine(line, []);
  }

  lemma {:induction false} ScanLine3(line: string)
    requires line == "Other test {@c [TestA"
    ensures B.LineIndicators(line, []) == [CurlyBraces]
  {
    QuietRun(line, 0, 11, [], []);
    assert B.ScanFold(line, 12, []) == B.Scan([CurlyBraces], false);
    QuietRun(line, 12, |line|, [], [CurlyBraces]);
  }

  lemma {:induction false} ScanLine1(line: string)
    requires line == "  @a a"
    ensures B.LineIndicators(line, []) == []
  {
    QuietLine(line, []);
  }

  lemma {:induction false} ScanLine4(line: string)
    requires line == "blabla {@d TestA }"
    ensures B.LineIndicators(line, [CurlyBraces]) == [CurlyBraces]
  {
    QuietRun(line, 0, 7, [CurlyBraces], [CurlyBraces]);
    assert B.ScanFold(line, 8, [CurlyBraces]) == B.Scan([CurlyBraces, CurlyBraces], false);
    QuietRun(line, 8, 17, [CurlyBraces], [CurlyBraces, CurlyBraces]);
    assert RemovedFromLast([CurlyBraces, CurlyBraces], CurlyBraces).1 == [CurlyBraces];
  }

  lemma {:induction false} ScanLine5(line: string)
    requires line == "}"
    ensures B.LineIndicators(line, [CurlyBraces]) == []
  {
    assert RemovedFromLast([CurlyBraces], CurlyBraces).1 == [];
    assert B.ScanFold(line, 0, [CurlyBraces]) == B.Scan([CurlyBraces], false);
    assert B.ScanFold(line, 1, [CurlyBraces]) == B.Scan([], false);
  }

  /** A lone backtick then `{@` outside a code block open one indicator. */
  lemma {:induction false} CodeSpanOpen(line: string, n: nat)
    requires n + 2 <= |line| && B.ScanFold(line, n, []) == B.Scan([], false)
    requires line[n] == '`' && line[n + 1] == '{' && CharAt(line, n + 2) == Some('@')
    ensures B.ScanFold(line, n + 2, []) == B.Scan([CurlyBraces], false)
  {
    LoneBacktickStep(line, n, B.Scan([], false));
    OpenTagStep(line, n + 1, B.Scan([], false));
  }

  /** `}` then a lone backtick closing the line close the one open indicator. */
  lemma {:induction false} CodeSpanClose(line: string, m: nat)
    requires m + 2 == |line| && B.ScanFold(line, m, []) == B.Scan([CurlyBraces], false)
    requires line[m] == '}' && line[m + 1] == '`'
    ensures B.LineIndicators(line, []) == []
  {
    CloseStep(line, m, B.Scan([CurlyBraces], false));
    assert RemovedFromLast([CurlyBraces], CurlyBraces).1 == [];
    assert B.ScanFold(line, m + 1, []) == B.Scan([], false);
    LoneBacktickStep(line, m + 1, B.Scan([], false));
    assert B.ScanFold(line, |line|, []) == B.Scan([], false);
  }

  /** Quiet text, an inline tag in backticks holding quiet text: no indicator stays open. */
  lemma {:induction false} CodeSpanTag(line: string, a: string, b: string)
    requires line == a + "`{@" + b + "}`"
    requires forall k :: 0 <= k < |a| ==> Quiet(a[k])
    requires forall k :: 0 <= k < |b| ==> Quiet(b[k])
    ensures B.LineIndicators(line, []) == []
  {
    var n := |a|;
    var m := n + 3 + |b|;
    assert |line| == m + 2 && line[n] == '`' && line[n + 1] == '{' && line[n + 2] == '@' && line[m] == '}' && line[m + 1] == '`';
    assert forall k :: 0 <= k < n ==> Quiet(line[k]) by {
      assert forall k :: 0 <= k < n ==> line[k] == a[k];
    }
    assert forall k :: n + 2 <= k < m ==> Quiet(line[k]) by {
      assert forall k :: n + 3 <= k < m ==> line[k] == b[k - n - 3];
    }
    QuietRun(line, 0, n, [], []);
    CodeSpanOpen(line, n);
    QuietRun(line, n + 2, m, [], [CurlyBraces]);
    CodeSpanClose(line, m);
  }

  lemma {:induction false} ScanLine6(line: string)
    requires line == "Other test `{@h TestA}`"
    ensures B.LineIndicators(line, []) == []
  {
    CodeSpanTag(line, "Other test ", "h TestA");
  }

  lemma {:induction false} ScanLine7(line: string)
    requires line == "```kotlin"
    ensures B.LineIndicators(line, []) == [Backticks]
  {
    assert Toggle([], Backticks) == [Backticks];
    assert B.ScanFold(line, 1, []) == B.Scan([Backticks], false);
    assert B.ScanFold(line, 3, []) == B.Scan([Backticks], false);
    CodeRun(line, 3, |line|, [], [Backticks]);
  }

  lemma {:induction false} ScanLine8(line: string)
    requires line == "@e TestB"
    ensures B.LineIndicators(line, [Backticks]) == [Backticks]
  {
    QuietLine(line, [Backticks]);
  }

  lemma {:induction false} ScanLine9(line: string)
    requires line == "{@f TestC }"
    ensures B.LineIndicators(line, [Backticks]) == [Backticks]
  {
    CodeRun(line, 0, |line|, [Backticks], [Backticks]);
  }

  lemma {:induction false} ScanLine10(line: string)
    requires line == "```"
    ensures B.LineIndicators(line, [Backticks]) == []
  {
    assert Toggle([Backticks], Backticks) == [];
    assert B.ScanFold(line, 1, [Backticks]) == B.Scan([], false);
    assert B.ScanFold(line, 2, [Backticks]) == B.Scan([], false);
    assert B.ScanFold(line, 3, [Backticks]) == B.Scan([], false);
  }

  // ---------------------------------------------------------------------------
  // The lines of the test
  // ---------------------------------------------------------------------------

  lemma {:induction false} LineFacts0(line: string)
    requires line == "blablah"
    ensures line != [] && '\n' !in line && !B.StartsWithTag(line)
  {
  }

  lemma {:induction false} LineFacts1(line: string)
    requires line == "  @a a"
    ensures line != [] && '\n' !in line && B.StartsWithTag(line)
  {
  }

  lemma {:induction false} LineFacts2(line: string)
    requires line == "Some extra text. @b nothing, this is skipped"
    ensures line != [] && '\n' !in line && !B.StartsWithTag(line)
  {
    assert line[0] == 'S';
    assert forall k :: 0 <= k < |line| ==> line[k] != '\n';
  }

  lemma {:induction false} LineFacts3(line: string)
    requires line == "Other test {@c [TestA"
    ensures line != [] && '\n' !in line && !B.StartsWithTag(line)
  {
  }

  lemma {:induction false} LineFacts4(line: string)
    requires line == "blabla {@d TestA }"
    ensures line != [] && '\n' !in line && !B.StartsWithTag(line)
  {
  }

  lemma {:induction false} LineFacts5(line: string)
    requires line == "}"
    ensures line != [] && '\n' !in line && !B.StartsWithTag(line)
  {
  }

  lemma {:induction false} LineFacts6(line: string)
    requires line == "Other test `{@h TestA}`"
    ensures line != [] && '\n' !in line && !B.StartsWithTag(line)
  {
  }

  lemma {:induction false} LineFacts7(line: string)
    requires line == "```kotlin"
    ensures line != [] && '\n' !in line && !B.StartsWithTag(line)
  {
  }

  lemma {:induction false} LineFacts8(line: string)
    requires line == "@e TestB"
    ensures line != [] && '\n' !in line && B.StartsWithTag(line)
  {
  }

  lemma {:induction false} LineFacts9(line: string)
    requires line == "{@f TestC }"
    ensures line != [] && '\n' !in line && !B.StartsWithTag(line)
  {
  }

  lemma {:induction false} LineFacts10(line: string)
    requires line == "```"
    ensures line != [] && '\n' !in line && !B.StartsWithTag(line)
  {
  }

  lemma {:induction false} LineFacts11(line: string)
    requires line == "@g Test"
    ensures line != [] && '\n' !in line && B.StartsWithTag(line)
  {
  }

  // ---------------------------------------------------------------------------
  // The line loop of BlockSplit
  // ---------------------------------------------------------------------------

  lemma {:induction false} FoldNext(ls: seq<string>, k: nat)
    requires k < |ls|
    ensures B.BlockFold(ls[..k + 1], false, false) == B.LineStep(B.BlockFold(ls[..k], false, false), ls[k], false, false)
  {
    assert ls[..k + 1][..k] == ls[..k];
  }

  /** A line that does not start a block joins the current one with its `\n`. */
  lemma {:induction false} JoinStep(st: B.BlockState, line: string)
    requires line != [] && !(B.StartsWithTag(line) && st.indicators == [])
    ensures B.LineStep(st, line, false, false) == B.BlockState(st.blocks, st.current + line + "\n", B.LineIndicators(line, st.indicators))
  {
  }

  /** A tag line outside any indicator closes the current block and opens its own. */
  lemma {:induction false} TagStep(st: B.BlockState, line: string)
    requires B.StartsWithTag(line) && st.indicators == [] && st.current != []
    ensures B.LineStep(st, line, false, false)
      == B.BlockState(st.blocks + [RemoveSuffixChar(st.current, '\n')], line + "\n", B.LineIndicators(line, []))
  {
  }

  /** Lines `b` to `j` of `ls` are non-empty, start no block and carry the indicators `inds` from one to the next. */
  ghost predicate Joining(ls: seq<string>, inds: seq<seq<char>>, b: nat, j: nat)
    requires b <= j <= |ls| && |inds| > |ls|
  {
    && (forall k :: b <= k < j ==> ls[k] != [] && !(B.StartsWithTag(ls[k]) && inds[k] == []))
    && (forall k {:trigger B.LineIndicators(ls[k], inds[k])} :: b <= k < j ==> B.LineIndicators(ls[k], inds[k]) == inds[k + 1])
  }

  /**
   * Lines `b` to `j` of `ls` that do not start a block, with `inds[k]` the
   * indicators before line `k`, join the open block, which holds lines
   * `a` to `j` each with its `\n`.
   */
  lemma {:induction false} JoinRun(ls: seq<string>, inds: seq<seq<char>>, blocks: seq<string>, a: nat, b: nat, j: nat)
    requires a <= b <= j <= |ls| && |inds| > |ls|
    requires B.BlockFold(ls[..b], false, false) == B.BlockState(blocks, B.Terminated(ls[a..b]), inds[b])
    requires Joining(ls, inds, b, j)
    ensures B.BlockFold(ls[..j], false, false) == B.BlockState(blocks, B.Terminated(ls[a..j]), inds[j])
    decreases j
  {
    if j > b {
      var k := j - 1;
      JoinRun(ls, inds, blocks, a, b, k);
      JoinFold(ls, inds, blocks, a, k);
    }
  }

  /** Line `k`, which does not start a block, joins the open block. */
  lemma {:induction false} JoinFold(ls: seq<string>, inds: seq<seq<char>>, blocks: seq<string>, a: nat, k: nat)
    requires a <= k < |ls| && |inds| > |ls|
    requires B.BlockFold(ls[..k], false, false) == B.BlockState(blocks, B.Terminated(ls[a..k]), inds[k])
    requires ls[k] != [] && !(B.StartsWithTag(ls[k]) && inds[k] == [])
    requires B.LineIndicators(ls[k], inds[k]) == inds[k + 1]
    ensures B.BlockFold(ls[..k + 1], false, false) == B.BlockState(blocks, B.Terminated(ls[a..k + 1]), inds[k + 1])
  {
    FoldNext(ls, k);
    JoinRunStep(ls, inds, blocks, a, k + 1, B.BlockFold(ls[..k], false, false));
  }

  /** One more joined line extends the open block by that line. */
  lemma {:induction false} JoinRunStep(ls: seq<string>, inds: seq<seq<char>>, blocks: seq<string>, a: nat, j: nat, prev: B.BlockState)
    requires a < j <= |ls| && |inds| > j
    requires prev == B.BlockState(blocks, B.Terminated(ls[a..j - 1]), inds[j - 1])
    requires ls[j - 1] != [] && !(B.StartsWithTag(ls[j - 1]) && inds[j - 1] == [])
    requires B.LineIndicators(ls[j - 1], inds[j - 1]) == inds[j]
    ensures B.LineStep(prev, ls[j - 1], false, false) == B.BlockState(blocks, B.Terminated(ls[a..j]), inds[j])
  {
    JoinStep(prev, ls[j - 1]);
    TerminatedSlice(ls, a, j);
  }

  lemma {:induction false} TerminatedSlice(ls: seq<string>, a: nat, j: nat)
    requires a < j <= |ls|
    ensures B.Terminated(ls[a..j]) == B.Terminated(ls[a..j - 1]) + ls[j - 1] + "\n"
  {
    assert ls[a..j] == ls[a..j - 1] + [ls[j - 1]];
    B.TerminatedSnoc(ls[a..j - 1], ls[j - 1]);
  }

  /** Taking the `\n` off lines terminated one by one leaves their join. */
  lemma {:induction false} Unterminated(parts: seq<string>)
    requires parts != []
    ensures RemoveSuffixChar(B.Terminated(parts), '\n') == Join(parts, "\n")
  {
    B.TerminatedJoin(parts);
    var j := Join(parts, "\n");
    assert (j + "\n")[..|j|] == j;
  }

  lemma {:induction false} NewlineOff(x: string)
    ensures RemoveSuffixChar(x + "\n", '\n') == x
  {
    assert (x + "\n")[..|x|] == x;
  }

  /** A first line that is no tag, then a tag line, both leaving no indicator open: the first line is a block. */
  lemma {:induction false} HeadBlocks(ls: seq<string>, inds: seq<seq<char>>)
    requires |ls| >= 2 && |inds| > 2 && inds[0] == [] && inds[1] == [] && ls[0] != []
    requires !B.StartsWithTag(ls[0]) && B.StartsWithTag(ls[1])
    requires B.LineIndicators(ls[0], []) == [] && B.LineIndicators(ls[1], []) == inds[2]
    ensures B.BlockFold(ls[..2], false, false) == B.BlockState([ls[0]], B.Terminated(ls[1..2]), inds[2])
  {
    var st0 := B.BlockState([], "", []);
    assert B.BlockFold(ls[..0], false, false) == st0 by {
      assert ls[..0] == [];
    }
    FoldNext(ls, 0);
    JoinStep(st0, ls[0]);
    var st1 := B.BlockState([], "" + ls[0] + "\n", []);
    FoldNext(ls, 1);
    TagStep(st1, ls[1]);
    assert "" + ls[0] + "\n" == ls[0] + "\n";
    NewlineOff(ls[0]);
    assert B.Terminated(ls[1..2]) == ls[1] + "\n" by {
      assert ls[1..2] == [ls[1]] && [ls[1]][1..] == [];
    }
  }

  /** The last line, a tag line outside any indicator, closes the open block and opens its own. */
  lemma {:induction false} TailBlocks(ls: seq<string>, inds: seq<seq<char>>, blocks: seq<string>)
    requires |ls| >= 2 && |inds| >= |ls|
    requires B.BlockFold(ls[..|ls| - 1], false, false) == B.BlockState(blocks, B.Terminated(ls[1..|ls| - 1]), inds[|ls| - 1])
    requires B.StartsWithTag(ls[|ls| - 1]) && inds[|ls| - 1] == []
    ensures B.BlockFold(ls, false, false)
      == B.BlockState(blocks + [Join(ls[1..|ls| - 1], "\n")], ls[|ls| - 1] + "\n", B.LineIndicators(ls[|ls| - 1], []))
  {
    var n := |ls| - 1;
    var st := B.BlockFold(ls[..n], false, false);
    assert st.current != [] by {
      assert ls[1..n][0] == ls[1];
    }
    assert B.BlockFold(ls, false, false) == B.LineStep(st, ls[n], false, false) by {
      FoldNext(ls, n);
      assert ls[..n + 1] == ls;
    }
    TagStep(st, ls[n]);
    Unterminated(ls[1..n]);
  }

  /** Content joined from lines without `\n` is split back into those lines. */
  lemma {:induction false} LinesBlocks(ls: seq<string>)
    requires |ls| >= 1 && forall k :: 0 <= k < |ls| ==> '\n' !in ls[k]
    ensures var st := B.BlockFold(ls, false, false);
      B.Blocks(Join(ls, "\n"), false) == st.blocks + [RemoveSuffixChar(st.current, '\n')]
  {
    SplitJoin(ls, '\n');
  }

  /**
   * Content whose first line is no tag, whose second and last lines are tag
   * lines, and whose lines in between never start a block (each is a tag
   * line only while an indicator is open), with `inds[k]` the indicators
   * before line `k`: BlockSplit cuts it into the first line, the lines from
   * the second to the one before last, and the last line.
   */
  lemma {:induction false} ThreeBlocks(ls: seq<string>, inds: seq<seq<char>>)
    requires |ls| >= 3 && |inds| > |ls| && inds[0] == [] && inds[1] == [] && inds[|ls| - 1] == []
    requires forall k :: 0 <= k < |ls| ==> '\n' !in ls[k]
    requires ls[0] != [] && !B.StartsWithTag(ls[0]) && B.StartsWithTag(ls[1]) && B.StartsWithTag(ls[|ls| - 1])
    requires forall k {:trigger B.LineIndicators(ls[k], inds[k])} :: 0 <= k < |ls| - 1 ==> B.LineIndicators(ls[k], inds[k]) == inds[k + 1]
    requires forall k :: 2 <= k < |ls| - 1 ==> ls[k] != [] && !(B.StartsWithTag(ls[k]) && inds[k] == [])
    ensures B.Blocks(Join(ls, "\n"), false) == [ls[0], Join(ls[1..|ls| - 1], "\n"), ls[|ls| - 1]]
  {
    var n := |ls| - 1;
    var j := Join(ls[1..n], "\n");
    ThreeFold(ls, inds);
    LinesBlocks(ls);
    NewlineOff(ls[n]);
    assert [ls[0], j] + [ls[n]] == [ls[0], j, ls[n]];
  }

  /** The line loop of BlockSplit on the content of ThreeBlocks. */
  lemma {:induction false} ThreeFold(ls: seq<string>, inds: seq<seq<char>>)
    requires |ls| >= 3 && |inds| > |ls| && inds[0] == [] && inds[1] == [] && inds[|ls| - 1] == []
    requires ls[0] != [] && !B.StartsWithTag(ls[0]) && B.StartsWithTag(ls[1]) && B.StartsWithTag(ls[|ls| - 1])
    requires forall k {:trigger B.LineIndicators(ls[k], inds[k])} :: 0 <= k < |ls| - 1 ==> B.LineIndicators(ls[k], inds[k]) == inds[k + 1]
    requires forall k :: 2 <= k < |ls| - 1 ==> ls[k] != [] && !(B.StartsWithTag(ls[k]) && inds[k] == [])
    ensures B.BlockFold(ls, false, false)
      == B.BlockState([ls[0], Join(ls[1..|ls| - 1], "\n")], ls[|ls| - 1] + "\n", B.LineIndicators(ls[|ls| - 1], []))
  {
    var n := |ls| - 1;
    assert B.LineIndicators(ls[0], []) == [] && B.LineIndicators(ls[1], []) == inds[2] by {
      assert B.LineIndicators(ls[0], inds[0]) == inds[1];
      assert B.LineIndicators(ls[1], inds[1]) == inds[2];
    }
    HeadBlocks(ls, inds);
    JoinRun(ls, inds, [ls[0]], 1, 2, n);
    TailBlocks(ls, inds, [ls[0]]);
    assert [ls[0]] + [Join(ls[1..n], "\n")] == [ls[0], Join(ls[1..n], "\n")];
  }

  /** The lines of DifficultShape, none holding a `\n`. */
  lemma {:induction false} ShapeLines(ls: seq<string>, l0: string, l1: string, l2: string, l3: string, l4: string, l5: string,
    l6: string, l7: string, l8: string, l9: string, l10: string, l11: string)
    requires ls == [l0, l1, l2, l3, l4, l5, l6, l7, l8, l9, l10, l11]
    requires '\n' !in l0 && '\n' !in l1 && '\n' !in l2 && '\n' !in l3 && '\n' !in l4 && '\n' !in l5
    requires '\n' !in l6 && '\n' !in l7 && '\n' !in l8 && '\n' !in l9 && '\n' !in l10 && '\n' !in l11
    ensures forall k :: 0 <= k < |ls| ==> '\n' !in ls[k]
  {
  }

  /** The scan results of DifficultShape, chained from line to line. */
  lemma {:induction false} ShapeIndicators(ls: seq<string>, inds: seq<seq<char>>, l0: string, l1: string, l2: string, l3: string,
    l4: string, l5: string, l6: string, l7: string, l8: string, l9: string, l10: string, l11: string)
    requires ls == [l0, l1, l2, l3, l4, l5, l6, l7, l8, l9, l10, l11]
    requires inds == [[], [], [], [], [CurlyBraces], [CurlyBraces], [], [], [Backticks], [Backticks], [Backticks], [], []]
    requires B.LineIndicators(l0, []) == [] && B.LineIndicators(l1, []) == [] && B.LineIndicators(l2, []) == []
    requires B.LineIndicators(l3, []) == [CurlyBraces] && B.LineIndicators(l4, [CurlyBraces]) == [CurlyBraces]
    requires B.LineIndicators(l5, [CurlyBraces]) == [] && B.LineIndicators(l6, []) == [] && B.LineIndicators(l7, []) == [Backticks]
    requires B.LineIndicators(l8, [Backticks]) == [Backticks] && B.LineIndicators(l9, [Backticks]) == [Backticks]
    requires B.LineIndicators(l10, [Backticks]) == []
    ensures forall k {:trigger B.LineIndicators(ls[k], inds[k])} :: 0 <= k < |ls| - 1 ==> B.LineIndicators(ls[k], inds[k]) == inds[k + 1]
  {
  }

  /** The middle lines of DifficultShape start no block. */
  lemma {:induction false} ShapeJoins(ls: seq<string>, inds: seq<seq<char>>, l0: string, l1: string, l2: string, l3: string,
    l4: string, l5: string, l6: string, l7: string, l8: string, l9: string, l10: string, l11: string)
    requires ls == [l0, l1, l2, l3, l4, l5, l6, l7, l8, l9, l10, l11]
    requires inds == [[], [], [], [], [CurlyBraces], [CurlyBraces], [], [], [Backticks], [Backticks], [Backticks], [], []]
    requires l2 != [] && l3 != [] && l4 != [] && l5 != [] && l6 != [] && l7 != [] && l8 != [] && l9 != [] && l10 != []
    requires !B.StartsWithTag(l2) && !B.StartsWithTag(l3) && !B.StartsWithTag(l6) && !B.StartsWithTag(l7)
    ensures forall k :: 2 <= k < |ls| - 1 ==> ls[k] != [] && !(B.StartsWithTag(ls[k]) && inds[k] == [])
  {
  }

  /**
   * Lines with the scan results and tag lines of `difficultKdoc`: the first
   * line, the lines from `  @a a` to the closing fence, and `@g Test`.
   */
  lemma {:induction false} DifficultShape(l0: string, l1: string, l2: string, l3: string, l4: string, l5: string,
    l6: string, l7: string, l8: string, l9: string, l10: string, l11: string)
    requires l0 != [] && l2 != [] && l3 != [] && l4 != [] && l5 != [] && l6 != [] && l7 != [] && l8 != [] && l9 != [] && l10 != []
    requires '\n' !in l0 && '\n' !in l1 && '\n' !in l2 && '\n' !in l3 && '\n' !in l4 && '\n' !in l5
    requires '\n' !in l6 && '\n' !in l7 && '\n' !in l8 && '\n' !in l9 && '\n' !in l10 && '\n' !in l11
    requires !B.StartsWithTag(l0) && B.StartsWithTag(l1) && !B.StartsWithTag(l2) && !B.StartsWithTag(l3)
    requires !B.StartsWithTag(l6) && !B.StartsWithTag(l7) && B.StartsWithTag(l11)
    requires B.LineIndicators(l0, []) == [] && B.LineIndicators(l1, []) == [] && B.LineIndicators(l2, []) == []
    requires B.LineIndicators(l3, []) == [CurlyBraces] && B.LineIndicators(l4, [CurlyBraces]) == [CurlyBraces]
    requires B.LineIndicators(l5, [CurlyBraces]) == [] && B.LineIndicators(l6, []) == [] && B.LineIndicators(l7, []) == [Backticks]
    requires B.LineIndicators(l8, [Backticks]) == [Backticks] && B.LineIndicators(l9, [Backticks]) == [Backticks]
    requires B.LineIndicators(l10, [Backticks]) == []
    ensures var content := Join([l0, l1, l2, l3, l4, l5, l6, l7, l8, l9, l10, l11], "\n");
      B.Blocks(content, false) == [l0, Join([l1, l2, l3, l4, l5, l6, l7, l8, l9, l10], "\n"), l11]
  {
    var ls := [l0, l1, l2, l3, l4, l5, l6, l7, l8, l9, l10, l11];
    var c, t := [CurlyBraces], [Backticks];
    var inds: seq<seq<char>> := [[], [], [], [], c, c, [], [], t, t, t, [], []];
    ShapeLines(ls, l0, l1, l2, l3, l4, l5, l6, l7, l8, l9, l10, l11);
    ShapeIndicators(ls, inds, l0, l1, l2, l3, l4, l5, l6, l7, l8, l9, l10, l11);
    ShapeJoins(ls, inds, l0, l1, l2, l3, l4, l5, l6, l7, l8, l9, l10, l11);
    ThreeBlocks(ls, inds);
    assert ls[1..11] == [l1, l2, l3, l4, l5, l6, l7, l8, l9, l10];
  }

  /**
   * `difficultKdoc.splitDocContentPerBlock()` with the splitter of
   * doc-processor-common: the three blocks the test expects, which rejoin
   * with `\n` to the input.
   */
  lemma {:induction false} DifficultKdocBlocks(l0: string, l1: string, l2: string, l3: string, l4: string, l5: string,
    l6: string, l7: string, l8: string, l9: string, l10: string, l11: string)
    requires l0 == "blablah" && l1 == "  @a a" && l2 == "Some extra text. @b nothing, this is skipped"
    requires l3 == "Other test {@c [TestA" && l4 == "blabla {@d TestA }" && l5 == "}"
    requires l6 == "Other test `{@h TestA}`" && l7 == "```kotlin" && l8 == "@e TestB"
    requires l9 == "{@f TestC }" && l10 == "```" && l11 == "@g Test"
    ensures var content := Join([l0, l1, l2, l3, l4, l5, l6, l7, l8, l9, l10, l11], "\n");
      B.Blocks(content, false) == [l0, Join([l1, l2, l3, l4, l5, l6, l7, l8, l9, l10], "\n"), l11]
      && Join(B.Blocks(content, false), "\n") == content
  {
    LineFacts0(l0);
    LineFacts1(l1);
    LineFacts2(l2);
    LineFacts3(l3);
    LineFacts4(l4);
    LineFacts5(l5);
    LineFacts6(l6);
    LineFacts7(l7);
    LineFacts8(l8);
    LineFacts9(l9);
    LineFacts10(l10);
    LineFacts11(l11);
    ScanLine0(l0);
    ScanLine1(l1);
    ScanLine2(l2);
    ScanLine3(l3);
    ScanLine4(l4);
    ScanLine5(l5);
    ScanLine6(l6);
    ScanLine7(l7);
    ScanLine8(l8);
    ScanLine9(l9);
    ScanLine10(l10);
    DifficultShape(l0, l1, l2, l3, l4, l5, l6, l7, l8, l9, l10, l11);
    B.BlocksJoin(Join([l0, l1, l2, l3, l4, l5, l6, l7, l8, l9, l10, l11], "\n"));
  }

  // ---------------------------------------------------------------------------
  // An unclosed `[` before a block tag
  // ---------------------------------------------------------------------------

  /**
   * The splitter of doc-processor-common and kodex-common on the content
   * that `GradleBlocks.UnclosedBracketJoins` keeps in one block: brackets
   * are not tracked, so `@g c` is a block of its own, as the test's
   * `difficultKdoc` expects of the line after its unclosed `[TestA`.
   */
  lemma {:induction false} CommonUnclosedBracket(l0: string, l1: string)
    requires l0 == "a [b" && l1 == "@g c"
    ensures B.Blocks(l0 + "\n" + l1, false) == [l0, l1]
  {
    assert l0 + "\n" + l1 == Join([l0, l1], "\n");
    assert l0 != [] && '\n' !in l0 && '\n' !in l1;
    assert !B.StartsWithTag(l0) && B.StartsWithTag(l1);
    var ls := [l0, l1];
    QuietLine(l0, []);
    var i2 := B.LineIndicators(l1, []);
    HeadBlocks(ls, [[], [], i2]);
    assert ls[..2] == ls && ls[1..2] == [l1];
    assert B.Terminated([l1]) == l1 + "\n";
    LinesBlocks(ls);
    NewlineOff(l1);
  }
}
