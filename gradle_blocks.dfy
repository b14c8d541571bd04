/**
 * `splitDocContentPerBlock` of doc-processor-gradle-plugin's docUtils.kt
 * (lines 165-210): doc content cut into the text before the first block tag
 * and one block per block tag, where a tag inside braces, brackets,
 * parentheses or a code fence does not start a block.
 */
module GradleBlocks {
  import opened Text
  import TagNames

  /** The entries of `blocksIndicators`: `"{}"`, `"[]"`, `"()"` and the code fence. */
  datatype Indicator = Braces | Brackets | Parens | Fence

  /** How often `x` occurs in `xs`. */
  function Count(xs: seq<Indicator>, x: Indicator): (n: nat)
    ensures n > 0 <==> x in xs
  {
    if xs == [] then 0 else (if xs[0] == x then 1 else 0) + Count(xs[1..], x)
  }

  /** `MutableList.remove` as `-=` uses it: the first occurrence goes, if there is one. */
  function RemoveFirst(xs: seq<Indicator>, x: Indicator): (r: seq<Indicator>)
    ensures x !in xs ==> r == xs
    ensures |r| == if x in xs then |xs| - 1 else |xs|
    ensures forall y :: Count(r, y) == if y == x && x in xs then Count(xs, y) - 1 else Count(xs, y)
  {
    if xs == [] then []
    else if xs[0] == x then xs[1..]
    else
      var r := [xs[0]] + RemoveFirst(xs[1..], x);
      assert r[0] == xs[0] && r[1..] == RemoveFirst(xs[1..], x);
      r
  }

  /** One turn of the `when` of lines 191-200. */
  function CharStep(ind: seq<Indicator>, c: char): seq<Indicator> {
    if c == '{' then ind + [Braces]
    else if c == '}' then RemoveFirst(ind, Braces)
    else if c == '[' then ind + [Brackets]
    else if c == ']' then RemoveFirst(ind, Brackets)
    else if c == '(' then ind + [Parens]
    else if c == ')' then RemoveFirst(ind, Parens)
    else ind
  }

  /** The indicators after the first `k` characters of `line`. */
  function CharFold(line: string, k: nat, ind: seq<Indicator>): seq<Indicator>
    requires k <= |line|
  {
    if k == 0 then ind else CharStep(CharFold(line, k - 1, ind), line[k - 1])
  }

  /** `count { it == c }` */
  function Occurrences(s: string, c: char): (n: nat)
    ensures n <= |s|
  {
    if s == [] then 0 else (if s[0] == c then 1 else 0) + Occurrences(s[1..], c)
  }

  lemma {:induction false} OccurrencesAbsent(s: string, c: char)
    requires c !in s
    ensures Occurrences(s, c) == 0
  {
    if s != [] {
      assert c !in s[1..] by {
        assert forall i :: 0 <= i < |s[1..]| ==> s[1..][i] == s[i + 1];
      }
      OccurrencesAbsent(s[1..], c);
    }
  }

  /** `repeat(n)` of lines 202-207: each turn closes an open fence or opens one. */
  function Toggle(ind: seq<Indicator>, n: nat): seq<Indicator> {
    if n == 0 then ind
    else
      Flip(Toggle(ind, n - 1))
  }

  /** One turn of the `repeat` of lines 202-207: an open fence closes, otherwise one opens. */
  function Flip(t: seq<Indicator>): seq<Indicator> {
    if Fence in t then RemoveFirst(t, Fence) else t + [Fence]
  }

  /** Lines 191-207: the indicators after one line. */
  function LineIndicators(line: string, ind: seq<Indicator>): seq<Indicator> {
    Toggle(CharFold(line, |line|, ind), Occurrences(line, '`') / 3)
  }

  /** Lines 191-207, with their two loops. */
  method ScanLine(line: string, ind: seq<Indicator>) returns (blocksIndicators: seq<Indicator>)
    ensures blocksIndicators == LineIndicators(line, ind)
  {
    blocksIndicators := ind;
    for i := 0 to |line|
      invariant blocksIndicators == CharFold(line, i, ind)
    {
      var c := line[i];
      if c == '{' {
        blocksIndicators := blocksIndicators + [Braces];
      } else if c == '}' {
        blocksIndicators := RemoveFirst(blocksIndicators, Braces);
      } else if c == '[' {
        blocksIndicators := blocksIndicators + [Brackets];
      } else if c == ']' {
        blocksIndicators := RemoveFirst(blocksIndicators, Brackets);
      } else if c == '(' {
        blocksIndicators := blocksIndicators + [Parens];
      } else if c == ')' {
        blocksIndicators := RemoveFirst(blocksIndicators, Parens);
      }
    }
    ghost var folded := blocksIndicators;
    var numberOfBackTicks := Occurrences(line, '`') / 3;
    for j := 0 to numberOfBackTicks
      invariant blocksIndicators == Toggle(folded, j)
    {
      if Fence in blocksIndicators {
        blocksIndicators := RemoveFirst(blocksIndicators, Fence);
      } else {
        blocksIndicators := blocksIndicators + [Fence];
      }
    }
  }

  // ---------------------------------------------------------------------------
  // The splitter
  // ---------------------------------------------------------------------------

  /** Line 181: the line starts a block tag, after optional whitespace. */
  predicate TagLine(line: string) {
    StartsWith(TrimStart(line), "@")
  }

  /**
   * The splitter after some lines: the closed blocks, `currentBlock`,
   * `blocksIndicators`, and how many lines it has read.
   */
  datatype Splitter = Splitter(blocks: seq<string>, current: string, indicators: seq<Indicator>, seen: nat)

  /**
   * Lines 181-190. As written (`fixed` false) a tag line always closes the
   * current block and an empty current block is replaced rather than
   * extended; the corrected splitter (`fixed` true) asks instead whether any
   * line has been read.
   */
  function Place(st: Splitter, line: string, fixed: bool): Splitter {
    if TagLine(line) && st.indicators == [] then
      Splitter(if fixed && st.seen == 0 then st.blocks else st.blocks + [st.current], line, st.indicators, st.seen)
    else if (if fixed then st.seen == 0 else st.current == []) then
      Splitter(st.blocks, line, st.indicators, st.seen)
    else
      Splitter(st.blocks, st.current + "\n" + line, st.indicators, st.seen)
  }

  /** One turn of the loop of lines 177-208. */
  function Step(st: Splitter, line: string, fixed: bool): Splitter {
    var p := Place(st, line, fixed);
    Splitter(p.blocks, p.current, LineIndicators(line, st.indicators), st.seen + 1)
  }

  function Fold(lines: seq<string>, fixed: bool): Splitter
    decreases |lines|
  {
    if lines == [] then Splitter([], "", [], 0)
    else Step(Fold(lines[..|lines| - 1], fixed), lines[|lines| - 1], fixed)
  }

  function Closed(st: Splitter): seq<string> {
    st.blocks + [st.current]
  }

  /** `splitDocContentPerBlock` (lines 172-210) as written. */
  function Blocks(content: string): (blocks: seq<string>)
    ensures |blocks| >= 1
  {
    Closed(Fold(Split(content, '\n'), false))
  }

  /** `splitDocContentPerBlock` with the correction of lines 182 and 185. */
  function FixedBlocks(content: string): (blocks: seq<string>)
    ensures |blocks| >= 1
  {
    Closed(Fold(Split(content, '\n'), true))
  }

  /** `splitDocContentPerBlock` (lines 172-210), with its loop over the lines. */
  method SplitDocContentPerBlock(content: string) returns (blocks: seq<string>)
    ensures blocks == Blocks(content)
  {
    var docContent := Split(content, '\n');
    var currentBlock := "";
    var blocksIndicators: seq<Indicator> := [];
    blocks := [];
    for k := 0 to |docContent|
      invariant Splitter(blocks, currentBlock, blocksIndicators, k) == Fold(docContent[..k], false)
    {
      var line := docContent[k];
      assert docContent[..k + 1][..k] == docContent[..k];
      if TagLine(line) && blocksIndicators == [] {
        blocks := blocks + [currentBlock];
        currentBlock := line;
      } else if currentBlock == [] {
        currentBlock := line;
      } else {
        currentBlock := currentBlock + "\n" + line;
      }
      blocksIndicators := ScanLine(line, blocksIndicators);
    }
    assert docContent[..|docContent|] == docContent;
    blocks := blocks + [currentBlock];
  }

  // ---------------------------------------------------------------------------
  // Joining the blocks with '\n' (line 170)
  // ---------------------------------------------------------------------------

  lemma {:induction false} JoinAppend(ps: seq<string>, x: string, sep: string)
    requires ps != []
    ensures Join(ps + [x], sep) == Join(ps, sep) + sep + x
  {
    if |ps| == 1 {
      assert ps + [x] == [ps[0], x];
      assert [ps[0], x][1..] == [x];
    } else {
      assert (ps + [x])[1..] == ps[1..] + [x];
      JoinAppend(ps[1..], x, sep);
    }
  }

  lemma JoinExtendLast(ps: seq<string>, c: string, x: string)
    ensures Join(ps + [c + "\n" + x], "\n") == Join(ps + [c], "\n") + "\n" + x
  {
    if ps == [] {
      assert [] + [c + "\n" + x] == [c + "\n" + x] && [] + [c] == [c];
    } else {
      JoinAppend(ps, c + "\n" + x, "\n");
      JoinAppend(ps, c, "\n");
    }
  }

  /** The corrected splitter only ever cuts the lines it has read. */
  predicate Rejoins(st: Splitter, lines: seq<string>) {
    st.seen == |lines|
    && (lines == [] ==> st.blocks == [] && st.current == "")
    && (lines != [] ==> Join(Closed(st), "\n") == Join(lines, "\n"))
  }

  lemma {:induction false} FixedFoldRejoins(lines: seq<string>)
    ensures Rejoins(Fold(lines, true), lines)
    decreases |lines|
  {
    if lines != [] {
      var init, x := lines[..|lines| - 1], lines[|lines| - 1];
      assert lines == init + [x];
      FixedFoldRejoins(init);
      var st := Fold(init, true);
      if init == [] {
        assert lines == [x];
      } else {
        JoinAppend(init, x, "\n");
        if TagLine(x) && st.indicators == [] {
          JoinAppend(Closed(st), x, "\n");
        } else {
          JoinExtendLast(st.blocks, st.current, x);
        }
      }
    }
  }

  /** The promise of line 170 holds for the corrected splitter, for every content. */
  lemma {:induction false} FixedBlocksJoin(content: string)
    ensures Join(FixedBlocks(content), "\n") == content
  {
    FixedFoldRejoins(Split(content, '\n'));
    JoinSplit(content, '\n');
  }

  /**
   * When the first line is neither empty nor a tag line, the splitter as
   * written reads every line the way the corrected one does.
   */
  lemma {:induction false} FoldAgrees(lines: seq<string>)
    requires lines != [] && lines[0] != [] && !TagLine(lines[0])
    ensures Fold(lines, false) == Fold(lines, true) && Fold(lines, false).current != []
    decreases |lines|
  {
    var init, x := lines[..|lines| - 1], lines[|lines| - 1];
    if init != [] {
      assert init[0] == lines[0];
      FoldAgrees(init);
      if TagLine(x) {
        TagLineNonEmpty(x);
      }
    }
  }

  lemma TagLineNonEmpty(line: string)
    requires TagLine(line)
    ensures line != []
  {
  }

  /** The promise of line 170 as written: it holds when the content starts with text. */
  lemma {:induction false} BlocksJoin(content: string)
    requires Split(content, '\n')[0] != [] && !TagLine(Split(content, '\n')[0])
    ensures Join(Blocks(content), "\n") == content
  {
    FoldAgrees(Split(content, '\n'));
    FixedBlocksJoin(content);
  }

  /** Content that starts with a tag line gets an empty first block, which the join turns into a newline. */
  lemma {:induction false} TagFirstLineAddsBlock(line: string)
    requires '\n' !in line && TagLine(line)
    ensures Blocks(line) == ["", line]
    ensures Join(Blocks(line), "\n") == "\n" + line
  {
    assert Split(line, '\n') == [line] by {
      assert IndexOfChar(line, '\n') == |line|;
    }
    assert Fold([line], false) == Step(Fold([], false), line, false) by {
      assert [line][..0] == [];
    }
    assert ["", line][1..] == [line];
  }

  /** An empty first line is replaced by the next line rather than joined to it, and is lost. */
  lemma {:induction false} LeadingEmptyLineLost(line: string)
    requires '\n' !in line && line != [] && !TagLine(line)
    ensures Blocks("\n" + line) == [line]
    ensures Join(Blocks("\n" + line), "\n") == line
  {
    assert Split("\n" + line, '\n') == ["", line] by {
      assert Join(["", line], "\n") == "" + "\n" + line by {
        assert ["", line][1..] == [line];
      }
      SplitJoin(["", line], '\n');
    }
    var lines := ["", line];
    assert lines[..1] == [""] && [""][..0] == [];
    assert !TagLine("") by {
      assert TrimStart("") == "";
    }
    var st := Fold([""], false);
    assert st == Splitter([], "", LineIndicators("", []), 1);
    assert Fold(lines, false) == Step(st, line, false);
  }

  // ---------------------------------------------------------------------------
  // Every block after the first starts with a tag line (line 167)
  // ---------------------------------------------------------------------------

  /** Text after a tag line does not change where its tag starts. */
  lemma TagLineExtends(a: string, b: string)
    requires TagLine(a)
    ensures TagLine(a + b)
  {
    var ta, tb := TrimStart(a), TrimStart(a + b);
    var i, j := |a| - |ta|, |a + b| - |tb|;
    TrimStartSkips(a);
    TrimStartSkips(a + b);
    assert a[i] == '@';
    assert (a + b)[i] == '@';
    assert j == i;
    assert tb[0] == (a + b)[i];
  }

  predicate StartsInv(st: Splitter) {
    (forall k :: 1 <= k < |st.blocks| ==> TagLine(st.blocks[k]))
    && (st.blocks != [] ==> TagLine(st.current) && st.seen > 0)
  }

  lemma StartsStep(st: Splitter, x: string, fixed: bool)
    requires StartsInv(st)
    ensures StartsInv(Step(st, x, fixed))
  {
    PlaceStarts(st, x, fixed);
  }

  /** Placing a line keeps every block after the first, and a current block after a closed one, a tag line. */
  lemma PlaceStarts(st: Splitter, x: string, fixed: bool)
    requires StartsInv(st)
    ensures var p := Place(st, x, fixed);
      (forall k :: 1 <= k < |p.blocks| ==> TagLine(p.blocks[k])) && (p.blocks != [] ==> TagLine(p.current))
  {
    if !(TagLine(x) && st.indicators == []) && st.blocks != [] && st.current != [] {
      assert TagLine(st.current + "\n" + x) by {
        TagLineExtends(st.current, "\n" + x);
        assert st.current + "\n" + x == st.current + ("\n" + x);
      }
    }
  }

  lemma {:induction false} StartsFold(lines: seq<string>, fixed: bool)
    ensures StartsInv(Fold(lines, fixed))
    decreases |lines|
  {
    if lines != [] {
      var init := lines[..|lines| - 1];
      StartsFold(init, fixed);
      StartsStep(Fold(init, fixed), lines[|lines| - 1], fixed);
    }
  }

  /** Line 167: each block but the first starts with a block tag, in both the splitter as written and the corrected one. */
  lemma {:induction false} BlockStartsWithTag(content: string, fixed: bool, k: int)
    requires 1 <= k < |Closed(Fold(Split(content, '\n'), fixed))|
    ensures TagLine(Closed(Fold(Split(content, '\n'), fixed))[k])
  {
    StartsFold(Split(content, '\n'), fixed);
  }

  // ---------------------------------------------------------------------------
  // What the indicators count
  // ---------------------------------------------------------------------------

  function Open(x: Indicator): char {
    match x
    case Braces => '{'
    case Brackets => '['
    case Parens => '('
    case Fence => '`'
  }

  function Close(x: Indicator): char {
    match x
    case Braces => '}'
    case Brackets => ']'
    case Parens => ')'
    case Fence => '`'
  }

  /** Nesting depth after one character, where a closer with nothing open is ignored. */
  function Bump(d: nat, c: char, open: char, close: char): nat {
    if c == open then d + 1 else if c == close then (if d > 0 then d - 1 else 0) else d
  }

  /** Nesting depth after the first `k` characters of `s`, from depth `d`. */
  function Depth(s: string, k: nat, open: char, close: char, d: nat): nat
    requires k <= |s|
  {
    if k == 0 then d else Bump(Depth(s, k - 1, open, close, d), s[k - 1], open, close)
  }

  lemma {:induction false} AddCount(ind: seq<Indicator>, y: Indicator, x: Indicator)
    ensures Count(ind + [y], x) == Count(ind, x) + (if x == y then 1 else 0)
  {
    if ind != [] {
      assert (ind + [y])[0] == ind[0] && (ind + [y])[1..] == ind[1..] + [y];
      AddCount(ind[1..], y, x);
    } else {
      assert [] + [y] == [y] && [y][1..] == [];
    }
  }

  lemma CharStepCount(ind: seq<Indicator>, c: char, x: Indicator)
    requires x != Fence
    ensures Count(CharStep(ind, c), x) == Bump(Count(ind, x), c, Open(x), Close(x))
  {
    if c == '{' {
      AddCount(ind, Braces, x);
    } else if c == '[' {
      AddCount(ind, Brackets, x);
    } else if c == '(' {
      AddCount(ind, Parens, x);
    }
  }

  lemma CharStepFences(ind: seq<Indicator>, c: char)
    ensures Count(CharStep(ind, c), Fence) == Count(ind, Fence)
  {
    if c == '{' {
      AddCount(ind, Braces, Fence);
    } else if c == '[' {
      AddCount(ind, Brackets, Fence);
    } else if c == '(' {
      AddCount(ind, Parens, Fence);
    }
  }

  /** The braces, brackets and parentheses among the indicators are the nesting depths of the line. */
  lemma {:induction false} CharFoldCount(line: string, k: nat, ind: seq<Indicator>, x: Indicator)
    requires k <= |line| && x != Fence
    ensures Count(CharFold(line, k, ind), x) == Depth(line, k, Open(x), Close(x), Count(ind, x))
  {
    if k > 0 {
      CharFoldCount(line, k - 1, ind, x);
      CharStepCount(CharFold(line, k - 1, ind), line[k - 1], x);
    }
  }

  lemma {:induction false} CharFoldFences(line: string, k: nat, ind: seq<Indicator>)
    requires k <= |line|
    ensures Count(CharFold(line, k, ind), Fence) == Count(ind, Fence)
  {
    if k > 0 {
      CharFoldFences(line, k - 1, ind);
      CharStepFences(CharFold(line, k - 1, ind), line[k - 1]);
    }
  }

  /** With at most one fence open, each turn of lines 202-207 flips it and leaves the rest alone. */
  lemma FlipCount(t: seq<Indicator>, x: Indicator)
    requires Count(t, Fence) <= 1
    ensures x == Fence ==> Count(Flip(t), Fence) == 1 - Count(t, Fence)
    ensures x != Fence ==> Count(Flip(t), x) == Count(t, x)
  {
    if Fence !in t {
      AddCount(t, Fence, x);
      AddCount(t, Fence, Fence);
    }
  }

  lemma Parity(a: nat, p: nat)
    requires a > 0 && p == (a - 1) % 2
    ensures a % 2 == 1 - p
  {
  }

  lemma {:induction false} ToggleFences(ind: seq<Indicator>, n: nat)
    requires Count(ind, Fence) <= 1
    ensures Count(Toggle(ind, n), Fence) == (Count(ind, Fence) + n) % 2
  {
    if n > 0 {
      var t := Toggle(ind, n - 1);
      var c, p := Count(ind, Fence), Count(t, Fence);
      assert p == (c + n - 1) % 2 by {
        ToggleFences(ind, n - 1);
      }
      assert Count(Toggle(ind, n), Fence) == 1 - p by {
        FlipCount(t, Fence);
      }
      Parity(c + n, p);
    }
  }

  lemma {:induction false} ToggleOthers(ind: seq<Indicator>, n: nat, x: Indicator)
    requires Count(ind, Fence) <= 1 && x != Fence
    ensures Count(Toggle(ind, n), x) == Count(ind, x)
  {
    if n > 0 {
      ToggleOthers(ind, n - 1, x);
      ToggleFences(ind, n - 1);
      FlipCount(Toggle(ind, n - 1), x);
    }
  }

  /**
   * After a line, the indicators hold, for each kind of bracket, its nesting
   * depth, and a fence exactly when an odd number of triples of backticks
   * has been seen, given at most one fence was open before.
   */
  lemma {:induction false} LineIndicatorsCount(line: string, ind: seq<Indicator>, x: Indicator)
    requires Count(ind, Fence) <= 1
    ensures x != Fence ==> Count(LineIndicators(line, ind), x) == Depth(line, |line|, Open(x), Close(x), Count(ind, x))
    ensures x == Fence ==> Count(LineIndicators(line, ind), Fence) == (Count(ind, Fence) + Occurrences(line, '`') / 3) % 2
  {
    if x != Fence {
      LineBracketCount(line, ind, x);
    } else {
      LineFenceCount(line, ind);
    }
  }

  lemma {:induction false} LineBracketCount(line: string, ind: seq<Indicator>, x: Indicator)
    requires Count(ind, Fence) <= 1 && x != Fence
    ensures Count(LineIndicators(line, ind), x) == Depth(line, |line|, Open(x), Close(x), Count(ind, x))
  {
    var f := CharFold(line, |line|, ind);
    CharFoldFences(line, |line|, ind);
    ToggleOthers(f, Occurrences(line, '`') / 3, x);
    CharFoldCount(line, |line|, ind, x);
  }

  lemma {:induction false} LineFenceCount(line: string, ind: seq<Indicator>)
    requires Count(ind, Fence) <= 1
    ensures Count(LineIndicators(line, ind), Fence) == (Count(ind, Fence) + Occurrences(line, '`') / 3) % 2
  {
    var f := CharFold(line, |line|, ind);
    var m := Occurrences(line, '`') / 3;
    assert Count(f, Fence) == Count(ind, Fence) by {
      CharFoldFences(line, |line|, ind);
    }
    assert Count(Toggle(f, m), Fence) == (Count(f, Fence) + m) % 2 by {
      ToggleFences(f, m);
    }
  }

  /**
   * A line that leaves a bracket, brace, parenthesis or fence open keeps the
   * line after it in the same block, even when that line starts with a tag.
   */
  lemma OpenLineJoins(l1: string, l2: string)
    requires '\n' !in l1 && '\n' !in l2
    requires l1 != [] && !TagLine(l1) && LineIndicators(l1, []) != []
    ensures Blocks(l1 + "\n" + l2) == [l1 + "\n" + l2]
  {
    var content := l1 + "\n" + l2;
    assert Split(content, '\n') == [l1, l2] by {
      assert Join([l1, l2], "\n") == content by {
        assert [l1, l2][1..] == [l2];
      }
      SplitJoin([l1, l2], '\n');
    }
    assert [l1, l2][..1] == [l1] && [l1][..0] == [];
    var st0 := Splitter([], "", [], 0);
    assert Fold([], false) == st0;
    assert Place(st0, l1, false) == Splitter([], l1, [], 0);
    assert Fold([l1], false) == Splitter([], l1, LineIndicators(l1, []), 1);
  }

  /** `a [b` leaves its bracket open. */
  lemma BracketLeftOpen(line: string)
    requires line == "a [b"
    ensures LineIndicators(line, []) == [Brackets]
  {
    assert line[0] == 'a' && line[1] == ' ' && line[2] == '[' && line[3] == 'b';
    assert CharFold(line, 1, []) == [];
    assert CharFold(line, 2, []) == [];
    assert CharFold(line, 3, []) == [Brackets];
    OccurrencesAbsent(line, '`');
  }

  /**
   * The content `a [b` followed by `@g c` is one block: the tag line does not
   * start a block of its own while the bracket is open.
   */
  lemma UnclosedBracketJoins(content: string)
    requires content == "a [b\n@g c"
    ensures Blocks(content) == [content]
  {
    var l1, l2 := "a [b", "@g c";
    assert content == l1 + "\n" + l2;
    BracketLineShape(l1);
    BracketLeftOpen(l1);
    assert '\n' !in l2;
    OpenLineJoins(l1, l2);
  }

  /** `a [b` is one line and no tag line. */
  lemma BracketLineShape(line: string)
    requires line == "a [b"
    ensures line != [] && '\n' !in line && !TagLine(line)
  {
    assert line[0] == 'a' && line[1] == ' ' && line[2] == '[' && line[3] == 'b';
    NoTagStart(line);
  }

  /** A line whose first character is neither whitespace nor `@` is no tag line. */
  lemma NoTagStart(line: string)
    requires line != [] && !IsWhitespace(line[0]) && line[0] != '@'
    ensures !TagLine(line)
  {
    assert LeadingWhitespace(line) == 0;
    assert TrimStart(line) == line;
  }
}
