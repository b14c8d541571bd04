/**
 * The `Get tag content` example of `DocProcessorPluginTest.kt`
 * (doc-processor-gradle-plugin's tests, lines 134-139) as lemmas: the
 * arguments read from `{@tag simple content with spaces}`. Each split is
 * proved first for every tag of the same shape, with its four plain words as
 * parameters, and then for the test's own text.
 */
module PluginTestExamples {
  import opened Wrappers
  import opened Text
  import opened Ranges
  import opened DocUtils

  // ---------------------------------------------------------------------------
  // `getTagArguments` on an inline tag with four words (lines 135-139)
  // ---------------------------------------------------------------------------

  /** A word of plain characters: no whitespace, escape, quote or bracket. */
  predicate PlainWord(w: string) {
    w != [] && forall k :: 0 <= k < |w| ==> PlainChar(w[k])
  }

  /** Plain characters, and spaces once the last argument has started. */
  predicate Appends(t: string, args: seq<RawArgument>, n: int) {
    forall k :: 0 <= k < |t| ==> PlainChar(t[k]) || (t[k] == ' ' && IsDone(args, n))
  }

  /** One character that joins the current block and changes nothing else. */
  lemma {:induction false} AppendStep(st: ArgumentsState, c: char, n: int)
    requires !st.escapeNext && st.blocksIndicators == []
    requires PlainChar(c) || (c == ' ' && IsDone(st.arguments, n))
    ensures ArgumentsStep(st, c, n) == st.(currentBlock := st.currentBlock + [c], pos := st.pos + 1)
  {
  }

  /** The loop state after scanning `t` from `st`. */
  function StepAll(st: ArgumentsState, t: string, n: int): ArgumentsState
    decreases |t|
  {
    if t == [] then st else StepAll(ArgumentsStep(st, t[0], n), t[1..], n)
  }

  lemma {:induction false} StepAllSnoc(st: ArgumentsState, t: string, c: char, n: int)
    ensures StepAll(st, t + [c], n) == ArgumentsStep(StepAll(st, t, n), c, n)
    decreases |t|
  {
    if t == [] {
      assert [] + [c] == [c] && [c][1..] == [];
    } else {
      assert (t + [c])[0] == t[0] && (t + [c])[1..] == t[1..] + [c];
      StepAllSnoc(ArgumentsStep(st, t[0], n), t[1..], c, n);
    }
  }

  /** Scanning `u + t` is scanning `u`, then `t`. */
  lemma {:induction false} FoldAppend(u: string, t: string, n: int, o: int)
    ensures ArgumentsFold(u + t, n, o) == StepAll(ArgumentsFold(u, n, o), t, n)
    decreases |t|
  {
    if t == [] {
      assert u + t == u;
    } else {
      var t0, c := t[..|t| - 1], t[|t| - 1];
      assert t == t0 + [c];
      assert u + t == (u + t0) + [c];
      FoldAppend(u, t0, n, o);
      FoldSnoc(u + t0, c, n, o);
      StepAllSnoc(ArgumentsFold(u, n, o), t0, c, n);
    }
  }

  /** Outside any block, plain characters (and, for the last argument, spaces) only join the current block. */
  lemma {:induction false} AppendsSteps(st: ArgumentsState, t: string, n: int)
    requires !st.escapeNext && st.blocksIndicators == [] && Appends(t, st.arguments, n)
    ensures StepAll(st, t, n) == st.(currentBlock := st.currentBlock + t, pos := st.pos + |t|)
    decreases |t|
  {
    if t == [] {
      assert st.currentBlock + t == st.currentBlock;
    } else {
      var next := ArgumentsStep(st, t[0], n);
      assert next == st.(currentBlock := st.currentBlock + [t[0]], pos := st.pos + 1) by {
        AppendStep(st, t[0], n);
      }
      assert Appends(t[1..], st.arguments, n) by {
        assert forall k :: 0 <= k < |t| - 1 ==> t[1..][k] == t[k + 1];
      }
      assert StepAll(next, t[1..], n) == next.(currentBlock := next.currentBlock + t[1..], pos := next.pos + |t[1..]|) by {
        AppendsSteps(next, t[1..], n);
      }
      assert st.currentBlock + [t[0]] + t[1..] == st.currentBlock + t;
    }
  }

  lemma {:induction false} StepAllAppend(st: ArgumentsState, x: string, y: string, n: int)
    ensures StepAll(st, x + y, n) == StepAll(StepAll(st, x, n), y, n)
    decreases |x|
  {
    if x == [] {
      assert x + y == y;
    } else {
      assert (x + y)[0] == x[0] && (x + y)[1..] == x[1..] + y;
      StepAllAppend(ArgumentsStep(st, x[0], n), x[1..], y, n);
    }
  }

  /** The loop starts from no arguments, an empty block, nothing open and `i == o`. */
  lemma {:induction false} FoldFromStart(content: string, n: int, o: int)
    ensures ArgumentsFold(content, n, o) == StepAll(ArgumentsState([], "", [], false, o, 0), content, n)
  {
    FoldAppend([], content, n, o);
    assert [] + content == content;
  }

  lemma {:induction false} AppendsJoin(x: string, y: string, args: seq<RawArgument>, n: int)
    requires Appends(x, args, n) && Appends(y, args, n)
    ensures Appends(x + y, args, n)
  {
    assert forall k :: 0 <= k < |x + y| ==> (x + y)[k] == if k < |x| then x[k] else y[k - |x|];
  }

  lemma {:induction false} SpacedWords(x: string, y: string, args: seq<RawArgument>, n: int)
    requires Appends(x, args, n) && PlainWord(y) && IsDone(args, n)
    ensures Appends(x + " " + y, args, n)
  {
    assert Appends(" ", args, n);
    assert Appends(y, args, n);
    AppendsJoin(x, " ", args, n);
    AppendsJoin(x + " ", y, args, n);
  }

  /** A non-blank word followed by a space ends an argument, while more than one remains to be read. */
  lemma {:induction false} WordThenSpace(st: ArgumentsState, w: string, n: int, args: seq<RawArgument>, i: int, pos: nat)
    requires Scanned(st, args, [], i, pos) && PlainWord(w) && !IsDone(args, n)
    ensures var next := args + [RawArgument(w, Until(i, i + |w|), pos)];
      Scanned(StepAll(st, w + " ", n), next, if IsDone(next, n) then " " else [], i + |w|, pos + |w| + 1)
  {
    WordScanned(st, w, n, args, i, pos);
    StepAllSpace(st, w, n);
    SpaceEndsWord(StepAll(st, w, n), w, n, args, i, pos + |w|);
  }

  lemma {:induction false} StepAllSpace(st: ArgumentsState, w: string, n: int)
    ensures StepAll(st, w + " ", n) == ArgumentsStep(StepAll(st, w, n), ' ', n)
  {
    assert w + " " == w + [' '];
    StepAllSnoc(st, w, ' ', n);
  }

  /** A plain word read outside any block becomes the current block. */
  lemma {:induction false} WordScanned(st: ArgumentsState, w: string, n: int, args: seq<RawArgument>, i: int, pos: nat)
    requires Scanned(st, args, [], i, pos) && PlainWord(w)
    ensures Scanned(StepAll(st, w, n), args, w, i, pos + |w|)
  {
    assert Appends(w, args, n);
    AppendsSteps(st, w, n);
    assert [] + w == w;
  }

  /** The space after a non-blank current block closes it as the next argument. */
  lemma {:induction false} SpaceEndsWord(sw: ArgumentsState, w: string, n: int, args: seq<RawArgument>, i: int, pos: nat)
    requires Scanned(sw, args, w, i, pos) && PlainWord(w) && !IsDone(args, n) && pos >= |w|
    ensures var next := args + [RawArgument(w, Until(i, i + |w|), pos - |w|)];
      Scanned(ArgumentsStep(sw, ' ', n), next, if IsDone(next, n) then " " else [], i + |w|, pos + 1)
  {
    assert !IsBlank(w) by {
      assert PlainChar(w[0]);
    }
    SeparatorStep(sw, ' ', n);
  }

  /** `{@<tag> <rest>}` with `rest` starting with a non-blank: the loop reads exactly `rest`, from index `|tag| + 3`. */
  lemma {:induction false} PrepareInline(s: string, tag: string, rest: string)
    requires s == "{@" + tag + " " + rest + "}" && rest != [] && !IsWhitespace(rest[0])
    ensures RequireTagArguments(s, tag, 1).None? && RequireTagArguments(s, tag, 2).None? && RequireTagArguments(s, tag, 3).None?
    ensures PrepareContent(s, tag) == Prepared(rest, |tag| + 3)
  {
    var body := s[1..|s| - 1];
    assert body == "@" + tag + " " + rest;
    assert s[1..1 + |tag| + 1] == "@" + tag by {
      assert body[..|tag| + 1] == "@" + tag;
    }
    assert OccursAt(s, "@" + tag, 1);
    assert Contains(s, "@" + tag);
    assert LeadingWhitespace(body) == 0 by {
      assert body[0] == '@';
    }
    assert s[1..|s| - 1][..|tag| + 1] == "@" + tag;
    var after := s[1 + |tag| + 1..|s| - 1];
    assert after == " " + rest;
    assert after[1..] == rest;
    assert LeadingWhitespace(after[1..]) == 0;
    assert LeadingWhitespace(after) == 1;
    assert s[1 + |tag| + 1 + 1..|s| - 1] == rest;
  }

  /** The four words the test reads, separated by single spaces. */
  function FourWords(a: string, b: string, c: string, d: string): string {
    a + " " + b + " " + c + " " + d
  }

  /** The loop state after reading `content` from the start. */
  lemma {:induction false} FoldIs(content: string, n: int, o: int, st: ArgumentsState)
    requires StepAll(ArgumentsState([], "", [], false, o, 0), content, n) == st
    ensures ArgumentsFold(content, n, o) == st
  {
    FoldFromStart(content, n, o);
  }

  /** The arguments the loop collects from `content`, before trimming, for the state it ends in. */
  lemma {:induction false} CollectedIs(content: string, n: int, o: int, st: ArgumentsState)
    requires ArgumentsFold(content, n, o) == st
    ensures CollectedArguments(content, n, o) == st.arguments + [RawArgument(st.currentBlock, Until(st.i, st.i + |st.currentBlock|), st.pos - |st.currentBlock|)]
  {
  }

  /** With one argument asked for, every character joins the one block. */
  lemma {:induction false} FoldOne(a: string, b: string, c: string, d: string, o: int)
    requires PlainWord(a) && PlainWord(b) && PlainWord(c) && PlainWord(d)
    ensures var t := FourWords(a, b, c, d);
      ArgumentsFold(t, 1, o) == ArgumentsState([], t, [], false, o, |t|)
  {
    var t := FourWords(a, b, c, d);
    var st0 := ArgumentsState([], "", [], false, o, 0);
    assert Appends(a, [], 1);
    SpacedWords(a, b, [], 1);
    SpacedWords(a + " " + b, c, [], 1);
    SpacedWords(a + " " + b + " " + c, d, [], 1);
    AppendsSteps(st0, t, 1);
    assert "" + t == t;
    FoldIs(t, 1, o, ArgumentsState([], t, [], false, o, |t|));
  }

  /** Read as one argument, the words come back whole. */
  lemma {:induction false} OneArgument(a: string, b: string, c: string, d: string, o: int)
    requires PlainWord(a) && PlainWord(b) && PlainWord(c) && PlainWord(d)
    ensures Texts(TrimArguments(CollectedArguments(FourWords(a, b, c, d), 1, o))) == [FourWords(a, b, c, d)]
  {
    var t := FourWords(a, b, c, d);
    FoldOne(a, b, c, d, o);
    CollectedIs(t, 1, o, ArgumentsState([], t, [], false, o, |t|));
    var raw := CollectedArguments(t, 1, o);
    assert |raw| == 1 && raw[0].text == t;
    assert TrimArgument(raw[0], true).text == t by {
      assert t[0] == a[0] && PlainChar(a[0]);
      assert t[0..] == t;
    }
  }

  /** With two arguments asked for, the first space ends the first word and every later character joins the last block. */
  lemma {:induction false} StepsTwo(st0: ArgumentsState, a: string, b: string, c: string, d: string, o: int)
    requires PlainWord(a) && PlainWord(b) && PlainWord(c) && PlainWord(d) && Scanned(st0, [], [], o, 0)
    ensures var t := FourWords(a, b, c, d);
      StepAll(st0, t, 2) == ArgumentsState([RawArgument(a, Until(o, o + |a|), 0)], " " + (b + " " + c + " " + d), [], false, o + |a|, |t|)
  {
    var t := FourWords(a, b, c, d);
    var rest := b + " " + c + " " + d;
    assert t == (a + " ") + rest;
    WordThenSpace(st0, a, 2, [], o, 0);
    var args := [RawArgument(a, Until(o, o + |a|), 0)];
    assert [] + [RawArgument(a, Until(o, o + |a|), 0)] == args;
    var s1 := StepAll(st0, a + " ", 2);
    assert Appends(b, args, 2);
    SpacedWords(b, c, args, 2);
    SpacedWords(b + " " + c, d, args, 2);
    AppendsSteps(s1, rest, 2);
    StepAllAppend(st0, a + " ", rest, 2);
  }

  /** The last argument loses the one space that ended the word before it. */
  lemma {:induction false} TrimLast(arg: RawArgument, rest: string)
    requires arg.text == " " + rest
    ensures TrimArgument(arg, true).text == rest
  {
    assert StartsWithChar(arg.text, ' ');
    assert (" " + rest)[1..] == rest;
  }

  /** Trimming two arguments: a plain first word stays, the last loses its leading space. */
  lemma {:induction false} TrimTwo(raw: seq<RawArgument>, a: string, rest: string)
    requires |raw| == 2 && raw[0].text == a && a != [] && PlainChar(a[0]) && raw[1].text == " " + rest
    ensures Texts(TrimArguments(raw)) == [a, rest]
  {
    var r := TrimArguments(raw);
    assert r[0].text == a by {
      assert r[0] == TrimArgument(raw[0], false);
      TrimWord(raw[0], a);
    }
    assert r[1].text == rest by {
      assert r[1] == TrimArgument(raw[1], true);
      TrimLast(raw[1], rest);
    }
    TextsTwo(r, a, rest);
  }

  lemma {:induction false} TextsTwo(r: seq<RawArgument>, a: string, b: string)
    requires |r| == 2 && r[0].text == a && r[1].text == b
    ensures Texts(r) == [a, b]
  {
    var t := Texts(r);
    assert t[0] == a && t[1] == b;
  }

  /** Read as two arguments, the first word is split off and the rest stays together. */
  lemma {:induction false} TwoArguments(a: string, b: string, c: string, d: string, o: int)
    requires PlainWord(a) && PlainWord(b) && PlainWord(c) && PlainWord(d)
    ensures Texts(TrimArguments(CollectedArguments(FourWords(a, b, c, d), 2, o))) == [a, b + " " + c + " " + d]
  {
    var t := FourWords(a, b, c, d);
    var rest := b + " " + c + " " + d;
    var st := ArgumentsState([RawArgument(a, Until(o, o + |a|), 0)], " " + rest, [], false, o + |a|, |t|);
    StepsTwo(ArgumentsState([], "", [], false, o, 0), a, b, c, d, o);
    FoldIs(t, 2, o, st);
    CollectedIs(t, 2, o, st);
    assert PlainChar(a[0]);
    TrimTwo(CollectedArguments(t, 2, o), a, rest);
  }

  /** With three arguments asked for, each of the first two spaces ends a word. */
  lemma {:induction false} TwoWordsThenSpaces(st0: ArgumentsState, a: string, b: string, o: int)
    requires PlainWord(a) && PlainWord(b) && Scanned(st0, [], [], o, 0)
    ensures Scanned(StepAll(st0, (a + " ") + (b + " "), 3),
      [RawArgument(a, Until(o, o + |a|), 0), RawArgument(b, Until(o + |a|, o + |a| + |b|), |a| + 1)], " ", o + |a| + |b|, |a| + |b| + 2)
  {
    WordThenSpace(st0, a, 3, [], o, 0);
    var args1 := [RawArgument(a, Until(o, o + |a|), 0)];
    assert [] + [RawArgument(a, Until(o, o + |a|), 0)] == args1;
    var s1 := StepAll(st0, a + " ", 3);
    WordThenSpace(s1, b, 3, args1, o + |a|, |a| + 1);
    StepAllAppend(st0, a + " ", b + " ", 3);
  }

  /** With three arguments asked for, the first two spaces end the first two words and the rest joins the last block. */
  lemma {:induction false} StepsThree(st0: ArgumentsState, a: string, b: string, c: string, d: string, o: int)
    requires PlainWord(a) && PlainWord(b) && PlainWord(c) && PlainWord(d) && Scanned(st0, [], [], o, 0)
    ensures var t := FourWords(a, b, c, d);
      StepAll(st0, t, 3) == ArgumentsState([RawArgument(a, Until(o, o + |a|), 0), RawArgument(b, Until(o + |a|, o + |a| + |b|), |a| + 1)],
        " " + (c + " " + d), [], false, o + |a| + |b|, |t|)
  {
    var t := FourWords(a, b, c, d);
    var tail := c + " " + d;
    var head := (a + " ") + (b + " ");
    assert t == head + tail;
    TwoWordsThenSpaces(st0, a, b, o);
    var args2 := [RawArgument(a, Until(o, o + |a|), 0), RawArgument(b, Until(o + |a|, o + |a| + |b|), |a| + 1)];
    var s2 := StepAll(st0, head, 3);
    assert Appends(c, args2, 3);
    SpacedWords(c, d, args2, 3);
    AppendsSteps(s2, tail, 3);
    StepAllAppend(st0, head, tail, 3);
  }

  /** Trimming three arguments: two plain words stay, the last loses its leading space. */
  lemma {:induction false} TrimThree(raw: seq<RawArgument>, a: string, b: string, tail: string)
    requires |raw| == 3 && raw[0].text == a && a != [] && PlainChar(a[0])
    requires raw[1].text == b && b != [] && PlainChar(b[0]) && raw[2].text == " " + tail
    ensures Texts(TrimArguments(raw)) == [a, b, tail]
  {
    var r := TrimArguments(raw);
    assert r[0] == TrimArgument(raw[0], false);
    assert r[1] == TrimArgument(raw[1], false);
    assert r[2] == TrimArgument(raw[2], true);
    TrimWord(raw[0], a);
    TrimWord(raw[1], b);
    TrimLast(raw[2], tail);
    assert r[0].text == a && r[1].text == b && r[2].text == tail;
    TextsThree(r, a, b, tail);
  }

  lemma {:induction false} TextsThree(r: seq<RawArgument>, a: string, b: string, c: string)
    requires |r| == 3 && r[0].text == a && r[1].text == b && r[2].text == c
    ensures Texts(r) == [a, b, c]
  {
    var t := Texts(r);
    assert t[0] == a && t[1] == b && t[2] == c;
  }

  /** Read as three arguments, the first two words are split off. */
  lemma {:induction false} ThreeArguments(a: string, b: string, c: string, d: string, o: int)
    requires PlainWord(a) && PlainWord(b) && PlainWord(c) && PlainWord(d)
    ensures Texts(TrimArguments(CollectedArguments(FourWords(a, b, c, d), 3, o))) == [a, b, c + " " + d]
  {
    var t := FourWords(a, b, c, d);
    var tail := c + " " + d;
    var st := ArgumentsState([RawArgument(a, Until(o, o + |a|), 0), RawArgument(b, Until(o + |a|, o + |a| + |b|), |a| + 1)],
      " " + tail, [], false, o + |a| + |b|, |t|);
    StepsThree(ArgumentsState([], "", [], false, o, 0), a, b, c, d, o);
    FoldIs(t, 3, o, st);
    CollectedIs(t, 3, o, st);
    assert PlainChar(a[0]) && PlainChar(b[0]);
    TrimThree(CollectedArguments(t, 3, o), a, b, tail);
  }

  /** An argument other than the last that is a plain word is not trimmed. */
  lemma {:induction false} TrimWord(arg: RawArgument, w: string)
    requires arg.text == w && w != [] && PlainChar(w[0])
    ensures TrimArgument(arg, false).text == w
  {
    assert OtherTrimCount(w) == 0;
    assert w[0..] == w;
  }

  /**
   * `{@tag a b c d}` read with one, two and three arguments: the words stay
   * together, the first is split off, or the first two are.
   */
  lemma {:induction false} InlineTagArguments(a: string, b: string, c: string, d: string)
    requires PlainWord(a) && PlainWord(b) && PlainWord(c) && PlainWord(d)
    ensures var s := "{@tag " + FourWords(a, b, c, d) + "}";
      GetTagArguments(s, "tag", 1) == Ok([a + " " + b + " " + c + " " + d])
      && GetTagArguments(s, "tag", 2) == Ok([a, b + " " + c + " " + d])
      && GetTagArguments(s, "tag", 3) == Ok([a, b, c + " " + d])
  {
    var s := "{@tag " + FourWords(a, b, c, d) + "}";
    assert s == "{@" + "tag" + " " + FourWords(a, b, c, d) + "}";
    assert FourWords(a, b, c, d)[0] == a[0] && PlainChar(a[0]);
    PrepareInline(s, "tag", FourWords(a, b, c, d));
    OneArgument(a, b, c, d, 6);
    TwoArguments(a, b, c, d, 6);
    ThreeArguments(a, b, c, d, 6);
  }

  /** The four words of the test's tag are plain. */
  lemma {:induction false} TagContentPlain()
    ensures PlainWord("simple") && PlainWord("content") && PlainWord("with") && PlainWord("spaces")
  {
  }

  /** The four words of the test's tag spell its content. */
  lemma {:induction false} TagContentSpelled()
    ensures FourWords("simple", "content", "with", "spaces") == "simple content with spaces"
  {
  }

  /** The test's tag is its content in braces after `@tag `. */
  lemma {:induction false} TagContentBraced()
    ensures "{@tag " + "simple content with spaces" + "}" == "{@tag simple content with spaces}"
  {
  }

  /** The last two and the last three words of the test's tag, joined by spaces. */
  lemma {:induction false} TagContentTails()
    ensures "content" + " " + "with" + " " + "spaces" == "content with spaces"
    ensures "with" + " " + "spaces" == "with spaces"
  {
  }

  /** `"{@tag simple content with spaces}".getTagArguments("tag", n)` for n = 1, 2, 3. */
  lemma {:induction false} GetTagContent()
    ensures GetTagArguments("{@tag simple content with spaces}", "tag", 1) == Ok(["simple content with spaces"])
    ensures GetTagArguments("{@tag simple content with spaces}", "tag", 2) == Ok(["simple", "content with spaces"])
    ensures GetTagArguments("{@tag simple content with spaces}", "tag", 3) == Ok(["simple", "content", "with spaces"])
  {
    TagContentPlain();
    TagContentSpelled();
    TagContentBraced();
    TagContentTails();
    InlineTagArguments("simple", "content", "with", "spaces");
  }
}
