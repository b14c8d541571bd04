/**
 * `getTagArguments(tag, numberOfArguments, onRogueClosingChar, isSplitter)` of
 * `kodex-common/.../utils/DocUtils.kt` (the same code as in
 * `doc-processor-common/.../docUtils.kt`): splitting with a caller-chosen
 * splitter predicate, where an escaped character is dropped and every closing
 * bracket without an opener is reported to the caller.
 */
module TagSplitter {
  import opened Wrappers
  import opened Text
  import opened DocUtils

  /** One call of `onRogueClosingChar(closingChar, argument, indexInArg)`. */
  datatype Rogue = Rogue(closingChar: char, argument: nat, indexInArg: nat)

  /** The loop variables, plus the calls made to `onRogueClosingChar` so far, in order. */
  datatype SplitState = SplitState(
    arguments: seq<string>,
    currentBlock: string,
    blocksIndicators: seq<char>,
    escapeNext: bool,
    rogues: seq<Rogue>)

  /** `all { it.isSplitter() }` */
  predicate AllBy(s: string, sp: char -> bool) {
    forall k :: 0 <= k < |s| ==> sp(s[k])
  }

  predicate IsCloser(c: char) {
    c == '}' || c == ']' || c == ')' || c == '>'
  }

  /** The indicator a closing character pops. */
  function OpenerOf(c: char): char
    requires IsCloser(c)
  {
    if c == '}' then CurlyBraces else if c == ']' then SquareBrackets else if c == ')' then Parentheses else AngularBrackets
  }

  /** `isDone()` */
  predicate Done(arguments: seq<string>, n: int) {
    |arguments| >= n - 1
  }

  /** The `when` on lines 187-203, for a character that is not escaped. */
  function SplitWhen(st: SplitState, c: char, n: int, sp: char -> bool): SplitState {
    if c == '\\' then st.(escapeNext := true)
    else if Done(st.arguments, n) then st
    else if sp(c) && st.blocksIndicators == [] then
      if !AllBy(st.currentBlock, sp) then st.(arguments := st.arguments + [st.currentBlock], currentBlock := "")
      else st.(currentBlock := "")
    else if c == '`' then st.(blocksIndicators := Toggle(st.blocksIndicators, Backticks))
    else st
  }

  /** Lines 204-244 and 245-247: bracket tracking with rogue reports, then appending the character. */
  function SplitTail(w: SplitState, c: char, n: int, sp: char -> bool): SplitState {
    var inCode := Backticks in w.blocksIndicators;
    var rogues :=
      if !inCode && IsCloser(c) && OpenerOf(c) !in w.blocksIndicators then w.rogues + [Rogue(c, |w.arguments|, |w.currentBlock|)]
      else w.rogues;
    var ind := if inCode then w.blocksIndicators else UpdateBrackets(w.blocksIndicators, c);
    var block :=
      if Done(w.arguments, n) || !AllBy(w.currentBlock, sp) || !sp(c) then w.currentBlock + [c]
      else w.currentBlock;
    w.(blocksIndicators := ind, currentBlock := block, rogues := rogues)
  }

  /** The loop body: an escaped character only clears `escapeNext` (`continue`, lines 188-191). */
  function SplitStep(st: SplitState, c: char, n: int, sp: char -> bool): SplitState {
    if st.escapeNext then st.(escapeNext := false)
    else SplitTail(SplitWhen(st, c, n, sp), c, n, sp)
  }

  function SplitFold(content: string, n: int, sp: char -> bool): SplitState {
    if content == [] then SplitState([], "", [], false, [])
    else SplitStep(SplitFold(content[..|content| - 1], n, sp), content[|content| - 1], n, sp)
  }

  lemma {:induction false} SplitFoldSnoc(content: string, c: char, n: int, sp: char -> bool)
    ensures SplitFold(content + [c], n, sp) == SplitStep(SplitFold(content, n, sp), c, n, sp)
  {
    assert (content + [c])[..|content|] == content;
  }

  /** Lines 263-264: `removePrefix("\n").trimStart { it.isSplitter() }`. */
  function TrimOther(a: string, sp: char -> bool): (r: string)
    ensures |r| <= |a| && r == a[|a| - |r|..]
    ensures r == [] || !sp(r[0])
  {
    TrimStartBy(RemovePrefixChar(a, '\n'), sp)
  }

  /** When the newline is a splitter, trimming removes splitters only, so a non-blank argument stays non-empty. */
  lemma {:induction false} TrimOtherNonEmpty(a: string, sp: char -> bool)
    requires sp('\n') && !AllBy(a, sp)
    ensures TrimOther(a, sp) != []
  {
    var j :| 0 <= j < |a| && !sp(a[j]);
    var b := RemovePrefixChar(a, '\n');
    assert j >= |a| - |b| by {
      if StartsWithChar(a, '\n') {
        assert j != 0;
      }
    }
    assert b[j - (|a| - |b|)] == a[j];
    TrimStartBySkips(b, sp);
  }

  /** Lines 256-261 on a non-empty last argument: drop one leading splitter unless it is a newline. */
  function TrimLast(a: string, sp: char -> bool): (r: string)
    requires a != []
    ensures r == a || (r == a[1..] && sp(a[0]) && a[0] != '\n')
  {
    if sp(a[0]) && a[0] != '\n' then a[1..] else a
  }

  /** Lines 253-266; `first()` on an empty last argument throws `NoSuchElementException`. */
  function TrimSplit(raw: seq<string>, sp: char -> bool): (r: Result<seq<string>>)
    requires raw != []
    ensures r.Err? <==> raw[|raw| - 1] == []
    ensures r.Err? ==> r.error == NoSuchElement
    ensures r.Ok? ==> |r.value| == |raw|
    ensures r.Ok? ==> forall k :: 0 <= k < |raw| - 1 ==> r.value[k] == TrimOther(raw[k], sp)
    ensures r.Ok? ==> r.value[|raw| - 1] == TrimLast(raw[|raw| - 1], sp)
  {
    if raw[|raw| - 1] == [] then Err(NoSuchElement)
    else Ok(seq(|raw|, k requires 0 <= k < |raw| => if k == |raw| - 1 then TrimLast(raw[k], sp) else TrimOther(raw[k], sp)))
  }

  /** Lines 164-175: surrounding braces, leading splitters, `@`, the tag name and the splitters after it. */
  function SplitContent(s: string, tag: string, sp: char -> bool): (content: string)
    ensures |content| <= |s|
  {
    var unbraced := if StartsWithChar(s, '{') && EndsWithChar(s, '}') then s[1..|s| - 1] else s;
    var a := TrimStartBy(unbraced, sp);
    var b := RemovePrefix(RemovePrefix(a, "@"), tag);
    TrimStartBy(b, sp)
  }

  /**
   * The whole function: the trimmed arguments and the `onRogueClosingChar`
   * calls it makes, or the exception it throws.
   */
  function SplitTagArguments(s: string, tag: string, n: int, sp: char -> bool): Result<(seq<string>, seq<Rogue>)> {
    if n <= 0 then Err(IllegalArgument("numberOfArguments must be greater than 0"))
    else SplitOutcome(SplitContent(s, tag, sp), n, sp)
  }

  /** Lines 177-268 on the prepared content. */
  function SplitOutcome(content: string, n: int, sp: char -> bool): Result<(seq<string>, seq<Rogue>)> {
    var st := SplitFold(content, n, sp);
    match TrimSplit(st.arguments + [st.currentBlock], sp)
    case Err(f) => Err(f)
    case Ok(args) => Ok((args, st.rogues))
  }

  // ---------------------------------------------------------------------------
  // The loop
  // ---------------------------------------------------------------------------

  /** One pass of the loop body. */
  method SplitChar(st: SplitState, c: char, n: int, sp: char -> bool) returns (next: SplitState)
    ensures next == SplitStep(st, c, n, sp)
  {
    var arguments, currentBlock, blocksIndicators, rogues := st.arguments, st.currentBlock, st.blocksIndicators, st.rogues;
    var escapeNext := st.escapeNext;
    if escapeNext {
      return st.(escapeNext := false);
    }
    if c == '\\' {
      escapeNext := true;
    } else if |arguments| >= n - 1 {
    } else if sp(c) && blocksIndicators == [] {
      if !AllBy(currentBlock, sp) {
        arguments := arguments + [currentBlock];
      }
      currentBlock := "";
    } else if c == '`' {
      var found, rest := RemoveAllElementsFromLast(blocksIndicators, Backticks);
      blocksIndicators := if found then rest else rest + [Backticks];
    }
    if Backticks !in blocksIndicators {
      if IsCloser(c) {
        var found, rest := RemoveAllElementsFromLast(blocksIndicators, OpenerOf(c));
        RemovedFromLastSpec(blocksIndicators, OpenerOf(c));
        if !found {
          rogues := rogues + [Rogue(c, |arguments|, |currentBlock|)];
        }
      }
      blocksIndicators := UpdateBrackets(blocksIndicators, c);
    }
    if |arguments| >= n - 1 || !AllBy(currentBlock, sp) || !sp(c) {
      currentBlock := currentBlock + [c];
    }
    next := SplitState(arguments, currentBlock, blocksIndicators, escapeNext, rogues);
  }

  /** The `for (char in content)` loop of lines 186-248. */
  method SplitScan(content: string, n: int, sp: char -> bool) returns (st: SplitState)
    ensures st == SplitFold(content, n, sp)
  {
    st := SplitState([], "", [], false, []);
    var k := 0;
    assert content[..0] == [];
    while k < |content|
      invariant 0 <= k <= |content|
      invariant st == SplitFold(content[..k], n, sp)
    {
      SplitFoldSnoc(content[..k], content[k], n, sp);
      assert content[..k] + [content[k]] == content[..k + 1];
      st := SplitChar(st, content[k], n, sp);
      k := k + 1;
    }
    assert content[..k] == content;
  }

  /** `getTagArguments(tag, n, onRogueClosingChar, isSplitter)`, proved to compute `SplitTagArguments`. */
  method GetTagArgumentsSplit(s: string, tag: string, n: int, sp: char -> bool) returns (r: Result<(seq<string>, seq<Rogue>)>)
    ensures r == SplitTagArguments(s, tag, n, sp)
  {
    if n <= 0 {
      return Err(IllegalArgument("numberOfArguments must be greater than 0"));
    }
    var content := SplitContent(s, tag, sp);
    var st := SplitScan(content, n, sp);
    var trimmed := TrimSplit(st.arguments + [st.currentBlock], sp);
    if trimmed.Err? {
      return Err(trimmed.error);
    }
    r := Ok((trimmed.value, st.rogues));
  }

  // ---------------------------------------------------------------------------
  // Properties
  // ---------------------------------------------------------------------------

  /** One step adds at most the current block as a new argument, and only before `n - 1` exist. */
  lemma {:induction false} StepArguments(st: SplitState, c: char, n: int, sp: char -> bool)
    ensures var a := SplitStep(st, c, n, sp).arguments;
      a == st.arguments || (!Done(st.arguments, n) && !AllBy(st.currentBlock, sp) && a == st.arguments + [st.currentBlock])
  {
    if !st.escapeNext {
      var w := SplitWhen(st, c, n, sp);
      assert SplitTail(w, c, n, sp).arguments == w.arguments;
    }
  }

  /** Arguments are only split off before `n - 1` exist: at most `n - 1` of them. */
  lemma {:induction false} SplitArgumentsBound(content: string, n: int, sp: char -> bool)
    requires n >= 1
    ensures |SplitFold(content, n, sp).arguments| <= n - 1
  {
    if content != [] {
      SplitArgumentsBound(content[..|content| - 1], n, sp);
      StepArguments(SplitFold(content[..|content| - 1], n, sp), content[|content| - 1], n, sp);
    }
  }

  /** Every argument split off holds a character that is not a splitter. */
  lemma {:induction false} SplitArgumentNotBlank(content: string, n: int, sp: char -> bool, k: int)
    requires 0 <= k < |SplitFold(content, n, sp).arguments|
    ensures !AllBy(SplitFold(content, n, sp).arguments[k], sp)
  {
    var p := content[..|content| - 1];
    var st := SplitFold(p, n, sp);
    StepArguments(st, content[|content| - 1], n, sp);
    if k < |st.arguments| {
      SplitArgumentNotBlank(p, n, sp, k);
      assert SplitFold(content, n, sp).arguments[k] == st.arguments[k];
    } else {
      assert SplitFold(content, n, sp).arguments[k] == st.currentBlock;
    }
  }

  /** One step reports at most one rogue: a closing character, with an argument index at most the new count. */
  lemma {:induction false} StepRogues(st: SplitState, c: char, n: int, sp: char -> bool)
    ensures var st' := SplitStep(st, c, n, sp);
      && (st'.rogues == st.rogues
          || (st'.rogues == st.rogues + [st'.rogues[|st.rogues|]]
              && IsCloser(st'.rogues[|st.rogues|].closingChar)
              && st'.rogues[|st.rogues|].argument == |st'.arguments|))
  {
    if !st.escapeNext {
      var w := SplitWhen(st, c, n, sp);
      assert SplitTail(w, c, n, sp).arguments == w.arguments;
    }
  }

  /** Every reported rogue character is a closing bracket, reported with an argument index below `n`. */
  lemma {:induction false} RogueIsCloser(content: string, n: int, sp: char -> bool, k: int)
    requires n >= 1 && 0 <= k < |SplitFold(content, n, sp).rogues|
    ensures IsCloser(SplitFold(content, n, sp).rogues[k].closingChar)
    ensures SplitFold(content, n, sp).rogues[k].argument <= n - 1
  {
    var p := content[..|content| - 1];
    var st := SplitFold(p, n, sp);
    StepRogues(st, content[|content| - 1], n, sp);
    SplitArgumentsBound(content, n, sp);
    if k < |st.rogues| {
      RogueIsCloser(p, n, sp, k);
      assert SplitFold(content, n, sp).rogues[k] == st.rogues[k];
    }
  }

  /**
   * A character that is not escaped, outside a backtick block, reports a rogue
   * exactly when it is a closing bracket whose opener is not open.
   */
  lemma {:induction false} RogueReported(st: SplitState, c: char, n: int, sp: char -> bool)
    requires !st.escapeNext
    ensures var w := SplitWhen(st, c, n, sp);
      var report := Backticks !in w.blocksIndicators && IsCloser(c) && OpenerOf(c) !in w.blocksIndicators;
      && (report ==> SplitStep(st, c, n, sp).rogues == st.rogues + [Rogue(c, |w.arguments|, |w.currentBlock|)])
      && (!report ==> SplitStep(st, c, n, sp).rogues == st.rogues)
  {
  }

  /** An escaped character changes nothing but the escape flag: it is dropped and never reported. */
  lemma {:induction false} EscapedDropped(st: SplitState, c: char, n: int, sp: char -> bool)
    requires st.escapeNext
    ensures SplitStep(st, c, n, sp) == st.(escapeNext := false)
  {
  }

  /** Once `n - 1` arguments exist, no further character splits one off. */
  lemma {:induction false} SplitDoneAbsorbs(p: string, q: string, n: int, sp: char -> bool)
    requires Done(SplitFold(p, n, sp).arguments, n)
    ensures SplitFold(p + q, n, sp).arguments == SplitFold(p, n, sp).arguments
  {
    if q == [] {
      assert p + q == p;
    } else {
      var q' := q[..|q| - 1];
      assert p + q == (p + q') + [q[|q| - 1]];
      SplitDoneAbsorbs(p, q', n, sp);
      SplitFoldSnoc(p + q', q[|q| - 1], n, sp);
    }
  }

  /**
   * The outcome: failure exactly when `n <= 0` or the last argument is empty;
   * otherwise between one and `n` arguments, and none but the last starts with
   * a splitter.
   */
  lemma {:induction false} SplitTagArgumentsShape(s: string, tag: string, n: int, sp: char -> bool)
    ensures var r := SplitTagArguments(s, tag, n, sp);
      var st := SplitFold(SplitContent(s, tag, sp), n, sp);
      && (r.Err? <==> n <= 0 || st.currentBlock == [])
      && (r.Ok? ==> var args := r.value.0;
           && 1 <= |args| <= n
           && |args| == |st.arguments| + 1
           && (forall k :: 0 <= k < |args| - 1 ==> args[k] == [] || !sp(args[k][0])))
  {
    if n >= 1 {
      SplitOutcomeShape(SplitContent(s, tag, sp), n, sp);
    }
  }

  lemma {:induction false} SplitOutcomeShape(content: string, n: int, sp: char -> bool)
    requires n >= 1
    ensures var r := SplitOutcome(content, n, sp);
      var st := SplitFold(content, n, sp);
      && (r.Err? <==> st.currentBlock == [])
      && (r.Ok? ==> var args := r.value.0;
           && 1 <= |args| <= n
           && |args| == |st.arguments| + 1
           && (forall k :: 0 <= k < |args| - 1 ==> args[k] == [] || !sp(args[k][0])))
  {
    var st := SplitFold(content, n, sp);
    SplitArgumentsBound(content, n, sp);
    var t := TrimSplit(st.arguments + [st.currentBlock], sp);
    assert (st.arguments + [st.currentBlock])[|st.arguments|] == st.currentBlock;
  }

  /** With a splitter that counts the newline, no argument but the last is empty. */
  lemma {:induction false} SplitArgumentsNonEmpty(s: string, tag: string, n: int, sp: char -> bool)
    requires sp('\n')
    ensures var r := SplitTagArguments(s, tag, n, sp);
      r.Ok? ==> forall k :: 0 <= k < |r.value.0| - 1 ==> r.value.0[k] != []
  {
    if n >= 1 {
      SplitOutcomeNonEmpty(SplitContent(s, tag, sp), n, sp);
    }
  }

  lemma {:induction false} SplitOutcomeNonEmpty(content: string, n: int, sp: char -> bool)
    requires sp('\n')
    ensures var r := SplitOutcome(content, n, sp);
      r.Ok? ==> forall k :: 0 <= k < |r.value.0| - 1 ==> r.value.0[k] != []
  {
    var st := SplitFold(content, n, sp);
    var raw := st.arguments + [st.currentBlock];
    var t := TrimSplit(raw, sp);
    if t.Ok? {
      forall k | 0 <= k < |raw| - 1 ensures t.value[k] != [] {
        assert raw[k] == st.arguments[k];
        SplitArgumentNotBlank(content, n, sp, k);
        TrimOtherNonEmpty(raw[k], sp);
      }
    }
  }
}
