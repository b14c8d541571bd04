/**
 * `replaceKdocLinks` and `removeKotlinLinks` of
 * `kodex-common/.../docContent/DocContent.kt`: the two rewriters of KDoc
 * reference links `[Ref]` and `[Alias][Ref]`.
 */
module KdocLinks {
  import opened Wrappers
  import opened Text

  /** The source's `ReferenceState`. */
  datatype ReferenceState = NoReference | InsideReference | InsideAliasedReference

  /**
   * The state of either rewriter: the escape flag, whether a backtick span
   * is open, the reference state, the block being collected and the text
   * already appended to the `StringBuilder`.
   */
  datatype Linker = Linker(escapeNext: bool, insideCodeBlock: bool, state: ReferenceState,
                           current: string, out: string)

  const Start := Linker(false, false, NoReference, "", "")

  /** The character after index `i` is `[` or `(`. */
  predicate NextOpens(kdoc: string, i: nat) {
    i + 1 < |kdoc| && (kdoc[i + 1] == '[' || kdoc[i + 1] == '(')
  }

  /** The character before index `i` is `]`. */
  predicate AfterClose(kdoc: string, i: nat) {
    0 < i <= |kdoc| && kdoc[i - 1] == ']'
  }

  /** A reference is processed when it is a code span or holds no space. */
  predicate Processable(ref: string) {
    (StartsWithChar(ref, '`') && EndsWithChar(ref, '`')) || ' ' !in ref
  }

  // ---------------------------------------------------------------------------
  // replaceKdocLinks (lines 322-408)
  // ---------------------------------------------------------------------------

  /**
   * `processReference`, lines 376-408: the text it appends to the builder
   * and the block it hands back.
   */
  function ProcessReference(state: ReferenceState, current: string, process: string -> string): (string, string) {
    match state
    case InsideReference =>
      var ref := RemovePrefixChar(current, '[');
      if Processable(ref) then
        var processed := process(ref);
        (if processed == ref then "[" + ref else "[" + ref + "][" + processed, "")
      else ("", current)
    case InsideAliasedReference =>
      var ref := RemovePrefixChar(current, '[');
      if Processable(ref) then ("[" + process(ref), "") else ("", current)
    case NoReference => ("", current)
  }

  /** One pass of the loop of lines 336-371 for the character at index `i`. */
  function LinkStep(kdoc: string, i: nat, st: Linker, process: string -> string): Linker
    requires i < |kdoc|
  {
    var c := kdoc[i];
    var before :=
      if st.escapeNext then st.(escapeNext := false)
      else if c == '\\' then st.(escapeNext := true)
      else if c == '`' then st.(insideCodeBlock := !st.insideCodeBlock)
      else if c == '[' && !st.insideCodeBlock then
        st.(state := if AfterClose(kdoc, i) then InsideAliasedReference else InsideReference,
            out := st.out + st.current, current := "")
      else if c == ']' && !st.insideCodeBlock && !NextOpens(kdoc, i) then
        var (appended, block) := ProcessReference(st.state, st.current, process);
        st.(out := st.out + appended + block, current := "", state := NoReference)
      else st;
    before.(current := before.current + [c])
  }

  /** The state after the first `k` characters. */
  function LinkFold(kdoc: string, k: nat, process: string -> string): Linker
    requires k <= |kdoc|
  {
    if k == 0 then Start else LinkStep(kdoc, k - 1, LinkFold(kdoc, k - 1, process), process)
  }

  /** What `replaceKdocLinks(process)` returns. */
  function KdocLinksReplaced(kdoc: string, process: string -> string): string {
    var st := LinkFold(kdoc, |kdoc|, process);
    st.out + st.current
  }

  /** One pass of the loop of lines 336-371. */
  method ReplaceAt(kdoc: string, i: nat, st: Linker, process: string -> string) returns (next: Linker)
    requires i < |kdoc|
    ensures next == LinkStep(kdoc, i, st, process)
  {
    var c := kdoc[i];
    var escapeNext, insideCodeBlock, state, current, out :=
      st.escapeNext, st.insideCodeBlock, st.state, st.current, st.out;
    if escapeNext {
      escapeNext := false;
    } else if c == '\\' {
      escapeNext := true;
    } else if c == '`' {
      insideCodeBlock := !insideCodeBlock;
    } else if c == '[' {
      if !insideCodeBlock {
        state := if i > 0 && kdoc[i - 1] == ']' then InsideAliasedReference else InsideReference;
        out := out + current;
        current := "";
      }
    } else if c == ']' {
      if !insideCodeBlock && !(i + 1 < |kdoc| && (kdoc[i + 1] == '[' || kdoc[i + 1] == '(')) {
        var processed := ProcessReference(state, current, process);
        out := out + processed.0;
        current := processed.1;
        out := out + current;
        current := "";
        state := NoReference;
      }
    }
    current := current + [c];
    next := Linker(escapeNext, insideCodeBlock, state, current, out);
  }

  /** `replaceKdocLinks`, proved to compute `KdocLinksReplaced`. */
  method ReplaceKdocLinks(kdoc: string, process: string -> string) returns (r: string)
    ensures r == KdocLinksReplaced(kdoc, process)
  {
    var st := Start;
    for i := 0 to |kdoc|
      invariant st == LinkFold(kdoc, i, process)
    {
      st := ReplaceAt(kdoc, i, st, process);
    }
    r := st.out + st.current;
  }

  // ---------------------------------------------------------------------------
  // removeKotlinLinks (lines 234-314)
  // ---------------------------------------------------------------------------

  /** Lines 292-297: a finished reference becomes a code span, kept inside `**` bold markers. */
  function Quoted(block: string): string {
    if StartsWith(block, "**") && EndsWith(block, "**") then "**`" + RemoveSurrounding(block, "**") + "`**"
    else "`" + block + "`"
  }

  /** One pass of the loop of lines 248-309 for the character at index `i`. */
  function UnlinkStep(kdoc: string, i: nat, st: Linker): Linker
    requires i < |kdoc|
  {
    var c := kdoc[i];
    if st.escapeNext then st.(escapeNext := false, current := st.current + [c])
    else if c == '\\' then st.(escapeNext := true)
    else if c == '`' then st.(insideCodeBlock := !st.insideCodeBlock, current := st.current + [c])
    else if st.insideCodeBlock then st.(current := st.current + [c])
    else if c == '[' then
      if AfterClose(kdoc, i) then
        st.(state := if st.state == InsideReference then InsideAliasedReference else InsideReference)
      else st.(out := st.out + st.current, current := "", state := InsideReference)
    else if c == ']' then
      if !NextOpens(kdoc, i) || st.state == InsideAliasedReference then
        st.(state := NoReference, out := st.out + Quoted(st.current), current := "")
      else st
    else if st.state == InsideAliasedReference then st
    else st.(current := st.current + [c])
  }

  /** The state after the first `k` characters. */
  function UnlinkFold(kdoc: string, k: nat): Linker
    requires k <= |kdoc|
  {
    if k == 0 then Start else UnlinkStep(kdoc, k - 1, UnlinkFold(kdoc, k - 1))
  }

  /** Lines 312-313: the clean-up of empty bold and empty code spans. */
  function CleanUp(s: string): string {
    ReplaceAll(ReplaceAll(s, "****", ""), "``", "")
  }

  /** What `removeKotlinLinks()` returns. */
  function KotlinLinksRemoved(kdoc: string): string {
    var st := UnlinkFold(kdoc, |kdoc|);
    CleanUp(st.out + st.current)
  }

  /** One pass of the loop of lines 248-309. */
  method RemoveAt(kdoc: string, i: nat, st: Linker) returns (next: Linker)
    requires i < |kdoc|
    ensures next == UnlinkStep(kdoc, i, st)
  {
    var c := kdoc[i];
    next := st;
    if st.escapeNext {
      next := st.(escapeNext := false, current := st.current + [c]);
    } else if c == '\\' {
      next := st.(escapeNext := true);
    } else if c == '`' {
      next := st.(insideCodeBlock := !st.insideCodeBlock, current := st.current + [c]);
    } else if st.insideCodeBlock {
      next := st.(current := st.current + [c]);
    } else if c == '[' {
      if i > 0 && kdoc[i - 1] == ']' {
        next := st.(state := if st.state == InsideReference then InsideAliasedReference else InsideReference);
      } else {
        next := st.(out := st.out + st.current, current := "", state := InsideReference);
      }
    } else if c == ']' {
      if !(i + 1 < |kdoc| && (kdoc[i + 1] == '[' || kdoc[i + 1] == '(')) || st.state == InsideAliasedReference {
        next := st.(state := NoReference, out := st.out + Quoted(st.current), current := "");
      }
    } else if st.state != InsideAliasedReference {
      next := st.(current := st.current + [c]);
    }
  }

  /** `removeKotlinLinks`, proved to compute `KotlinLinksRemoved`. */
  method RemoveKotlinLinks(kdoc: string) returns (r: string)
    ensures r == KotlinLinksRemoved(kdoc)
  {
    var st := Start;
    for i := 0 to |kdoc|
      invariant st == UnlinkFold(kdoc, i)
    {
      st := RemoveAt(kdoc, i, st);
    }
    r := CleanUp(st.out + st.current);
  }

  // ---------------------------------------------------------------------------
  // What replaceKdocLinks keeps
  // ---------------------------------------------------------------------------

  /** After `k` characters the builder and the block hold exactly those characters. */
  predicate Faithful(kdoc: string, k: nat, st: Linker) {
    k <= |kdoc| && st.out + st.current == kdoc[..k]
    && (st.state != NoReference ==> StartsWithChar(st.current, '['))
  }

  /** A reference that `process` leaves alone is appended as it was collected. */
  lemma {:induction false} ProcessKeeps(state: ReferenceState, current: string, process: string -> string)
    requires forall s :: process(s) == s
    requires state != NoReference ==> StartsWithChar(current, '[')
    ensures ProcessReference(state, current, process).0 + ProcessReference(state, current, process).1 == current
  {
    if state != NoReference {
      assert current == "[" + current[1..];
    }
  }

  lemma {:induction false} IdentityStep(kdoc: string, i: nat, st: Linker, process: string -> string, next: Linker)
    requires i < |kdoc| && Faithful(kdoc, i, st) && forall s :: process(s) == s
    requires next == LinkStep(kdoc, i, st, process)
    ensures Faithful(kdoc, i + 1, next)
  {
    assert kdoc[..i + 1] == kdoc[..i] + [kdoc[i]];
    var c := kdoc[i];
    if !st.escapeNext && c == '[' && !st.insideCodeBlock {
      OpenStep(kdoc, i, st, process);
    } else if !st.escapeNext && c == ']' && !st.insideCodeBlock && !NextOpens(kdoc, i) {
      CloseStep(kdoc, i, st, process);
      ProcessKeeps(st.state, st.current, process);
    } else {
      assert next.out == st.out && next.state == st.state && next.current == st.current + [c];
    }
  }

  lemma {:induction false} IdentityFold(kdoc: string, k: nat, process: string -> string)
    requires k <= |kdoc| && forall s :: process(s) == s
    ensures Faithful(kdoc, k, LinkFold(kdoc, k, process))
  {
    if k > 0 {
      IdentityFold(kdoc, k - 1, process);
      IdentityStep(kdoc, k - 1, LinkFold(kdoc, k - 1, process), process, LinkFold(kdoc, k, process));
    }
  }

  lemma {:induction false} OutsideStep(kdoc: string, i: nat, st: Linker, process: string -> string, next: Linker)
    requires i < |kdoc| && kdoc[i] != '[' && st.state == NoReference && st.out + st.current == kdoc[..i]
    requires next == LinkStep(kdoc, i, st, process)
    ensures next.state == NoReference && next.out + next.current == kdoc[..i + 1]
  {
    assert kdoc[..i + 1] == kdoc[..i] + [kdoc[i]];
    if !st.escapeNext && kdoc[i] == ']' && !st.insideCodeBlock && !NextOpens(kdoc, i) {
      CloseStep(kdoc, i, st, process);
    } else {
      assert next.out == st.out && next.state == st.state && next.current == st.current + [kdoc[i]];
    }
  }

  lemma {:induction false} OutsideFold(kdoc: string, k: nat, process: string -> string)
    requires k <= |kdoc| && '[' !in kdoc
    ensures LinkFold(kdoc, k, process).state == NoReference
    ensures LinkFold(kdoc, k, process).out + LinkFold(kdoc, k, process).current == kdoc[..k]
  {
    if k > 0 {
      OutsideFold(kdoc, k - 1, process);
      OutsideStep(kdoc, k - 1, LinkFold(kdoc, k - 1, process), process, LinkFold(kdoc, k, process));
    }
  }

  /** A `process` that changes nothing leaves the whole text as it was. */
  lemma {:induction false} IdentityProcessKeepsKdoc(kdoc: string, process: string -> string)
    requires forall s :: process(s) == s
    ensures KdocLinksReplaced(kdoc, process) == kdoc
  {
    IdentityFold(kdoc, |kdoc|, process);
  }

  /** Text without any `[` is left as it was, whatever `process` does. */
  lemma {:induction false} NoReferenceKeepsKdoc(kdoc: string, process: string -> string)
    requires '[' !in kdoc
    ensures KdocLinksReplaced(kdoc, process) == kdoc
  {
    OutsideFold(kdoc, |kdoc|, process);
  }

  // ---------------------------------------------------------------------------
  // Runs of ordinary characters
  // ---------------------------------------------------------------------------

  /** A character neither rewriter reacts to in the given code state. */
  predicate Inert(c: char, insideCodeBlock: bool) {
    c != '\\' && c != '`' && (insideCodeBlock || (c != '[' && c != ']'))
  }

  /** Every character of `kdoc[start..end]` is inert. */
  predicate InertRun(kdoc: string, start: nat, end: nat, insideCodeBlock: bool)
    requires start <= end <= |kdoc|
  {
    forall j :: start <= j < end ==> Inert(kdoc[j], insideCodeBlock)
  }

  /** A character no reference syntax touches, inside or outside backticks. */
  predicate PlainChar(c: char) {
    Inert(c, false) && c != ' '
  }

  /** A reference text with no special character and no space. */
  predicate PlainRef(r: string) {
    forall j :: 0 <= j < |r| ==> PlainChar(r[j])
  }

  /** An inert run is collected into the block as it is. */
  lemma {:induction false} LinkRun(kdoc: string, start: nat, len: nat, process: string -> string, st: Linker)
    requires start + len <= |kdoc| && LinkFold(kdoc, start, process) == st && !st.escapeNext
    requires InertRun(kdoc, start, start + len, st.insideCodeBlock)
    ensures LinkFold(kdoc, start + len, process) == st.(current := st.current + kdoc[start..start + len])
  {
    if len > 0 {
      assert st.current + kdoc[start..start + len] == st.current + kdoc[start..start + len - 1] + [kdoc[start + len - 1]];
      LinkRun(kdoc, start, len - 1, process, st);
    }
  }

  /** The slices of `"[" + r + "]"`. */
  lemma {:induction false} BracketedSlices(r: string, kdoc: string)
    requires kdoc == "[" + r + "]"
    ensures kdoc[0] == '[' && kdoc[1..1 + |r|] == r && kdoc[|r| + 1] == ']'
  {
    assert kdoc[1..1 + |r|] == r;
  }

  /** A `[` outside backticks starts a reference and closes the block before it. */
  lemma {:induction false} OpenStep(kdoc: string, i: nat, st: Linker, process: string -> string)
    requires i < |kdoc| && kdoc[i] == '[' && !st.escapeNext && !st.insideCodeBlock
    ensures LinkStep(kdoc, i, st, process)
      == st.(state := if AfterClose(kdoc, i) then InsideAliasedReference else InsideReference,
             out := st.out + st.current, current := "[")
  {
  }

  /** A `]` followed by `[` or `(` is collected like any other character. */
  lemma {:induction false} HeldCloseStep(kdoc: string, i: nat, st: Linker, process: string -> string)
    requires i < |kdoc| && kdoc[i] == ']' && NextOpens(kdoc, i) && !st.escapeNext
    ensures LinkStep(kdoc, i, st, process) == st.(current := st.current + "]")
  {
  }

  /** Any other `]` outside backticks hands the reference to `processReference`. */
  lemma {:induction false} CloseStep(kdoc: string, i: nat, st: Linker, process: string -> string)
    requires i < |kdoc| && kdoc[i] == ']' && !NextOpens(kdoc, i) && !st.escapeNext && !st.insideCodeBlock
    ensures var p := ProcessReference(st.state, st.current, process);
      LinkStep(kdoc, i, st, process) == st.(out := st.out + p.0 + p.1, current := "]", state := NoReference)
  {
  }

  /** A plain reference text is an inert run wherever it sits. */
  lemma {:induction false} PlainRun(kdoc: string, start: nat, r: string)
    requires start + |r| <= |kdoc| && kdoc[start..start + |r|] == r && PlainRef(r)
    ensures InertRun(kdoc, start, start + |r|, false)
  {
    forall j | start <= j < start + |r|
      ensures Inert(kdoc[j], false)
    {
      assert kdoc[j] == r[j - start];
    }
  }

  /** After `[` and a plain text `r`, the block holds `[` + `r`. */
  lemma {:induction false} ReferenceCollected(kdoc: string, r: string, process: string -> string)
    requires |r| + 1 <= |kdoc| && kdoc[0] == '[' && kdoc[1..|r| + 1] == r && PlainRef(r)
    ensures LinkFold(kdoc, |r| + 1, process) == Linker(false, false, InsideReference, "[" + r, "")
  {
    PlainRun(kdoc, 1, r);
    OpenStep(kdoc, 0, Start, process);
    var inRef := Linker(false, false, InsideReference, "[", "");
    LinkRun(kdoc, 1, |r|, process, inRef);
  }

  /** A closing `]` at index `k`, in terms of the fold. */
  lemma {:induction false} ReferenceClosed(kdoc: string, k: nat, st: Linker, process: string -> string)
    requires k < |kdoc| && LinkFold(kdoc, k, process) == st
    requires kdoc[k] == ']' && !NextOpens(kdoc, k) && !st.escapeNext && !st.insideCodeBlock
    ensures var p := ProcessReference(st.state, st.current, process);
      LinkFold(kdoc, k + 1, process) == st.(out := st.out + p.0 + p.1, current := "]", state := NoReference)
  {
    CloseStep(kdoc, k, st, process);
  }

  /** The text `[r]` handed to `processReference` as one reference. */
  lemma {:induction false} ReferenceReplaced(kdoc: string, r: string, process: string -> string)
    requires |kdoc| == |r| + 2 && kdoc[0] == '[' && kdoc[1..|r| + 1] == r && kdoc[|r| + 1] == ']' && PlainRef(r)
    ensures KdocLinksReplaced(kdoc, process) == ProcessReference(InsideReference, "[" + r, process).0 + "]"
  {
    ReferenceCollected(kdoc, r, process);
    ReferenceClosed(kdoc, |r| + 1, Linker(false, false, InsideReference, "[" + r, ""), process);
    assert RemovePrefixChar("[" + r, '[') == r;
  }

  /** `[Ref]` becomes `[Ref][Processed]` when `process` changes it and stays as it is otherwise. */
  lemma {:induction false} ReferenceLink(kdoc: string, r: string, process: string -> string)
    requires kdoc == "[" + r + "]" && PlainRef(r)
    ensures KdocLinksReplaced(kdoc, process)
      == if process(r) == r then "[" + r + "]" else "[" + r + "][" + process(r) + "]"
  {
    BracketedSlices(r, kdoc);
    ReferenceReplaced(kdoc, r, process);
    assert RemovePrefixChar("[" + r, '[') == r;
  }

  /** The slices of `"[" + a + "][" + r + "]"`. */
  lemma {:induction false} AliasedSlices(a: string, r: string, kdoc: string)
    requires kdoc == "[" + a + "][" + r + "]"
    ensures kdoc[0] == '[' && kdoc[1..1 + |a|] == a && kdoc[|a| + 1] == ']' && kdoc[|a| + 2] == '['
    ensures kdoc[|a| + 3..|a| + 3 + |r|] == r && kdoc[|a| + 3 + |r|] == ']' && |kdoc| == |a| + |r| + 4
  {
    assert kdoc[1..1 + |a|] == a;
    assert kdoc[|a| + 3..|a| + 3 + |r|] == r;
  }

  /** After `[a][` the scan is inside an aliased reference, `[a]` appended. */
  lemma {:induction false} AliasOpened(kdoc: string, a: string, process: string -> string)
    requires |a| + 3 <= |kdoc| && kdoc[0] == '[' && kdoc[1..|a| + 1] == a && PlainRef(a)
    requires kdoc[|a| + 1] == ']' && kdoc[|a| + 2] == '['
    ensures LinkFold(kdoc, |a| + 3, process) == Linker(false, false, InsideAliasedReference, "[", "[" + a + "]")
  {
    ReferenceCollected(kdoc, a, process);
    var named := Linker(false, false, InsideReference, "[" + a, "");
    HeldCloseStep(kdoc, |a| + 1, named, process);
    var held := named.(current := "[" + a + "]");
    assert LinkFold(kdoc, |a| + 2, process) == held;
    OpenStep(kdoc, |a| + 2, held, process);
  }

  /** After `[a][` and a plain text `r`, the block holds `[` + `r`. */
  lemma {:induction false} AliasedCollected(kdoc: string, a: string, r: string, process: string -> string)
    requires |a| + 3 + |r| <= |kdoc| && kdoc[0] == '[' && kdoc[1..|a| + 1] == a && PlainRef(a)
    requires kdoc[|a| + 1] == ']' && kdoc[|a| + 2] == '['
    requires kdoc[|a| + 3..|a| + 3 + |r|] == r && PlainRef(r)
    ensures LinkFold(kdoc, |a| + 3 + |r|, process)
      == Linker(false, false, InsideAliasedReference, "[" + r, "[" + a + "]")
  {
    AliasOpened(kdoc, a, process);
    PlainRun(kdoc, |a| + 3, r);
    LinkRun(kdoc, |a| + 3, |r|, process, Linker(false, false, InsideAliasedReference, "[", "[" + a + "]"));
  }

  /** The text `[a][r]` handed to `processReference` as one aliased reference. */
  lemma {:induction false} AliasedReplaced(kdoc: string, a: string, r: string, process: string -> string)
    requires |kdoc| == |a| + |r| + 4 && kdoc[0] == '[' && kdoc[1..|a| + 1] == a && PlainRef(a)
    requires kdoc[|a| + 1] == ']' && kdoc[|a| + 2] == '['
    requires kdoc[|a| + 3..|a| + 3 + |r|] == r && kdoc[|a| + 3 + |r|] == ']' && PlainRef(r)
    ensures KdocLinksReplaced(kdoc, process) == "[" + a + "][" + process(r) + "]"
  {
    AliasedCollected(kdoc, a, r, process);
    ReferenceClosed(kdoc, |a| + 3 + |r|, Linker(false, false, InsideAliasedReference, "[" + r, "[" + a + "]"), process);
    assert RemovePrefixChar("[" + r, '[') == r;
    var p := process(r);
    assert ProcessReference(InsideAliasedReference, "[" + r, process) == ("[" + p, "");
    AliasedConcat(a, p);
  }

  lemma {:induction false} AliasedConcat(a: string, p: string)
    ensures "[" + a + "]" + ("[" + p) + "" + "]" == "[" + a + "][" + p + "]"
  {
  }

  /** `[Alias][Ref]` becomes `[Alias][Processed]`. */
  lemma {:induction false} AliasedLink(kdoc: string, a: string, r: string, process: string -> string)
    requires kdoc == "[" + a + "][" + r + "]" && PlainRef(a) && PlainRef(r)
    ensures KdocLinksReplaced(kdoc, process) == "[" + a + "][" + process(r) + "]"
  {
    AliasedSlices(a, r, kdoc);
    AliasedReplaced(kdoc, a, r, process);
  }

  /** A reference inside backticks is left as it is, whatever `process` does. */
  lemma {:induction false} CodeSpanKept(kdoc: string, body: string, process: string -> string)
    requires kdoc == "`" + body + "`" && '`' !in body && '\\' !in body
    ensures KdocLinksReplaced(kdoc, process) == kdoc
  {
    BracketedSlicesCode(body, kdoc);
    var inRef := Linker(false, true, NoReference, "`", "");
    assert LinkFold(kdoc, 1, process) == inRef;
    LinkRun(kdoc, 1, |body|, process, inRef);
  }

  /** The slices of `"`" + body + "`"`. */
  lemma {:induction false} BracketedSlicesCode(body: string, kdoc: string)
    requires kdoc == "`" + body + "`"
    ensures kdoc[0] == '`' && kdoc[1..1 + |body|] == body && kdoc[|body| + 1] == '`'
    ensures kdoc == "`" + kdoc[1..1 + |body|] + "`"
  {
    assert kdoc[1..1 + |body|] == body;
  }

  // ---------------------------------------------------------------------------
  // What removeKotlinLinks produces
  // ---------------------------------------------------------------------------

  /** An inert run is collected into the block as it is, outside an aliased reference. */
  lemma {:induction false} UnlinkRun(kdoc: string, start: nat, len: nat, st: Linker)
    requires start + len <= |kdoc| && UnlinkFold(kdoc, start) == st && !st.escapeNext
    requires st.state != InsideAliasedReference && InertRun(kdoc, start, start + len, st.insideCodeBlock)
    ensures UnlinkFold(kdoc, start + len) == st.(current := st.current + kdoc[start..start + len])
  {
    if len > 0 {
      assert st.current + kdoc[start..start + len] == st.current + kdoc[start..start + len - 1] + [kdoc[start + len - 1]];
      UnlinkRun(kdoc, start, len - 1, st);
    }
  }

  /** Inside an aliased reference an inert run is dropped. */
  lemma {:induction false} AliasDropped(kdoc: string, start: nat, len: nat, st: Linker)
    requires start + len <= |kdoc| && UnlinkFold(kdoc, start) == st && !st.escapeNext && !st.insideCodeBlock
    requires st.state == InsideAliasedReference && InertRun(kdoc, start, start + len, false)
    ensures UnlinkFold(kdoc, start + len) == st
  {
    if len > 0 {
      AliasDropped(kdoc, start, len - 1, st);
    }
  }

  /** Outside backticks, `[` not after `]` starts a reference and closes the block before it. */
  lemma {:induction false} UnlinkOpenStep(kdoc: string, i: nat, st: Linker)
    requires i < |kdoc| && kdoc[i] == '[' && !AfterClose(kdoc, i) && !st.escapeNext && !st.insideCodeBlock
    ensures UnlinkStep(kdoc, i, st) == st.(out := st.out + st.current, current := "", state := InsideReference)
  {
  }

  /** Outside backticks, a `]` that ends the reference appends the block as a code span. */
  lemma {:induction false} UnlinkCloseStep(kdoc: string, i: nat, st: Linker)
    requires i < |kdoc| && kdoc[i] == ']' && !st.escapeNext && !st.insideCodeBlock
    requires !NextOpens(kdoc, i) || st.state == InsideAliasedReference
    ensures UnlinkStep(kdoc, i, st) == st.(state := NoReference, out := st.out + Quoted(st.current), current := "")
  {
  }

  /** After `[` and a plain text `r`, the block holds `r`. */
  lemma {:induction false} UnlinkCollected(kdoc: string, r: string)
    requires |r| + 1 <= |kdoc| && kdoc[0] == '[' && kdoc[1..|r| + 1] == r && PlainRef(r)
    ensures UnlinkFold(kdoc, |r| + 1) == Linker(false, false, InsideReference, r, "")
  {
    PlainRun(kdoc, 1, r);
    UnlinkOpenStep(kdoc, 0, Start);
    var inRef := Linker(false, false, InsideReference, "", "");
    UnlinkRun(kdoc, 1, |r|, inRef);
    assert "" + kdoc[1..|r| + 1] == r;
  }

  /** The text `[r]` becomes the code span of `r` before the clean-up. */
  lemma {:induction false} UnlinkReference(kdoc: string, r: string)
    requires |kdoc| == |r| + 2 && kdoc[0] == '[' && kdoc[1..|r| + 1] == r && kdoc[|r| + 1] == ']' && PlainRef(r)
    ensures UnlinkFold(kdoc, |kdoc|) == Linker(false, false, NoReference, "", Quoted(r))
  {
    UnlinkCollected(kdoc, r);
    UnlinkCloseStep(kdoc, |r| + 1, Linker(false, false, InsideReference, r, ""));
  }

  /** `[Ref]` becomes `` `Ref` ``. */
  lemma {:induction false} KotlinReference(kdoc: string, r: string)
    requires kdoc == "[" + r + "]" && PlainRef(r) && r != [] && '*' !in r
    ensures KotlinLinksRemoved(kdoc) == "`" + r + "`"
  {
    BracketedSlices(r, kdoc);
    UnlinkReference(kdoc, r);
    var q := "`" + r + "`";
    assert !StartsWith(r, "**") by {
      if |r| >= 2 { assert r[0] in r; }
    }
    assert Quoted(r) == q;
    assert q + "" == q;
    CodeSpanClean(r);
  }

  /** The code span of a plain text without `*` survives the clean-up. */
  lemma {:induction false} CodeSpanClean(r: string)
    requires PlainRef(r) && r != [] && '*' !in r
    ensures CleanUp("`" + r + "`") == "`" + r + "`"
  {
    var q := "`" + r + "`";
    assert '*' !in q by {
      forall j | 0 <= j < |q|
        ensures q[j] != '*'
      {
        if 0 < j < |q| - 1 { assert q[j] == r[j - 1]; }
      }
    }
    FirstCharAbsent(q, "****");
    ReplaceAllAbsent(q, "****", "");
    forall j | 0 <= j < |q| - 1
      ensures q[j] == '`' ==> q[j + 1] != '`'
    {
      if j == 0 { assert q[1] == r[0]; } else { assert q[j] == r[j - 1]; }
    }
    PairAbsent(q, '`');
    assert "``" == ['`', '`'];
    ReplaceAllAbsent(q, "``", "");
  }

  /** `[Alias][Ref]` becomes the code span of `Alias`: the target is dropped. */
  lemma {:induction false} UnlinkAliased(kdoc: string, a: string, r: string)
    requires |kdoc| == |a| + |r| + 4 && kdoc[0] == '[' && kdoc[1..|a| + 1] == a && PlainRef(a)
    requires kdoc[|a| + 1] == ']' && kdoc[|a| + 2] == '['
    requires kdoc[|a| + 3..|a| + 3 + |r|] == r && kdoc[|a| + 3 + |r|] == ']' && PlainRef(r)
    ensures UnlinkFold(kdoc, |kdoc|) == Linker(false, false, NoReference, "", Quoted(a))
  {
    UnlinkCollected(kdoc, a);
    var named := Linker(false, false, InsideReference, a, "");
    assert UnlinkFold(kdoc, |a| + 2) == named;
    var aliased := named.(state := InsideAliasedReference);
    assert UnlinkFold(kdoc, |a| + 3) == aliased;
    PlainRun(kdoc, |a| + 3, r);
    AliasDropped(kdoc, |a| + 3, |r|, aliased);
    UnlinkCloseStep(kdoc, |a| + 3 + |r|, aliased);
  }

  /** `[Alias][Ref]` becomes `` `Alias` ``. */
  lemma {:induction false} KotlinAliasedReference(kdoc: string, a: string, r: string)
    requires kdoc == "[" + a + "][" + r + "]" && PlainRef(a) && PlainRef(r) && a != [] && '*' !in a
    ensures KotlinLinksRemoved(kdoc) == "`" + a + "`"
  {
    AliasedSlices(a, r, kdoc);
    UnlinkAliased(kdoc, a, r);
    var q := "`" + a + "`";
    assert !StartsWith(a, "**") by {
      if |a| >= 2 { assert a[0] in a; }
    }
    assert Quoted(a) == q;
    assert q + "" == q;
    CodeSpanClean(a);
  }

  /** The code span of a plain text without `*`, inside bold markers, survives the clean-up. */
  lemma {:induction false} BoldSpanClean(r: string)
    requires PlainRef(r) && r != [] && '*' !in r
    ensures CleanUp("**`" + r + "`**") == "**`" + r + "`**"
  {
    var q := "**`" + r + "`**";
    forall j | 2 <= j < |q| - 2
      ensures q[j] != '*'
    {
      if 3 <= j < |q| - 3 { assert q[j] == r[j - 3]; }
    }
    QuadAbsent(q, '*');
    assert "****" == ['*', '*', '*', '*'];
    ReplaceAllAbsent(q, "****", "");
    forall j | 0 <= j < |q| - 1
      ensures q[j] == '`' ==> q[j + 1] != '`'
    {
      if 3 <= j < |q| - 3 { assert q[j] == r[j - 3]; }
      if 2 <= j < |q| - 4 { assert q[j + 1] == r[j - 2]; }
    }
    PairAbsent(q, '`');
    assert "``" == ['`', '`'];
    ReplaceAllAbsent(q, "``", "");
  }

  /** `[**Ref**]` becomes `` **`Ref`** ``: bold markers stay outside the code span. */
  lemma {:induction false} KotlinBoldReference(kdoc: string, r: string)
    requires kdoc == "[**" + r + "**]" && PlainRef(r) && r != [] && '*' !in r
    ensures KotlinLinksRemoved(kdoc) == "**`" + r + "`**"
  {
    var b := "**" + r + "**";
    assert kdoc == "[" + b + "]";
    assert PlainRef(b) by {
      forall j | 0 <= j < |b|
        ensures PlainChar(b[j])
      {
        if 2 <= j < |b| - 2 { assert b[j] == r[j - 2]; }
      }
    }
    BracketedSlices(b, kdoc);
    UnlinkReference(kdoc, b);
    assert b[..2] == "**" && b[|b| - 2..] == "**" && b[2..|b| - 2] == r;
    assert Quoted(b) == "**`" + r + "`**";
    assert Quoted(b) + "" == Quoted(b);
    BoldSpanClean(r);
  }

  /** No `[` or `]` survives outside backticks when nothing is escaped. */
  predicate Unbracketed(s: string) {
    '[' !in s && ']' !in s
  }

  lemma {:induction false} QuotedUnbracketed(block: string)
    requires Unbracketed(block)
    ensures Unbracketed(Quoted(block))
  {
    var inner := RemoveSurrounding(block, "**");
    if |block| >= 4 && StartsWith(block, "**") && EndsWith(block, "**") {
      assert inner == block[2..|block| - 2];
      assert forall j :: 0 <= j < |inner| ==> inner[j] == block[j + 2];
    } else {
      assert inner == block;
    }
  }

  lemma {:induction false} UnbracketedStep(kdoc: string, i: nat, st: Linker, next: Linker)
    requires i < |kdoc| && kdoc[i] != '\\' && kdoc[i] != '`'
    requires !st.escapeNext && !st.insideCodeBlock && Unbracketed(st.out) && Unbracketed(st.current)
    requires next == UnlinkStep(kdoc, i, st)
    ensures !next.escapeNext && !next.insideCodeBlock && Unbracketed(next.out) && Unbracketed(next.current)
  {
    var c := kdoc[i];
    if c == ']' && (!NextOpens(kdoc, i) || st.state == InsideAliasedReference) {
      QuotedUnbracketed(st.current);
    } else if c != '[' && c != ']' && st.state != InsideAliasedReference {
      assert next.current == st.current + [c];
    }
  }

  lemma {:induction false} UnbracketedFold(kdoc: string, k: nat)
    requires k <= |kdoc| && '\\' !in kdoc && '`' !in kdoc
    ensures var st := UnlinkFold(kdoc, k);
      !st.escapeNext && !st.insideCodeBlock && Unbracketed(st.out) && Unbracketed(st.current)
  {
    if k > 0 {
      UnbracketedFold(kdoc, k - 1);
      UnbracketedStep(kdoc, k - 1, UnlinkFold(kdoc, k - 1), UnlinkFold(kdoc, k));
    }
  }

  /** Without escapes or backticks every reference bracket is removed. */
  lemma {:induction false} NoBracketsSurvive(kdoc: string)
    requires '\\' !in kdoc && '`' !in kdoc
    ensures Unbracketed(KotlinLinksRemoved(kdoc))
  {
    UnbracketedFold(kdoc, |kdoc|);
    var st := UnlinkFold(kdoc, |kdoc|);
    var s := st.out + st.current;
    assert Unbracketed(s);
    assert KotlinLinksRemoved(kdoc) == ReplaceAll(ReplaceAll(s, "****", ""), "``", "");
    ReplaceAllChars(s, "****", "", '[');
    ReplaceAllChars(s, "****", "", ']');
    ReplaceAllChars(ReplaceAll(s, "****", ""), "``", "", '[');
    ReplaceAllChars(ReplaceAll(s, "****", ""), "``", "", ']');
  }

  /** Text without escapes, backticks, brackets or `*` is left as it was. */
  lemma {:induction false} PlainTextKept(kdoc: string)
    requires InertRun(kdoc, 0, |kdoc|, false) && '*' !in kdoc
    ensures KotlinLinksRemoved(kdoc) == kdoc
  {
    UnlinkRun(kdoc, 0, |kdoc|, Start);
    assert "" + kdoc[0..|kdoc|] == kdoc;
    assert UnlinkFold(kdoc, |kdoc|) == Start.(current := kdoc);
    assert Start.out + kdoc == kdoc;
    assert '`' !in kdoc by {
      forall j | 0 <= j < |kdoc| ensures kdoc[j] != '`' { assert Inert(kdoc[j], false); }
    }
    FirstCharAbsent(kdoc, "****");
    ReplaceAllAbsent(kdoc, "****", "");
    FirstCharAbsent(kdoc, "``");
    ReplaceAllAbsent(kdoc, "``", "");
  }
}
