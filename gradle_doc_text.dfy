// `getDocContent` and `toDoc` of doc-processor-gradle-plugin's docUtils.kt:
// the first form of the comment reading and rendering, on plain strings.
// The reading cuts every line the same way; the rendering trims the first
// line and always puts " * " in front of a continuation line.
//
// (Line comments are used in this file because the comment markers of KDoc
// would open and close Dafny block comments.)
module GradleDocText {
  import opened Text
  import DocTexts

  // ---------------------------------------------------------------------------
  // getDocContent
  // ---------------------------------------------------------------------------

  // Lines 18-20: "/**", then "*/", then one "*" removed.
  function Stripped(t: string): string {
    RemovePrefixChar(RemoveSuffix(RemovePrefix(t, "/**"), "*/"), '*')
  }

  // Lines 16-24: one line, with its leading whitespace and its comment
  // markers removed, and then one space.
  function ContentLine(line: string): string {
    RemovePrefixChar(Stripped(TrimStart(line)), ' ')
  }

  // Lines 13-25: every line cut the same way, joined with "\n".
  function GetDocContent(s: string): string {
    var lines := Split(s, '\n');
    Join(seq(|lines|, i requires 0 <= i < |lines| => ContentLine(lines[i])), "\n")
  }

  // ---------------------------------------------------------------------------
  // toDoc
  // ---------------------------------------------------------------------------

  // Lines 36-40: the first line after "/** " and trimmed, the last trimmed
  // and closed, and whether the last line was blank before that.
  function Edited(content: string): (e: (seq<string>, bool))
    ensures |e.0| == |Split(content, '\n')|
  {
    var it0 := Split(content, '\n');
    var it1 := it0[0 := Trim("/** " + it0[0])];
    var lastIsBlank := IsBlank(it1[|it1| - 1]);
    (it1[|it1| - 1 := Trim(it1[|it1| - 1]) + " */"], lastIsBlank)
  }

  // Lines 47-49: the " * " of a continuation line.
  function Star(index: nat, lastIndex: nat, lastIsBlank: bool): string {
    if !(index == 0 || (index == lastIndex && lastIsBlank)) then " * " else ""
  }

  // Lines 43-51: line `index` as `buildString` prints it.
  function Printed(s: string, index: nat, lastIndex: nat, lastIsBlank: bool, indent: nat): string {
    (if index != 0 then "\n" else "") + Spaces(indent) + Star(index, lastIndex, lastIsBlank) + s
  }

  // Lines 31-53. A negative `indent` makes `repeat` throw, so it is a `nat`.
  function ToDoc(content: string, indent: nat): string {
    var (it, lastIsBlank) := Edited(content);
    Join(seq(|it|, index requires 0 <= index < |it| => Printed(it[index], index, |it| - 1, lastIsBlank, indent)), "")
  }

  // The lines of the rendered text, without the `\n`s between them.
  function Lines(it: seq<string>, lastIsBlank: bool, indent: nat): (ls: seq<string>)
    ensures |ls| == |it|
  {
    seq(|it|, index requires 0 <= index < |it| => Spaces(indent) + Star(index, |it| - 1, lastIsBlank) + it[index])
  }

  function DocLines(content: string, indent: nat): (ls: seq<string>)
    ensures |ls| == |Split(content, '\n')|
  {
    var e := Edited(content);
    Lines(e.0, e.1, indent)
  }

  // ---------------------------------------------------------------------------
  // The lines toDoc prints
  // ---------------------------------------------------------------------------

  // Printing `\n` before every line but the first joins the lines with `\n`.
  lemma {:induction false} PrintedJoin(it: seq<string>, lastIsBlank: bool, indent: nat)
    requires |it| >= 1
    ensures Join(seq(|it|, index requires 0 <= index < |it| => Printed(it[index], index, |it| - 1, lastIsBlank, indent)), "")
      == Join(Lines(it, lastIsBlank, indent), "\n")
  {
    var ps := seq(|it|, index requires 0 <= index < |it| => Printed(it[index], index, |it| - 1, lastIsBlank, indent));
    var ls := Lines(it, lastIsBlank, indent);
    assert ps[0] == ls[0] by {
      assert ps[0] == "" + ls[0];
    }
    forall i | 1 <= i < |ls|
      ensures ps[i] == "\n" + ls[i]
    {
      assert ps[i] == "\n" + Spaces(indent) + Star(i, |it| - 1, lastIsBlank) + it[i];
    }
    DocTexts.NewlineJoin(ls, ps);
  }

  lemma {:induction false} RenderedLines(content: string, indent: nat)
    ensures ToDoc(content, indent) == Join(DocLines(content, indent), "\n")
  {
    var (it, lastIsBlank) := Edited(content);
    PrintedJoin(it, lastIsBlank, indent);
  }

  lemma {:induction false} DocLinesNoNewline(content: string, indent: nat)
    ensures forall i :: 0 <= i < |DocLines(content, indent)| ==> '\n' !in DocLines(content, indent)[i]
  {
    var it0 := Split(content, '\n');
    assert '\n' !in "/** " + it0[0];
    DocTexts.TrimNoNewline("/** " + it0[0]);
    var it1 := it0[0 := Trim("/** " + it0[0])];
    DocTexts.TrimNoNewline(it1[|it1| - 1]);
    assert '\n' !in Spaces(indent);
  }

  lemma {:induction false} ToDocLines(content: string, indent: nat)
    ensures Split(ToDoc(content, indent), '\n') == DocLines(content, indent)
  {
    RenderedLines(content, indent);
    DocLinesNoNewline(content, indent);
    SplitJoin(DocLines(content, indent), '\n');
  }

  // Line 36: trimming "/** " and a line is opening the line without its
  // trailing whitespace.
  lemma {:induction false} OpenedTrim(x: string)
    ensures Trim("/** " + x) == DocTexts.Opened(TrimEnd(x))
  {
    var o := "/** " + x;
    DocTexts.LeadingBlank("", o);
    assert "" + o == o;
    var u := TrimEnd(x);
    var tail := x[|u|..];
    TrimEndSkips(x);
    assert IsBlank(tail);
    if u == "" {
      assert o == "/**" + (" " + tail);
      TrimEndOf("/**", " " + tail);
    } else {
      assert o == ("/** " + u) + tail;
      TrimEndOf("/** " + u, tail);
    }
  }

  // The lines after the edits of lines 36-40.
  lemma {:induction false} EditedOne(content: string)
    requires |Split(content, '\n')| == 1
    ensures Edited(content).0[0] == Trim(Trim("/** " + Split(content, '\n')[0])) + " */"
  {
  }

  lemma {:induction false} EditedFirst(content: string)
    requires |Split(content, '\n')| >= 2
    ensures Edited(content).0[0] == Trim("/** " + Split(content, '\n')[0])
  {
  }

  lemma {:induction false} EditedMiddle(content: string, i: nat)
    requires 0 < i < |Split(content, '\n')| - 1
    ensures Edited(content).0[i] == Split(content, '\n')[i]
  {
  }

  lemma {:induction false} EditedLast(content: string)
    requires |Split(content, '\n')| >= 2
    ensures var cs := Split(content, '\n');
      Edited(content).0[|cs| - 1] == Trim(cs[|cs| - 1]) + " */" && Edited(content).1 == IsBlank(cs[|cs| - 1])
  {
  }

  // The first line carries no star; neither does a blank last line.
  lemma {:induction false} LineFirst(it: seq<string>, lastIsBlank: bool, indent: nat)
    requires |it| >= 1
    ensures Lines(it, lastIsBlank, indent)[0] == Spaces(indent) + it[0]
  {
    assert Lines(it, lastIsBlank, indent)[0] == Spaces(indent) + "" + it[0];
  }

  lemma {:induction false} LineMiddle(it: seq<string>, lastIsBlank: bool, indent: nat, i: nat)
    requires 0 < i < |it| - 1
    ensures Lines(it, lastIsBlank, indent)[i] == Spaces(indent) + " * " + it[i]
  {
  }

  lemma {:induction false} LineLast(it: seq<string>, lastIsBlank: bool, indent: nat)
    requires |it| >= 2
    ensures Lines(it, lastIsBlank, indent)[|it| - 1]
      == Spaces(indent) + (if lastIsBlank then "" else " * ") + it[|it| - 1]
  {
  }

  lemma {:induction false} DocLineOnly(content: string, indent: nat)
    requires |Split(content, '\n')| == 1
    ensures var u := TrimEnd(Split(content, '\n')[0]);
      DocLines(content, indent)[0] == Spaces(indent) + (DocTexts.Opened(u) + " */")
  {
    var e := Edited(content);
    var c0 := Split(content, '\n')[0];
    EditedOne(content);
    OpenedTrim(c0);
    OpenedTrimmed(TrimEnd(c0));
    LineFirst(e.0, e.1, indent);
  }

  // An opening line is its own trim.
  lemma {:induction false} OpenedTrimmed(u: string)
    requires u == [] || !IsWhitespace(u[|u| - 1])
    ensures Trim(DocTexts.Opened(u)) == DocTexts.Opened(u)
  {
    var o := DocTexts.Opened(u);
    DocTexts.LeadingBlank("", o);
    assert "" + o == o;
    assert o[|o| - 1] == if u == [] then '*' else u[|u| - 1];
    TrimEndOf(o, "");
    assert o + "" == o;
  }

  lemma {:induction false} DocLineFirst(content: string, indent: nat)
    requires |Split(content, '\n')| >= 2
    ensures var u := TrimEnd(Split(content, '\n')[0]);
      DocLines(content, indent)[0] == Spaces(indent) + DocTexts.Opened(u)
  {
    var e := Edited(content);
    EditedFirst(content);
    OpenedTrim(Split(content, '\n')[0]);
    LineFirst(e.0, e.1, indent);
  }

  lemma {:induction false} DocLineMiddle(content: string, indent: nat, i: nat)
    requires 0 < i < |Split(content, '\n')| - 1
    ensures DocLines(content, indent)[i] == Spaces(indent) + " * " + Split(content, '\n')[i]
  {
    var e := Edited(content);
    EditedMiddle(content, i);
    LineMiddle(e.0, e.1, indent, i);
  }

  lemma {:induction false} DocLineLast(content: string, indent: nat)
    requires |Split(content, '\n')| >= 2
    ensures var cs := Split(content, '\n'); var c := cs[|cs| - 1];
      DocLines(content, indent)[|cs| - 1]
        == if IsBlank(c) then Spaces(indent) + " */" else Spaces(indent) + " * " + (Trim(c) + " */")
  {
    var e := Edited(content);
    var cs := Split(content, '\n');
    var c := cs[|cs| - 1];
    EditedLast(content);
    LineLast(e.0, e.1, indent);
    if IsBlank(c) {
      DocTexts.TrimBlank(c);
      BlankClosing(Spaces(indent));
    }
  }

  lemma {:induction false} BlankClosing(w: string)
    ensures w + "" + ("" + " */") == w + " */"
  {
  }

  // ---------------------------------------------------------------------------
  // What getDocContent reads from each of those lines
  // ---------------------------------------------------------------------------

  lemma {:induction false} ContentAfterBlank(w: string, x: string)
    requires IsBlank(w) && x != [] && !IsWhitespace(x[0])
    ensures ContentLine(w + x) == RemovePrefixChar(Stripped(x), ' ')
  {
    DocTexts.LeadingBlank(w, x);
  }

  lemma {:induction false} OpeningChars(x: string)
    ensures StartsWith(x, "/**") ==> |x| >= 3 && x[0] == '/'
  {
    if StartsWith(x, "/**") {
      assert x[0] == x[..3][0];
    }
  }

  lemma {:induction false} ClosingChars(x: string)
    ensures EndsWith(x, "*/") <==> |x| >= 2 && x[|x| - 2] == '*' && x[|x| - 1] == '/'
  {
    if |x| >= 2 {
      var e := x[|x| - 2..];
      assert e[0] == x[|x| - 2] && e[1] == x[|x| - 1];
      if e[0] == '*' && e[1] == '/' {
        assert e == "*/";
      }
    }
  }

  // The opening of line 18 taken off a text that starts with "/**".
  lemma {:induction false} OpeningCut(r: string)
    ensures RemovePrefix("/**" + r, "/**") == r
  {
    assert ("/**" + r)[..3] == "/**";
  }

  // The closing of line 19 taken off a text that ends with "*/".
  lemma {:induction false} ClosingCut(y: string)
    ensures RemoveSuffix(y + "*/", "*/") == y
  {
    var x := y + "*/";
    assert x[|x| - 2..] == "*/";
  }

  // A text that does not start with "/**" keeps its front at line 18.
  lemma {:induction false} NoOpening(x: string)
    requires x != [] && x[0] != '/'
    ensures RemovePrefix(x, "/**") == x
  {
    OpeningChars(x);
  }

  // A text that does not end with "*/" keeps its end at line 19.
  lemma {:induction false} NoClosing(x: string)
    requires !EndsWith(x, "*/")
    ensures RemoveSuffix(x, "*/") == x
  {
  }

  // The space in front of a text, and then the star in front, dropped.
  lemma {:induction false} SpaceCut(y: string)
    ensures RemovePrefixChar(" " + y, ' ') == y && RemovePrefixChar(" " + y, '*') == " " + y
  {
    assert (" " + y)[1..] == y;
  }

  lemma {:induction false} StarCut(y: string)
    ensures RemovePrefixChar("*" + y, '*') == y
  {
    assert ("*" + y)[1..] == y;
  }

  // Line 16-24 on a single line of toDoc: the opening, the content, then " */".
  lemma {:induction false} OnlyText(u: string)
    ensures var x := DocTexts.Opened(u) + " */";
      x != [] && x[0] == '/'
      && RemovePrefixChar(Stripped(x), ' ') == if u == "" then "" else u + " "
  {
    var x := DocTexts.Opened(u) + " */";
    var y := if u == "" then "" else u + " ";
    assert x == "/**" + (" " + y + "*/");
    OpeningCut(" " + y + "*/");
    ClosingCut(" " + y);
    SpaceCut(y);
  }

  // The first of several lines: the opening and the content.
  lemma {:induction false} FirstText(u: string)
    requires !EndsWith(u, "*/")
    ensures var x := DocTexts.Opened(u);
      x != [] && x[0] == '/' && RemovePrefixChar(Stripped(x), ' ') == u
  {
    var x := DocTexts.Opened(u);
    if u == "" {
      assert x == "/**" + "";
      OpeningCut("");
    } else {
      assert x == "/**" + (" " + u);
      OpeningCut(" " + u);
      ClosingChars(u);
      ClosingChars(" " + u);
      NoClosing(" " + u);
      SpaceCut(u);
    }
  }

  // A middle line: " * " and the content, after the indent.
  lemma {:induction false} MiddleText(s: string)
    requires !EndsWith(s, "*/")
    ensures var x := "* " + s;
      x[0] == '*' && RemovePrefixChar(Stripped(x), ' ') == s
  {
    var x := "* " + s;
    NoOpening(x);
    ClosingChars(s);
    ClosingChars(x);
    NoClosing(x);
    assert x == "*" + (" " + s);
    StarCut(" " + s);
    SpaceCut(s);
  }

  // The last line with text: " * ", the trimmed content, then " */".
  lemma {:induction false} ClosingText(t: string)
    ensures var x := "* " + t + " */";
      x[0] == '*' && RemovePrefixChar(Stripped(x), ' ') == t + " "
  {
    var x := "* " + t + " */";
    NoOpening(x);
    assert x == ("*" + (" " + (t + " "))) + "*/";
    ClosingCut("*" + (" " + (t + " ")));
    StarCut(" " + (t + " "));
    SpaceCut(t + " ");
  }

  // The last line when it was blank: only "*/".
  lemma {:induction false} ClosingOnly()
    ensures RemovePrefixChar(Stripped("*/"), ' ') == ""
  {
    NoOpening("*/");
    ClosingCut("");
    assert "" + "*/" == "*/";
  }

  // ---------------------------------------------------------------------------
  // toDoc after getDocContent keeps what toDoc rendered
  // ---------------------------------------------------------------------------

  // A content none of whose lines would close the comment early: the first
  // of several lines (after trimming) and the middle lines do not end with "*/".
  predicate Unclosed(content: string) {
    var cs := Split(content, '\n');
    (|cs| >= 2 ==> !EndsWith(TrimEnd(cs[0]), "*/"))
    && forall i :: 0 < i < |cs| - 1 ==> !EndsWith(cs[i], "*/")
  }

  // What getDocContent reads back from line `i` of the rendered text.
  function ReadBack(cs: seq<string>, i: nat): string
    requires i < |cs|
  {
    if |cs| == 1 then (var u := TrimEnd(cs[0]); if u == "" then "" else u + " ")
    else if i == 0 then TrimEnd(cs[0])
    else if i < |cs| - 1 then cs[i]
    else if IsBlank(cs[i]) then ""
    else Trim(cs[i]) + " "
  }

  // What getDocContent reads from each shape of line toDoc prints after the indent `w`.
  lemma {:induction false} OnlyLine(w: string, u: string)
    requires IsBlank(w)
    ensures ContentLine(w + (DocTexts.Opened(u) + " */")) == if u == "" then "" else u + " "
  {
    var x := DocTexts.Opened(u) + " */";
    var y := if u == "" then "" else u + " ";
    assert x != [] && !IsWhitespace(x[0]) && RemovePrefixChar(Stripped(x), ' ') == y by {
      OnlyText(u);
    }
    ContentAfterBlank(w, x);
  }

  lemma {:induction false} FirstLine(w: string, u: string)
    requires IsBlank(w) && !EndsWith(u, "*/")
    ensures ContentLine(w + DocTexts.Opened(u)) == u
  {
    var x := DocTexts.Opened(u);
    assert x != [] && !IsWhitespace(x[0]) && RemovePrefixChar(Stripped(x), ' ') == u by {
      FirstText(u);
    }
    ContentAfterBlank(w, x);
  }

  lemma {:induction false} MiddleLine(w: string, c: string)
    requires IsBlank(w) && !EndsWith(c, "*/")
    ensures ContentLine(w + " * " + c) == c
  {
    var x := "* " + c;
    assert x != [] && !IsWhitespace(x[0]) && RemovePrefixChar(Stripped(x), ' ') == c by {
      MiddleText(c);
    }
    assert w + " * " + c == w + " " + x;
    StarShape(w);
    ContentAfterBlank(w + " ", x);
  }

  lemma {:induction false} ClosedBlankLine(w: string)
    requires IsBlank(w)
    ensures ContentLine(w + " */") == ""
  {
    var x := "*/";
    assert x != [] && !IsWhitespace(x[0]) && RemovePrefixChar(Stripped(x), ' ') == "" by {
      ClosingOnly();
    }
    assert w + " */" == w + " " + x;
    StarShape(w);
    ContentAfterBlank(w + " ", x);
  }

  lemma {:induction false} ClosedTextLine(w: string, t: string)
    requires IsBlank(w)
    ensures ContentLine(w + " * " + (t + " */")) == t + " "
  {
    var x := "* " + t + " */";
    assert x != [] && !IsWhitespace(x[0]) && RemovePrefixChar(Stripped(x), ' ') == t + " " by {
      ClosingText(t);
    }
    ClosedTextShape(w, t);
    StarShape(w);
    ContentAfterBlank(w + " ", x);
  }

  lemma {:induction false} ClosedTextShape(w: string, t: string)
    ensures w + " * " + (t + " */") == w + " " + ("* " + t + " */")
  {
    assert w + " * " == w + " " + "* ";
  }

  lemma {:induction false} StarShape(w: string)
    requires IsBlank(w)
    ensures IsBlank(w + " ")
  {
  }

  lemma {:induction false} ReadOnly(content: string, indent: nat)
    requires |Split(content, '\n')| == 1
    ensures ContentLine(DocLines(content, indent)[0]) == ReadBack(Split(content, '\n'), 0)
  {
    DocLineOnly(content, indent);
    OnlyLine(Spaces(indent), TrimEnd(Split(content, '\n')[0]));
  }

  lemma {:induction false} ReadFirst(content: string, indent: nat)
    requires Unclosed(content) && |Split(content, '\n')| >= 2
    ensures ContentLine(DocLines(content, indent)[0]) == ReadBack(Split(content, '\n'), 0)
  {
    DocLineFirst(content, indent);
    FirstLine(Spaces(indent), TrimEnd(Split(content, '\n')[0]));
  }

  lemma {:induction false} ReadMiddle(content: string, indent: nat, i: nat)
    requires Unclosed(content) && 0 < i < |Split(content, '\n')| - 1
    ensures ContentLine(DocLines(content, indent)[i]) == ReadBack(Split(content, '\n'), i)
  {
    DocLineMiddle(content, indent, i);
    MiddleLine(Spaces(indent), Split(content, '\n')[i]);
  }

  lemma {:induction false} ReadLast(content: string, indent: nat)
    requires |Split(content, '\n')| >= 2
    ensures var n := |Split(content, '\n')| - 1;
      ContentLine(DocLines(content, indent)[n]) == ReadBack(Split(content, '\n'), n)
  {
    var cs := Split(content, '\n');
    DocLineLast(content, indent);
    if IsBlank(cs[|cs| - 1]) {
      ClosedBlankLine(Spaces(indent));
    } else {
      ClosedTextLine(Spaces(indent), Trim(cs[|cs| - 1]));
    }
  }

  lemma {:induction false} ReadLine(content: string, indent: nat, i: nat)
    requires Unclosed(content) && i < |Split(content, '\n')|
    ensures ContentLine(DocLines(content, indent)[i]) == ReadBack(Split(content, '\n'), i)
  {
    var n := |Split(content, '\n')|;
    if n == 1 {
      ReadOnly(content, indent);
    } else if i == 0 {
      ReadFirst(content, indent);
    } else if i < n - 1 {
      ReadMiddle(content, indent, i);
    } else {
      ReadLast(content, indent);
    }
  }

  lemma {:induction false} ReadBackNoNewline(cs: seq<string>, i: nat)
    requires i < |cs| && '\n' !in cs[i] && (|cs| == 1 ==> '\n' !in cs[0])
    ensures '\n' !in ReadBack(cs, i)
  {
    if |cs| == 1 || i == 0 {
      DocTexts.SliceNoNewline(cs[0], TrimEnd(cs[0]), |TrimEnd(cs[0])|);
    } else if i == |cs| - 1 && !IsBlank(cs[i]) {
      DocTexts.TrimNoNewline(cs[i]);
    }
  }

  // The content getDocContent reads from what toDoc renders.
  // getDocContent is the content of the lines it is given, joined.
  lemma {:induction false} ContentOfLines(s: string, ds: seq<string>)
    requires |ds| == |Split(s, '\n')|
    requires forall i :: 0 <= i < |ds| ==> ContentLine(Split(s, '\n')[i]) == ds[i]
    ensures GetDocContent(s) == Join(ds, "\n")
  {
    var lines := Split(s, '\n');
    assert seq(|lines|, i requires 0 <= i < |lines| => ContentLine(lines[i])) == ds;
  }

  lemma {:induction false} ReadContent(content: string, indent: nat)
    requires Unclosed(content)
    ensures var cs := Split(content, '\n');
      Split(GetDocContent(ToDoc(content, indent)), '\n') == seq(|cs|, i requires 0 <= i < |cs| => ReadBack(cs, i))
  {
    var cs := Split(content, '\n');
    ToDocLines(content, indent);
    var ls := DocLines(content, indent);
    var ds := seq(|cs|, i requires 0 <= i < |cs| => ReadBack(cs, i));
    forall i | 0 <= i < |cs|
      ensures ContentLine(ls[i]) == ds[i] && '\n' !in ds[i]
    {
      ReadLine(content, indent, i);
      ReadBackNoNewline(cs, i);
    }
    ContentOfLines(ToDoc(content, indent), ds);
    SplitJoin(ds, '\n');
  }

  lemma {:induction false} TrimmedSpace(t: string)
    requires t != [] && !IsWhitespace(t[0]) && !IsWhitespace(t[|t| - 1])
    ensures Trim(t + " ") == t && !IsBlank(t + " ") && TrimEnd(t + " ") == t
  {
    DocTexts.LeadingBlank("", t + " ");
    assert "" + (t + " ") == t + " ";
    TrimEndOf(t, " ");
    assert (t + " ")[0] == t[0];
  }

  lemma {:induction false} NonBlankTrim(c: string)
    requires !IsBlank(c)
    ensures var t := Trim(c); t != [] && !IsWhitespace(t[0]) && !IsWhitespace(t[|t| - 1])
  {
    var k :| 0 <= k < |c| && !IsWhitespace(c[k]);
    var s := TrimStart(c);
    TrimStartSkips(c);
    assert s != [];
    var t := TrimEnd(s);
    TrimEndSkips(s);
    assert s[0] == c[|c| - |s|];
    assert t != [] by {
      TrimEndSkips(s);
    }
    assert t[0] == s[0];
  }

  // Line `i` toDoc renders is the same for a content whose line `i` is what
  // getDocContent read back from line `i` of the rendering of `c1`.
  lemma {:induction false} SameLine(c1: string, c2: string, indent: nat, i: nat)
    requires i < |Split(c1, '\n')| == |Split(c2, '\n')|
    requires Split(c2, '\n')[i] == ReadBack(Split(c1, '\n'), i)
    ensures DocLines(c2, indent)[i] == DocLines(c1, indent)[i]
  {
    var n := |Split(c1, '\n')|;
    if n == 1 {
      SameOnly(c1, c2, indent);
    } else if i == 0 {
      SameFirst(c1, c2, indent);
    } else if i < n - 1 {
      DocLineMiddle(c1, indent, i);
      DocLineMiddle(c2, indent, i);
    } else {
      SameLast(c1, c2, indent);
    }
  }

  lemma {:induction false} SameOnly(c1: string, c2: string, indent: nat)
    requires |Split(c1, '\n')| == |Split(c2, '\n')| == 1
    requires Split(c2, '\n')[0] == ReadBack(Split(c1, '\n'), 0)
    ensures DocLines(c2, indent)[0] == DocLines(c1, indent)[0]
  {
    DocLineOnly(c1, indent);
    DocLineOnly(c2, indent);
    var u := TrimEnd(Split(c1, '\n')[0]);
    if u != "" {
      TrimmedSpace2(u);
    }
  }

  lemma {:induction false} SameFirst(c1: string, c2: string, indent: nat)
    requires 2 <= |Split(c1, '\n')| == |Split(c2, '\n')|
    requires Split(c2, '\n')[0] == ReadBack(Split(c1, '\n'), 0)
    ensures DocLines(c2, indent)[0] == DocLines(c1, indent)[0]
  {
    DocLineFirst(c1, indent);
    DocLineFirst(c2, indent);
    var u := TrimEnd(Split(c1, '\n')[0]);
    TrimEndOf(u, "");
    assert u + "" == u;
  }

  lemma {:induction false} SameLast(c1: string, c2: string, indent: nat)
    requires 2 <= |Split(c1, '\n')| == |Split(c2, '\n')|
    requires var n := |Split(c1, '\n')| - 1; Split(c2, '\n')[n] == ReadBack(Split(c1, '\n'), n)
    ensures var n := |Split(c1, '\n')| - 1; DocLines(c2, indent)[n] == DocLines(c1, indent)[n]
  {
    var cs := Split(c1, '\n');
    var c := cs[|cs| - 1];
    DocLineLast(c1, indent);
    DocLineLast(c2, indent);
    if !IsBlank(c) {
      NonBlankTrim(c);
      TrimmedSpace(Trim(c));
    }
  }

  lemma {:induction false} TrimmedSpace2(u: string)
    requires u != [] && !IsWhitespace(u[|u| - 1])
    ensures TrimEnd(u + " ") == u
  {
    TrimEndOf(u, " ");
  }

  // Lines 13-53: rendering the content read back from toDoc's text gives
  // that text again, for every content none of whose lines closes the
  // comment early. A comment in the form toDoc renders survives
  // getDocContent followed by toDoc.
  lemma {:induction false} ToDocNormalizes(content: string, indent: nat)
    requires Unclosed(content)
    ensures ToDoc(GetDocContent(ToDoc(content, indent)), indent) == ToDoc(content, indent)
  {
    var c2 := GetDocContent(ToDoc(content, indent));
    ReadContent(content, indent);
    var l1 := DocLines(content, indent);
    var l2 := DocLines(c2, indent);
    forall i | 0 <= i < |l1|
      ensures l2[i] == l1[i]
    {
      SameLine(content, c2, indent, i);
    }
    assert l2 == l1;
    RenderedLines(content, indent);
    RenderedLines(c2, indent);
  }
}
