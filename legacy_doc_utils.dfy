// `getDocContentOrNull` and `toDoc` of doc-processor-common's docUtils.kt:
// the older forms of DocText.kt's getDocContent and toDocText, on plain
// strings instead of the DocText type.
//
// (Line comments are used in this file because the comment markers of KDoc
// would open and close Dafny block comments.)
module LegacyDocUtils {
  import opened Wrappers
  import opened Text
  import opened DocTexts

  // Line 39: the older guard, which neither trims the text before looking for
  // "/**" nor after it before looking for "*/".
  predicate IsCommentText(s: string) {
    !IsBlank(s) && StartsWith(s, "/**") && EndsWith(s, "*/")
  }

  // Lines 38-71: `null` for a text that fails the guard; otherwise every line
  // cut as DocText.kt cuts it (lines 46-65 take the same steps) and the lines
  // joined with "\n".
  function DocContentOrNull(s: string): (r: Option<string>)
    ensures r.Some? <==> IsCommentText(s)
  {
    if !IsCommentText(s) then None
    else
      var lines := Split(s, '\n');
      Some(Join(seq(|lines|, i requires 0 <= i < |lines| => CutLine(lines[i], i, |lines|).kept), "\n"))
  }

  // Lines 76-98: the same rendering as DocText.kt's toDocText, returned as a
  // plain string.
  function ToDoc(content: string, indent: nat): (r: string)
    ensures r == ToDocText(content, indent)
  {
    Rendered(content, indent)
  }

  // Every text the older guard accepts is a DocText, and the older reading
  // of it is DocText.kt's getDocContent.
  lemma {:induction false} DocContentOrNullAgrees(s: string)
    ensures DocContentOrNull(s).Some? ==> IsDocText(s) && DocContentOrNull(s).value == GetDocContent(s)
  {
    if IsCommentText(s) {
      CommentIsDocText(s);
      KeptLinesRead(s);
    }
  }

  // A text the older guard accepts starts with "/**" and ends with "*/", so
  // trimming first changes nothing.
  lemma {:induction false} CommentIsDocText(s: string)
    requires IsCommentText(s)
    ensures IsDocText(s)
  {
    assert s[0] == "/**"[0];
    LeadingBlank("", s);
    assert "" + s == s;
    assert s[|s| - 1] == "*/"[1];
    EndsNoTrim(s);
  }

  // getDocContent of line 30 is the kept part of every line, joined.
  lemma {:induction false} KeptLinesRead(s: string)
    requires IsDocText(s)
    ensures var lines := Split(s, '\n');
      GetDocContent(s) == Join(seq(|lines|, i requires 0 <= i < |lines| => CutLine(lines[i], i, |lines|).kept), "\n")
  {
    var lines := Split(s, '\n');
    var ks := seq(|lines|, i requires 0 <= i < |lines| => CutLine(lines[i], i, |lines|).kept);
    FoldKept(Cuts(lines), ks);
  }

  lemma {:induction false} OpensAfter(w: string, t: string, x: string)
    requires StartsWith(t, "/**")
    ensures StartsWith(w + t + x, w + "/**")
  {
    assert (w + t + x)[..|w| + 3] == w + t[..3];
  }

  // Lines 80 and 84: the first of several lines is `/**`, or `/** ` and the
  // first content line, after the indent; a single line opens with `/**`
  // after the indent.
  lemma {:induction false} ToDocOpens(content: string, indent: nat)
    ensures var ls := Split(ToDoc(content, indent), '\n'); var cs := Split(content, '\n');
      |ls| == |cs|
      && (|cs| >= 2 ==> ls[0] == Spaces(indent) + (if cs[0] == "" then "/**" else "/** " + cs[0]))
      && StartsWith(ls[0], Spaces(indent) + "/**")
  {
    var cs := Split(content, '\n');
    var w := Spaces(indent);
    ToDocTextLines(content, indent);
    var o := Opened(cs[0]);
    assert StartsWith(o, "/**");
    if |cs| == 1 {
      DocLineOnly(content, indent);
      TrimKeepsOpening(o);
      OpensAfter(w, Trim(o), " */");
    } else {
      DocLineFirst(content, indent);
      OpensAfter(w, o, "");
      assert w + o + "" == w + o;
    }
  }

  // Line 84: the last line ends with ` */`.
  lemma {:induction false} ToDocCloses(content: string, indent: nat)
    ensures var ls := Split(ToDoc(content, indent), '\n');
      |ls| >= 1 && EndsWith(ls[|ls| - 1], " */")
  {
    var (it, lastIsBlank) := Edited(content);
    var n := |it| - 1;
    var it0 := Split(content, '\n');
    var it1 := it0[0 := Opened(it0[0])];
    assert it[n] == Trim(it1[n]) + " */";
    ClosedAfter(Spaces(indent) + Star(it[n], n, n, lastIsBlank), Trim(it1[n]));
    ToDocTextLines(content, indent);
  }

  lemma {:induction false} ClosedAfter(a: string, b: string)
    ensures EndsWith(a + (b + " */"), " */")
  {
    assert (a + (b + " */"))[|a| + |b|..] == " */";
  }

  // Reading back what `toDoc` renders without indent gives the content, for
  // the contents DocText.kt's round trip admits.
  lemma {:induction false} ToDocReadBack(content: string)
    requires Restorable(content)
    ensures DocContentOrNull(ToDoc(content, 0)) == Some(content)
  {
    var r := ToDoc(content, 0);
    UnindentedComment(content);
    DocContentOrNullAgrees(r);
    RoundTrip(content, 0);
  }

  // Without indent the rendered text passes the older guard of line 39.
  lemma {:induction false} UnindentedComment(content: string)
    ensures IsCommentText(ToDoc(content, 0))
  {
    var r := ToDoc(content, 0);
    ToDocTextFramed(content, 0);
    assert Spaces(0) + "/**" == "/**";
    assert r[0] == "/**"[0];
  }

  // With an indent the rendered text starts with spaces, which the older
  // guard of line 39 does not trim: the older reading rejects it.
  lemma {:induction false} IndentedToDocRejected(content: string, indent: nat)
    requires indent > 0
    ensures DocContentOrNull(ToDoc(content, indent)).None?
  {
    var r := ToDoc(content, indent);
    ToDocTextFramed(content, indent);
    assert r[0] == Spaces(indent)[0] == ' ';
    assert !StartsWith(r, "/**");
  }
}
