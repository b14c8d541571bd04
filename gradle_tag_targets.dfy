/**
 * `getTagTarget`, `getFileTarget` and `getTagNameOrNull` of
 * doc-processor-gradle-plugin's docUtils.kt: the target of an `@include`-like
 * tag, the file of an `@file`-like tag, and the name of the tag a piece of
 * content starts with.
 */
module GradleTagTargets {
  import opened Wrappers
  import opened Text
  import opened TagNames

  // ---------------------------------------------------------------------------
  // The steps of the two chains
  // ---------------------------------------------------------------------------

  /** Lines 61-67 (and 97-103): the text without newlines, inner-tag braces and `@tag`. */
  function Untagged(s: string, tag: string): string {
    Trim(RemovePrefix(RemoveSuffix(RemovePrefix(Trim(ReplaceAll(s, "\n", "")), "{"), "}"), "@" + tag))
  }

  /** Lines 68-76: up to two brackets at each end, and what follows `][` of an alias. */
  function Unbracketed(a: string): string {
    var b := RemoveSuffix(RemoveSuffix(RemovePrefix(RemovePrefix(a, "["), "["), "]"), "]");
    if Contains(b, "][") then SubstringAfter(b, "][") else b
  }

  /** Lines 78-86: a JavaDoc `<code>` wrapper, braces and `@link `. */
  function Unlinked(b: string): string {
    RemovePrefix(Trim(RemoveSuffix(RemovePrefix(RemoveSuffix(RemovePrefix(b, "<code>"), "</code>"), "{"), "}")), "@link ")
  }

  /** Lines 87-89: `#` to `.`, call signatures gone, trimmed. */
  function Cleaned(c: string): string {
    Trim(RemoveGroups(ReplaceChar(c, '#', '.')))
  }

  // ---------------------------------------------------------------------------
  // getTagTarget and getFileTarget
  // ---------------------------------------------------------------------------

  /**
   * `getTagTarget(tag)` (lines 59-89): fails as `require` does when `@tag` is
   * missing; otherwise the target, on one line, trimmed and without `#`.
   */
  function GetTagTarget(s: string, tag: string): (r: Result<string>)
    ensures r.Err? <==> !Contains(s, "@" + tag)
    ensures r.Ok? ==> Trimmed(r.value) && '#' !in r.value && '\n' !in r.value
  {
    if !Contains(s, "@" + tag) then Err(IllegalArgument("Could not find @" + tag + " in " + s))
    else
      TargetOneLine(s, tag);
      TargetClean(Unlinked(Unbracketed(Untagged(s, tag))));
      Ok(Cleaned(Unlinked(Unbracketed(Untagged(s, tag)))))
  }

  /**
   * `getFileTarget(tag)` (lines 95-109): fails when `@tag` is missing;
   * otherwise what the parentheses hold, on one line and trimmed.
   */
  function GetFileTarget(s: string, tag: string): (r: Result<string>)
    ensures r.Err? <==> !Contains(s, "@" + tag)
    ensures r.Ok? ==> Trimmed(r.value) && '\n' !in r.value
  {
    if !Contains(s, "@" + tag) then Err(IllegalArgument("Failed requirement."))
    else
      UntaggedOneLine(s, tag);
      FileClean(Untagged(s, tag));
      Ok(Trim(RemoveSuffix(RemovePrefix(Untagged(s, tag), "("), ")")))
  }

  // ---------------------------------------------------------------------------
  // No step brings a newline back
  // ---------------------------------------------------------------------------

  /** `replace("\n", "")` leaves no newline. */
  lemma {:induction false} NewlinesRemoved(s: string)
    ensures '\n' !in ReplaceAll(s, "\n", "")
    decreases |s|
  {
    if |s| >= 1 {
      if s[..1] == "\n" {
        NewlinesRemoved(s[1..]);
        assert ReplaceAll(s, "\n", "") == "" + ReplaceAll(s[1..], "\n", "");
      } else {
        assert s[0] != '\n' by {
          assert s[..1][0] == s[0];
        }
        NewlinesRemoved(s[1..]);
      }
    }
  }

  /** A piece of a text holds only characters of the text. */
  lemma {:induction false} SliceKeepsOut(s: string, r: string, c: char)
    requires c !in s && |r| <= |s| && (r == s[..|r|] || r == s[|s| - |r|..])
    ensures c !in r
  {
  }

  lemma {:induction false} UntaggedOneLine(s: string, tag: string)
    ensures '\n' !in Untagged(s, tag)
  {
    var a := ReplaceAll(s, "\n", "");
    NewlinesRemoved(s);
    TrimIn(a, '\n');
    var b := RemovePrefix(Trim(a), "{");
    SliceKeepsOut(Trim(a), b, '\n');
    var c := RemoveSuffix(b, "}");
    SliceKeepsOut(b, c, '\n');
    var d := RemovePrefix(c, "@" + tag);
    SliceKeepsOut(c, d, '\n');
    TrimIn(d, '\n');
  }

  lemma {:induction false} UnbracketedOneLine(a: string)
    requires '\n' !in a
    ensures '\n' !in Unbracketed(a)
  {
    var a1 := RemovePrefix(a, "[");
    SliceKeepsOut(a, a1, '\n');
    var a2 := RemovePrefix(a1, "[");
    SliceKeepsOut(a1, a2, '\n');
    var a3 := RemoveSuffix(a2, "]");
    SliceKeepsOut(a2, a3, '\n');
    var b := RemoveSuffix(a3, "]");
    SliceKeepsOut(a3, b, '\n');
    if Contains(b, "][") {
      var k := IndexOf(b, "][").value;
      SliceKeepsOut(b, b[k + 2..], '\n');
    }
  }

  lemma {:induction false} UnlinkedOneLine(b: string)
    requires '\n' !in b
    ensures '\n' !in Unlinked(b)
  {
    var b1 := RemovePrefix(b, "<code>");
    SliceKeepsOut(b, b1, '\n');
    var b2 := RemoveSuffix(b1, "</code>");
    SliceKeepsOut(b1, b2, '\n');
    var b3 := RemovePrefix(b2, "{");
    SliceKeepsOut(b2, b3, '\n');
    var b4 := RemoveSuffix(b3, "}");
    SliceKeepsOut(b3, b4, '\n');
    TrimIn(b4, '\n');
    SliceKeepsOut(Trim(b4), RemovePrefix(Trim(b4), "@link "), '\n');
  }

  lemma {:induction false} CleanedOneLine(u: string)
    requires '\n' !in u
    ensures '\n' !in Cleaned(u) && '#' !in Cleaned(u)
  {
    var c := ReplaceChar(u, '#', '.');
    assert '\n' !in c && '#' !in c;
    var g := RemoveGroups(c);
    assert '\n' !in g && '#' !in g by {
      RemoveGroupsDrops(c, '\n');
      RemoveGroupsDrops(c, '#');
    }
    TrimIn(g, '\n');
    TrimIn(g, '#');
  }

  lemma {:induction false} TargetClean(u: string)
    requires '\n' !in u
    ensures var r := Cleaned(u); Trimmed(r) && '#' !in r && '\n' !in r
  {
    CleanedOneLine(u);
    TrimClean(RemoveGroups(ReplaceChar(u, '#', '.')));
  }

  lemma {:induction false} FileClean(a: string)
    requires '\n' !in a
    ensures var r := Trim(RemoveSuffix(RemovePrefix(a, "("), ")")); Trimmed(r) && '\n' !in r
  {
    var b := RemovePrefix(a, "(");
    SliceKeepsOut(a, b, '\n');
    var f := RemoveSuffix(b, ")");
    SliceKeepsOut(b, f, '\n');
    TrimClean(f);
    TrimIn(f, '\n');
  }

  lemma {:induction false} TargetOneLine(s: string, tag: string)
    ensures '\n' !in Unlinked(Unbracketed(Untagged(s, tag)))
  {
    var a := Untagged(s, tag);
    UntaggedOneLine(s, tag);
    var b := Unbracketed(a);
    UnbracketedOneLine(a);
    UnlinkedOneLine(b);
  }

  // ---------------------------------------------------------------------------
  // What the steps do to the forms the comments of lines 56-57, 73 and 81-82 name
  // ---------------------------------------------------------------------------

  /** A text that starts with `@tag` holds it. */
  lemma {:induction false} TagAtStart(tag: string, rest: string)
    ensures Contains("@" + tag + rest, "@" + tag)
  {
    var s := "@" + tag + rest;
    assert OccursAt(s, "@" + tag, 0) by {
      assert s[..|tag| + 1] == "@" + tag;
    }
  }

  lemma {:induction false} NoNewlineKept(s: string)
    requires '\n' !in s
    ensures ReplaceAll(s, "\n", "") == s
  {
    FirstCharAbsent(s, "\n");
    ReplaceAllAbsent(s, "\n", "");
  }

  /** The steps of lines 61-67 on a one-line text, given what the brace steps leave. */
  lemma {:induction false} UntaggedOf(s: string, tag: string, t: string, x: string)
    requires '\n' !in s && s != [] && !IsWhitespace(s[0]) && !IsWhitespace(s[|s| - 1])
    requires RemoveSuffix(RemovePrefix(s, "{"), "}") == t && RemovePrefix(t, "@" + tag) == " " + x
    requires x != [] && Trimmed(x)
    ensures Untagged(s, tag) == x
  {
    NoNewlineKept(s);
    NoWhitespaceTrim(s);
    TrimSpace(x);
  }

  lemma {:induction false} TagOff(tag: string, x: string)
    ensures RemovePrefix("@" + tag + " " + x, "@" + tag) == " " + x
  {
    assert "@" + tag + " " + x == ("@" + tag) + (" " + x);
    PrefixOff("@" + tag, " " + x);
  }

  lemma {:induction false} ClosingOff(t: string)
    requires t != [] && t[0] != '{'
    ensures RemoveSuffix(RemovePrefix(t + "}", "{"), "}") == t
  {
    NoPrefix(t + "}", "{");
    SuffixOff(t, "}");
  }

  lemma {:induction false} BracesOff(t: string)
    ensures RemoveSuffix(RemovePrefix("{" + t + "}", "{"), "}") == t
  {
    assert "{" + t + "}" == "{" + (t + "}");
    PrefixOff("{", t + "}");
    SuffixOff(t, "}");
  }

  /** `@tag x`, where `x` does not end with a brace, loses `@tag` and the space. */
  lemma {:induction false} UntaggedPlain(tag: string, x: string)
    requires '\n' !in tag && '\n' !in x && x != [] && Trimmed(x) && x[|x| - 1] != '}'
    ensures Untagged("@" + tag + " " + x, tag) == x
  {
    var s := "@" + tag + " " + x;
    assert s[0] == '@' && s[|s| - 1] == x[|x| - 1];
    assert RemoveSuffix(RemovePrefix(s, "{"), "}") == s by {
      NoPrefix(s, "{");
      NoSuffix(s, "}");
    }
    assert RemovePrefix(s, "@" + tag) == " " + x by {
      TagOff(tag, x);
    }
    UntaggedOf(s, tag, s, x);
  }

  /** `@tag y}` loses `@tag`, the space and the closing brace. */
  lemma {:induction false} UntaggedBraced(tag: string, y: string)
    requires '\n' !in tag && '\n' !in y && y != [] && Trimmed(y)
    ensures Untagged("@" + tag + " " + y + "}", tag) == y
  {
    BracedShape(tag, y);
    UntaggedOf("@" + tag + " " + y + "}", tag, "@" + tag + " " + y, y);
  }

  lemma {:induction false} BracedShape(tag: string, y: string)
    requires '\n' !in tag && '\n' !in y
    ensures var s := "@" + tag + " " + y + "}"; var t := "@" + tag + " " + y;
      '\n' !in s && s != [] && !IsWhitespace(s[0]) && !IsWhitespace(s[|s| - 1])
      && RemoveSuffix(RemovePrefix(s, "{"), "}") == t && RemovePrefix(t, "@" + tag) == " " + y
  {
    var s := "@" + tag + " " + y + "}";
    var t := "@" + tag + " " + y;
    assert s == t + "}" && t[0] == '@';
    assert RemoveSuffix(RemovePrefix(s, "{"), "}") == t by {
      ClosingOff(t);
    }
    TagOff(tag, y);
  }

  /** The inner form `{@tag x}` loses its braces, `@tag` and the space. */
  lemma {:induction false} UntaggedInline(tag: string, x: string)
    requires '\n' !in tag && '\n' !in x && x != [] && Trimmed(x)
    ensures Untagged("{@" + tag + " " + x + "}", tag) == x
  {
    InlineShape(tag, x);
    UntaggedOf("{@" + tag + " " + x + "}", tag, "@" + tag + " " + x, x);
  }

  lemma {:induction false} InlineShape(tag: string, x: string)
    requires '\n' !in tag && '\n' !in x
    ensures var s := "{@" + tag + " " + x + "}"; var t := "@" + tag + " " + x;
      '\n' !in s && s != [] && !IsWhitespace(s[0]) && !IsWhitespace(s[|s| - 1])
      && RemoveSuffix(RemovePrefix(s, "{"), "}") == t && RemovePrefix(t, "@" + tag) == " " + x
  {
    var s := "{@" + tag + " " + x + "}";
    var t := "@" + tag + " " + x;
    assert s == "{" + t + "}";
    assert '\n' !in t by {
      assert t == ("@" + tag) + (" " + x);
    }
    assert '\n' !in s && s[0] == '{' && s[|s| - 1] == '}';
    assert RemoveSuffix(RemovePrefix(s, "{"), "}") == t by {
      BracesOff(t);
    }
    TagOff(tag, x);
  }

  /** `[p]` unbrackets to `p`. */
  lemma {:induction false} UnbracketedPath(p: string)
    requires IsPath(p)
    ensures Unbracketed("[" + p + "]") == p
  {
    var a := "[" + p + "]";
    assert a == "[" + (p + "]");
    PrefixOff("[", p + "]");
    assert (p + "]")[0] == if p == [] then ']' else p[0];
    if p != [] {
      PathEnds(p);
    }
    NoPrefix(p + "]", "[");
    SuffixOff(p, "]");
    NoSuffix(p, "]");
    PathNoSep(p);
    NoSepNotContains(p);
  }

  /** `[alias][p]` unbrackets to `p`. */
  lemma {:induction false} UnbracketedAlias(alias: string, p: string)
    requires IsPath(alias) && IsPath(p)
    ensures Unbracketed("[" + alias + "][" + p + "]") == p
  {
    var b := alias + "][" + p;
    var a := "[" + alias + "][" + p + "]";
    assert a == "[" + (b + "]");
    PrefixOff("[", b + "]");
    if alias != [] {
      PathEnds(alias);
    }
    assert (b + "]")[0] == if alias == [] then ']' else alias[0];
    NoPrefix(b + "]", "[");
    SuffixOff(b, "]");
    if p != [] {
      PathEnds(p);
    }
    assert b[|b| - 1] == if p == [] then '[' else p[|p| - 1];
    NoSuffix(b, "]");
    AliasIndex(alias, p);
    DropConcat(alias, "][", p);
  }

  /** A path is left alone by the JavaDoc steps and the clean-up. */
  lemma {:induction false} PathUnlinkedCleaned(p: string)
    requires IsPath(p)
    ensures Cleaned(Unlinked(p)) == p
  {
    if p != [] {
      PathEnds(p);
    }
    NoPrefix(p, "<code>");
    NoSuffix(p, "</code>");
    NoPrefix(p, "{");
    NoSuffix(p, "}");
    NoWhitespaceTrim(p);
    NoPrefix(p, "@link ");
    assert '#' !in p && '(' !in p by {
      forall k | 0 <= k < |p| ensures p[k] != '#' && p[k] != '(' {
        assert PathChar(p[k]);
      }
    }
    ReplaceNothing(p, '#', '.');
    RemoveGroupsNoParen(p);
  }

  /** Line 57: `@tag [p]` targets `p`. */
  lemma {:induction false} TagTargetOfReference(tag: string, p: string)
    requires '\n' !in tag && IsPath(p)
    ensures GetTagTarget("@" + tag + " [" + p + "]", tag) == Ok(p)
  {
    var x := "[" + p + "]";
    assert "@" + tag + " [" + p + "]" == "@" + tag + " " + x;
    assert '\n' !in p by {
      PathNoNewline(p);
    }
    TagAtStart(tag, " " + x);
    assert "@" + tag + " " + x == "@" + tag + (" " + x);
    UntaggedPlain(tag, x);
    UnbracketedPath(p);
    PathUnlinkedCleaned(p);
  }

  /** Line 63: the inner form `{@tag [p]}` targets `p` as well. */
  lemma {:induction false} TagTargetOfInline(tag: string, p: string)
    requires '\n' !in tag && IsPath(p)
    ensures GetTagTarget("{@" + tag + " [" + p + "]}", tag) == Ok(p)
  {
    var x := "[" + p + "]";
    var s := "{@" + tag + " [" + p + "]}";
    assert s == "{@" + tag + " " + x + "}";
    assert '\n' !in p by {
      PathNoNewline(p);
    }
    assert OccursAt(s, "@" + tag, 1) by {
      assert s[1..|tag| + 2] == "@" + tag;
    }
    UntaggedInline(tag, x);
    UnbracketedPath(p);
    PathUnlinkedCleaned(p);
  }

  /** Line 73: the aliased form `@tag [alias][p]` targets `p`. */
  lemma {:induction false} TagTargetOfAlias(tag: string, alias: string, p: string)
    requires '\n' !in tag && IsPath(alias) && IsPath(p)
    ensures GetTagTarget("@" + tag + " [" + alias + "][" + p + "]", tag) == Ok(p)
  {
    var x := "[" + alias + "][" + p + "]";
    assert "@" + tag + " [" + alias + "][" + p + "]" == "@" + tag + " " + x;
    assert '\n' !in alias && '\n' !in p by {
      PathNoNewline(alias);
      PathNoNewline(p);
    }
    TagAtStart(tag, " " + x);
    assert "@" + tag + " " + x == "@" + tag + (" " + x);
    UntaggedPlain(tag, x);
    UnbracketedAlias(alias, p);
    PathUnlinkedCleaned(p);
  }

  /** Lines 81-82: `@tag {@link p#m(…)}` targets `p.m`. */
  lemma {:induction false} TagTargetOfLink(tag: string, p: string, m: string, g: string)
    requires '\n' !in tag && IsPath(p) && IsPath(m) && IsGroup(g)
    ensures GetTagTarget("@" + tag + " {@link " + p + "#" + m + g + "}", tag) == Ok(p + "." + m)
  {
    var y := "{@link " + p + "#" + m + g;
    var s := "@" + tag + " {@link " + p + "#" + m + g + "}";
    assert s == "@" + tag + " " + y + "}";
    LinkOneLine(p, m, g);
    assert y[0] == '{' && y[|y| - 1] == g[|g| - 1] == ')';
    TagAtStart(tag, " " + y + "}");
    assert "@" + tag + " " + y + "}" == "@" + tag + (" " + y + "}");
    UntaggedBraced(tag, y);
    LinkUnbracketed(p, m, g);
    LinkUnlinked(p, m, g);
    LinkCleaned(p, m, g);
  }

  lemma {:induction false} PathNoNewline(p: string)
    requires IsPath(p)
    ensures '\n' !in p
  {
  }

  lemma {:induction false} LinkOneLine(p: string, m: string, g: string)
    requires IsPath(p) && IsPath(m) && IsGroup(g)
    ensures '\n' !in "{@link " + p + "#" + m + g
  {
    PathNoNewline(p);
    PathNoNewline(m);
    assert '\n' !in g;
  }

  lemma {:induction false} LinkUnbracketed(p: string, m: string, g: string)
    requires IsPath(p) && IsPath(m) && IsGroup(g)
    ensures Unbracketed("{@link " + p + "#" + m + g) == "{@link " + p + "#" + m + g
  {
    var y := "{@link " + p + "#" + m + g;
    assert y[0] == '{' && y[|y| - 1] == ')';
    NoPrefix(y, "[");
    NoSuffix(y, "]");
    PathNoSep(p);
    PathNoSep(m);
    if p != [] {
      PathEnds(p);
    }
    if m != [] {
      PathEnds(m);
    }
    assert NoSep("{@link ") && NoSep("#");
    NoSepConcat("{@link ", p);
    NoSepConcat("{@link " + p, "#");
    NoSepConcat("{@link " + p + "#", m);
    NoSepConcat("{@link " + p + "#" + m, g);
    NoSepNotContains(y);
  }

  lemma {:induction false} LinkUnlinked(p: string, m: string, g: string)
    requires IsPath(p) && IsPath(m) && IsGroup(g)
    ensures Unlinked("{@link " + p + "#" + m + g) == p + "#" + m + g
  {
    var c := p + "#" + m + g;
    var y := "{@link " + p + "#" + m + g;
    assert y[0] == '{' && y[|y| - 1] == ')';
    NoPrefix(y, "<code>");
    NoSuffix(y, "</code>");
    var t := "@link " + c;
    assert y == "{" + t;
    PrefixOff("{", t);
    assert t[0] == '@' && t[|t| - 1] == ')';
    NoSuffix(t, "}");
    NoWhitespaceTrim(t);
    PrefixOff("@link ", c);
  }

  lemma {:induction false} LinkCleaned(p: string, m: string, g: string)
    requires IsPath(p) && IsPath(m) && IsGroup(g)
    ensures Cleaned(p + "#" + m + g) == p + "." + m
  {
    var q := p + "." + m;
    ReplaceLink(p, m, g);
    assert p + "." + m + g == q + g;
    MemberPath(p, m);
    GroupAtEnd(q, g);
    if q != [] {
      PathEnds(q);
    }
    NoWhitespaceTrim(q);
  }

  /** Line 93: `@tag (f)` names the file `f`. */
  lemma {:induction false} FileTargetOf(tag: string, f: string)
    requires '\n' !in tag && '\n' !in f && Trimmed(f)
    ensures GetFileTarget("@" + tag + " (" + f + ")", tag) == Ok(f)
  {
    var x := "(" + f + ")";
    var s := "@" + tag + " (" + f + ")";
    assert s == "@" + tag + " " + x;
    assert Contains(s, "@" + tag) by {
      assert "@" + tag + " " + x == "@" + tag + (" " + x);
      TagAtStart(tag, " " + x);
    }
    assert Untagged(s, tag) == x by {
      assert x[0] == '(' && x[|x| - 1] == ')';
      UntaggedPlain(tag, x);
    }
    Unparenthesized(f);
  }

  lemma {:induction false} Unparenthesized(f: string)
    requires Trimmed(f)
    ensures Trim(RemoveSuffix(RemovePrefix("(" + f + ")", "("), ")")) == f
  {
    assert "(" + f + ")" == "(" + (f + ")");
    PrefixOff("(", f + ")");
    SuffixOff(f, ")");
    NoWhitespaceTrim(f);
  }

  // ---------------------------------------------------------------------------
  // getTagNameOrNull
  // ---------------------------------------------------------------------------

  /** Leading characters up to the first whitespace (`takeWhile { !it.isWhitespace() }`). */
  function Word(s: string): (r: string)
    ensures |r| <= |s| && r == s[..|r|]
    ensures forall k :: 0 <= k < |r| ==> !IsWhitespace(r[k])
    ensures |r| < |s| ==> IsWhitespace(s[|r|])
  {
    if s != [] && !IsWhitespace(s[0]) then [s[0]] + Word(s[1..]) else []
  }

  /**
   * `getTagNameOrNull` (lines 119-124): the word after `@` in `  @tag …` or
   * `{@tag …`, or `None` when the content starts with neither.
   */
  function TagNameOrNull(s: string): (r: Option<string>)
    ensures r.Some? <==> StartsWithChar(TrimStart(s), '@') || StartsWith(s, "{@")
    ensures r.Some? ==> forall k :: 0 <= k < |r.value| ==> !IsWhitespace(r.value[k])
  {
    if StartsWithChar(TrimStart(s), '@') || StartsWith(s, "{@") then
      Some(Word(RemovePrefixChar(RemovePrefixChar(TrimStart(s), '{'), '@')))
    else None
  }

  /** The leading run of tag-name characters is a prefix of the leading word. */
  lemma {:induction false} NamePrefixOfWord(s: string)
    ensures |TagNamePrefix(s)| <= |Word(s)| && TagNamePrefix(s) == Word(s)[..|TagNamePrefix(s)|]
    decreases |s|
  {
    if s != [] && TagNameChar(s[0]) {
      NamePrefixOfWord(s[1..]);
    }
  }

  /**
   * This older reading finds a name exactly where `TagNames.GetTagNameOrNull`
   * does, and that name is the start of this one: this one stops only at
   * whitespace, the other at braces too.
   */
  lemma {:induction false} TagNameExtendsKodex(s: string)
    ensures TagNameOrNull(s).Some? <==> GetTagNameOrNull(s).Some?
    ensures TagNameOrNull(s).Some? ==>
      var a := GetTagNameOrNull(s).value; var b := TagNameOrNull(s).value;
      |a| <= |b| && a == b[..|a|]
  {
    NamePrefixOfWord(RemovePrefixChar(RemovePrefixChar(TrimStart(s), '{'), '@'));
  }

  /** `{@name}` reads as `name}`: the closing brace is part of the word. */
  lemma {:induction false} BraceInName(name: string)
    requires forall k :: 0 <= k < |name| ==> TagNameChar(name[k])
    ensures TagNameOrNull("{@" + name + "}") == Some(name + "}")
    ensures GetTagNameOrNull("{@" + name + "}") == Some(name)
  {
    var s := "{@" + name + "}";
    assert s[..2] == "{@";
    assert TrimStart(s) == s;
    assert s == "{" + ("@" + (name + "}"));
    PrefixOff("{", "@" + (name + "}"));
    PrefixOff("@", name + "}");
    WordOf(name + "}", "");
    assert name + "}" + "" == name + "}";
    InlineTagName(name, "}");
  }

  /** `Word` reads exactly a word followed by whitespace or the end. */
  lemma {:induction false} WordOf(w: string, rest: string)
    requires forall k :: 0 <= k < |w| ==> !IsWhitespace(w[k])
    requires rest == [] || IsWhitespace(rest[0])
    ensures Word(w + rest) == w
    decreases |w|
  {
    if w != [] {
      assert (w + rest)[1..] == w[1..] + rest;
      WordOf(w[1..], rest);
    } else {
      assert w + rest == rest;
    }
  }
}
