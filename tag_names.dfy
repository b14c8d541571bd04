/**
 * The two call chains of `kodex-common/.../utils/DocUtils.kt` that read names
 * out of tag content: `decodeCallableTarget` and `getTagNameOrNull`.
 */
module TagNames {
  import opened Wrappers
  import opened Text

  // ---------------------------------------------------------------------------
  // The regular expression `\(.*\)` replaced by ""
  // ---------------------------------------------------------------------------

  /** The characters Java's `.` does not match without DOTALL. */
  predicate IsLineTerminator(c: char) {
    c == '\n' || c == '\r' || c as int == 0x85 || c as int == 0x2028 || c as int == 0x2029
  }

  /** Index of the first line terminator in `s`, or `|s|`. */
  function LineEnd(s: string): (k: nat)
    ensures k <= |s|
    ensures forall j :: 0 <= j < k ==> !IsLineTerminator(s[j])
    ensures k < |s| ==> IsLineTerminator(s[k])
  {
    if s == [] || IsLineTerminator(s[0]) then 0 else 1 + LineEnd(s[1..])
  }

  /** The last index `j` with `1 <= j < e` and `s[j] == ')'`. */
  function LastClose(s: string, e: nat): (r: Option<nat>)
    requires e <= |s|
    ensures r.Some? ==> 1 <= r.value < e && s[r.value] == ')'
    ensures r.Some? ==> forall j :: r.value < j < e ==> s[j] != ')'
    ensures r.None? ==> forall j :: 1 <= j < e ==> s[j] != ')'
  {
    if e <= 1 then None
    else if s[e - 1] == ')' then Some(e - 1)
    else LastClose(s, e - 1)
  }

  /**
   * `replace(Regex("""\(.*\)"""), "")`: scanning left to right, a '(' starts
   * a match when a ')' follows it on the same line; the greedy `.*` takes the
   * match to the last such ')', and scanning resumes after it.
   */
  function RemoveGroups(s: string): (r: string)
    ensures |r| <= |s|
    decreases |s|
  {
    if s == [] then []
    else if s[0] == '(' && LastClose(s, LineEnd(s)).Some? then
      RemoveGroups(s[LastClose(s, LineEnd(s)).value + 1..])
    else [s[0]] + RemoveGroups(s[1..])
  }

  /** The replacement only deletes characters. */
  lemma {:induction false} RemoveGroupsDrops(s: string, c: char)
    requires c !in s
    ensures c !in RemoveGroups(s)
    decreases |s|
  {
    if s == [] {
    } else if s[0] == '(' && LastClose(s, LineEnd(s)).Some? {
      var j := LastClose(s, LineEnd(s)).value;
      assert c !in s[j + 1..];
      RemoveGroupsDrops(s[j + 1..], c);
    } else {
      assert c !in s[1..];
      RemoveGroupsDrops(s[1..], c);
    }
  }

  /** No ')' before the end of the first line. */
  predicate NoCloseInLine(s: string) {
    forall k :: 0 <= k < LineEnd(s) ==> s[k] != ')'
  }

  /** No '(' is followed by a ')' on its own line: the expression finds no match. */
  predicate NoGroup(s: string) {
    forall i {:trigger OpenAt(s, i)} :: 0 <= i < |s| && OpenAt(s, i) ==> NoCloseInLine(s[i + 1..])
  }

  /** A '(' at index `i`. */
  predicate OpenAt(s: string, i: int) {
    0 <= i < |s| && s[i] == '('
  }

  lemma {:induction false} RemoveGroupsKeepsNoClose(s: string)
    requires NoCloseInLine(s)
    ensures NoCloseInLine(RemoveGroups(s))
    decreases |s|
  {
    if s != [] && !IsLineTerminator(s[0]) {
      assert LineEnd(s) == 1 + LineEnd(s[1..]);
      assert NoCloseInLine(s[1..]) by {
        forall k | 0 <= k < LineEnd(s[1..]) ensures s[1..][k] != ')' {
          assert s[1..][k] == s[k + 1];
        }
      }
      assert LastClose(s, LineEnd(s)).None?;
      RemoveGroupsKeepsNoClose(s[1..]);
      var t := RemoveGroups(s[1..]);
      assert RemoveGroups(s) == [s[0]] + t;
      assert LineEnd([s[0]] + t) == 1 + LineEnd(t) by {
        assert ([s[0]] + t)[1..] == t;
      }
      forall k | 0 <= k < LineEnd([s[0]] + t) ensures ([s[0]] + t)[k] != ')' {
        if k > 0 {
          assert ([s[0]] + t)[k] == t[k - 1];
        }
      }
    }
  }

  /** After the replacement no match of `\(.*\)` is left. */
  lemma {:induction false} RemoveGroupsComplete(s: string)
    ensures NoGroup(RemoveGroups(s))
    decreases |s|
  {
    if s == [] {
    } else if s[0] == '(' && LastClose(s, LineEnd(s)).Some? {
      var j := LastClose(s, LineEnd(s)).value;
      var rest := RemoveGroups(s[j + 1..]);
      assert RemoveGroups(s) == rest;
      assert NoGroup(rest) by {
        RemoveGroupsComplete(s[j + 1..]);
      }
    } else {
      RemoveGroupsComplete(s[1..]);
      KeptHeadNoGroup(s);
    }
  }

  /** A first character that starts no match, before a rest left without matches, leaves no match. */
  lemma {:induction false} KeptHeadNoGroup(s: string)
    requires s != [] && !(s[0] == '(' && LastClose(s, LineEnd(s)).Some?)
    requires NoGroup(RemoveGroups(s[1..]))
    ensures NoGroup(RemoveGroups(s))
  {
    var t := RemoveGroups(s[1..]);
    var r := [s[0]] + t;
    assert RemoveGroups(s) == r;
    forall i | OpenAt(r, i) ensures NoCloseInLine(r[i + 1..]) {
      if i == 0 {
        assert r[1..] == t;
        OpenWithoutClose(s);
        RemoveGroupsKeepsNoClose(s[1..]);
      } else {
        assert r[i + 1..] == t[i..];
        assert OpenAt(t, i - 1);
      }
    }
  }

  /** A '(' that starts no match has no ')' after it on its line. */
  lemma {:induction false} OpenWithoutClose(s: string)
    requires s != [] && s[0] == '(' && LastClose(s, LineEnd(s)).None?
    ensures NoCloseInLine(s[1..])
  {
    assert LineEnd(s) == 1 + LineEnd(s[1..]) by {
      assert !IsLineTerminator(s[0]);
    }
    forall k | 0 <= k < LineEnd(s[1..]) ensures s[1..][k] != ')' {
      assert s[1..][k] == s[k + 1];
    }
  }

  /** Text without '(' is left as it is. */
  lemma {:induction false} RemoveGroupsNoParen(s: string)
    requires '(' !in s
    ensures RemoveGroups(s) == s
    decreases |s|
  {
    if s != [] {
      assert '(' !in s[1..];
      RemoveGroupsNoParen(s[1..]);
    }
  }

  // ---------------------------------------------------------------------------
  // decodeCallableTarget
  // ---------------------------------------------------------------------------

  /** Lines 276-285: the brackets of `[Foo]` go, and `[Alias][Foo]` keeps what follows `][`. */
  function Unbracket(s: string): string {
    var a := RemoveSuffix(RemovePrefix(Trim(s), "["), "]");
    if Contains(a, "][") then SubstringAfter(a, "][") else a
  }

  /** Lines 286-288: a JavaDoc `<code>…</code>` wrapper goes. */
  function Uncode(s: string): string {
    RemoveSuffix(RemovePrefix(Trim(s), "<code>"), "</code>")
  }

  /** Lines 289-294: a JavaDoc `{@link …}` wrapper goes. */
  function Unlink(s: string): string {
    RemovePrefix(RemoveSuffix(RemovePrefix(Trim(s), "{"), "}"), "@link")
  }

  /** Lines 295-298: `#` becomes `.`, call signatures go, and the result is trimmed. */
  function Finish(u: string): (r: string)
    ensures Trimmed(r)
    ensures '#' !in r
  {
    var c := ReplaceChar(Trim(u), '#', '.');
    var d := RemoveGroups(c);
    assert '#' !in c;
    RemoveGroupsDrops(c, '#');
    TrimClean(d);
    TrimIn(d, '#');
    Trim(d)
  }

  /**
   * `decodeCallableTarget`: `[Alias][Foo]` becomes `Foo`, and
   * `{@link Foo#main(String[])}` becomes `Foo.main`.
   */
  function DecodeCallableTarget(s: string): (r: string)
    ensures Trimmed(r)
    ensures '#' !in r
  {
    Finish(Unlink(Uncode(Unbracket(s))))
  }

  /** `trim()` leaves no whitespace at either end. */
  lemma {:induction false} TrimClean(s: string)
    ensures Trimmed(Trim(s))
  {
    var t := TrimStart(s);
    var r := TrimEnd(t);
    if r != [] {
      assert r[0] == t[0];
    }
  }

  /** `trim()` adds no characters. */
  lemma {:induction false} TrimIn(s: string, c: char)
    requires c !in s
    ensures c !in Trim(s)
  {
    var t := TrimStart(s);
    var r := TrimEnd(t);
    assert forall k :: 0 <= k < |r| ==> r[k] == s[|s| - |t| + k];
  }

  /** Text without whitespace at its ends is its own `trim()`. */
  lemma {:induction false} NoWhitespaceTrim(s: string)
    requires s == [] || (!IsWhitespace(s[0]) && !IsWhitespace(s[|s| - 1]))
    ensures Trim(s) == s
  {
  }

  lemma {:induction false} NoPrefix(s: string, p: string)
    requires p != [] && (s == [] || s[0] != p[0])
    ensures RemovePrefix(s, p) == s
  {
  }

  lemma {:induction false} NoSuffix(s: string, p: string)
    requires p != [] && (s == [] || s[|s| - 1] != p[|p| - 1])
    ensures RemoveSuffix(s, p) == s
  {
  }

  lemma {:induction false} ReplaceNothing(s: string, from: char, to: char)
    requires from !in s
    ensures ReplaceChar(s, from, to) == s
  {
    var r := ReplaceChar(s, from, to);
    assert forall k :: 0 <= k < |r| ==> r[k] == s[k];
  }

  /** The characters of a fully qualified path: none of them is touched by the decoding. */
  predicate PathChar(c: char) {
    !IsWhitespace(c) && c != '[' && c != ']' && c != '{' && c != '}' && c != '<' && c != '>'
    && c != '(' && c != ')' && c != '#' && c != '@'
  }

  predicate IsPath(s: string) {
    forall k :: 0 <= k < |s| ==> PathChar(s[k])
  }

  lemma {:induction false} PathEnds(s: string)
    requires IsPath(s) && s != []
    ensures PathChar(s[0]) && PathChar(s[|s| - 1])
  {
  }

  lemma {:induction false} PathUnbracket(s: string)
    requires IsPath(s)
    ensures Unbracket(s) == s
  {
    NoWhitespaceTrim(s);
    if s != [] {
      PathEnds(s);
    }
    NoPrefix(s, "[");
    NoSuffix(s, "]");
    PathNoSep(s);
    NoSepNotContains(s);
  }

  lemma {:induction false} PathUncode(s: string)
    requires IsPath(s)
    ensures Uncode(s) == s
  {
    NoWhitespaceTrim(s);
    if s != [] {
      PathEnds(s);
    }
    NoPrefix(s, "<code>");
    NoSuffix(s, "</code>");
  }

  lemma {:induction false} PathUnlink(s: string)
    requires IsPath(s)
    ensures Unlink(s) == s
  {
    NoWhitespaceTrim(s);
    if s != [] {
      PathEnds(s);
    }
    NoPrefix(s, "{");
    NoSuffix(s, "}");
    NoPrefix(s, "@link");
  }

  lemma {:induction false} PathFinish(s: string)
    requires IsPath(s)
    ensures Finish(s) == s
  {
    if s != [] {
      PathEnds(s);
    }
    NoWhitespaceTrim(s);
    assert '#' !in s && '(' !in s by {
      forall k | 0 <= k < |s| ensures s[k] != '#' && s[k] != '(' {
        assert PathChar(s[k]);
      }
    }
    ReplaceNothing(s, '#', '.');
    RemoveGroupsNoParen(s);
  }

  /** An already decoded path (`a.b.C`) decodes to itself. */
  lemma {:induction false} DecodePlainPath(s: string)
    requires IsPath(s)
    ensures DecodeCallableTarget(s) == s
  {
    PathUnbracket(s);
    PathUncode(s);
    PathUnlink(s);
    PathFinish(s);
  }

  /** No `]` is directly followed by `[`. */
  predicate NoSep(s: string) {
    forall j :: 0 <= j < |s| - 1 ==> !(s[j] == ']' && s[j + 1] == '[')
  }

  lemma {:induction false} NoSepNotContains(s: string)
    requires NoSep(s)
    ensures !Contains(s, "][")
  {
    forall j | 0 <= j && j + 2 <= |s| ensures !OccursAt(s, "][", j) {
      assert s[j..j + 2][0] == s[j] && s[j..j + 2][1] == s[j + 1];
    }
  }

  lemma {:induction false} NoSepConcat(x: string, y: string)
    requires NoSep(x) && NoSep(y)
    requires y == [] || y[0] != '['
    ensures NoSep(x + y)
  {
    var s := x + y;
    forall j | 0 <= j < |s| - 1 ensures !(s[j] == ']' && s[j + 1] == '[') {
      if j + 1 < |x| {
        assert s[j] == x[j] && s[j + 1] == x[j + 1];
      } else if j + 1 == |x| {
        assert s[j + 1] == y[0];
      } else {
        assert s[j] == y[j - |x|] && s[j + 1] == y[j + 1 - |x|];
      }
    }
  }

  lemma {:induction false} PathNoSep(s: string)
    requires IsPath(s)
    ensures NoSep(s)
  {
    forall j | 0 <= j < |s| - 1 ensures !(s[j] == ']' && s[j + 1] == '[') {
      assert PathChar(s[j]);
    }
  }

  lemma {:induction false} PathConcat(x: string, y: string)
    requires IsPath(x) && IsPath(y)
    ensures IsPath(x + y)
  {
    var s := x + y;
    forall k | 0 <= k < |s| ensures PathChar(s[k]) {
      if k < |x| {
        assert s[k] == x[k];
      } else {
        assert s[k] == y[k - |x|];
      }
    }
  }

  lemma {:induction false} PrefixOff(p: string, t: string)
    ensures RemovePrefix(p + t, p) == t
  {
    assert (p + t)[..|p|] == p;
    assert (p + t)[|p|..] == t;
  }

  lemma {:induction false} SuffixOff(t: string, p: string)
    ensures RemoveSuffix(t + p, p) == t
  {
    assert (t + p)[|t|..] == p;
    assert (t + p)[..|t|] == t;
  }

  lemma {:induction false} DropConcat(x: string, d: string, y: string)
    ensures (x + d + y)[|x| + |d|..] == y
  {
  }

  /** The first occurrence is the one `indexOf` finds. */
  lemma {:induction false} IndexOfAt(s: string, d: string, v: nat)
    requires OccursAt(s, d, v)
    requires forall j :: 0 <= j < v ==> !OccursAt(s, d, j)
    ensures IndexOf(s, d) == Some(v)
  {
    var r := IndexOf(s, d);
    if r.Some? {
      assert !(r.value < v);
      assert !(v < r.value);
    }
  }

  lemma {:induction false} Unbrace(a: string)
    ensures RemoveSuffix(RemovePrefix("[" + a + "]", "["), "]") == a
  {
    assert "[" + a + "]" == "[" + (a + "]");
    PrefixOff("[", a + "]");
    SuffixOff(a, "]");
  }

  /** `alias][target` splits at the `][` after the alias. */
  lemma {:induction false} AliasIndex(alias: string, target: string)
    requires IsPath(alias)
    ensures IndexOf(alias + "][" + target, "][") == Some(|alias|)
  {
    var a := alias + "][" + target;
    assert OccursAt(a, "][", |alias|) by {
      assert a[|alias|..|alias| + 2] == "][";
    }
    forall j | 0 <= j < |alias| ensures !OccursAt(a, "][", j) {
      assert a[j] == alias[j];
      assert PathChar(alias[j]);
    }
    IndexOfAt(a, "][", |alias|);
  }

  /** `[alias][target]` unbrackets to `target`. */
  lemma {:induction false} AliasUnbracket(alias: string, target: string)
    requires IsPath(alias) && IsPath(target)
    ensures Unbracket("[" + alias + "][" + target + "]") == target
  {
    var a := alias + "][" + target;
    var s := "[" + a + "]";
    assert s == "[" + alias + "][" + target + "]";
    NoWhitespaceTrim(s);
    Unbrace(a);
    var u := RemoveSuffix(RemovePrefix(Trim(s), "["), "]");
    assert u == a;
    AliasIndex(alias, target);
    DropConcat(alias, "][", target);
    assert SubstringAfter(u, "][") == target;
  }

  /** An aliased reference `[alias][target]` decodes to `target`. */
  lemma {:induction false} DecodeAlias(alias: string, target: string)
    requires IsPath(alias) && IsPath(target)
    ensures DecodeCallableTarget("[" + alias + "][" + target + "]") == target
  {
    AliasUnbracket(alias, target);
    PathUncode(target);
    PathUnlink(target);
    PathFinish(target);
  }

  /** `[Alias][Foo]` decodes to `Foo`. */
  lemma {:induction false} DecodeAliasExample(s: string)
    requires s == "[Alias][Foo]"
    ensures DecodeCallableTarget(s) == "Foo"
  {
    var alias, target := "Alias", "Foo";
    assert s == "[" + alias + "][" + target + "]";
    assert IsPath(alias) && IsPath(target);
    DecodeAlias(alias, target);
  }

  /** A parameter list `(…)` on one line, as the expression matches it. */
  predicate IsGroup(g: string) {
    |g| >= 2 && g[0] == '(' && g[|g| - 1] == ')' && NoSep(g) && '#' !in g
    && forall k :: 0 <= k < |g| ==> !IsLineTerminator(g[k])
  }

  /** Text in braces without `][` survives the bracket and `<code>` steps. */
  lemma {:induction false} BracedUnbracketUncode(s: string)
    requires |s| >= 2 && s[0] == '{' && s[|s| - 1] == '}' && NoSep(s)
    ensures Uncode(Unbracket(s)) == s
  {
    NoWhitespaceTrim(s);
    NoPrefix(s, "[");
    NoSuffix(s, "]");
    NoSepNotContains(s);
    NoPrefix(s, "<code>");
    NoSuffix(s, "</code>");
  }

  lemma {:induction false} LinkNoSep(p: string, m: string, g: string)
    requires IsPath(p) && IsPath(m) && IsGroup(g)
    ensures NoSep("{@link " + p + "#" + m + g + "}")
  {
    PathNoSep(p);
    PathNoSep(m);
    if p != [] {
      PathEnds(p);
    }
    if m != [] {
      PathEnds(m);
    }
    assert NoSep("{@link ") && NoSep("#") && NoSep("}");
    NoSepConcat("{@link ", p);
    NoSepConcat("{@link " + p, "#");
    NoSepConcat("{@link " + p + "#", m);
    NoSepConcat("{@link " + p + "#" + m, g);
    NoSepConcat("{@link " + p + "#" + m + g, "}");
  }

  /** `{@link b}` loses its braces and `@link`. */
  lemma {:induction false} UnlinkOf(b: string)
    ensures Unlink("{@link" + b + "}") == b
  {
    var s := "{@link" + b + "}";
    var t := "@link" + b;
    assert s == "{" + (t + "}");
    NoWhitespaceTrim(s);
    PrefixOff("{", t + "}");
    SuffixOff(t, "}");
    PrefixOff("@link", b);
  }

  /** One leading space is what `trim()` removes from ` c`. */
  lemma {:induction false} TrimSpace(c: string)
    requires c != [] && !IsWhitespace(c[0]) && !IsWhitespace(c[|c| - 1])
    ensures Trim(" " + c) == c
  {
    assert IsBlank(" ");
    TrimStartBlank(" ", c);
    NoWhitespaceTrim(c);
  }

  /** The `#` between a path and a member becomes `.`. */
  lemma {:induction false} ReplaceLink(p: string, m: string, g: string)
    requires IsPath(p) && IsPath(m) && '#' !in g
    ensures ReplaceChar(p + "#" + m + g, '#', '.') == p + "." + m + g
  {
    var c := p + "#" + m + g;
    var q := p + "." + m + g;
    var r := ReplaceChar(c, '#', '.');
    forall k | 0 <= k < |c| ensures r[k] == q[k] {
      if k < |p| {
        assert c[k] == p[k] && q[k] == p[k] && PathChar(p[k]);
      } else if k == |p| {
      } else if k < |p| + 1 + |m| {
        assert c[k] == m[k - |p| - 1] && q[k] == c[k] && PathChar(m[k - |p| - 1]);
      } else {
        assert c[k] == g[k - |p| - 1 - |m|] && q[k] == c[k];
      }
    }
  }

  /** `p.m` is a path again. */
  lemma {:induction false} MemberPath(p: string, m: string)
    requires IsPath(p) && IsPath(m)
    ensures IsPath(p + "." + m)
  {
    assert IsPath(".");
    PathConcat(p, ".");
    PathConcat(p + ".", m);
  }

  /** ` p#m(…)` finishes as `p.m`. */
  lemma {:induction false} LinkFinish(p: string, m: string, g: string)
    requires IsPath(p) && IsPath(m) && IsGroup(g)
    ensures Finish(" " + p + "#" + m + g) == p + "." + m
  {
    var c := p + "#" + m + g;
    var q := p + "." + m;
    assert " " + p + "#" + m + g == " " + c;
    assert c[0] == (if p == [] then '#' else p[0]);
    assert c[|c| - 1] == g[|g| - 1];
    TrimSpace(c);
    ReplaceLink(p, m, g);
    assert p + "." + m + g == q + g;
    MemberPath(p, m);
    GroupAtEnd(q, g);
    if q != [] {
      PathEnds(q);
    }
    NoWhitespaceTrim(q);
    var d := ReplaceChar(Trim(" " + c), '#', '.');
    assert d == q + g;
    assert RemoveGroups(d) == q;
  }

  /** A JavaDoc link `{@link p#m(…)}` decodes to `p.m`. */
  lemma {:induction false} DecodeLink(p: string, m: string, g: string)
    requires IsPath(p) && IsPath(m) && IsGroup(g)
    ensures DecodeCallableTarget("{@link " + p + "#" + m + g + "}") == p + "." + m
  {
    var s := "{@link " + p + "#" + m + g + "}";
    var b := " " + p + "#" + m + g;
    assert s == "{@link" + b + "}";
    LinkNoSep(p, m, g);
    BracedUnbracketUncode(s);
    UnlinkOf(b);
    LinkFinish(p, m, g);
  }

  /** `{@link Foo#main(String[])}` decodes to `Foo.main`. */
  lemma {:induction false} DecodeLinkExample(s: string)
    requires s == "{@link Foo#main(String[])}"
    ensures DecodeCallableTarget(s) == "Foo.main"
  {
    var p, m, g := "Foo", "main", "(String[])";
    assert s == "{@link " + p + "#" + m + g + "}";
    assert p + "." + m == "Foo.main";
    assert NoSep(g) by {
      assert g[7] == '[' && g[8] == ']' && g[9] == ')';
    }
    assert IsGroup(g);
    assert IsPath(p) && IsPath(m);
    DecodeLink(p, m, g);
  }

  /** A `(…)` group closing the text is removed, and the path before it kept. */
  lemma {:induction false} GroupAtEnd(p: string, g: string)
    requires IsPath(p)
    requires |g| >= 2 && g[0] == '(' && g[|g| - 1] == ')'
    requires forall k :: 0 <= k < |g| ==> !IsLineTerminator(g[k])
    ensures RemoveGroups(p + g) == p
    decreases |p|
  {
    if p == [] {
      assert p + g == g;
      assert LineEnd(g) == |g|;
      assert LastClose(g, |g|) == Some(|g| - 1);
      assert g[|g|..] == [];
    } else {
      assert (p + g)[1..] == p[1..] + g;
      assert PathChar(p[0]);
      GroupAtEnd(p[1..], g);
    }
  }

  // ---------------------------------------------------------------------------
  // getTagNameOrNull
  // ---------------------------------------------------------------------------

  /** The characters `takeWhile` keeps for a tag name. */
  predicate TagNameChar(c: char) {
    !IsWhitespace(c) && c != '{' && c != '}'
  }

  /** Leading tag-name characters. */
  function TagNamePrefix(s: string): (r: string)
    ensures |r| <= |s| && r == s[..|r|]
    ensures forall k :: 0 <= k < |r| ==> TagNameChar(r[k])
    ensures |r| < |s| ==> !TagNameChar(s[|r|])
  {
    if s != [] && TagNameChar(s[0]) then [s[0]] + TagNamePrefix(s[1..]) else []
  }

  /**
   * `getTagNameOrNull`: the name after `@` in `  @tag …` or `{@tag …}`, or
   * `None` when the content starts with neither.
   */
  function GetTagNameOrNull(s: string): (r: Option<string>)
    ensures r.Some? <==> StartsWithChar(TrimStart(s), '@') || StartsWith(s, "{@")
    ensures r.Some? ==> forall k :: 0 <= k < |r.value| ==> TagNameChar(r.value[k])
  {
    if StartsWithChar(TrimStart(s), '@') || StartsWith(s, "{@") then
      Some(TagNamePrefix(RemovePrefixChar(RemovePrefixChar(TrimStart(s), '{'), '@')))
    else None
  }

  /** `TagNamePrefix` reads exactly a name followed by a non-name character. */
  lemma {:induction false} TagNamePrefixOf(name: string, rest: string)
    requires forall k :: 0 <= k < |name| ==> TagNameChar(name[k])
    requires rest == [] || !TagNameChar(rest[0])
    ensures TagNamePrefix(name + rest) == name
    decreases |name|
  {
    if name != [] {
      assert (name + rest)[1..] == name[1..] + rest;
      TagNamePrefixOf(name[1..], rest);
    } else {
      assert name + rest == rest;
    }
  }

  /** Indentation before the text is what `trimStart` removes. */
  lemma {:induction false} TrimStartBlank(w: string, t: string)
    requires IsBlank(w)
    requires t == [] || !IsWhitespace(t[0])
    ensures TrimStart(w + t) == t
    decreases |w|
  {
    if w != [] {
      assert (w + t)[1..] == w[1..] + t;
      TrimStartBlank(w[1..], t);
      assert LeadingWhitespace(w + t) == 1 + LeadingWhitespace(w[1..] + t);
    } else {
      assert w + t == t;
    }
  }

  /** A block tag `  @name rest` yields `name`. */
  lemma {:induction false} BlockTagName(w: string, name: string, rest: string)
    requires IsBlank(w)
    requires forall k :: 0 <= k < |name| ==> TagNameChar(name[k])
    requires rest == [] || !TagNameChar(rest[0])
    ensures GetTagNameOrNull(w + "@" + name + rest) == Some(name)
  {
    var t := "@" + name + rest;
    assert w + "@" + name + rest == w + t;
    TrimStartBlank(w, t);
    var u := TrimStart(w + "@" + name + rest);
    assert u == t && StartsWithChar(u, '@');
    assert RemovePrefixChar(u, '{') == t;
    assert t[1..] == name + rest;
    assert RemovePrefixChar(t, '@') == name + rest;
    TagNamePrefixOf(name, rest);
  }

  /** An inline tag `{@name rest` yields `name`. */
  lemma {:induction false} InlineTagName(name: string, rest: string)
    requires forall k :: 0 <= k < |name| ==> TagNameChar(name[k])
    requires rest == [] || !TagNameChar(rest[0])
    ensures GetTagNameOrNull("{@" + name + rest) == Some(name)
  {
    var s := "{@" + name + rest;
    var t := "@" + name + rest;
    assert s == "{" + t;
    assert s[0] == '{' && s[1] == '@';
    assert s[..2] == "{@";
    assert TrimStart(s) == s;
    assert RemovePrefixChar(s, '{') == t;
    assert t[1..] == name + rest;
    assert RemovePrefixChar(t, '@') == name + rest;
    TagNamePrefixOf(name, rest);
  }
}
