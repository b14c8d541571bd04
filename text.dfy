/**
 * The parts of Kotlin's `String`/`Char` library the modelled code relies on,
 * on `string == seq<char>`.
 */
module Text {
  import opened Wrappers

  /** The decimal digits of `n`, as Kotlin and Java print a non-negative integer. */
  function NatDigits(n: nat): (r: string)
    ensures |r| >= 1 && forall k :: 0 <= k < |r| ==> '0' <= r[k] <= '9'
  {
    if n < 10 then [(n + '0' as int) as char] else NatDigits(n / 10) + [(n % 10 + '0' as int) as char]
  }

  /** An integer printed in decimal, with a leading `-` when it is negative. */
  function IntToString(i: int): (r: string)
    ensures |r| >= 1 && (r[0] == '-' <==> i < 0)
  {
    if i < 0 then "-" + NatDigits(-i) else NatDigits(i)
  }

  /** Kotlin's `Char.isWhitespace()`: Java whitespace plus the Unicode space separators. */
  predicate IsWhitespace(c: char) {
    var n := c as int;
    (0x09 <= n <= 0x0D) || (0x1C <= n <= 0x20) || n == 0xA0 || n == 0x1680
    || (0x2000 <= n <= 0x200A) || n == 0x2028 || n == 0x2029 || n == 0x202F
    || n == 0x205F || n == 0x3000
  }

  /** `isBlank()`: every character is whitespace (so "" is blank). */
  predicate IsBlank(s: string) {
    forall k :: 0 <= k < |s| ==> IsWhitespace(s[k])
  }

  /** Text with nothing to trim at either end. */
  predicate Trimmed(r: string) {
    r == [] || (!IsWhitespace(r[0]) && !IsWhitespace(r[|r| - 1]))
  }

  /** The number of leading characters satisfying `p`. */
  function LeadingCount(s: string, p: char -> bool): (k: nat)
    ensures k <= |s|
    ensures k < |s| ==> !p(s[k])
  {
    if s != [] && p(s[0]) then 1 + LeadingCount(s[1..], p) else 0
  }

  /** `trimStart { p(it) }` */
  function TrimStartBy(s: string, p: char -> bool): (r: string)
    ensures |r| <= |s| && r == s[|s| - |r|..]
    ensures r == [] || !p(r[0])
  {
    s[LeadingCount(s, p)..]
  }

  /** The number of leading whitespace characters. */
  function LeadingWhitespace(s: string): (k: nat)
    ensures k <= |s|
    ensures k < |s| ==> !IsWhitespace(s[k])
  {
    if s != [] && IsWhitespace(s[0]) then 1 + LeadingWhitespace(s[1..]) else 0
  }

  /** The number of trailing whitespace characters. */
  function TrailingWhitespace(s: string): (k: nat)
    ensures k <= |s|
    ensures k < |s| ==> !IsWhitespace(s[|s| - k - 1])
  {
    if s != [] && IsWhitespace(s[|s| - 1]) then 1 + TrailingWhitespace(s[..|s| - 1]) else 0
  }

  /** `trimStart()` */
  function TrimStart(s: string): (r: string)
    ensures |r| <= |s| && r == s[|s| - |r|..]
    ensures r == [] || !IsWhitespace(r[0])
  {
    s[LeadingWhitespace(s)..]
  }

  /** `trimEnd()` */
  function TrimEnd(s: string): (r: string)
    ensures |r| <= |s| && r == s[..|r|]
    ensures r == [] || !IsWhitespace(r[|r| - 1])
  {
    s[..|s| - TrailingWhitespace(s)]
  }

  lemma {:induction false} LeadingCountSkips(s: string, p: char -> bool)
    ensures forall j :: 0 <= j < LeadingCount(s, p) ==> p(s[j])
  {
    if s != [] && p(s[0]) {
      LeadingCountSkips(s[1..], p);
      assert forall j :: 1 <= j < LeadingCount(s, p) ==> s[j] == s[1..][j - 1];
    }
  }

  /** `trimStart { p(it) }` removes only characters satisfying `p`. */
  lemma {:induction false} TrimStartBySkips(s: string, p: char -> bool)
    ensures forall k :: 0 <= k < |s| - |TrimStartBy(s, p)| ==> p(s[k])
  {
    LeadingCountSkips(s, p);
  }

  lemma {:induction false} LeadingWhitespaceSkips(s: string)
    ensures forall j :: 0 <= j < LeadingWhitespace(s) ==> IsWhitespace(s[j])
  {
    if s != [] && IsWhitespace(s[0]) {
      LeadingWhitespaceSkips(s[1..]);
      assert forall j :: 1 <= j < LeadingWhitespace(s) ==> s[j] == s[1..][j - 1];
    }
  }

  lemma {:induction false} TrailingWhitespaceSkips(s: string)
    ensures forall j :: |s| - TrailingWhitespace(s) <= j < |s| ==> IsWhitespace(s[j])
  {
    if s != [] && IsWhitespace(s[|s| - 1]) {
      TrailingWhitespaceSkips(s[..|s| - 1]);
    }
  }

  /** `trimStart()` removes only whitespace. */
  lemma {:induction false} TrimStartSkips(s: string)
    ensures forall k :: 0 <= k < |s| - |TrimStart(s)| ==> IsWhitespace(s[k])
  {
    LeadingWhitespaceSkips(s);
  }

  /** `trimEnd()` removes only whitespace. */
  lemma {:induction false} TrimEndSkips(s: string)
    ensures forall k :: |TrimEnd(s)| <= k < |s| ==> IsWhitespace(s[k])
  {
    TrailingWhitespaceSkips(s);
  }

  /** `trimEnd()` of a text and trailing whitespace is the text, when it ends in a non-whitespace character. */
  lemma {:induction false} TrimEndOf(r: string, t: string)
    requires IsBlank(t) && (r == [] || !IsWhitespace(r[|r| - 1]))
    ensures TrimEnd(r + t) == r
    decreases |t|
  {
    if t == [] {
      assert r + t == r;
    } else {
      var s := r + t;
      assert s[..|s| - 1] == r + t[..|t| - 1];
      TrimEndOf(r, t[..|t| - 1]);
    }
  }

  /** A suffix of a suffix is a suffix. */
  lemma {:induction false} SuffixTrans(x: string, y: string, z: string)
    requires |y| <= |x| && y == x[|x| - |y|..]
    requires |z| <= |y| && z == y[|y| - |z|..]
    ensures z == x[|x| - |z|..]
  {
    assert x[|x| - |z|..] == x[|x| - |y|..][|y| - |z|..];
  }

  /** `trim()` */
  function Trim(s: string): string {
    TrimEnd(TrimStart(s))
  }

  predicate StartsWith(s: string, prefix: string) {
    |prefix| <= |s| && s[..|prefix|] == prefix
  }

  predicate EndsWith(s: string, suffix: string) {
    |suffix| <= |s| && s[|s| - |suffix|..] == suffix
  }

  /** `startsWith(c)` for one character. */
  predicate StartsWithChar(s: string, c: char) {
    s != [] && s[0] == c
  }

  /** `endsWith(c)` for one character. */
  predicate EndsWithChar(s: string, c: char) {
    s != [] && s[|s| - 1] == c
  }

  /** `removePrefix(c)` for a one-character prefix. */
  function RemovePrefixChar(s: string, c: char): (r: string)
    ensures r == if StartsWithChar(s, c) then s[1..] else s
  {
    if StartsWithChar(s, c) then s[1..] else s
  }

  /** `removeSuffix(c)` for a one-character suffix. */
  function RemoveSuffixChar(s: string, c: char): (r: string)
    ensures r == if EndsWithChar(s, c) then s[..|s| - 1] else s
  {
    if EndsWithChar(s, c) then s[..|s| - 1] else s
  }

  /** `removePrefix(prefix)` */
  function RemovePrefix(s: string, prefix: string): (r: string)
    ensures |r| <= |s| && r == s[|s| - |r|..]
  {
    if StartsWith(s, prefix) then s[|prefix|..] else s
  }

  /** `removeSuffix(suffix)` */
  function RemoveSuffix(s: string, suffix: string): (r: string)
    ensures |r| <= |s| && r == s[..|r|]
  {
    if EndsWith(s, suffix) then s[..|s| - |suffix|] else s
  }

  /** `removeSurrounding(delimiter)`: only when both ends carry it and they do not overlap. */
  function RemoveSurrounding(s: string, d: string): string {
    if |s| >= 2 * |d| && StartsWith(s, d) && EndsWith(s, d) then s[|d|..|s| - |d|] else s
  }

  /** `drop(1)` */
  function Drop1(s: string): string {
    if s == [] then s else s[1..]
  }

  /** Index of the first `c` in `s`, or `|s|` when there is none. */
  function IndexOfChar(s: string, c: char): (k: nat)
    ensures k <= |s|
    ensures forall j :: 0 <= j < k ==> s[j] != c
    ensures k < |s| ==> s[k] == c
  {
    if s == [] then 0 else if s[0] == c then 0 else 1 + IndexOfChar(s[1..], c)
  }

  /** `getOrNull(j)` on a string. */
  function CharAt(s: string, j: int): Option<char> {
    if 0 <= j < |s| then Some(s[j]) else None
  }

  /** `sub` occurs in `s` at index `j`. */
  predicate OccursAt(s: string, sub: string, j: int) {
    0 <= j && j + |sub| <= |s| && s[j..j + |sub|] == sub
  }

  /** Index of the first occurrence of `sub` in `s` (`indexOf`), or `None`. */
  function IndexOf(s: string, sub: string): (r: Option<nat>)
    ensures r.Some? ==> OccursAt(s, sub, r.value)
    ensures r.Some? ==> forall j :: 0 <= j < r.value ==> !OccursAt(s, sub, j)
    ensures r.None? ==> forall j :: !OccursAt(s, sub, j)
    decreases |s|
  {
    if |s| < |sub| then None
    else if s[..|sub|] == sub then Some(0)
    else
      var r := IndexOf(s[1..], sub);
      assert forall j :: 1 <= j ==> (OccursAt(s, sub, j) <==> OccursAt(s[1..], sub, j - 1)) by {
        forall j | 1 <= j && j + |sub| <= |s|
          ensures OccursAt(s, sub, j) <==> OccursAt(s[1..], sub, j - 1)
        {
          SliceOfTail(s, j, |sub|);
        }
      }
      match r
      case None => None
      case Some(k) => Some(k + 1)
  }

  lemma {:induction false} SliceOfTail(s: string, j: int, m: nat)
    requires 1 <= j && j + m <= |s|
    ensures s[j..j + m] == s[1..][j - 1..j - 1 + m]
  {
    var a, b := s[j..j + m], s[1..][j - 1..j - 1 + m];
    assert forall i :: 0 <= i < m ==> a[i] == b[i];
  }

  /** `sub in s` */
  predicate Contains(s: string, sub: string) {
    IndexOf(s, sub).Some?
  }

  /** `substringAfter(delimiter)`; the whole string when the delimiter is missing. */
  function SubstringAfter(s: string, delimiter: string): string {
    match IndexOf(s, delimiter)
    case Some(k) => s[k + |delimiter|..]
    case None => s
  }

  /** `takeWhile { p(it) }` */
  function TakeWhile(s: string, p: char -> bool): (r: string)
    ensures |r| <= |s| && r == s[..|r|]
    ensures forall k :: 0 <= k < |r| ==> p(s[k])
    ensures |r| < |s| ==> !p(s[|r|])
  {
    if s != [] && p(s[0]) then [s[0]] + TakeWhile(s[1..], p) else []
  }

  /** `replace(old, new)` for two characters. */
  function ReplaceChar(s: string, from: char, to: char): (r: string)
    ensures |r| == |s|
    ensures forall k :: 0 <= k < |s| ==> r[k] == if s[k] == from then to else s[k]
  {
    if s == [] then [] else [if s[0] == from then to else s[0]] + ReplaceChar(s[1..], from, to)
  }

  /** `replace(old, new)` for strings: every non-overlapping occurrence, left to right. */
  function ReplaceAll(s: string, pattern: string, replacement: string): string
    requires pattern != []
    decreases |s|
  {
    if |s| < |pattern| then s
    else if s[..|pattern|] == pattern then replacement + ReplaceAll(s[|pattern|..], pattern, replacement)
    else [s[0]] + ReplaceAll(s[1..], pattern, replacement)
  }

  /** `replace` leaves a string without the pattern unchanged. */
  lemma {:induction false} ReplaceAllAbsent(s: string, pattern: string, replacement: string)
    requires pattern != [] && !Contains(s, pattern)
    ensures ReplaceAll(s, pattern, replacement) == s
    decreases |s|
  {
    if |s| >= |pattern| {
      assert !OccursAt(s, pattern, 0);
      forall j | 0 <= j && j + |pattern| <= |s| - 1
        ensures !OccursAt(s[1..], pattern, j)
      {
        SliceOfTail(s, j + 1, |pattern|);
        assert !OccursAt(s, pattern, j + 1);
      }
      ReplaceAllAbsent(s[1..], pattern, replacement);
    }
  }

  /** `replace` brings in no character that neither the string nor the replacement holds. */
  lemma {:induction false} ReplaceAllChars(s: string, pattern: string, replacement: string, c: char)
    requires pattern != [] && c !in s && c !in replacement
    ensures c !in ReplaceAll(s, pattern, replacement)
    decreases |s|
  {
    if |s| >= |pattern| {
      if s[..|pattern|] == pattern {
        assert s == s[..|pattern|] + s[|pattern|..];
        ReplaceAllChars(s[|pattern|..], pattern, replacement, c);
      } else {
        assert s == [s[0]] + s[1..];
        ReplaceAllChars(s[1..], pattern, replacement, c);
      }
    }
  }

  /** A pattern whose first character is missing from `s` does not occur in it. */
  lemma {:induction false} FirstCharAbsent(s: string, pattern: string)
    requires pattern != [] && pattern[0] !in s
    ensures !Contains(s, pattern)
  {
    forall j | 0 <= j && j + |pattern| <= |s|
      ensures !OccursAt(s, pattern, j)
    {
      assert s[j..j + |pattern|][0] == s[j];
    }
  }

  /** A doubled character does not occur where that character never follows itself. */
  lemma {:induction false} PairAbsent(s: string, c: char)
    requires forall j :: 0 <= j < |s| - 1 && s[j] == c ==> s[j + 1] != c
    ensures !Contains(s, [c, c])
  {
    forall j | 0 <= j && j + 2 <= |s|
      ensures !OccursAt(s, [c, c], j)
    {
      assert s[j..j + 2][0] == s[j] && s[j..j + 2][1] == s[j + 1];
    }
  }

  /** Four copies of a character do not occur where it appears only in the first two and last two places. */
  lemma {:induction false} QuadAbsent(s: string, c: char)
    requires |s| >= 7 && forall j :: 2 <= j < |s| - 2 ==> s[j] != c
    ensures !Contains(s, [c, c, c, c])
  {
    forall j | 0 <= j && j + 4 <= |s|
      ensures !OccursAt(s, [c, c, c, c], j)
    {
      assert s[j..j + 4][2] == s[j + 2] && s[j..j + 4][0] == s[j];
    }
  }

  /** `" ".repeat(n)` */
  function Spaces(n: nat): (r: string)
    ensures |r| == n && forall k :: 0 <= k < n ==> r[k] == ' '
  {
    if n == 0 then [] else [' '] + Spaces(n - 1)
  }

  lemma SpacesBlank(n: nat)
    ensures IsBlank(Spaces(n))
  {
    var r := Spaces(n);
    forall k | 0 <= k < |r|
      ensures IsWhitespace(r[k])
    {
      assert r[k] == ' ';
    }
  }

  /** `split(c)`: Kotlin always returns at least one part. */
  function Split(s: string, c: char): (parts: seq<string>)
    ensures |parts| >= 1
    ensures forall k :: 0 <= k < |parts| ==> c !in parts[k]
    decreases |s|
  {
    var k := IndexOfChar(s, c);
    if k == |s| then [s] else [s[..k]] + Split(s[k + 1..], c)
  }

  /** `joinToString(separator)` */
  function Join(parts: seq<string>, sep: string): string {
    if |parts| == 0 then "" else if |parts| == 1 then parts[0] else parts[0] + sep + Join(parts[1..], sep)
  }

  lemma {:induction false} JoinSplit(s: string, c: char)
    ensures Join(Split(s, c), [c]) == s
    decreases |s|
  {
    var k := IndexOfChar(s, c);
    if k < |s| {
      JoinSplit(s[k + 1..], c);
      var rest := Split(s[k + 1..], c);
      assert Split(s, c) == [s[..k]] + rest;
      assert s == s[..k] + [c] + s[k + 1..];
    }
  }

  lemma {:induction false} SplitJoin(parts: seq<string>, c: char)
    requires |parts| >= 1
    requires forall k :: 0 <= k < |parts| ==> c !in parts[k]
    ensures Split(Join(parts, [c]), c) == parts
  {
    if |parts| == 1 {
      assert IndexOfChar(parts[0], c) == |parts[0]|;
    } else {
      var rest := Join(parts[1..], [c]);
      var s := parts[0] + [c] + rest;
      assert Join(parts, [c]) == s;
      assert IndexOfChar(s, c) == |parts[0]| by {
        assert forall j :: 0 <= j < |parts[0]| ==> s[j] == parts[0][j];
        assert s[|parts[0]|] == c;
      }
      assert s[..|parts[0]|] == parts[0];
      assert s[|parts[0]| + 1..] == rest;
      SplitJoin(parts[1..], c);
    }
  }

  /** The length of a join: every part plus one separator between neighbours. */
  lemma {:induction false} JoinLength(parts: seq<string>, sep: string)
    requires |parts| >= 1
    ensures |Join(parts, sep)| == TotalLength(parts) + (|parts| - 1) * |sep|
  {
    if |parts| > 1 {
      JoinLength(parts[1..], sep);
    }
  }

  /** Sum of the lengths of the parts. */
  function TotalLength(parts: seq<string>): nat {
    if parts == [] then 0 else |parts[0]| + TotalLength(parts[1..])
  }
}
