/**
 * `DocumentableWrapper` of `kodex-common/.../documentableWrapper/DocumentableWrapper.kt`:
 * one documentable with its source facts, its doc content and tags, and the
 * derived `paths`, `copy`, `getAllTypes`, `getDocHashcode` and
 * `getDocContentForHtmlRange`; and the path-indexed collection of documentables
 * it is queried from.
 */
module Documentables {
  import opened Wrappers
  import opened Text
  import opened Ranges
  import InlineTags

  datatype Language = Java | Kotlin

  /** An import of the documentable's file: `pkg.*`, or one name with the path it stands for. */
  datatype Import = AllUnder(pathStr: string) | Exact(pathStr: string, importedName: string)

  /** A documentable's `identifier`. */
  datatype Id =
    | Uuid(bytes: seq<int>)     // `UUID.nameUUIDFromBytes(bytes)`, equal exactly when the bytes are
    | Key(file: string, path: string, extensionPath: Option<string>, textRangeStart: int,
          imports: seq<Import>, superPaths: seq<string>)

  datatype Documentable = Documentable(
    programmingLanguage: Language,
    imports: seq<Import>,
    rawSource: string,
    sourceHasDocumentation: bool,
    fullyQualifiedPath: string,
    fullyQualifiedExtensionPath: Option<string>,
    fullyQualifiedSuperPaths: seq<string>,
    file: string,
    docFileTextRange: IntRange,
    docIndent: int,
    annotations: seq<string>,
    fileTextRange: IntRange,
    identifier: Id,
    origin: int,
    docContent: string,
    tags: set<string>,
    isModified: bool,
    htmlRangeStart: Option<int>,
    htmlRangeEnd: Option<int>)

  // ---------------------------------------------------------------------------
  // Identifiers and hash codes
  // ---------------------------------------------------------------------------

  const TwoTo32: int := 0x1_0000_0000
  const TwoTo31: int := 0x8000_0000

  /** `Int` arithmetic: the value wrapped into 32 bits, two's complement. */
  function Int32(x: int): (r: int)
    ensures -TwoTo31 <= r < TwoTo31
    ensures (r - x) % TwoTo32 == 0
  {
    (x + TwoTo31) % TwoTo32 - TwoTo31
  }

  /** `Int.toByte()`: the low 8 bits, two's complement. */
  function ToByte(x: int): (r: int)
    ensures -128 <= r < 128
    ensures (r - x) % 256 == 0
  {
    (x + 128) % 256 - 128
  }

  /** `String.hashCode()`: `h = 31 * h + c` over the characters, in 32-bit arithmetic. */
  function StringHash(s: string): (h: int)
    ensures -TwoTo31 <= h < TwoTo31
  {
    if s == [] then 0 else Int32(31 * StringHash(s[..|s| - 1]) + s[|s| - 1] as int)
  }

  function Bytes(hashes: seq<int>): (bs: seq<int>)
    ensures |bs| == |hashes| && forall k :: 0 <= k < |hashes| ==> bs[k] == ToByte(hashes[k])
  {
    seq(|hashes|, k requires 0 <= k < |hashes| => ToByte(hashes[k]))
  }

  /** `String?.hashCode()`: 0 for `null`. */
  function NullableStringHash(s: Option<string>): (h: int)
    ensures s.None? ==> h == 0
    ensures s.Some? ==> h == StringHash(s.value)
  {
    match s
    case None => 0
    case Some(v) => StringHash(v)
  }

  /**
   * `computeIdentifier` (lines 93-110) as written: one byte of the hash code
   * of each argument goes into the name-based UUID. `importHash` is
   * `SimpleImportPath.hashCode()`; that class is not part of this model.
   */
  function ComputeIdentifier(importHash: Import -> int, imports: seq<Import>, file: string, path: string,
                             extensionPath: Option<string>, superPaths: seq<string>, textRangeStart: int): (id: Id)
    ensures id.Uuid? && |id.bytes| == 4 + |imports| + |superPaths|
    ensures id.bytes[..4] == [ToByte(StringHash(file)), ToByte(StringHash(path)),
                              ToByte(NullableStringHash(extensionPath)), ToByte(textRangeStart)]
    ensures forall k :: 0 <= k < |imports| ==> id.bytes[4 + k] == ToByte(importHash(imports[k]))
    ensures forall k :: 0 <= k < |superPaths| ==> id.bytes[4 + |imports| + k] == ToByte(StringHash(superPaths[k]))
  {
    Uuid([ToByte(StringHash(file)), ToByte(StringHash(path)), ToByte(NullableStringHash(extensionPath)),
          ToByte(textRangeStart)]
         + Bytes(seq(|imports|, k requires 0 <= k < |imports| => importHash(imports[k])))
         + Bytes(seq(|superPaths|, k requires 0 <= k < |superPaths| => StringHash(superPaths[k]))))
  }

  /**
   * Two documentables of one file that differ only in where they start, 256
   * characters apart (two overloads, say), get the same identifier.
   */
  lemma IdentifierCollision(importHash: Import -> int, imports: seq<Import>, file: string, path: string,
                            extensionPath: Option<string>, superPaths: seq<string>, textRangeStart: int)
    ensures ComputeIdentifier(importHash, imports, file, path, extensionPath, superPaths, textRangeStart)
         == ComputeIdentifier(importHash, imports, file, path, extensionPath, superPaths, textRangeStart + 256)
  {
    assert ToByte(textRangeStart) == ToByte(textRangeStart + 256);
  }

  /** The identifier depends on the hash codes only: two files whose paths share a hash code are not told apart. */
  lemma IdentifierSeesHashesOnly(importHash: Import -> int, imports: seq<Import>, file: string, file': string,
                                 path: string, extensionPath: Option<string>, superPaths: seq<string>,
                                 textRangeStart: int)
    requires ToByte(StringHash(file)) == ToByte(StringHash(file'))
    ensures ComputeIdentifier(importHash, imports, file, path, extensionPath, superPaths, textRangeStart)
         == ComputeIdentifier(importHash, imports, file', path, extensionPath, superPaths, textRangeStart)
  {
  }

  /**
   * The identifier as the documentation describes it ("a unique identifier for
   * this documentable"): made of the identifying values themselves.
   */
  function DocumentableIdentity(file: string, path: string, extensionPath: Option<string>, textRangeStart: int,
                                imports: seq<Import>, superPaths: seq<string>): Id
  {
    Key(file, path, extensionPath, textRangeStart, imports, superPaths)
  }

  /** Documentables get the same identity only when all their identifying values agree. */
  lemma IdentityUnique(file: string, path: string, extensionPath: Option<string>, textRangeStart: int,
                       imports: seq<Import>, superPaths: seq<string>,
                       file': string, path': string, extensionPath': Option<string>, textRangeStart': int,
                       imports': seq<Import>, superPaths': seq<string>)
    ensures DocumentableIdentity(file, path, extensionPath, textRangeStart, imports, superPaths)
         == DocumentableIdentity(file', path', extensionPath', textRangeStart', imports', superPaths')
      <==> (file == file' && path == path' && extensionPath == extensionPath'
            && textRangeStart == textRangeStart' && imports == imports' && superPaths == superPaths')
  {
  }

  /** Where the identifier as written collides, the identity tells the two documentables apart. */
  lemma IdentitySeparatesCollision(importHash: Import -> int, imports: seq<Import>, file: string, path: string,
                                   extensionPath: Option<string>, superPaths: seq<string>, textRangeStart: int)
    ensures ComputeIdentifier(importHash, imports, file, path, extensionPath, superPaths, textRangeStart)
         == ComputeIdentifier(importHash, imports, file, path, extensionPath, superPaths, textRangeStart + 256)
    ensures DocumentableIdentity(file, path, extensionPath, textRangeStart, imports, superPaths)
         != DocumentableIdentity(file, path, extensionPath, textRangeStart + 256, imports, superPaths)
  {
    IdentifierCollision(importHash, imports, file, path, extensionPath, superPaths, textRangeStart);
  }

  /** `getDocHashcode` (line 204). */
  function DocHashcode(d: Documentable): int {
    StringHash(d.docContent)
  }

  // ---------------------------------------------------------------------------
  // Construction, paths, copy
  // ---------------------------------------------------------------------------

  /** `docContent.findTagNames().toSet()` */
  function TagSet(docContent: string): set<string> {
    set t | t in InlineTags.AllTagNames(docContent)
  }

  /**
   * The secondary constructor (lines 113-148): tags found in the content, not
   * modified, documentation present when the content is non-empty and the
   * comment range holds more than one character, and the default identifier
   * of lines 71-78.
   */
  function NewDocumentable(importHash: Import -> int, docContent: string, programmingLanguage: Language,
                           imports: seq<Import>, rawSource: string,
                           fullyQualifiedPath: string, fullyQualifiedExtensionPath: Option<string>,
                           fullyQualifiedSuperPaths: seq<string>, file: string, docFileTextRange: IntRange,
                           docIndent: int, annotations: seq<string>, fileTextRange: IntRange, origin: int,
                           htmlRangeStart: Option<int>, htmlRangeEnd: Option<int>): (d: Documentable)
    ensures forall t :: t in d.tags <==> t in InlineTags.AllTagNames(docContent)
    ensures !d.isModified
    ensures d.sourceHasDocumentation <==> docContent != [] && docFileTextRange.Size() > 1
    ensures d.docContent == docContent && d.fullyQualifiedPath == fullyQualifiedPath
    ensures d.identifier == ComputeIdentifier(importHash, imports, file, fullyQualifiedPath,
                                              fullyQualifiedExtensionPath, fullyQualifiedSuperPaths, fileTextRange.first)
    ensures d.imports == imports && d.file == file && d.fullyQualifiedExtensionPath == fullyQualifiedExtensionPath
         && d.fullyQualifiedSuperPaths == fullyQualifiedSuperPaths && d.fileTextRange == fileTextRange
  {
    Documentable(programmingLanguage, imports, rawSource, docContent != [] && docFileTextRange.Size() > 1,
                 fullyQualifiedPath, fullyQualifiedExtensionPath, fullyQualifiedSuperPaths, file, docFileTextRange,
                 docIndent, annotations, fileTextRange,
                 ComputeIdentifier(importHash, imports, file, fullyQualifiedPath, fullyQualifiedExtensionPath,
                                   fullyQualifiedSuperPaths, fileTextRange.first),
                 origin, docContent, TagSet(docContent), false, htmlRangeStart, htmlRangeEnd)
  }

  /** Two overloads 256 characters apart in one file are built with the same identifier. */
  lemma ConstructedIdentifiersCollide(importHash: Import -> int, docContent: string, programmingLanguage: Language,
                                      imports: seq<Import>, rawSource: string, fullyQualifiedPath: string,
                                      fullyQualifiedExtensionPath: Option<string>, fullyQualifiedSuperPaths: seq<string>,
                                      file: string, docFileTextRange: IntRange, docIndent: int,
                                      annotations: seq<string>, fileTextRange: IntRange, origin: int)
    ensures var d := NewDocumentable(importHash, docContent, programmingLanguage, imports, rawSource,
                                     fullyQualifiedPath, fullyQualifiedExtensionPath, fullyQualifiedSuperPaths, file,
                                     docFileTextRange, docIndent, annotations, fileTextRange, origin, None, None);
            var e := NewDocumentable(importHash, docContent, programmingLanguage, imports, rawSource,
                                     fullyQualifiedPath, fullyQualifiedExtensionPath, fullyQualifiedSuperPaths, file,
                                     docFileTextRange, docIndent, annotations, IntRange(fileTextRange.first + 256, fileTextRange.last + 256), origin,
                                     None, None);
            d != e && d.identifier == e.identifier
  {
    IdentifierCollision(importHash, imports, file, fullyQualifiedPath, fullyQualifiedExtensionPath,
                        fullyQualifiedSuperPaths, fileTextRange.first);
  }

  /** `paths` (line 150): the path, then the extension path if there is one. */
  function Paths(d: Documentable): (ps: seq<string>)
    ensures 1 <= |ps| <= 2 && ps[0] == d.fullyQualifiedPath
    ensures forall p :: p in ps <==> p == d.fullyQualifiedPath || d.fullyQualifiedExtensionPath == Some(p)
    ensures |ps| == 2 <==> d.fullyQualifiedExtensionPath.Some?
  {
    [d.fullyQualifiedPath] + match d.fullyQualifiedExtensionPath { case Some(e) => [e] case None => [] }
  }

  /** `copy` (lines 176-201). */
  function Copy(d: Documentable, docContent: string, tags: set<string>, isModified: bool): (c: Documentable)
    // only the doc content, the tags and the modified flag can differ
    ensures c.(docContent := d.docContent, tags := d.tags, isModified := d.isModified) == d
    ensures c.docContent == docContent && c.tags == tags && c.isModified == isModified
  {
    d.(docContent := docContent, tags := tags, isModified := isModified)
  }

  /** A copy keeps the identifier and the paths, a copy with the defaults is the same documentable, and a copy of a copy is one copy. */
  lemma CopyLaws(d: Documentable, docContent: string, tags: set<string>, isModified: bool,
                 docContent': string, tags': set<string>, isModified': bool)
    ensures Copy(d, docContent, tags, isModified).identifier == d.identifier
    ensures Paths(Copy(d, docContent, tags, isModified)) == Paths(d)
    ensures Copy(d, d.docContent, d.tags, d.isModified) == d
    ensures Copy(Copy(d, docContent, tags, isModified), docContent', tags', isModified')
         == Copy(d, docContent', tags', isModified')
  {
  }

  // ---------------------------------------------------------------------------
  // getDocContentForHtmlRange (lines 206-211)
  // ---------------------------------------------------------------------------

  /**
   * The line breaks of `lines()` made uniform: a `"\r\n"` pair and a lone
   * `'\r'` each become one `'\n'`.
   */
  function LineBreaksUnified(s: string): (r: string)
    ensures '\r' !in r
    decreases |s|
  {
    if s == [] then []
    else if s[0] == '\r' && |s| >= 2 && s[1] == '\n' then "\n" + LineBreaksUnified(s[2..])
    else if s[0] == '\r' then "\n" + LineBreaksUnified(s[1..])
    else [s[0]] + LineBreaksUnified(s[1..])
  }

  /** `lines()`: `"\r\n"`, `"\n"` and `"\r"` all end a line. */
  function Lines(s: string): (ls: seq<string>)
    ensures |ls| >= 1
    ensures forall k :: 0 <= k < |ls| ==> '\n' !in ls[k] && '\r' !in ls[k]
  {
    var u := LineBreaksUnified(s);
    SplitAvoids(u, '\n', '\r');
    Split(u, '\n')
  }

  /** A character missing from `s` is missing from every part of its split. */
  lemma {:induction false} SplitAvoids(s: string, c: char, e: char)
    requires e !in s
    ensures forall k :: 0 <= k < |Split(s, c)| ==> e !in Split(s, c)[k]
    decreases |s|
  {
    var k := IndexOfChar(s, c);
    if k < |s| {
      var t := s[k + 1..];
      assert e !in t by {
        forall j | 0 <= j < |t| ensures t[j] != e {
          assert t[j] == s[k + 1 + j];
        }
      }
      SplitAvoids(s[k + 1..], c, e);
      assert e !in s[..k] by {
        forall j | 0 <= j < k ensures s[..k][j] != e {
          assert s[..k][j] == s[j];
        }
      }
    }
  }

  /** Text without a `'\r'` keeps its line breaks. */
  lemma {:induction false} UnifiedWithoutReturns(s: string)
    requires '\r' !in s
    ensures LineBreaksUnified(s) == s
    decreases |s|
  {
    if s != [] {
      assert s[0] != '\r' && '\r' !in s[1..];
      UnifiedWithoutReturns(s[1..]);
      assert s == [s[0]] + s[1..];
    }
  }

  /** No part and no separator holds `e`, so neither does the join. */
  lemma {:induction false} JoinAvoids(parts: seq<string>, sep: string, e: char)
    requires e !in sep
    requires forall k :: 0 <= k < |parts| ==> e !in parts[k]
    ensures e !in Join(parts, sep)
  {
    if |parts| > 1 {
      JoinAvoids(parts[1..], sep, e);
      assert Join(parts, sep) == parts[0] + sep + Join(parts[1..], sep);
    }
  }

  /** A lone `'\r'` ends a line. */
  lemma LoneReturnEndsLine()
    ensures Lines("a\rb") == ["a", "b"]
  {
    assert LineBreaksUnified("b") == "b";
    assert LineBreaksUnified("\rb") == "\nb";
    assert LineBreaksUnified("a\rb") == "a\nb";
    OneBreak();
  }

  /** So does a `"\r\n"` pair, which is one line break and not two. */
  lemma ReturnNewlineEndsLine()
    ensures Lines("a\r\nb") == ["a", "b"]
  {
    assert LineBreaksUnified("b") == "b";
    assert LineBreaksUnified("\r\nb") == "\nb";
    assert LineBreaksUnified("a\r\nb") == "a\nb";
    OneBreak();
  }

  lemma OneBreak()
    ensures Split("a\nb", '\n') == ["a", "b"]
  {
    assert IndexOfChar("b", '\n') == 1;
    assert Split("b", '\n') == ["b"];
    assert "a\nb"[2..] == "b" && "a\nb"[..1] == "a";
    assert IndexOfChar("a\nb", '\n') == 1;
  }

  function HtmlStart(d: Documentable): int {
    d.htmlRangeStart.GetOr(0)
  }

  function HtmlEnd(d: Documentable): int {
    d.htmlRangeEnd.GetOr(|Lines(d.docContent)| - 1)
  }

  /**
   * `getDocContentForHtmlRange`. `subList(start, end + 1)` checks its bounds
   * as the JDK's `subListRangeCheck` does: an index outside the list of lines
   * throws `IndexOutOfBoundsException`; otherwise a start past the end, as
   * when `@exportAsHtmlEnd` comes on an earlier line than
   * `@exportAsHtmlStart`, throws `IllegalArgumentException`.
   */
  function DocContentForHtmlRange(d: Documentable): (r: Result<string>)
    ensures r.Ok? <==> 0 <= HtmlStart(d) <= HtmlEnd(d) + 1 <= |Lines(d.docContent)|
    ensures HtmlStart(d) < 0 || HtmlEnd(d) + 1 > |Lines(d.docContent)| ==> r == Err(IndexOutOfBounds)
    ensures 0 <= HtmlStart(d) && HtmlEnd(d) + 1 <= |Lines(d.docContent)| && HtmlStart(d) > HtmlEnd(d) + 1 ==>
      r == Err(SubListReversed(HtmlStart(d), HtmlEnd(d) + 1))
  {
    var lines := Lines(d.docContent);
    var start := HtmlStart(d);
    var end := HtmlEnd(d);
    if start < 0 || end + 1 > |lines| then Err(IndexOutOfBounds)
    else if start > end + 1 then Err(SubListReversed(start, end + 1))
    else Ok(Join(lines[start..end + 1], "\n"))
  }

  /** What `subList(from, to)` throws for `from > to`. */
  function SubListReversed(from: int, to: int): Failure {
    IllegalArgument("fromIndex(" + IntToString(from) + ") > toIndex(" + IntToString(to) + ")")
  }

  /**
   * Markers the wrong way round inside the lines: the end marker on line 0
   * and the start marker on line 3 of a doc of at least three lines make
   * `subList(3, 1)` refuse its arguments, with no index out of bounds.
   */
  lemma ReversedMarkersRefused(d: Documentable)
    requires d.htmlRangeStart == Some(3) && d.htmlRangeEnd == Some(0) && |Lines(d.docContent)| >= 3
    ensures DocContentForHtmlRange(d) == Err(IllegalArgument("fromIndex(3) > toIndex(1)"))
  {
    assert HtmlStart(d) == 3 && HtmlEnd(d) == 0;
    assert IntToString(3) == "3" && IntToString(1) == "1";
    assert "fromIndex(" + "3" + ") > toIndex(" + "1" + ")" == "fromIndex(3) > toIndex(1)";
  }

  /** The lines of the result are lines `start..end` of the doc, both included. */
  lemma HtmlRangeLines(d: Documentable)
    requires DocContentForHtmlRange(d).Ok? && HtmlStart(d) <= HtmlEnd(d)
    ensures Lines(DocContentForHtmlRange(d).value) == Lines(d.docContent)[HtmlStart(d)..HtmlEnd(d) + 1]
  {
    var lines := Lines(d.docContent);
    var part := lines[HtmlStart(d)..HtmlEnd(d) + 1];
    var joined := Join(part, "\n");
    assert DocContentForHtmlRange(d).value == joined;
    forall k | 0 <= k < |part| ensures '\n' !in part[k] && '\r' !in part[k] {
      assert part[k] == lines[HtmlStart(d) + k];
    }
    JoinAvoids(part, "\n", '\r');
    UnifiedWithoutReturns(joined);
    assert "\n" == ['\n'];
    SplitJoin(part, '\n');
    assert Split(joined, '\n') == part;
  }

  /**
   * Without markers the whole doc content is exported, its line breaks
   * written as `'\n'`; content without a `'\r'` comes back unchanged.
   */
  lemma HtmlRangeDefault(d: Documentable)
    requires d.htmlRangeStart.None? && d.htmlRangeEnd.None?
    ensures DocContentForHtmlRange(d) == Ok(LineBreaksUnified(d.docContent))
    ensures '\r' !in d.docContent ==> DocContentForHtmlRange(d) == Ok(d.docContent)
  {
    var lines := Lines(d.docContent);
    assert lines[0..|lines|] == lines;
    JoinSplit(LineBreaksUnified(d.docContent), '\n');
    if '\r' !in d.docContent {
      UnifiedWithoutReturns(d.docContent);
    }
  }

  // ---------------------------------------------------------------------------
  // The documentables by path that are queried
  // ---------------------------------------------------------------------------

  /** A `DocumentableWrapperFilter`, or `NO_FILTER`. */
  datatype Filter = NoFilter | Where(keep: Documentable -> bool)

  function Filtered(f: Filter, ds: seq<Documentable>): (r: seq<Documentable>)
    ensures |r| <= |ds|
    ensures forall x :: x in r <==> x in ds && (f.Where? ==> f.keep(x))
  {
    match f
    case NoFilter => ds
    case Where(keep) =>
      if ds == [] then []
      else (if keep(ds[0]) then [ds[0]] else []) + Filtered(f, ds[1..])
  }

  /**
   * A `DocumentablesByPath` (that interface is not part of this model): the
   * documentables known under each path, the two filters, and whether queries
   * must try every candidate path.
   */
  datatype Library = Library(
    entries: map<string, seq<Documentable>>,
    queryFilter: Filter,
    documentablesToProcessFilter: Filter,
    needToQueryAllPaths: bool)

  /** `query(path, context)`: `null` for an unknown path. */
  function Query(lib: Library, path: string): Option<seq<Documentable>> {
    if path in lib.entries then Some(Filtered(lib.queryFilter, lib.entries[path])) else None
  }

  /** `withoutFilters()` */
  function WithoutFilters(lib: Library): (r: Library)
    ensures r.queryFilter == NoFilter && r.documentablesToProcessFilter == NoFilter
    ensures r.entries == lib.entries && r.needToQueryAllPaths == lib.needToQueryAllPaths
  {
    lib.(queryFilter := NoFilter, documentablesToProcessFilter := NoFilter)
  }

  function QueryOrEmpty(lib: Library, path: string): seq<Documentable> {
    Query(lib, path).GetOr([])
  }

  // ---------------------------------------------------------------------------
  // getAllTypes (lines 152-173)
  // ---------------------------------------------------------------------------

  /** `this += x` on an insertion-ordered set, for every `x` of `xs` in turn. */
  function AddAll<T(==)>(acc: seq<T>, xs: seq<T>): seq<T>
    decreases |xs|
  {
    if xs == [] then acc else AddAll(if xs[0] in acc then acc else acc + [xs[0]], xs[1..])
  }

  predicate Distinct<T(==)>(xs: seq<T>) {
    forall i, j :: 0 <= i < j < |xs| ==> xs[i] != xs[j]
  }

  /**
   * The types of `d`: itself, then the types of every documentable found under
   * each of its supertype paths, in order, each once. `depth` bounds how many
   * supertype levels are followed.
   */
  function AllTypes(lib: Library, d: Documentable, depth: nat): seq<Documentable>
    decreases depth, 3
  {
    if depth == 0 then [d] else SuperTypes([d], lib, d.fullyQualifiedSuperPaths, depth - 1)
  }

  function SuperTypes(acc: seq<Documentable>, lib: Library, paths: seq<string>, depth: nat): seq<Documentable>
    decreases depth + 1, 2, |paths|
  {
    if paths == [] then acc
    else SuperTypes(TypesOfAll(acc, lib, QueryOrEmpty(lib, paths[0]), depth), lib, paths[1..], depth)
  }

  function TypesOfAll(acc: seq<Documentable>, lib: Library, ds: seq<Documentable>, depth: nat): seq<Documentable>
    decreases depth + 1, 1, |ds|
  {
    if ds == [] then acc else TypesOfAll(AddAll(acc, AllTypes(lib, ds[0], depth)), lib, ds[1..], depth)
  }

  lemma {:induction false} AddAllGrows<T>(acc: seq<T>, xs: seq<T>)
    decreases |xs|
    ensures |AddAll(acc, xs)| >= |acc| && AddAll(acc, xs)[..|acc|] == acc
    ensures forall x :: x in AddAll(acc, xs) <==> x in acc || x in xs
    ensures Distinct(acc) ==> Distinct(AddAll(acc, xs))
  {
    if xs != [] {
      var next := if xs[0] in acc then acc else acc + [xs[0]];
      AddAllGrows(next, xs[1..]);
      assert next[..|acc|] == acc;
      assert AddAll(acc, xs)[..|acc|] == AddAll(acc, xs)[..|next|][..|acc|];
      assert xs == [xs[0]] + xs[1..];
    }
  }

  lemma {:induction false} TypesOfAllGrows(acc: seq<Documentable>, lib: Library, ds: seq<Documentable>, depth: nat)
    ensures |TypesOfAll(acc, lib, ds, depth)| >= |acc| && TypesOfAll(acc, lib, ds, depth)[..|acc|] == acc
    ensures Distinct(acc) ==> Distinct(TypesOfAll(acc, lib, ds, depth))
    ensures forall x :: x in ds ==> x in TypesOfAll(acc, lib, ds, depth)
    decreases depth + 1, 1, |ds|
  {
    if ds != [] {
      var next := AddAll(acc, AllTypes(lib, ds[0], depth));
      AddAllGrows(acc, AllTypes(lib, ds[0], depth));
      AllTypesStart(lib, ds[0], depth);
      TypesOfAllGrows(next, lib, ds[1..], depth);
      assert TypesOfAll(acc, lib, ds, depth)[..|acc|] == TypesOfAll(acc, lib, ds, depth)[..|next|][..|acc|];
      forall x | x in ds ensures x in TypesOfAll(acc, lib, ds, depth) {
        if x == ds[0] {
          assert x in next;
          assert next[IndexIn(next, x)] == x;
          assert TypesOfAll(acc, lib, ds, depth)[..|next|][IndexIn(next, x)] == x;
        } else {
          assert x in ds[1..];
        }
      }
    }
  }

  function IndexIn<T(==)>(xs: seq<T>, x: T): (k: nat)
    requires x in xs
    ensures k < |xs| && xs[k] == x
  {
    if xs[0] == x then 0 else 1 + IndexIn(xs[1..], x)
  }

  lemma {:induction false} SuperTypesGrows(acc: seq<Documentable>, lib: Library, paths: seq<string>, depth: nat)
    ensures |SuperTypes(acc, lib, paths, depth)| >= |acc| && SuperTypes(acc, lib, paths, depth)[..|acc|] == acc
    ensures Distinct(acc) ==> Distinct(SuperTypes(acc, lib, paths, depth))
    ensures forall k, x :: 0 <= k < |paths| && x in QueryOrEmpty(lib, paths[k]) ==> x in SuperTypes(acc, lib, paths, depth)
    decreases depth + 1, 2, |paths|
  {
    if paths != [] {
      var next := TypesOfAll(acc, lib, QueryOrEmpty(lib, paths[0]), depth);
      TypesOfAllGrows(acc, lib, QueryOrEmpty(lib, paths[0]), depth);
      SuperTypesGrows(next, lib, paths[1..], depth);
      var r := SuperTypes(acc, lib, paths, depth);
      assert r[..|acc|] == r[..|next|][..|acc|];
      forall k, x | 0 <= k < |paths| && x in QueryOrEmpty(lib, paths[k]) ensures x in r {
        if k == 0 {
          assert next[IndexIn(next, x)] == x;
          assert r[..|next|][IndexIn(next, x)] == x;
        } else {
          assert paths[k] == paths[1..][k - 1];
        }
      }
    }
  }

  lemma {:induction false} AllTypesStart(lib: Library, d: Documentable, depth: nat)
    ensures |AllTypes(lib, d, depth)| >= 1 && AllTypes(lib, d, depth)[0] == d
    decreases depth, 3
  {
    if depth > 0 {
      SuperTypesGrows([d], lib, d.fullyQualifiedSuperPaths, depth - 1);
      assert AllTypes(lib, d, depth)[..1] == [d];
    }
  }

  /**
   * The types start with the documentable itself, hold each type once, and
   * (when a level remains) hold every documentable found under a supertype path.
   */
  lemma AllTypesSpec(lib: Library, d: Documentable, depth: nat)
    ensures |AllTypes(lib, d, depth)| >= 1 && AllTypes(lib, d, depth)[0] == d
    ensures Distinct(AllTypes(lib, d, depth))
    ensures depth > 0 ==>
      (forall k, x :: 0 <= k < |d.fullyQualifiedSuperPaths| && x in QueryOrEmpty(lib, d.fullyQualifiedSuperPaths[k])
        ==> x in AllTypes(lib, d, depth))
  {
    AllTypesStart(lib, d, depth);
    if depth > 0 {
      SuperTypesGrows([d], lib, d.fullyQualifiedSuperPaths, depth - 1);
    }
  }

  /**
   * `x` is `d`, or a type of a documentable found under one of `d`'s
   * supertype paths, reached in at most `depth` such steps.
   */
  ghost predicate ReachableType(lib: Library, d: Documentable, x: Documentable, depth: nat)
    decreases depth
  {
    x == d
    || (depth > 0 && exists k, y :: 0 <= k < |d.fullyQualifiedSuperPaths|
                                 && y in QueryOrEmpty(lib, d.fullyQualifiedSuperPaths[k])
                                 && ReachableType(lib, y, x, depth - 1))
  }

  /** `x` is one of the types of a documentable of `ds`. */
  ghost predicate TypeOfOne(lib: Library, ds: seq<Documentable>, x: Documentable, depth: nat) {
    exists y :: y in ds && x in AllTypes(lib, y, depth)
  }

  lemma {:induction false} TypesOfAllMembers(acc: seq<Documentable>, lib: Library, ds: seq<Documentable>, depth: nat)
    ensures forall x :: x in TypesOfAll(acc, lib, ds, depth) <==> x in acc || TypeOfOne(lib, ds, x, depth)
    decreases |ds|
  {
    if ds != [] {
      var next := AddAll(acc, AllTypes(lib, ds[0], depth));
      AddAllGrows(acc, AllTypes(lib, ds[0], depth));
      TypesOfAllMembers(next, lib, ds[1..], depth);
      forall x ensures TypeOfOne(lib, ds, x, depth) <==> x in AllTypes(lib, ds[0], depth) || TypeOfOne(lib, ds[1..], x, depth) {
        if TypeOfOne(lib, ds, x, depth) {
          var y :| y in ds && x in AllTypes(lib, y, depth);
          if y != ds[0] {
            assert y in ds[1..];
          }
        }
        if TypeOfOne(lib, ds[1..], x, depth) {
          var y :| y in ds[1..] && x in AllTypes(lib, y, depth);
          assert y in ds;
        }
      }
    }
  }

  lemma {:induction false} SuperTypesMembers(acc: seq<Documentable>, lib: Library, paths: seq<string>, depth: nat)
    ensures forall x :: x in SuperTypes(acc, lib, paths, depth)
                    <==> x in acc || exists k :: 0 <= k < |paths| && TypeOfOne(lib, QueryOrEmpty(lib, paths[k]), x, depth)
    decreases |paths|
  {
    if paths != [] {
      var next := TypesOfAll(acc, lib, QueryOrEmpty(lib, paths[0]), depth);
      TypesOfAllMembers(acc, lib, QueryOrEmpty(lib, paths[0]), depth);
      SuperTypesMembers(next, lib, paths[1..], depth);
      var rest := paths[1..];
      forall x, k | 0 <= k < |rest| && TypeOfOne(lib, QueryOrEmpty(lib, rest[k]), x, depth)
        ensures exists j :: 0 <= j < |paths| && TypeOfOne(lib, QueryOrEmpty(lib, paths[j]), x, depth)
      {
        assert rest[k] == paths[k + 1];
      }
      forall x, k | 0 <= k < |paths| && TypeOfOne(lib, QueryOrEmpty(lib, paths[k]), x, depth)
        ensures x in SuperTypes(acc, lib, paths, depth)
      {
        if k > 0 {
          assert paths[k] == rest[k - 1];
        }
      }
    }
  }

  /**
   * The types are exactly the documentables reachable from `d` through
   * supertype-path queries in at most `depth` steps.
   */
  lemma {:induction false} AllTypesReachable(lib: Library, d: Documentable, depth: nat)
    ensures forall x :: x in AllTypes(lib, d, depth) <==> ReachableType(lib, d, x, depth)
    decreases depth
  {
    if depth > 0 {
      var ps := d.fullyQualifiedSuperPaths;
      var e: nat := depth - 1;
      forall y, x ensures x in AllTypes(lib, y, e) <==> ReachableType(lib, y, x, e) {
        AllTypesReachable(lib, y, e);
      }
      SuperTypesMembers([d], lib, ps, depth - 1);
      forall x ensures x in AllTypes(lib, d, depth) <==> ReachableType(lib, d, x, depth) {
        if ReachableType(lib, d, x, depth) && x != d {
          var k, y :| 0 <= k < |ps| && y in QueryOrEmpty(lib, ps[k]) && ReachableType(lib, y, x, depth - 1);
          assert TypeOfOne(lib, QueryOrEmpty(lib, ps[k]), x, depth - 1);
        }
        if x in AllTypes(lib, d, depth) && x != d {
          var k :| 0 <= k < |ps| && TypeOfOne(lib, QueryOrEmpty(lib, ps[k]), x, depth - 1);
          var y :| y in QueryOrEmpty(lib, ps[k]) && x in AllTypes(lib, y, depth - 1);
          assert ReachableType(lib, y, x, depth - 1);
        }
      }
    }
  }

  /** The lazily filled `allTypes` of one documentable. */
  class AllTypesCache {
    const owner: Documentable
    var allTypes: Option<seq<Documentable>>

    ghost predicate Valid()
      reads this
    {
      allTypes.Some? ==> |allTypes.value| >= 1 && allTypes.value[0] == owner
    }

    constructor (owner: Documentable)
      ensures this.owner == owner && allTypes.None? && Valid()
    {
      this.owner := owner;
      allTypes := None;
    }

    /**
     * `getAllTypes`: computed on the first call, over the documentables without
     * filters; later calls return the first result, whatever they are given.
     */
    method GetAllTypes(documentables: Library, depth: nat) returns (r: seq<Documentable>)
      requires Valid()
      modifies this
      ensures Valid() && |r| >= 1 && r[0] == owner
      ensures old(allTypes).Some? ==> r == old(allTypes).value && allTypes == old(allTypes)
      ensures old(allTypes).None? ==> r == AllTypes(WithoutFilters(documentables), owner, depth) && allTypes == Some(r)
    {
      if allTypes.None? {
        var types := AllTypes(WithoutFilters(documentables), owner, depth);
        AllTypesStart(WithoutFilters(documentables), owner, depth);
        allTypes := Some(types);
      }
      r := allTypes.value;
    }
  }

  /**
   * A `MutableDocumentableWrapper` when `isMutable`, the immutable wrapper
   * otherwise; processors that need to change a documentable check which.
   */
  class DocumentableWrapper {
    const isMutable: bool
    var doc: Documentable

    constructor (doc: Documentable, isMutable: bool)
      ensures this.doc == doc && this.isMutable == isMutable
    {
      this.doc := doc;
      this.isMutable := isMutable;
    }
  }
}
