/**
 * `kodex-common/.../documentableWrapper/QueryUtils.kt`: the candidate full
 * paths a reference written inside a documentable may stand for, and the
 * queries that resolve the reference to a documentable or a path.
 */
module QueryUtils {
  import opened Wrappers
  import opened Text
  import opened Documentables

  const FiltersNotAllowed: Failure :=
    IllegalArgument("DocumentablesByPath must not have any filters in `getAllFullPathsFromHereForTargetPath()`.")

  /** Lines 140-142: both filters are `NO_FILTER`. */
  predicate HasNoFilters(lib: Library) {
    lib.queryFilter.NoFilter? && lib.documentablesToProcessFilter.NoFilter?
  }

  // ---------------------------------------------------------------------------
  // getPathsUsingImports (lines 106-118)
  // ---------------------------------------------------------------------------

  /** `replaceFirst(old, new)` on strings. */
  function ReplaceFirst(s: string, oldValue: string, newValue: string): string {
    match IndexOf(s, oldValue)
    case Some(k) => s[..k] + newValue + s[k + |oldValue|..]
    case None => s
  }

  /** What one import contributes for `target`. */
  function ImportPath(imp: Import, target: string): Option<string> {
    match imp
    case AllUnder(qualifiedName) => Some(RemoveSuffix(qualifiedName, "*") + target)
    case Exact(qualifiedName, identifier) =>
      if StartsWith(target, identifier) then Some(ReplaceFirst(target, identifier, qualifiedName)) else None
  }

  function Contribution(imp: Import, target: string): seq<string> {
    match ImportPath(imp, target) case Some(p) => [p] case None => []
  }

  function ImportPaths(imports: seq<Import>, target: string): seq<string> {
    if imports == [] then []
    else ImportPaths(imports[..|imports| - 1], target) + Contribution(imports[|imports| - 1], target)
  }

  /** `getPathsUsingImports`: the loop over the imports. */
  method PathsUsingImports(imports: seq<Import>, targetPath: string) returns (r: seq<string>)
    ensures r == ImportPaths(imports, targetPath)
  {
    r := [];
    for i := 0 to |imports|
      invariant r == ImportPaths(imports[..i], targetPath)
    {
      assert imports[..i + 1][..i] == imports[..i];
      var imp := imports[i];
      if imp.AllUnder? {
        r := r + [RemoveSuffix(imp.pathStr, "*") + targetPath];
      } else if StartsWith(targetPath, imp.importedName) {
        r := r + [ReplaceFirst(targetPath, imp.importedName, imp.pathStr)];
      }
    }
    assert imports[..|imports|] == imports;
  }

  /** Every candidate is what some import contributes. */
  lemma {:induction false} ImportPathsSound(imports: seq<Import>, target: string)
    ensures forall x :: x in ImportPaths(imports, target) ==>
      exists i :: 0 <= i < |imports| && x in Contribution(imports[i], target)
  {
    if imports != [] {
      var init := imports[..|imports| - 1];
      var last := imports[|imports| - 1];
      ImportPathsSound(init, target);
      forall x | x in ImportPaths(imports, target)
        ensures exists i :: 0 <= i < |imports| && x in Contribution(imports[i], target)
      {
        if x !in Contribution(last, target) {
          assert x in ImportPaths(init, target);
          var i :| 0 <= i < |init| && x in Contribution(init[i], target);
          assert imports[i] == init[i];
        }
      }
    }
  }

  /** What every import contributes is a candidate. */
  lemma {:induction false} ImportPathsComplete(imports: seq<Import>, target: string)
    ensures forall i, x :: 0 <= i < |imports| && x in Contribution(imports[i], target) ==>
      x in ImportPaths(imports, target)
  {
    forall i, x | 0 <= i < |imports| && x in Contribution(imports[i], target) ensures x in ImportPaths(imports, target) {
      ImportPathIn(imports, target, i, x);
    }
  }

  /** What import `i` contributes is a candidate. */
  lemma {:induction false} ImportPathIn(imports: seq<Import>, target: string, i: nat, x: string)
    requires i < |imports| && x in Contribution(imports[i], target)
    ensures x in ImportPaths(imports, target)
  {
    var init := imports[..|imports| - 1];
    if i < |init| {
      assert imports[i] == init[i];
      ImportPathIn(init, target, i, x);
    }
  }

  /**
   * A wildcard import contributes its package followed by the target; an
   * exact import whose name starts the target contributes the target with
   * that name replaced by the qualified name; no other import contributes.
   */
  lemma ImportPathMeaning(imp: Import, target: string)
    ensures imp.AllUnder? ==> Contribution(imp, target) == [RemoveSuffix(imp.pathStr, "*") + target]
    ensures imp.Exact? && StartsWith(target, imp.importedName) ==>
      Contribution(imp, target) == [imp.pathStr + target[|imp.importedName|..]]
    ensures imp.Exact? && !StartsWith(target, imp.importedName) ==> Contribution(imp, target) == []
  {
    if imp.Exact? && StartsWith(target, imp.importedName) {
      var id := imp.importedName;
      assert OccursAt(target, id, 0);
      assert IndexOf(target, id) == Some(0);
      assert ReplaceFirst(target, id, imp.pathStr) == target[..0] + imp.pathStr + target[|id|..];
      assert target[..0] + imp.pathStr == imp.pathStr;
    }
  }

  // ---------------------------------------------------------------------------
  // The sub paths of a path (lines 144-152)
  // ---------------------------------------------------------------------------

  /** `joinToString(".")` of `parts`, then of `parts` without its last element, and so on. */
  function PrefixJoins(parts: seq<string>): seq<string>
    decreases |parts|
  {
    if parts == [] then [] else [Join(parts, ".")] + PrefixJoins(parts[..|parts| - 1])
  }

  /** The dotted prefixes of `path`, longest first. */
  function DottedPrefixes(path: string): seq<string> {
    PrefixJoins(Split(path, '.'))
  }

  /** The set the loop builds, in insertion order. */
  function SubPathsFrom(acc: seq<string>, paths: seq<string>): seq<string>
    decreases |paths|
  {
    if paths == [] then acc else SubPathsFrom(AddAll(acc, DottedPrefixes(paths[0])), paths[1..])
  }

  function SubPathsOf(paths: seq<string>): seq<string> {
    SubPathsFrom([], paths)
  }

  /** Lines 144-152: every path split on `.`, its segments dropped from the end one by one. */
  method SubPaths(paths: seq<string>) returns (r: seq<string>)
    ensures r == SubPathsOf(paths)
  {
    r := [];
    for i := 0 to |paths|
      invariant SubPathsFrom(r, paths[i..]) == SubPathsOf(paths)
    {
      assert paths[i..][1..] == paths[i + 1..];
      var current := Split(paths[i], '.');
      ghost var start := r;
      while current != []
        invariant AddAll(r, PrefixJoins(current)) == AddAll(start, DottedPrefixes(paths[i]))
        decreases |current|
      {
        var joined := Join(current, ".");
        assert PrefixJoins(current)[1..] == PrefixJoins(current[..|current| - 1]);
        if joined !in r {
          r := r + [joined];
        }
        current := current[..|current| - 1];
      }
    }
  }

  lemma {:induction false} PrefixJoinsMembers(parts: seq<string>)
    ensures forall x :: x in PrefixJoins(parts) <==> exists k :: 1 <= k <= |parts| && x == Join(parts[..k], ".")
    decreases |parts|
  {
    if parts != [] {
      var init := parts[..|parts| - 1];
      PrefixJoinsMembers(init);
      assert parts[..|parts|] == parts;
      forall k | 1 <= k <= |init| ensures init[..k] == parts[..k] { }
      forall x | x in PrefixJoins(parts) ensures exists k :: 1 <= k <= |parts| && x == Join(parts[..k], ".") {
        if x != Join(parts, ".") {
          assert PrefixJoins(parts) == [Join(parts, ".")] + PrefixJoins(init);
          assert x in PrefixJoins(init);
          var k :| 1 <= k <= |init| && x == Join(init[..k], ".");
          assert x == Join(parts[..k], ".");
        }
      }
    }
  }

  /** `joinToString` of two non-empty halves is the two joins with a separator between. */
  lemma {:induction false} JoinAppend(a: seq<string>, b: seq<string>, sep: string)
    requires a != [] && b != []
    ensures Join(a + b, sep) == Join(a, sep) + sep + Join(b, sep)
    decreases |a|
  {
    if |a| > 1 {
      JoinAppend(a[1..], b, sep);
      assert (a + b)[1..] == a[1..] + b;
    }
  }

  /** Every dotted prefix is the path itself or a part of it followed by `.`. */
  lemma DottedPrefixMeaning(path: string, x: string)
    requires x in DottedPrefixes(path)
    ensures x == path || StartsWith(path, x + ".")
  {
    var parts := Split(path, '.');
    PrefixJoinsMembers(parts);
    var k :| 1 <= k <= |parts| && x == Join(parts[..k], ".");
    JoinSplit(path, '.');
    if k < |parts| {
      assert parts == parts[..k] + parts[k..];
      JoinAppend(parts[..k], parts[k..], ".");
      assert path == x + "." + Join(parts[k..], ".");
      assert (x + ".") + Join(parts[k..], ".") == path;
    } else {
      assert parts[..k] == parts;
    }
  }

  lemma {:induction false} SubPathsFromMembers(acc: seq<string>, paths: seq<string>)
    ensures forall x :: x in SubPathsFrom(acc, paths) <==>
      x in acc || exists i :: 0 <= i < |paths| && x in DottedPrefixes(paths[i])
    decreases |paths|
  {
    if paths != [] {
      AddAllGrows(acc, DottedPrefixes(paths[0]));
      SubPathsFromMembers(AddAll(acc, DottedPrefixes(paths[0])), paths[1..]);
      forall i | 0 < i < |paths| ensures paths[i] == paths[1..][i - 1] { }
      forall x | x in SubPathsFrom(acc, paths) && x !in acc
        ensures exists i :: 0 <= i < |paths| && x in DottedPrefixes(paths[i])
      {
        if x !in DottedPrefixes(paths[0]) {
          var i :| 0 <= i < |paths[1..]| && x in DottedPrefixes(paths[1..][i]);
          assert x in DottedPrefixes(paths[i + 1]);
        }
      }
    }
  }

  // ---------------------------------------------------------------------------
  // getAllFullPathsFromHereForTargetPath (lines 135-189)
  // ---------------------------------------------------------------------------

  /** `flatMap { it.paths }` */
  function PathsOfAll(ds: seq<Documentable>): seq<string> {
    if ds == [] then [] else Paths(ds[0]) + PathsOfAll(ds[1..])
  }

  /** `"$prefix.$target"` for every prefix. */
  function WithTarget(prefixes: seq<string>, target: string): seq<string> {
    if prefixes == [] then [] else [prefixes[0] + "." + target] + WithTarget(prefixes[1..], target)
  }

  /** `"${it.fullyQualifiedPath}.$target"` for every documentable. */
  function MembersOf(ds: seq<Documentable>, target: string): seq<string> {
    if ds == [] then [] else [ds[0].fullyQualifiedPath + "." + target] + MembersOf(ds[1..], target)
  }

  /** Lines 143-166: the sub-path candidates, then the import candidates, then the target itself. */
  function BasePaths(d: Documentable, target: string, lib: Library, depth: nat): seq<string> {
    var subPaths := SubPathsOf(PathsOfAll(AllTypes(lib, d, depth)));
    AddAll(AddAll(AddAll([], WithTarget(subPaths, target)), ImportPaths(d.imports, target)), [target])
  }

  /** `{ it != this }` */
  function Other(d: Documentable): Documentable -> bool {
    x => x != d
  }

  function Rank(canBeExtension: bool): nat {
    if canBeExtension then 1 else 0
  }

  /**
   * `getAllFullPathsFromHereForTargetPath`: `depth` bounds the supertype levels
   * `getAllTypes` follows.
   */
  function AllFullPaths(d: Documentable, target: string, lib: Library, canBeExtension: bool, depth: nat)
    : (r: Result<seq<string>>)
    ensures r.Err? <==> !HasNoFilters(lib)
    ensures r.Err? ==> r.error == FiltersNotAllowed
    decreases Rank(canBeExtension), 1
  {
    if !HasNoFilters(lib) then Err(FiltersNotAllowed)
    else
      var base := BasePaths(d, target, lib, depth);
      var parts := Split(target, '.');
      if !canBeExtension || |parts| <= 1 then Ok(base)
      else
        var receiver := Join(parts[..|parts| - 1], ".");
        var found := QueryDocumentables(d, receiver, lib, lib, false, Other(d), depth);
        if found.Ok? && found.value.Some? then
          Ok(AddAll(base, MembersOf(AllTypes(lib, found.value.value, depth), parts[|parts| - 1])))
        else Ok(base)
  }

  /** Lines 71-92: the paths `queryDocumentables` tries, in order. */
  function Candidates(d: Documentable, query: string, noFilters: Library, documentables: Library,
                      canBeExtension: bool, depth: nat): (r: Result<seq<string>>)
    ensures !documentables.needToQueryAllPaths ==> r == Ok([query])
    ensures documentables.needToQueryAllPaths ==> (r.Err? <==> !HasNoFilters(noFilters))
    decreases Rank(canBeExtension), 2
  {
    if !documentables.needToQueryAllPaths then Ok([query])
    else
      match AllFullPaths(d, query, noFilters, canBeExtension, depth)
      case Err(e) => Err(e)
      case Ok(paths) =>
        var splitQuery := Split(query, '.');
        if d.programmingLanguage == Java && EndsWith(splitQuery[0], "Kt") then
          var more := AllFullPaths(d, Join(splitQuery[1..], "."), noFilters, canBeExtension, depth);
          Ok(paths + more.value)
        else Ok(paths)
  }

  /** `firstOrNull(filter)` */
  function FirstPassing(ds: seq<Documentable>, filter: Documentable -> bool): Option<Documentable> {
    if ds == [] then None else if filter(ds[0]) then Some(ds[0]) else FirstPassing(ds[1..], filter)
  }

  /** `firstNotNullOfOrNull { query(it)?.firstOrNull(filter) }` */
  function FirstHit(lib: Library, paths: seq<string>, filter: Documentable -> bool): Option<Documentable> {
    if paths == [] then None
    else match FirstPassing(QueryOrEmpty(lib, paths[0]), filter)
      case Some(x) => Some(x)
      case None => FirstHit(lib, paths[1..], filter)
  }

  /** `queryDocumentables` (lines 63-101). */
  function QueryDocumentables(d: Documentable, query: string, noFilters: Library, documentables: Library,
                              canBeExtension: bool, filter: Documentable -> bool, depth: nat)
    : (r: Result<Option<Documentable>>)
    ensures r.Err? <==> documentables.needToQueryAllPaths && !HasNoFilters(noFilters)
    decreases Rank(canBeExtension), 3
  {
    match Candidates(d, query, noFilters, documentables, canBeExtension, depth)
    case Err(e) => Err(e)
    case Ok(queries) => Ok(FirstHit(documentables, queries, filter))
  }

  // ---------------------------------------------------------------------------
  // queryDocumentablesForPath (lines 12-53)
  // ---------------------------------------------------------------------------

  /** `query(it)?.size ?: 0` */
  function Collisions(lib: Library, path: string): nat {
    |QueryOrEmpty(lib, path)|
  }

  /** `minByOrNull { collisions }` on a non-empty list: the first path with the fewest. */
  function FewestCollisions(paths: seq<string>, lib: Library): string
    requires paths != []
  {
    if |paths| == 1 then paths[0]
    else
      var best := FewestCollisions(paths[1..], lib);
      if Collisions(lib, paths[0]) <= Collisions(lib, best) then paths[0] else best
  }

  /** `filter { path -> pathIsValid(path, found) }` */
  function ValidPaths(paths: seq<string>, found: Documentable, pathIsValid: (string, Documentable) -> bool)
    : (r: seq<string>)
    ensures forall p :: p in r <==> p in paths && pathIsValid(p, found)
  {
    if paths == [] then []
    else (if pathIsValid(paths[0], found) then [paths[0]] else []) + ValidPaths(paths[1..], found, pathIsValid)
  }

  /** `firstOrNull { query(it) != null }` */
  function FirstQueried(lib: Library, paths: seq<string>): Option<string> {
    if paths == [] then None else if paths[0] in lib.entries then Some(paths[0]) else FirstQueried(lib, paths[1..])
  }

  /** `queryDocumentablesForPath` */
  function QueryDocumentablesForPath(d: Documentable, query: string, noFilters: Library, documentables: Library,
                                     canBeExtension: bool, pathIsValid: (string, Documentable) -> bool,
                                     filter: Documentable -> bool, depth: nat): (r: Result<Option<string>>)
    ensures r.Err? <==>
      (!HasNoFilters(noFilters) &&
       (documentables.needToQueryAllPaths
        || QueryDocumentables(d, query, noFilters, documentables, canBeExtension, filter, depth) == Ok(None)))
  {
    match QueryDocumentables(d, query, noFilters, documentables, canBeExtension, filter, depth)
    case Err(e) => Err(e)
    case Ok(Some(found)) =>
      var valid := ValidPaths(Paths(found), found, pathIsValid);
      if valid != [] then Ok(Some(FewestCollisions(valid, documentables))) else Ok(Some(found.fullyQualifiedPath))
    case Ok(None) =>
      match AllFullPaths(d, query, noFilters, canBeExtension, depth)
      case Err(e) => Err(e)
      case Ok(queries) => Ok(FirstQueried(documentables, queries))
  }

  // ---------------------------------------------------------------------------
  // What the candidates hold
  // ---------------------------------------------------------------------------

  lemma {:induction false} WithTargetMembers(prefixes: seq<string>, target: string)
    ensures forall x :: x in prefixes ==> x + "." + target in WithTarget(prefixes, target)
  {
    if prefixes != [] {
      WithTargetMembers(prefixes[1..], target);
    }
  }

  lemma {:induction false} MembersOfMembers(ds: seq<Documentable>, target: string)
    ensures forall x :: x in ds ==> x.fullyQualifiedPath + "." + target in MembersOf(ds, target)
  {
    if ds != [] {
      MembersOfMembers(ds[1..], target);
    }
  }

  lemma {:induction false} PathsOfAllMembers(ds: seq<Documentable>)
    ensures forall x, p :: x in ds && p in Paths(x) ==> p in PathsOfAll(ds)
  {
    if ds != [] {
      PathsOfAllMembers(ds[1..]);
    }
  }

  /**
   * Lines 154-166: the base candidates are exactly `prefix.target` for the
   * dotted prefixes of the paths of all types, the import candidates and the
   * target, each once.
   */
  lemma BasePathsMembers(d: Documentable, target: string, lib: Library, depth: nat)
    ensures var base := BasePaths(d, target, lib, depth);
      && Distinct(base)
      && target in base
      && (forall x :: x in ImportPaths(d.imports, target) ==> x in base)
      && (forall t, p, x :: t in AllTypes(lib, d, depth) && p in Paths(t) && x in DottedPrefixes(p) ==>
            x + "." + target in base)
      && (forall y :: y in base ==>
            (y == target || y in ImportPaths(d.imports, target)
             || y in WithTarget(SubPathsOf(PathsOfAll(AllTypes(lib, d, depth))), target)))
  {
    var types := AllTypes(lib, d, depth);
    var all := PathsOfAll(types);
    var subPaths := SubPathsOf(all);
    var first := WithTarget(subPaths, target);
    var a := AddAll([], first);
    var b := AddAll(a, ImportPaths(d.imports, target));
    AddAllGrows([], first);
    AddAllGrows(a, ImportPaths(d.imports, target));
    AddAllGrows(b, [target]);
    ImportPathsComplete(d.imports, target);
    PathsOfAllMembers(types);
    SubPathsFromMembers([], all);
    WithTargetMembers(subPaths, target);
    forall t, p, x | t in types && p in Paths(t) && x in DottedPrefixes(p) ensures x + "." + target in first {
      assert p in all;
      var i :| 0 <= i < |all| && all[i] == p;
      assert x in subPaths;
    }
  }

  /** Lines 168-173: without `canBeExtension`, or for a target without `.`, only the base candidates. */
  lemma NoReceiverCandidates(d: Documentable, target: string, lib: Library, canBeExtension: bool, depth: nat)
    requires HasNoFilters(lib)
    requires !canBeExtension || '.' !in target
    ensures AllFullPaths(d, target, lib, canBeExtension, depth) == Ok(BasePaths(d, target, lib, depth))
  {
    if '.' !in target {
      assert IndexOfChar(target, '.') == |target|;
    }
  }

  lemma BaseDistinct(d: Documentable, target: string, lib: Library, depth: nat)
    ensures Distinct(BasePaths(d, target, lib, depth))
  {
    var subPaths := SubPathsOf(PathsOfAll(AllTypes(lib, d, depth)));
    var a := AddAll([], WithTarget(subPaths, target));
    var b := AddAll(a, ImportPaths(d.imports, target));
    AddAllGrows([], WithTarget(subPaths, target));
    AddAllGrows(a, ImportPaths(d.imports, target));
    AddAllGrows(b, [target]);
  }

  /** Lines 154-186: the base candidates come first, and no candidate appears twice. */
  lemma BaseComesFirst(d: Documentable, target: string, lib: Library, canBeExtension: bool, depth: nat)
    requires HasNoFilters(lib)
    ensures var r := AllFullPaths(d, target, lib, canBeExtension, depth).value;
      var base := BasePaths(d, target, lib, depth);
      |base| <= |r| && r[..|base|] == base && Distinct(r)
  {
    var base := BasePaths(d, target, lib, depth);
    BaseDistinct(d, target, lib, depth);
    var parts := Split(target, '.');
    if canBeExtension && |parts| > 1 {
      var receiver := Join(parts[..|parts| - 1], ".");
      var found := QueryDocumentables(d, receiver, lib, lib, false, Other(d), depth);
      if found.Ok? && found.value.Some? {
        var members := MembersOf(AllTypes(lib, found.value.value, depth), parts[|parts| - 1]);
        assert AllFullPaths(d, target, lib, canBeExtension, depth) == Ok(AddAll(base, members));
        AddAllGrows(base, members);
      } else {
        assert AllFullPaths(d, target, lib, canBeExtension, depth) == Ok(base);
        assert base[..|base|] == base;
      }
    } else {
      assert AllFullPaths(d, target, lib, canBeExtension, depth) == Ok(base);
      assert base[..|base|] == base;
    }
  }

  /**
   * Lines 170-185: when the receiver part of a dotted target is found among
   * the other documentables, the target's last segment on each of the
   * receiver's types is a candidate.
   */
  lemma ReceiverCandidates(d: Documentable, target: string, lib: Library, depth: nat)
    requires HasNoFilters(lib)
    ensures var parts := Split(target, '.');
      var receiver := Join(parts[..|parts| - 1], ".");
      var found := QueryDocumentables(d, receiver, lib, lib, false, Other(d), depth);
      |parts| > 1 && found.Ok? && found.value.Some? ==>
        found.value.value != d
        && forall t :: t in AllTypes(lib, found.value.value, depth) ==>
             t.fullyQualifiedPath + "." + parts[|parts| - 1] in AllFullPaths(d, target, lib, true, depth).value
  {
    var parts := Split(target, '.');
    if |parts| > 1 {
      var receiver := Join(parts[..|parts| - 1], ".");
      var found := QueryDocumentables(d, receiver, lib, lib, false, Other(d), depth);
      if found.Ok? && found.value.Some? {
        var base := BasePaths(d, target, lib, depth);
        var members := MembersOf(AllTypes(lib, found.value.value, depth), parts[|parts| - 1]);
        assert AllFullPaths(d, target, lib, true, depth) == Ok(AddAll(base, members));
        AddAllGrows(base, members);
        MembersOfMembers(AllTypes(lib, found.value.value, depth), parts[|parts| - 1]);
        QueryFindsPassing(d, receiver, lib, lib, false, Other(d), depth);
      }
    }
  }

  // ---------------------------------------------------------------------------
  // What the queries return
  // ---------------------------------------------------------------------------

  lemma {:induction false} FirstPassingSpec(ds: seq<Documentable>, filter: Documentable -> bool)
    ensures FirstPassing(ds, filter).None? <==> forall k :: 0 <= k < |ds| ==> !filter(ds[k])
    ensures FirstPassing(ds, filter).Some? ==>
      exists k :: 0 <= k < |ds| && ds[k] == FirstPassing(ds, filter).value && filter(ds[k])
        && forall j :: 0 <= j < k ==> !filter(ds[j])
  {
    if ds != [] && !filter(ds[0]) {
      FirstPassingSpec(ds[1..], filter);
      forall k | 0 < k < |ds| ensures ds[k] == ds[1..][k - 1] { }
      var r := FirstPassing(ds, filter);
      if r.Some? {
        var k :| 0 <= k < |ds[1..]| && ds[1..][k] == r.value && filter(ds[1..][k])
          && forall j :: 0 <= j < k ==> !filter(ds[1..][j]);
        assert ds[k + 1] == r.value;
        forall j | 0 <= j < k + 1 ensures !filter(ds[j]) {
          if j > 0 { assert ds[j] == ds[1..][j - 1]; }
        }
      }
    } else if ds != [] {
      assert filter(ds[0]);
    }
  }

  /**
   * `FirstHit` finds something exactly when some candidate path has a
   * documentable that passes the filter, and then it is the first passing
   * documentable under the first such path.
   */
  lemma {:induction false} FirstHitSpec(lib: Library, paths: seq<string>, filter: Documentable -> bool)
    ensures FirstHit(lib, paths, filter).None? <==>
      forall i :: 0 <= i < |paths| ==> FirstPassing(QueryOrEmpty(lib, paths[i]), filter).None?
    ensures FirstHit(lib, paths, filter).Some? ==>
      exists i :: 0 <= i < |paths| && FirstPassing(QueryOrEmpty(lib, paths[i]), filter) == FirstHit(lib, paths, filter)
        && forall j :: 0 <= j < i ==> FirstPassing(QueryOrEmpty(lib, paths[j]), filter).None?
  {
    if paths != [] && FirstPassing(QueryOrEmpty(lib, paths[0]), filter).None? {
      FirstHitSpec(lib, paths[1..], filter);
      forall i | 0 < i < |paths| ensures paths[i] == paths[1..][i - 1] { }
      var r := FirstHit(lib, paths, filter);
      if r.Some? {
        var i :| 0 <= i < |paths[1..]| && FirstPassing(QueryOrEmpty(lib, paths[1..][i]), filter) == r
          && forall j :: 0 <= j < i ==> FirstPassing(QueryOrEmpty(lib, paths[1..][j]), filter).None?;
        assert paths[i + 1] == paths[1..][i];
        forall j | 0 <= j < i + 1 ensures FirstPassing(QueryOrEmpty(lib, paths[j]), filter).None? {
          if j > 0 { assert paths[j] == paths[1..][j - 1]; }
        }
      }
    } else if paths != [] {
      assert FirstPassing(QueryOrEmpty(lib, paths[0]), filter).Some?;
    }
  }

  lemma {:induction false} FirstHitPasses(lib: Library, paths: seq<string>, filter: Documentable -> bool)
    ensures FirstHit(lib, paths, filter).Some? ==> filter(FirstHit(lib, paths, filter).value)
  {
    if paths != [] {
      FirstPassingSpec(QueryOrEmpty(lib, paths[0]), filter);
      FirstHitPasses(lib, paths[1..], filter);
    }
  }

  /** What `queryDocumentables` returns passes the filter. */
  lemma QueryFindsPassing(d: Documentable, query: string, noFilters: Library, documentables: Library,
                          canBeExtension: bool, filter: Documentable -> bool, depth: nat)
    ensures var r := QueryDocumentables(d, query, noFilters, documentables, canBeExtension, filter, depth);
      r.Ok? && r.value.Some? ==> filter(r.value.value)
  {
    var c := Candidates(d, query, noFilters, documentables, canBeExtension, depth);
    if c.Ok? {
      FirstHitPasses(documentables, c.value, filter);
    }
  }

  /**
   * Lines 89-91 and 94-100: without `needToQueryAllPaths` only the query
   * itself is tried, and the result is the first documentable under it that
   * passes the filter.
   */
  lemma QueryOnlyItself(d: Documentable, query: string, noFilters: Library, documentables: Library,
                        canBeExtension: bool, filter: Documentable -> bool, depth: nat)
    requires !documentables.needToQueryAllPaths
    ensures QueryDocumentables(d, query, noFilters, documentables, canBeExtension, filter, depth)
      == Ok(FirstPassing(QueryOrEmpty(documentables, query), filter))
  {
    assert FirstHit(documentables, [query][1..], filter) == None;
  }

  /**
   * Lines 72-88: with `needToQueryAllPaths` the candidates are all full paths
   * for the query, followed, from Java and for a query whose first segment ends
   * in `Kt`, by all full paths for the query without that segment.
   */
  lemma QueryAllCandidates(d: Documentable, query: string, noFilters: Library, documentables: Library,
                           canBeExtension: bool, filter: Documentable -> bool, depth: nat)
    requires documentables.needToQueryAllPaths && HasNoFilters(noFilters)
    ensures var parts := Split(query, '.');
      var paths := AllFullPaths(d, query, noFilters, canBeExtension, depth).value;
      var more := if d.programmingLanguage == Java && EndsWith(parts[0], "Kt")
        then AllFullPaths(d, Join(parts[1..], "."), noFilters, canBeExtension, depth).value else [];
      QueryDocumentables(d, query, noFilters, documentables, canBeExtension, filter, depth)
        == Ok(FirstHit(documentables, paths + more, filter))
  {
    var parts := Split(query, '.');
    var paths := AllFullPaths(d, query, noFilters, canBeExtension, depth).value;
    assert paths + [] == paths;
  }

  /** `FewestCollisions` is a path of the list no other path beats, and no earlier one ties. */
  lemma {:induction false} FewestCollisionsSpec(paths: seq<string>, lib: Library)
    requires paths != []
    ensures exists k :: (0 <= k < |paths| && paths[k] == FewestCollisions(paths, lib)
      && forall j :: 0 <= j < k ==> Collisions(lib, paths[j]) > Collisions(lib, paths[k]))
    ensures forall p :: p in paths ==> Collisions(lib, FewestCollisions(paths, lib)) <= Collisions(lib, p)
  {
    if |paths| > 1 {
      FewestCollisionsSpec(paths[1..], lib);
      var best := FewestCollisions(paths[1..], lib);
      forall i | 0 < i < |paths| ensures paths[i] == paths[1..][i - 1] { }
      if Collisions(lib, paths[0]) > Collisions(lib, best) {
        var k :| 0 <= k < |paths[1..]| && paths[1..][k] == best
          && forall j :: 0 <= j < k ==> Collisions(lib, paths[1..][j]) > Collisions(lib, paths[1..][k]);
        assert paths[k + 1] == best;
        forall j | 0 <= j < k + 1 ensures Collisions(lib, paths[j]) > Collisions(lib, paths[k + 1]) {
          if j > 0 { assert paths[j] == paths[1..][j - 1]; }
        }
      } else {
        assert paths[0] == FewestCollisions(paths, lib);
      }
    } else {
      assert FewestCollisions(paths, lib) == paths[0];
    }
  }

  /**
   * Lines 27-42: for a found documentable, the result is the valid path with
   * the fewest collisions, or its full path when neither path is valid.
   */
  lemma ForPathFound(d: Documentable, query: string, noFilters: Library, documentables: Library,
                     canBeExtension: bool, pathIsValid: (string, Documentable) -> bool,
                     filter: Documentable -> bool, depth: nat, found: Documentable)
    requires QueryDocumentables(d, query, noFilters, documentables, canBeExtension, filter, depth) == Ok(Some(found))
    ensures var r := QueryDocumentablesForPath(d, query, noFilters, documentables, canBeExtension, pathIsValid, filter, depth);
      && r.Ok? && r.value.Some?
      && ((forall p :: p in Paths(found) ==> !pathIsValid(p, found)) ==> r.value.value == found.fullyQualifiedPath)
    ensures var r := QueryDocumentablesForPath(d, query, noFilters, documentables, canBeExtension, pathIsValid, filter, depth);
      forall p :: p in Paths(found) && pathIsValid(p, found) ==>
        && r.value.value in Paths(found) && pathIsValid(r.value.value, found)
        && Collisions(documentables, r.value.value) <= Collisions(documentables, p)
  {
    var valid := ValidPaths(Paths(found), found, pathIsValid);
    if valid != [] {
      FewestCollisionsSpec(valid, documentables);
    }
  }

  /** Lines 44-52: with nothing found, the first candidate full path the documentables know. */
  lemma {:induction false} FirstQueriedSpec(lib: Library, paths: seq<string>)
    ensures FirstQueried(lib, paths).None? <==> forall i :: 0 <= i < |paths| ==> paths[i] !in lib.entries
    ensures FirstQueried(lib, paths).Some? ==>
      exists i :: 0 <= i < |paths| && paths[i] == FirstQueried(lib, paths).value && Query(lib, paths[i]).Some?
        && forall j :: 0 <= j < i ==> Query(lib, paths[j]).None?
  {
    if paths != [] && paths[0] !in lib.entries {
      FirstQueriedSpec(lib, paths[1..]);
      forall i | 0 < i < |paths| ensures paths[i] == paths[1..][i - 1] { }
      var r := FirstQueried(lib, paths);
      if r.Some? {
        var i :| 0 <= i < |paths[1..]| && paths[1..][i] == r.value && Query(lib, paths[1..][i]).Some?
          && forall j :: 0 <= j < i ==> Query(lib, paths[1..][j]).None?;
        assert paths[i + 1] == r.value;
        forall j | 0 <= j < i + 1 ensures Query(lib, paths[j]).None? {
          if j > 0 { assert paths[j] == paths[1..][j - 1]; }
        }
      }
    } else if paths != [] {
      assert Query(lib, paths[0]).Some?;
    }
  }
}
