/**
 * `IncludeDocAnalyzer` of `kodex-common/.../defaultProcessors/IncludeDocAnalyzer.kt`:
 * every `@include` found in a documentable records an edge from the included
 * documentable to the including one, and the edges make up the dependency graph.
 */
module IncludeAnalysis {
  import opened Wrappers
  import opened TagNames
  import opened DocUtils
  import opened Documentables
  import opened QueryUtils
  import opened Graphs

  /** `IncludeDocProcessor.TAG` */
  const IncludeTag: string := "include"

  /** `this::class.simpleName` */
  const Name: string := "IncludeDocAnalyzer"

  /** What `processSafely` raises on a second run. */
  const AlreadyRun: Failure := IllegalState(
    "This instance of nl.jolanrensen.kodex.defaultProcessors.IncludeDocAnalyzer has already run and cannot be reused.")

  const NotAnalysed: Failure := IllegalArgument("analyze must be called before getAnalyzedResult")

  /** `{ it.identifier != documentable.identifier }` */
  function OtherThan(documentable: Documentable): Documentable -> bool {
    (x: Documentable) => x.identifier != documentable.identifier
  }

  /** `tagIsSupported` (line 85). */
  predicate TagIsSupported(tag: string) {
    tag == IncludeTag
  }

  /** `filterDocumentablesToProcess` and `filterDocumentablesToQuery` (lines 87-91). */
  predicate FilterDocumentables(d: Documentable) {
    d.sourceHasDocumentation
  }

  /**
   * Where a run over the `@include` lines stands: the recorded edges, the
   * analysed identifiers, the targets handed back for analysis, in order,
   * and the failure that stopped the run, if any.
   */
  datatype Analysis = Analysis(dependencies: set<Edge<Documentable>>, analyzed: set<Id>,
                               requested: seq<Documentable>, failure: Option<Failure>)

  class IncludeDocAnalyzer {
    const documentablesByPath: Library
    /** How many supertype levels `getAllTypes` follows in the queries. */
    const depth: nat
    var analyzeQueriesToo: bool
    var hasRun: bool
    var dependencies: set<Edge<Documentable>>
    var analyzedDocumentables: set<Id>

    /** No recorded edge goes from a documentable to itself. */
    ghost predicate Valid()
      reads this
    {
      forall e :: e in dependencies ==> e.from.identifier != e.to.identifier
    }

    constructor (documentablesByPath: Library, analyzeQueriesToo: bool, depth: nat)
      ensures this.documentablesByPath == documentablesByPath && this.depth == depth
      ensures this.analyzeQueriesToo == analyzeQueriesToo
      ensures !hasRun && dependencies == {} && analyzedDocumentables == {}
      ensures Valid()
    {
      this.documentablesByPath := documentablesByPath;
      this.depth := depth;
      this.analyzeQueriesToo := analyzeQueriesToo;
      hasRun := false;
      dependencies := {};
      analyzedDocumentables := {};
    }

    /** Line 43: `documentablesByPath.withoutFilters()` */
    function UnfilteredDocumentablesByPath(): (r: Library)
      ensures HasNoFilters(r)
    {
      WithoutFilters(documentablesByPath)
    }

    /** Lines 49-57: the documentable an `@include` line refers to, if any. */
    function IncludeTarget(line: string, documentable: Documentable): Result<Option<Documentable>> {
      match GetTagArguments(line, IncludeTag, 2)
      case Err(e) => Err(e)
      case Ok(includeArguments) =>
        if includeArguments == [] then Err(NoSuchElement)
        else
          var includePath := DecodeCallableTarget(includeArguments[0]);
          QueryDocumentables(documentable, includePath, UnfilteredDocumentablesByPath(), documentablesByPath,
                             true, OtherThan(documentable), depth)
    }

    /**
     * `analyseContent` (lines 48-71). The returned documentable is the target
     * to analyse as well (`analyzeDocumentable` belongs to `TagDocAnalyser`,
     * which is not part of this model).
     */
    method AnalyseContent(line: string, documentable: Documentable) returns (r: Result<Option<Documentable>>)
      requires Valid()
      modifies this
      ensures Valid()
      ensures hasRun == old(hasRun) && analyzeQueriesToo == old(analyzeQueriesToo)
      ensures Recorded(IncludeTarget(line, documentable), documentable, old(dependencies), old(analyzedDocumentables), r)
    {
      var found := IncludeTarget(line, documentable);
      IncludeTargetOther(line, documentable);
      r := Record(found, documentable);
    }

    /** `Records` with this analyzer's setting and state. */
    ghost predicate Recorded(found: Result<Option<Documentable>>, documentable: Documentable,
                             dependencies0: set<Edge<Documentable>>, analyzed0: set<Id>,
                             r: Result<Option<Documentable>>)
      reads this
    {
      Records(found, documentable, analyzeQueriesToo, dependencies0, analyzed0, dependencies, analyzedDocumentables, r)
    }

    method Record(found: Result<Option<Documentable>>, documentable: Documentable) returns (r: Result<Option<Documentable>>)
      requires Valid()
      requires found.Ok? && found.value.Some? ==> found.value.value.identifier != documentable.identifier
      modifies this
      ensures Valid()
      ensures hasRun == old(hasRun) && analyzeQueriesToo == old(analyzeQueriesToo)
      ensures Recorded(found, documentable, old(dependencies), old(analyzedDocumentables), r)
    {
      if found.Err? {
        return Err(found.error);
      }
      r := Ok(None);
      if found.value.Some? {
        var target := found.value.value;
        dependencies := dependencies + {Edge(target, documentable)};
        if analyzeQueriesToo && target.identifier !in analyzedDocumentables {
          r := Ok(Some(target));
        }
      }
      analyzedDocumentables := analyzedDocumentables + {documentable.identifier};
    }

    /** `founds` holds the query outcome of each line. */
    ghost predicate Queried(lines: seq<(string, Documentable)>, founds: seq<Result<Option<Documentable>>>) {
      && |founds| == |lines|
      && forall j {:trigger IncludeTarget(lines[j].0, lines[j].1)} ::
           0 <= j < |lines| ==> founds[j] == IncludeTarget(lines[j].0, lines[j].1)
    }

    /** The query outcome of each line (lines 49-57). */
    function IncludeTargets(lines: seq<(string, Documentable)>): (founds: seq<Result<Option<Documentable>>>)
      ensures Queried(lines, founds)
    {
      seq(|lines|, j requires 0 <= j < |lines| => IncludeTarget(lines[j].0, lines[j].1))
    }

    /**
     * `analyseContent` on line `i`, whose query outcome is `founds[i]`, as a
     * step of the run: a failure is kept, and a target handed back joins
     * `requested`.
     */
    method AnalyseLine(lines: seq<(string, Documentable)>, i: nat, ghost founds: seq<Result<Option<Documentable>>>,
                       requested: seq<Documentable>)
      returns (requested': seq<Documentable>, failure: Option<Failure>)
      requires Valid() && i < |lines| && Queried(lines, founds)
      modifies this
      ensures Valid()
      ensures hasRun == old(hasRun) && analyzeQueriesToo == old(analyzeQueriesToo)
      ensures Current(requested', failure) == AnalysisStep(old(Current(requested, None)), founds[i], lines[i].1, analyzeQueriesToo)
    {
      var one := AnalyseContent(lines[i].0, lines[i].1);
      RecordsStep(founds[i], lines[i].1, analyzeQueriesToo, old(dependencies), old(analyzedDocumentables),
                  dependencies, analyzedDocumentables, one, requested);
      requested', failure := requested + Handed(one), Failed(one);
    }

    /** The current state as a run that has not failed, with `requested` handed back so far. */
    function Current(requested: seq<Documentable>, failure: Option<Failure>): Analysis
      reads this`dependencies, this`analyzedDocumentables
    {
      Analysis(dependencies, analyzedDocumentables, requested, failure)
    }

    /**
     * The analysis `processSafely` runs (DocAnalyser.kt lines 14-25): each
     * `@include` line with the documentable it is in, in the order given,
     * stopping at the first failure, which is passed on wrapped in a
     * `DocProcessorFailedException`. A second run is refused before anything
     * happens; otherwise the processor counts as run afterwards, whatever
     * happened. The edges, the analysed identifiers, the targets returned and
     * the failure are those of `AnalysisOf` over all the lines.
     */
    method Analyze(lines: seq<(string, Documentable)>) returns (r: Result<seq<Documentable>>)
      requires Valid()
      modifies this
      ensures Valid() && hasRun
      ensures old(hasRun) ==>
        r == Err(AlreadyRun) && dependencies == old(dependencies) && analyzedDocumentables == old(analyzedDocumentables)
      ensures !old(hasRun) ==>
        var a := AnalysisOf(lines, IncludeTargets(lines), |lines|, old(Current([], None)), old(analyzeQueriesToo));
        && dependencies == a.dependencies && analyzedDocumentables == a.analyzed
        && r == (if a.failure.Some? then Err(ProcessorFailed(Name, a.failure)) else Ok(a.requested))
    {
      if hasRun {
        return Err(AlreadyRun);
      }
      var requested, failure := AnalyseLines(lines, IncludeTargets(lines));
      hasRun := true;
      r := if failure.Some? then Err(ProcessorFailed(Name, failure)) else Ok(requested);
    }

    /**
     * The loop of `processSafely` over the lines: `analyseContent` on each
     * line in order until one fails.
     */
    method AnalyseLines(lines: seq<(string, Documentable)>, ghost founds: seq<Result<Option<Documentable>>>)
      returns (requested: seq<Documentable>, failure: Option<Failure>)
      requires Valid() && Queried(lines, founds)
      modifies this
      ensures Valid() && hasRun == old(hasRun) && analyzeQueriesToo == old(analyzeQueriesToo)
      ensures Current(requested, failure) == AnalysisOf(lines, founds, |lines|, old(Current([], None)), analyzeQueriesToo)
    {
      ghost var start := Current([], None);
      requested, failure := [], None;
      var i := 0;
      while i < |lines| && failure.None?
        invariant 0 <= i <= |lines|
        invariant Valid() && hasRun == old(hasRun) && analyzeQueriesToo == old(analyzeQueriesToo)
        invariant Current(requested, failure) == AnalysisOf(lines, founds, i, start, analyzeQueriesToo)
        decreases |lines| - i
      {
        ghost var before := Current(requested, failure);
        requested, failure := AnalyseLine(lines, i, founds, requested);
        AnalysisNext(lines, founds, i, start, analyzeQueriesToo, before, Current(requested, failure));
        i := i + 1;
      }
      AnalysisStuck(lines, founds, i, |lines|, start, analyzeQueriesToo);
    }

    /** `getAnalyzedResult` (lines 73-83): the graph of the recorded edges. */
    method GetAnalyzedResult() returns (r: Result<Graph<Documentable>>)
      requires Valid()
      ensures !hasRun ==> r == Err(NotAnalysed)
      ensures hasRun ==> r.Ok? && r.value.edges == dependencies && r.value.vertices == Endpoints(dependencies)
      ensures r.Ok? ==> Simple(r.value)
    {
      if !hasRun {
        return Err(NotAnalysed);
      }
      var dag := BuildGraph(dependencies);
      r := Ok(dag);
    }

    /** An include target never has the includer's identifier (line 57). */
    lemma IncludeTargetOther(line: string, documentable: Documentable)
      ensures var r := IncludeTarget(line, documentable);
        r.Ok? && r.value.Some? ==> r.value.value.identifier != documentable.identifier
    {
      match GetTagArguments(line, IncludeTag, 2)
      case Err(_) =>
      case Ok(args) =>
        if args != [] {
          QueryFindsPassing(documentable, DecodeCallableTarget(args[0]), UnfilteredDocumentablesByPath(),
                            documentablesByPath, true, OtherThan(documentable), depth);
        }
    }

    /**
     * The filters never make the query fail: the only failures are a line
     * without `@include` and an argument list without a first element.
     */
    lemma IncludeTargetFailures(line: string, documentable: Documentable)
      ensures var r := IncludeTarget(line, documentable);
        r.Err? ==> r.error == NoSuchElement || r.error == IllegalArgument("Could not find @include in " + line)
    {
      MissingTagFailure(line);
      var arguments := GetTagArguments(line, IncludeTag, 2);
      if arguments.Ok? && arguments.value != [] {
        assert HasNoFilters(UnfilteredDocumentablesByPath());
      }
    }

    /** `getTagArguments` with two arguments fails only for the missing tag. */
    static lemma MissingTagFailure(line: string)
      ensures var arguments := GetTagArguments(line, IncludeTag, 2);
        arguments.Err? ==> arguments.error == IllegalArgument("Could not find @include in " + line)
    {
      assert "@" + IncludeTag == "@include";
      assert "Could not find @" + IncludeTag + " in " + line == "Could not find @include in " + line;
    }

    /** A line without `@include` is refused (`getTagArguments` requires the tag). */
    lemma UntaggedRefused(line: string, documentable: Documentable)
      requires !Text.Contains(line, "@include")
      ensures IncludeTarget(line, documentable) == Err(IllegalArgument("Could not find @include in " + line))
    {
      assert "@" + IncludeTag == "@include";
      assert "Could not find @" + IncludeTag + " in " + line == "Could not find @include in " + line;
    }

    /**
     * With the query filter of this analyzer in place, every include target
     * has documentation in its source (lines 90-91).
     */
    lemma TargetsHaveDocumentation(line: string, documentable: Documentable)
      requires documentablesByPath.queryFilter.Where?
      requires forall x :: documentablesByPath.queryFilter.keep(x) ==> FilterDocumentables(x)
      ensures var r := IncludeTarget(line, documentable);
        r.Ok? && r.value.Some? ==> r.value.value.sourceHasDocumentation
    {
      match GetTagArguments(line, IncludeTag, 2)
      case Err(_) =>
      case Ok(args) =>
        if args != [] {
          var path := DecodeCallableTarget(args[0]);
          var c := Candidates(documentable, path, UnfilteredDocumentablesByPath(), documentablesByPath, true, depth);
          if c.Ok? {
            HitsPassQueryFilter(documentablesByPath, c.value, OtherThan(documentable));
          }
        }
    }
  }

  // ---------------------------------------------------------------------------
  // The run over the lines
  // ---------------------------------------------------------------------------

  /**
   * One `analyseContent` call, whose query gave `found`, on a run that has
   * not failed: a failure stops the run; otherwise the documentable counts
   * as analysed, a target adds the edge from it, and with `queriesToo` a
   * target not yet analysed is handed back. A failed run takes no further step.
   */
  function AnalysisStep(a: Analysis, found: Result<Option<Documentable>>, documentable: Documentable, queriesToo: bool)
    : (b: Analysis)
    ensures a.failure.Some? ==> b == a
    ensures a.dependencies <= b.dependencies && a.analyzed <= b.analyzed
  {
    if a.failure.Some? then a
    else
      match found
      case Err(e) => a.(failure := Some(e))
      case Ok(None) => a.(analyzed := a.analyzed + {documentable.identifier})
      case Ok(Some(target)) =>
        Analysis(a.dependencies + {Edge(target, documentable)}, a.analyzed + {documentable.identifier},
                 a.requested + (if queriesToo && target.identifier !in a.analyzed then [target] else []), None)
  }

  /**
   * What `analyseContent` makes of the query's outcome `found`, taking the
   * edges and analysed identifiers from `dependencies0` and `analyzed0` to
   * `dependencies` and `analyzed`: a failure is passed on and changes
   * nothing; otherwise the documentable counts as analysed, a target found
   * adds the edge from it, and the target is handed back for analysis when
   * queries are analysed too and it was not yet.
   */
  ghost predicate Records(found: Result<Option<Documentable>>, documentable: Documentable, queriesToo: bool,
                          dependencies0: set<Edge<Documentable>>, analyzed0: set<Id>,
                          dependencies: set<Edge<Documentable>>, analyzed: set<Id>, r: Result<Option<Documentable>>)
  {
    match found
    case Err(e) => r == Err(e) && dependencies == dependencies0 && analyzed == analyzed0
    case Ok(None) => r == Ok(None) && dependencies == dependencies0 && analyzed == analyzed0 + {documentable.identifier}
    case Ok(Some(target)) =>
      && analyzed == analyzed0 + {documentable.identifier}
      && dependencies == dependencies0 + {Edge(target, documentable)}
      && r == (if queriesToo && target.identifier !in analyzed0 then Ok(Some(target)) else Ok(None))
  }

  /** The target `analyseContent` hands back, as a list of at most one. */
  function Handed(r: Result<Option<Documentable>>): seq<Documentable> {
    if r.Ok? && r.value.Some? then [r.value.value] else []
  }

  /** The failure `analyseContent` passes on, if any. */
  function Failed(r: Result<Option<Documentable>>): Option<Failure> {
    if r.Err? then Some(r.error) else None
  }

  /** One recorded `analyseContent` call is one step of the run. */
  lemma RecordsStep(found: Result<Option<Documentable>>, documentable: Documentable, queriesToo: bool,
                    dependencies0: set<Edge<Documentable>>, analyzed0: set<Id>,
                    dependencies: set<Edge<Documentable>>, analyzed: set<Id>, r: Result<Option<Documentable>>,
                    requested: seq<Documentable>)
    requires Records(found, documentable, queriesToo, dependencies0, analyzed0, dependencies, analyzed, r)
    ensures Analysis(dependencies, analyzed, requested + Handed(r), Failed(r))
         == AnalysisStep(Analysis(dependencies0, analyzed0, requested, None), found, documentable, queriesToo)
  {
  }

  /** The run over the first `n` lines, from `a`, each line's query giving `founds`. */
  function AnalysisOf(lines: seq<(string, Documentable)>, founds: seq<Result<Option<Documentable>>>, n: nat,
                      a: Analysis, queriesToo: bool): Analysis
    requires n <= |lines| == |founds|
  {
    if n == 0 then a
    else AnalysisStep(AnalysisOf(lines, founds, n - 1, a, queriesToo), founds[n - 1], lines[n - 1].1, queriesToo)
  }

  /** One more step carries the run over the first `i` lines to the first `i + 1`. */
  lemma AnalysisNext(lines: seq<(string, Documentable)>, founds: seq<Result<Option<Documentable>>>, i: nat,
                     a: Analysis, queriesToo: bool, before: Analysis, after: Analysis)
    requires i < |lines| == |founds|
    requires before == AnalysisOf(lines, founds, i, a, queriesToo)
    requires after == AnalysisStep(before, founds[i], lines[i].1, queriesToo)
    ensures after == AnalysisOf(lines, founds, i + 1, a, queriesToo)
  {
  }

  /** A failed run stays as it is over the remaining lines. */
  lemma {:induction false} AnalysisStuck(lines: seq<(string, Documentable)>, founds: seq<Result<Option<Documentable>>>,
                                         i: nat, n: nat, a: Analysis, queriesToo: bool)
    requires i <= n <= |lines| == |founds|
    requires i == n || AnalysisOf(lines, founds, i, a, queriesToo).failure.Some?
    ensures AnalysisOf(lines, founds, n, a, queriesToo) == AnalysisOf(lines, founds, i, a, queriesToo)
    decreases n
  {
    if i < n {
      AnalysisStuck(lines, founds, i, n - 1, a, queriesToo);
    }
  }

  /** Line `j` of the first `n` targets `t`: its query found `t`. */
  ghost predicate Targets(lines: seq<(string, Documentable)>, founds: seq<Result<Option<Documentable>>>, n: nat,
                          j: nat, t: Documentable)
    requires n <= |lines| == |founds|
  {
    j < n && founds[j] == Ok(Some(t))
  }

  /**
   * A run that does not fail records, besides the starting edges, exactly
   * the edge from each line's target to the line's documentable, and counts
   * exactly the lines' documentables as analysed besides the starting ones.
   */
  lemma {:induction false} AnalysisEdges(lines: seq<(string, Documentable)>, founds: seq<Result<Option<Documentable>>>,
                                         n: nat, a: Analysis, queriesToo: bool)
    requires n <= |lines| == |founds| && AnalysisOf(lines, founds, n, a, queriesToo).failure.None?
    ensures var b := AnalysisOf(lines, founds, n, a, queriesToo);
      && (forall e :: e in b.dependencies <==>
            e in a.dependencies || exists j: nat :: Targets(lines, founds, n, j, e.from) && e.to == lines[j].1)
      && (forall id :: id in b.analyzed <==> id in a.analyzed || exists j :: 0 <= j < n && lines[j].1.identifier == id)
  {
    if n > 0 {
      var p := AnalysisOf(lines, founds, n - 1, a, queriesToo);
      assert p.failure.None?;
      AnalysisEdges(lines, founds, n - 1, a, queriesToo);
      forall e: Edge<Documentable> ensures (exists j: nat :: Targets(lines, founds, n, j, e.from) && e.to == lines[j].1) <==>
        (exists j: nat :: Targets(lines, founds, n - 1, j, e.from) && e.to == lines[j].1)
          || (founds[n - 1] == Ok(Some(e.from)) && e.to == lines[n - 1].1)
      {
        if founds[n - 1] == Ok(Some(e.from)) && e.to == lines[n - 1].1 {
          assert Targets(lines, founds, n, n - 1, e.from);
        }
      }
    }
  }

  /**
   * A run from a state that has not failed fails exactly when some line's
   * query fails, and then with the error of the first such line.
   */
  lemma {:induction false} AnalysisFailure(lines: seq<(string, Documentable)>, founds: seq<Result<Option<Documentable>>>,
                                           n: nat, a: Analysis, queriesToo: bool)
    requires n <= |lines| == |founds| && a.failure.None?
    ensures var b := AnalysisOf(lines, founds, n, a, queriesToo);
      && (b.failure.None? <==> forall j :: 0 <= j < n ==> founds[j].Ok?)
      && (b.failure.Some? ==>
            exists j :: 0 <= j < n && founds[j] == Err(b.failure.value) && forall k :: 0 <= k < j ==> founds[k].Ok?)
  {
    if n > 0 {
      AnalysisFailure(lines, founds, n - 1, a, queriesToo);
      var p := AnalysisOf(lines, founds, n - 1, a, queriesToo);
      if p.failure.None? && founds[n - 1].Err? {
        assert forall k :: 0 <= k < n - 1 ==> founds[k].Ok?;
      }
    }
  }

  /**
   * Every target handed back was found by some line's query, while queries
   * are analysed too, and was neither analysed at the start nor the
   * documentable of an earlier line.
   */
  lemma {:induction false} RequestedFound(lines: seq<(string, Documentable)>, founds: seq<Result<Option<Documentable>>>,
                                          n: nat, a: Analysis, queriesToo: bool, x: Documentable)
    requires n <= |lines| == |founds|
    requires x in AnalysisOf(lines, founds, n, a, queriesToo).requested && x !in a.requested
    ensures queriesToo
    ensures x.identifier !in a.analyzed
    ensures exists j: nat :: Targets(lines, founds, n, j, x) && forall k :: 0 <= k < j ==> lines[k].1.identifier != x.identifier
  {
    var p := AnalysisOf(lines, founds, n - 1, a, queriesToo);
    var b := AnalysisOf(lines, founds, n, a, queriesToo);
    if x in p.requested {
      RequestedFound(lines, founds, n - 1, a, queriesToo, x);
      var j :| Targets(lines, founds, n - 1, j, x) && forall k :: 0 <= k < j ==> lines[k].1.identifier != x.identifier;
      assert Targets(lines, founds, n, j, x);
    } else {
      assert b.requested == p.requested + [x] && founds[n - 1] == Ok(Some(x)) && x.identifier !in p.analyzed;
      AnalyzedGrows(lines, founds, n - 1, a, queriesToo);
      assert Targets(lines, founds, n, n - 1, x);
    }
  }

  /** The targets handed back only grow at the end: the starting ones stay a prefix. */
  lemma {:induction false} RequestedExtends(lines: seq<(string, Documentable)>, founds: seq<Result<Option<Documentable>>>,
                                            n: nat, a: Analysis, queriesToo: bool)
    requires n <= |lines| == |founds|
    ensures var b := AnalysisOf(lines, founds, n, a, queriesToo);
      |a.requested| <= |b.requested| && b.requested[..|a.requested|] == a.requested
  {
    if n > 0 {
      RequestedExtends(lines, founds, n - 1, a, queriesToo);
      var p := AnalysisOf(lines, founds, n - 1, a, queriesToo);
      var b := AnalysisOf(lines, founds, n, a, queriesToo);
      assert b.requested == p.requested || b.requested == p.requested + [founds[n - 1].value.value];
      assert p.requested[..|a.requested|] == a.requested;
    }
  }

  /** The analysed identifiers hold the starting ones and each earlier line's documentable. */
  lemma {:induction false} AnalyzedGrows(lines: seq<(string, Documentable)>, founds: seq<Result<Option<Documentable>>>,
                                         n: nat, a: Analysis, queriesToo: bool)
    requires n <= |lines| == |founds|
    requires AnalysisOf(lines, founds, n, a, queriesToo).failure.None?
    ensures var b := AnalysisOf(lines, founds, n, a, queriesToo);
      a.analyzed <= b.analyzed && forall k :: 0 <= k < n ==> lines[k].1.identifier in b.analyzed
  {
    if n > 0 {
      AnalyzedGrows(lines, founds, n - 1, a, queriesToo);
    }
  }

  /**
   * While queries are analysed too, a run that gets past line `j` hands back
   * line `j`'s target when it was neither analysed at the start nor the
   * documentable of an earlier line.
   */
  lemma {:induction false} FoundRequested(lines: seq<(string, Documentable)>, founds: seq<Result<Option<Documentable>>>,
                                          n: nat, a: Analysis, j: nat, t: Documentable)
    requires n <= |lines| == |founds| && a.failure.None?
    requires AnalysisOf(lines, founds, n, a, true).failure.None?
    requires Targets(lines, founds, n, j, t) && t.identifier !in a.analyzed
    requires forall k :: 0 <= k < j ==> lines[k].1.identifier != t.identifier
    ensures t in AnalysisOf(lines, founds, n, a, true).requested
  {
    var p := AnalysisOf(lines, founds, n - 1, a, true);
    if j < n - 1 {
      FoundRequested(lines, founds, n - 1, a, j, t);
    } else {
      AnalyzedOnly(lines, founds, n - 1, a, t.identifier);
      assert t.identifier !in p.analyzed;
    }
  }

  /** An identifier analysed by the run is a starting one or an earlier line's documentable. */
  lemma {:induction false} AnalyzedOnly(lines: seq<(string, Documentable)>, founds: seq<Result<Option<Documentable>>>,
                                        n: nat, a: Analysis, id: Id)
    requires n <= |lines| == |founds|
    requires id !in a.analyzed && forall k :: 0 <= k < n ==> lines[k].1.identifier != id
    ensures id !in AnalysisOf(lines, founds, n, a, true).analyzed
  {
    if n > 0 {
      AnalyzedOnly(lines, founds, n - 1, a, id);
    }
  }

  /** Without `analyzeQueriesToo`, nothing is handed back. */
  lemma {:induction false} NothingRequested(lines: seq<(string, Documentable)>, founds: seq<Result<Option<Documentable>>>,
                                            n: nat, a: Analysis)
    requires n <= |lines| == |founds|
    ensures AnalysisOf(lines, founds, n, a, false).requested == a.requested
  {
    if n > 0 {
      NothingRequested(lines, founds, n - 1, a);
    }
  }

  /** What `FirstHit` finds was kept by the library's query filter. */
  lemma {:induction false} HitsPassQueryFilter(lib: Library, paths: seq<string>, filter: Documentable -> bool)
    requires lib.queryFilter.Where?
    ensures FirstHit(lib, paths, filter).Some? ==> lib.queryFilter.keep(FirstHit(lib, paths, filter).value)
  {
    if paths != [] {
      var ds := QueryOrEmpty(lib, paths[0]);
      FirstPassingSpec(ds, filter);
      if paths[0] in lib.entries {
        assert ds == Filtered(lib.queryFilter, lib.entries[paths[0]]);
      }
      HitsPassQueryFilter(lib, paths[1..], filter);
    }
  }
}
