/**
 * The `DocumentablesByPath` implementations of
 * `doc-processor-common/.../DocumentablesByPath.kt`: documentables looked up
 * by path, with a filter for queries and one for the documentables to
 * process. The `FromMap` variants are values; the `WithCache` variants keep
 * a mutable cache of the query answers. The legacy `DocumentableWrapper` is
 * the `Documentable` value of `Documentables`, and the mutable variants are
 * the same collections with `mutable` set.
 */
module LegacyDocumentables {
  import opened Wrappers
  import opened Documentables

  /** The lists of `m`, filtered, without the ones the filter empties (`mapValues { filter }.filterValues { isNotEmpty() }`). */
  function FilteredLists(m: map<string, seq<Documentable>>, f: Filter): (r: map<string, seq<Documentable>>)
    ensures forall p :: p in r <==> p in m && Filtered(f, m[p]) != []
    ensures forall p :: p in r ==> r[p] == Filtered(f, m[p])
  {
    map p | p in m && Filtered(f, m[p]) != [] :: Filtered(f, m[p])
  }

  /** `x` passes the filter. */
  predicate Passes(f: Filter, x: Documentable) {
    f.Where? ==> f.keep(x)
  }

  // ---------------------------------------------------------------------------
  // DocumentablesByPathFromMap and MutableDocumentablesByPathFromMap
  // ---------------------------------------------------------------------------

  /** `DocumentablesByPathFromMap` (lines 51-91), or the mutable one of lines 93-127 when `mutable` holds. */
  datatype FromMap = FromMap(
    allDocs: map<string, seq<Documentable>>,
    queryFilter: Filter,
    documentablesToProcessFilter: Filter,
    mutable: bool)

  /** `DocumentablesByPath.EMPTY` (line 26). */
  const Empty: FromMap := FromMap(map[], NoFilter, NoFilter, false)

  /**
   * `documentablesToProcess` (lines 57-60): under each path the documentables
   * passing the to-process filter; a path whose list the filter empties is left out.
   */
  function DocumentablesToProcess(b: FromMap): (r: map<string, seq<Documentable>>)
    ensures forall p :: p in r ==> r[p] != []
    ensures forall p :: p in r <==> p in b.allDocs && exists x :: x in b.allDocs[p] && Passes(b.documentablesToProcessFilter, x)
    ensures forall p, x :: p in r ==> (x in r[p] <==> x in b.allDocs[p] && Passes(b.documentablesToProcessFilter, x))
  {
    var r := FilteredLists(b.allDocs, b.documentablesToProcessFilter);
    FilteredNonEmpty(b.allDocs, b.documentablesToProcessFilter);
    r
  }

  /** A filtered list is non-empty exactly when some element passes. */
  lemma FilteredNonEmpty(m: map<string, seq<Documentable>>, f: Filter)
    ensures forall p :: p in m ==> (Filtered(f, m[p]) != [] <==> exists x :: x in m[p] && Passes(f, x))
  {
    forall p | p in m
      ensures Filtered(f, m[p]) != [] <==> exists x :: x in m[p] && Passes(f, x)
    {
      var fs := Filtered(f, m[p]);
      if fs != [] {
        assert fs[0] in fs;
      }
    }
  }

  /**
   * `query(path)` (lines 62-68): the documentables under `path` passing the
   * query filter, or the empty list for an unknown path.
   */
  function Query(b: FromMap, path: string): (r: seq<Documentable>)
    ensures path !in b.allDocs ==> r == []
    ensures forall x :: x in r <==> path in b.allDocs && x in b.allDocs[path] && Passes(b.queryFilter, x)
  {
    var docsToQuery := FilteredLists(b.allDocs, b.queryFilter);
    if path in docsToQuery then docsToQuery[path] else []
  }

  /**
   * `toMutable()` (lines 71-76, 112): a mutable collection is returned as it
   * is; otherwise a mutable one over the same documentables and filters, so
   * every query and the documentables to process stay the same.
   */
  function ToMutable(b: FromMap): (r: FromMap)
    ensures r.mutable
    ensures b.mutable ==> r == b
    ensures forall path :: Query(r, path) == Query(b, path)
    ensures DocumentablesToProcess(r) == DocumentablesToProcess(b)
  {
    if b.mutable then b else FromMap(b.allDocs, b.queryFilter, b.documentablesToProcessFilter, true)
  }

  /**
   * `withQueryFilter` (lines 78-83, 114-119): the query filter replaced; the
   * documentables to process are the same.
   */
  function WithQueryFilter(b: FromMap, queryFilter: Filter): (r: FromMap)
    ensures r.queryFilter == queryFilter && r.documentablesToProcessFilter == b.documentablesToProcessFilter
    ensures r.allDocs == b.allDocs && r.mutable == b.mutable
    ensures DocumentablesToProcess(r) == DocumentablesToProcess(b)
  {
    FromMap(b.allDocs, queryFilter, b.documentablesToProcessFilter, b.mutable)
  }

  /**
   * `withDocsToProcessFilter` (lines 85-90, 121-126): the to-process filter
   * replaced; every query answers the same.
   */
  function WithDocsToProcessFilter(b: FromMap, docsToProcessFilter: Filter): (r: FromMap)
    ensures r.documentablesToProcessFilter == docsToProcessFilter && r.queryFilter == b.queryFilter
    ensures r.allDocs == b.allDocs && r.mutable == b.mutable
    ensures forall path :: Query(r, path) == Query(b, path)
  {
    FromMap(b.allDocs, b.queryFilter, docsToProcessFilter, b.mutable)
  }

  /** Nothing is found in `EMPTY`, and nothing is to be processed. */
  lemma EmptyFindsNothing(path: string)
    ensures Query(Empty, path) == [] && DocumentablesToProcess(Empty) == map[]
  {
  }

  // ---------------------------------------------------------------------------
  // DocumentablesByPathWithCache and MutableDocumentablesByPathWithCache
  // ---------------------------------------------------------------------------

  /**
   * `DocumentablesByPathWithCache` (lines 129-179), or the mutable one of
   * lines 181-224 when `mutable` holds: the documentables to process, the
   * external query, and the cache of the answers given so far.
   */
  class WithCache {
    const unfilteredDocsToProcess: map<string, seq<Documentable>>
    const queryExternal: string -> seq<Documentable>
    const queryAll: () -> map<string, seq<Documentable>>
    const queryFilter: Filter
    const documentablesToProcessFilter: Filter
    const mutable: bool
    var queryCache: map<string, seq<Documentable>>

    /** Every cached answer is the one a fresh lookup gives. */
    ghost predicate Valid()
      reads this`queryCache
    {
      forall path :: path in queryCache ==> queryCache[path] == Lookup(path)
    }

    constructor (unfilteredDocsToProcess: map<string, seq<Documentable>>,
                 queryExternal: string -> seq<Documentable>,
                 queryAll: () -> map<string, seq<Documentable>>,
                 queryFilter: Filter, documentablesToProcessFilter: Filter, mutable: bool)
      ensures Valid()
      ensures this.unfilteredDocsToProcess == unfilteredDocsToProcess && this.queryExternal == queryExternal
      ensures this.queryAll == queryAll && this.mutable == mutable
      ensures this.queryFilter == queryFilter && this.documentablesToProcessFilter == documentablesToProcessFilter
      ensures queryCache == map[]
    {
      this.unfilteredDocsToProcess := unfilteredDocsToProcess;
      this.queryExternal := queryExternal;
      this.queryAll := queryAll;
      this.queryFilter := queryFilter;
      this.documentablesToProcessFilter := documentablesToProcessFilter;
      this.mutable := mutable;
      queryCache := map[];
    }

    /** `documentablesToProcess` (lines 137-141): as for `FromMap`, over the unfiltered documentables to process. */
    function DocumentablesToProcess(): (r: map<string, seq<Documentable>>)
      ensures forall p :: p in r ==> r[p] != []
      ensures forall p :: p in r <==>
        (p in unfilteredDocsToProcess && exists x :: x in unfilteredDocsToProcess[p] && Passes(documentablesToProcessFilter, x))
      ensures forall p, x :: p in r ==> (x in r[p] <==> x in unfilteredDocsToProcess[p] && Passes(documentablesToProcessFilter, x))
    {
      var r := FilteredLists(unfilteredDocsToProcess, documentablesToProcessFilter);
      FilteredNonEmpty(unfilteredDocsToProcess, documentablesToProcessFilter);
      r
    }

    /**
     * What lines 147-149 evidently mean: the documentables to process under
     * `path` when there are any, else the external query's, filtered by the
     * query filter.
     */
    function Lookup(path: string): (r: seq<Documentable>)
      ensures path in unfilteredDocsToProcess ==>
        forall x :: x in r <==> x in unfilteredDocsToProcess[path] && Passes(queryFilter, x)
      ensures path !in unfilteredDocsToProcess ==>
        forall x :: x in r <==> x in queryExternal(path) && Passes(queryFilter, x)
    {
      Filtered(queryFilter, if path in unfilteredDocsToProcess then unfilteredDocsToProcess[path] else queryExternal(path))
    }

    /**
     * `query(path)` (lines 145-151, 197-203) as written. Inside the
     * `getOrPut`, the unqualified `query(path)` resolves to this member
     * function, not to the `query` property: a member function wins over a
     * property with `invoke` of the same name. So a path that is neither
     * cached nor among the documentables to process calls `query(path)`
     * again before anything is cached, and so on until the stack overflows;
     * `getOrPut` then stores nothing. The external query is never called.
     */
    method Query(path: string) returns (r: Result<seq<Documentable>>)
      requires Valid()
      modifies this`queryCache
      ensures Valid()
      ensures r.Err? <==> path !in old(queryCache) && path !in unfilteredDocsToProcess
      ensures r.Err? ==> r.error == StackOverflow && queryCache == old(queryCache)
      ensures r.Ok? ==> r.value == Lookup(path) && queryCache == old(queryCache)[path := r.value]
      ensures r.Ok? && path in unfilteredDocsToProcess ==>
        forall x :: x in r.value <==> x in unfilteredDocsToProcess[path] && Passes(queryFilter, x)
    {
      if path in queryCache {
        return Ok(queryCache[path]);
      }
      if path !in unfilteredDocsToProcess {
        return Err(StackOverflow);
      }
      r := Ok(Filtered(queryFilter, unfilteredDocsToProcess[path]));
      queryCache := queryCache[path := r.value];
    }

    /**
     * `query(path)` as evidently intended, with the property called for an
     * unknown path (kodex-common's later version renames the property to
     * `queryNew`): the cached answer when there is one, else the lookup,
     * which is then cached. `askedExternal` says whether the external query
     * was called: only for an uncached path that is not among the
     * documentables to process.
     */
    method QueryIntended(path: string) returns (r: seq<Documentable>, askedExternal: bool)
      requires Valid()
      modifies this`queryCache
      ensures Valid()
      ensures r == Lookup(path)
      ensures queryCache == old(queryCache)[path := r]
      ensures askedExternal <==> path !in old(queryCache) && path !in unfilteredDocsToProcess
    {
      if path in queryCache {
        return queryCache[path], false;
      }
      askedExternal := path !in unfilteredDocsToProcess;
      var values := if path in unfilteredDocsToProcess then unfilteredDocsToProcess[path] else queryExternal(path);
      r := Filtered(queryFilter, values);
      queryCache := queryCache[path := r];
    }

    /**
     * A second query for the same path gives the same outcome and leaves the
     * cache as the first one left it.
     */
    method QueryTwice(path: string) returns (first: Result<seq<Documentable>>, second: Result<seq<Documentable>>)
      requires Valid()
      modifies this`queryCache
      ensures Valid()
      ensures first == second
      ensures first.Ok? ==> queryCache == old(queryCache)[path := first.value]
      ensures first.Err? ==> queryCache == old(queryCache)
    {
      first := Query(path);
      second := Query(path);
    }

    /**
     * `toMutable()` (lines 154-160, 205): a mutable collection is returned as
     * it is; otherwise a new mutable one over the same documentables and
     * filters, with an empty cache, whose external query is this
     * collection's `query` (`{ query(it).map { it.toMutable() } }`): answered
     * as this one's lookup. As written the copy's own `query` never calls it.
     */
    method ToMutable() returns (r: WithCache)
      ensures r.mutable
      ensures mutable ==> r == this
      ensures !mutable ==> fresh(r) && r.queryCache == map[] && r.Valid()
      ensures !mutable ==> forall p :: r.queryExternal(p) == Lookup(p)
      ensures r.unfilteredDocsToProcess == unfilteredDocsToProcess && r.queryAll == queryAll
      ensures r.queryFilter == queryFilter && r.documentablesToProcessFilter == documentablesToProcessFilter
    {
      if mutable {
        return this;
      }
      r := new WithCache(unfilteredDocsToProcess, p => Lookup(p), queryAll, queryFilter, documentablesToProcessFilter, true);
    }

    /**
     * `withQueryFilter` (lines 162-169, 207-214): a new collection, with the
     * query filter replaced and an empty cache; the to-process filter stays.
     */
    method WithQueryFilter(queryFilter: Filter) returns (r: WithCache)
      ensures fresh(r) && r.queryCache == map[] && r.Valid()
      ensures r.queryFilter == queryFilter && r.documentablesToProcessFilter == documentablesToProcessFilter
      ensures r.unfilteredDocsToProcess == unfilteredDocsToProcess && r.queryExternal == queryExternal
      ensures r.queryAll == queryAll && r.mutable == mutable
    {
      r := new WithCache(unfilteredDocsToProcess, queryExternal, queryAll, queryFilter, documentablesToProcessFilter, mutable);
    }

    /**
     * `withDocsToProcessFilter` (lines 171-178, 216-223): a new collection,
     * with the to-process filter replaced and an empty cache; the query filter stays.
     */
    method WithDocsToProcessFilter(docsToProcessFilter: Filter) returns (r: WithCache)
      ensures fresh(r) && r.queryCache == map[] && r.Valid()
      ensures r.documentablesToProcessFilter == docsToProcessFilter && r.queryFilter == queryFilter
      ensures r.unfilteredDocsToProcess == unfilteredDocsToProcess && r.queryExternal == queryExternal
      ensures r.queryAll == queryAll && r.mutable == mutable
    {
      r := new WithCache(unfilteredDocsToProcess, queryExternal, queryAll, queryFilter, docsToProcessFilter, mutable);
    }
  }

  /**
   * An empty collection asked for any path: as written the query overflows
   * the stack, where the intended query answers with the external query's
   * result, here nothing.
   */
  method UnknownPathOverflows(path: string)
    returns (asWritten: Result<seq<Documentable>>, intended: seq<Documentable>, askedExternal: bool)
    ensures asWritten == Err(StackOverflow)
    ensures intended == [] && askedExternal
  {
    var external: string -> seq<Documentable> := p => [];
    var byPath := new WithCache(map[], external, () => map[], NoFilter, NoFilter, false);
    asWritten := byPath.Query(path);
    intended, askedExternal := byPath.QueryIntended(path);
  }
}
