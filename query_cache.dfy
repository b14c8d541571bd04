/**
 * `DocumentablesByPathWithCache` of `kodex-common/.../query/DocumentablesByPathWithCache.kt`:
 * the documentables of one editor session, with the dependency graph between
 * them, the caches of their hash codes, results and post-`@include` contents,
 * and the queries answered so far. Identifiers (UUIDs) are `Id` values and the
 * jgrapht graph is a set of vertices and a set of edges.
 */
module QueryCache {
  import opened Wrappers
  import opened Documentables
  import opened Graphs

  type Key = (Id, string)

  /** `getOrPut(key) { mutableListOf() }.add(d)` */
  function AppendAt<K>(m: map<K, seq<Documentable>>, key: K, d: Documentable): (r: map<K, seq<Documentable>>)
    ensures r.Keys == m.Keys + {key}
    ensures r[key] == (if key in m then m[key] else []) + [d]
    ensures forall k :: k in m && k != key ==> r[k] == m[k]
  {
    m[key := (if key in m then m[key] else []) + [d]]
  }

  /** `keys.forEach { m.add(it, d) }`: `d` appended to the list under each of `keys` in turn. */
  function AppendUnder<K>(m: map<K, seq<Documentable>>, d: Documentable, keys: seq<K>): map<K, seq<Documentable>>
    decreases |keys|
  {
    if keys == [] then m else AppendAt(AppendUnder(m, d, keys[..|keys| - 1]), keys[|keys| - 1], d)
  }

  /** Each documentable of `ds` in turn appended under each of its keys. */
  function AppendAll<K>(m: map<K, seq<Documentable>>, ds: seq<Documentable>, keysOf: Documentable -> seq<K>):
    map<K, seq<Documentable>>
    decreases |ds|
  {
    if ds == [] then m else AppendUnder(AppendAll(m, ds[..|ds| - 1], keysOf), ds[|ds| - 1], keysOf(ds[|ds| - 1]))
  }

  /** Lines 146-151: the query cache keys of a documentable, its identifier with each of its paths. */
  function CacheKeys(d: Documentable): (ks: seq<Key>)
    ensures forall k :: k in ks <==> k.0 == d.identifier && k.1 in Paths(d)
  {
    var ps := Paths(d);
    var ks := seq(|ps|, i requires 0 <= i < |ps| => (d.identifier, ps[i]));
    assert forall k: Key :: k.0 == d.identifier && k.1 in ps ==> k in ks by {
      forall k: Key | k.0 == d.identifier && k.1 in ps
        ensures k in ks
      {
        var i :| 0 <= i < |ps| && ps[i] == k.1;
        assert ks[i] == k;
      }
    }
    ks
  }

  /**
   * After appending, a list holds what it held, and `d` when its key is one
   * of `keys`.
   */
  lemma {:induction false} AppendUnderSpec<K>(m: map<K, seq<Documentable>>, d: Documentable, keys: seq<K>)
    ensures forall k :: k in AppendUnder(m, d, keys) <==> k in m || k in keys
    ensures forall k, x :: (k in AppendUnder(m, d, keys) && x in AppendUnder(m, d, keys)[k]) <==>
      (k in m && x in m[k]) || (x == d && k in keys)
    decreases |keys|
  {
    if keys != [] {
      var init := keys[..|keys| - 1];
      AppendUnderSpec(m, d, init);
      assert forall k :: k in keys <==> k in init || k == keys[|keys| - 1];
    }
  }

  /** `x` is in the list under `k`. */
  ghost predicate ListedUnder<K>(m: map<K, seq<Documentable>>, k: K, x: Documentable) {
    k in m && x in m[k]
  }

  /** `k` is one of the keys of `x`. */
  ghost predicate KeyedBy<K>(keysOf: Documentable -> seq<K>, x: Documentable, k: K) {
    k in keysOf(x)
  }

  /**
   * After appending them all, a list holds what it held, and each
   * documentable of `ds` that has its key.
   */
  lemma {:induction false} AppendAllSpec<K>(m: map<K, seq<Documentable>>, ds: seq<Documentable>, keysOf: Documentable -> seq<K>)
    ensures forall k, x :: ListedUnder(AppendAll(m, ds, keysOf), k, x) <==> ListedUnder(m, k, x) || (x in ds && KeyedBy(keysOf, x, k))
    decreases |ds|
  {
    if ds != [] {
      var init := ds[..|ds| - 1];
      var last := ds[|ds| - 1];
      AppendAllSpec(m, init, keysOf);
      AppendUnderSpec(AppendAll(m, init, keysOf), last, keysOf(last));
      assert forall x :: x in ds <==> x in init || x == last;
    }
  }

  /** Lines 136-140: the topological order, with the doc to process added at the end when it is missing. */
  function OrderedList(order: seq<Documentable>, doc: Documentable): (r: seq<Documentable>)
    ensures doc in r
    ensures forall x :: x in r <==> x in order || x == doc
    ensures |order| <= |r| && r[..|order|] == order
  {
    if doc in order then order else order + [doc]
  }

  /** `incomingEdgesOf(id)` */
  function IncomingEdges(edges: set<Edge<Id>>, id: Id): set<Edge<Id>> {
    set e | e in edges && e.to == id
  }

  /** The `from` of each incoming edge of `id`. */
  function Dependencies(edges: set<Edge<Id>>, id: Id): set<Id> {
    set e | e in edges && e.to == id :: e.from
  }

  /** Lines 120-124: the incoming edges of `v` in the analysed graph, between identifiers. */
  function NewIncoming(graph: Graph<Documentable>, v: Documentable): set<Edge<Id>> {
    set e | e in graph.edges && e.to == v :: Edge(e.from.identifier, e.to.identifier)
  }

  /** The identifiers of some documentables. */
  function Ids(ds: set<Documentable>): (ids: set<Id>)
    ensures forall d :: d in ds ==> d.identifier in ids
    ensures forall id :: id in ids ==> exists d :: d in ds && d.identifier == id
  {
    set d | d in ds :: d.identifier
  }

  /** A simple directed graph on identifiers: every edge joins two distinct vertices. */
  ghost predicate SimpleOn(vertices: set<Id>, edges: set<Edge<Id>>) {
    forall e :: e in edges ==> e.from in vertices && e.to in vertices && e.from != e.to
  }

  /**
   * Lines 126-133: adding the new incoming edges of `id` that are missing and
   * removing the old ones that are no longer there leaves `id` with exactly the
   * new incoming edges and every other identifier with its old ones.
   */
  lemma IncomingReplaced(edges: set<Edge<Id>>, id: Id, newIncoming: set<Edge<Id>>)
    requires forall e :: e in newIncoming ==> e.to == id
    ensures var oldIncoming := IncomingEdges(edges, id);
      var r := edges + (newIncoming - oldIncoming) - (oldIncoming - newIncoming);
      && IncomingEdges(r, id) == newIncoming
      && forall other :: other != id ==> IncomingEdges(r, other) == IncomingEdges(edges, other)
  {
  }

  /** The `from` of each of some edges. */
  function Froms(es: set<Edge<Id>>): set<Id> {
    set e | e in es :: e.from
  }

  /** Lines 94-97: every path of the documentable to process lists just that documentable. */
  function FirstQueue(doc: Documentable): (m: map<string, seq<Documentable>>)
    ensures forall p :: p in m <==> p in Paths(doc)
    ensures forall p :: p in m ==> m[p] == [doc]
  {
    map p | p in Paths(doc) :: [doc]
  }

  /** No other vertex of the analysed graph has the identifier of `v`. */
  ghost predicate UniqueId(graph: Graph<Documentable>, v: Documentable) {
    forall w :: w in graph.vertices && w.identifier == v.identifier ==> w == v
  }

  /** `m` holds some of the entries of `m0`, unchanged. */
  ghost predicate SubMap<K, V>(m: map<K, V>, m0: map<K, V>) {
    forall k :: k in m ==> k in m0 && m[k] == m0[k]
  }

  /** The hash code cache, the vertices of the dependency graph and the result cache. */
  datatype Snapshot = Snapshot(hashes: map<Id, int>, vertices: set<Id>, results: map<Id, string>)

  /** Some list of the query cache `qc` holds a documentable with this identifier. */
  ghost predicate CachedIn(qc: map<Key, seq<Documentable>>, id: Id) {
    exists k :: k in qc && exists x :: x in qc[k] && x.identifier == id
  }

  /**
   * From `s0` to `s1` results only leave the result cache, and an identifier
   * that keeps its result keeps its hash code and gains no vertex.
   */
  ghost predicate Evolved(s0: Snapshot, s1: Snapshot) {
    && s1.results.Keys <= s0.results.Keys
    && forall k :: k in s1.results ==>
         (k in s1.vertices ==> k in s0.vertices) && (k in s1.hashes ==> k in s0.hashes && s1.hashes[k] == s0.hashes[k])
  }

  lemma EvolvedTrans(s0: Snapshot, s1: Snapshot, s2: Snapshot)
    requires Evolved(s0, s1) && Evolved(s1, s2)
    ensures Evolved(s0, s2)
  {
  }

  /** A vertex added before the evolution does not count once its result is gone. */
  lemma EvolvedDropVertex(s0: Snapshot, id: Id, s1: Snapshot)
    requires Evolved(s0.(vertices := s0.vertices + {id}), s1) && id !in s1.results
    ensures Evolved(s0, s1)
  {
  }

  /** `doc` with its post-`@include` content loaded, when there is one (lines 196-199). */
  function Loaded(doc: Documentable, postInclude: map<Id, string>,
                  modifyDocContentAndUpdate: (Documentable, string) -> Documentable): Documentable
  {
    if doc.identifier in postInclude then modifyDocContentAndUpdate(doc, postInclude[doc.identifier]) else doc
  }

  /** Every documentable of `ds` with its post-`@include` content loaded. */
  function LoadedAll(ds: seq<Documentable>, postInclude: map<Id, string>,
                     modifyDocContentAndUpdate: (Documentable, string) -> Documentable): (r: seq<Documentable>)
    ensures |r| == |ds| && forall k :: 0 <= k < |ds| ==> r[k] == Loaded(ds[k], postInclude, modifyDocContentAndUpdate)
  {
    seq(|ds|, k requires 0 <= k < |ds| => Loaded(ds[k], postInclude, modifyDocContentAndUpdate))
  }

  /** `firstOrNull { it.identifier == identifier }` */
  function FirstWithId(ds: seq<Documentable>, id: Id): (r: Option<Documentable>)
    ensures r.None? <==> forall k :: 0 <= k < |ds| ==> ds[k].identifier != id
    ensures r.Some? ==> r.value in ds && r.value.identifier == id
  {
    if ds == [] then None
    else if ds[0].identifier == id then Some(ds[0])
    else
      var r := FirstWithId(ds[1..], id);
      assert forall k :: 0 < k < |ds| ==> ds[k] == ds[1..][k - 1];
      r
  }

  class DocumentablesByPathWithCache {
    const processLimit: int
    /** `includeDocProcessorLoaded` (line 70). */
    const includeDocProcessorLoaded: bool
    /**
     * The `providesTags` of the loaded `SampleDocProcessor` and
     * `IncludeFileDocProcessor` (lines 75-86), or none when neither is loaded.
     */
    const externalTags: set<string>
    /** The external query the cache falls back on. */
    const queryNew: (Documentable, string) -> Option<seq<Documentable>>
    /**
     * `super<MutableDocumentablesByPath>.get(identifier)`; that interface is
     * not part of this model, so its lookup is given.
     */
    const lookup: Id -> Option<Documentable>
    /** `modifyDocContentAndUpdate` of the mutable wrapper, which is not part of this model. */
    const modifyDocContentAndUpdate: (Documentable, string) -> Documentable

    var queryFilter: Filter
    var documentablesToProcessFilter: Filter
    /** `dependencyGraph` */
    var vertices: set<Id>
    var edges: set<Edge<Id>>
    /** `docContentSourceHashCodeCache`, `docContentResultCache`, `postIncludeDocContentCache` */
    var sourceHashes: map<Id, int>
    var resultCache: map<Id, string>
    var postIncludeCache: map<Id, string>
    var docToProcess: Option<Documentable>
    var docsToProcess: map<string, seq<Documentable>>
    var queryCache: map<Key, seq<Documentable>>

    /**
     * The dependency graph is a simple directed graph, and the given lookup
     * finds documentables by their identifier.
     */
    ghost predicate Valid()
      reads this`vertices, this`edges
    {
      && SimpleOn(vertices, edges)
      && (forall id :: lookup(id).Some? ==> lookup(id).value.identifier == id)
    }

    constructor (processLimit: int, includeDocProcessorLoaded: bool, externalTags: set<string>,
                 queryNew: (Documentable, string) -> Option<seq<Documentable>>,
                 lookup: Id -> Option<Documentable>,
                 modifyDocContentAndUpdate: (Documentable, string) -> Documentable)
      requires forall id :: lookup(id).Some? ==> lookup(id).value.identifier == id
      ensures Valid()
      ensures this.processLimit == processLimit && this.includeDocProcessorLoaded == includeDocProcessorLoaded
      ensures this.externalTags == externalTags && this.queryNew == queryNew && this.lookup == lookup
      ensures this.modifyDocContentAndUpdate == modifyDocContentAndUpdate
      ensures queryFilter == NoFilter && documentablesToProcessFilter == NoFilter
      ensures vertices == {} && edges == {}
      ensures sourceHashes == map[] && resultCache == map[] && postIncludeCache == map[]
      ensures docToProcess.None? && docsToProcess == map[] && queryCache == map[]
    {
      this.processLimit := processLimit;
      this.includeDocProcessorLoaded := includeDocProcessorLoaded;
      this.externalTags := externalTags;
      this.queryNew := queryNew;
      this.lookup := lookup;
      this.modifyDocContentAndUpdate := modifyDocContentAndUpdate;
      queryFilter := NoFilter;
      documentablesToProcessFilter := NoFilter;
      vertices := {};
      edges := {};
      sourceHashes := map[];
      resultCache := map[];
      postIncludeCache := map[];
      docToProcess := None;
      docsToProcess := map[];
      queryCache := map[];
    }

    /** `needToQueryAllPaths` (line 177). */
    const needToQueryAllPaths: bool := false

    /** `documentablesToProcess` (lines 50-59). */
    function DocumentablesToProcess(): (r: map<string, seq<Documentable>>)
      reads this`docToProcess, this`documentablesToProcessFilter, this`docsToProcess
      ensures docToProcess.None? ==> r == map[]
      ensures docToProcess.Some? ==> r.Keys == docsToProcess.Keys
      ensures docToProcess.Some? ==> forall p, x :: p in r ==>
        (x in r[p] <==> x in docsToProcess[p] && (documentablesToProcessFilter.Where? ==> documentablesToProcessFilter.keep(x)))
    {
      if docToProcess.None? then map[]
      else if documentablesToProcessFilter.NoFilter? then docsToProcess
      else map p | p in docsToProcess :: Filtered(documentablesToProcessFilter, docsToProcess[p])
    }

    /** `getDocContentResult` (line 61). */
    function GetDocContentResult(docId: Id): (r: Option<string>)
      reads this`resultCache
      ensures r.Some? <==> docId in resultCache
      ensures r.Some? ==> r.value == resultCache[docId]
    {
      if docId in resultCache then Some(resultCache[docId]) else None
    }

    /** `updatePostIncludeDocContentResult` (lines 66-68). */
    method UpdatePostIncludeDocContentResult(documentable: Documentable)
      modifies this`postIncludeCache
      ensures postIncludeCache == old(postIncludeCache)[documentable.identifier := documentable.docContent]
    {
      postIncludeCache := postIncludeCache[documentable.identifier := documentable.docContent];
    }

    /** Some list of the query cache holds a documentable with this identifier. */
    ghost predicate Cached(id: Id)
      reads this`queryCache
    {
      CachedIn(queryCache, id)
    }

    /** `get` (lines 172-175): from the query cache first, else from the lookup. */
    method Get(identifier: Id) returns (r: Option<Documentable>)
      requires Valid()
      ensures r.Some? ==> r.value.identifier == identifier
      ensures Cached(identifier) ==> r.Some? && exists k :: k in queryCache && r.value in queryCache[k]
      ensures !Cached(identifier) ==> r == lookup(identifier)
    {
      var keys := queryCache.Keys;
      while keys != {}
        invariant keys <= queryCache.Keys
        invariant forall k :: k in queryCache && k !in keys ==> forall x :: x in queryCache[k] ==> x.identifier != identifier
        decreases |keys|
      {
        var k :| k in keys;
        var hit := FirstWithId(queryCache[k], identifier);
        if hit.Some? {
          return hit;
        }
        keys := keys - {k};
      }
      r := lookup(identifier);
    }

    /** Lines 194-205: each documentable with its post-`@include` content, when there is one. */
    method LoadAll(ds: seq<Documentable>) returns (loaded: seq<Documentable>)
      ensures loaded == LoadedAll(ds, postIncludeCache, modifyDocContentAndUpdate)
    {
      loaded := [];
      for i := 0 to |ds|
        invariant |loaded| == i && forall k :: 0 <= k < i ==> loaded[k] == Loaded(ds[k], postIncludeCache, modifyDocContentAndUpdate)
      {
        loaded := loaded + [Loaded(ds[i], postIncludeCache, modifyDocContentAndUpdate)];
      }
    }

    /** What `query` hands back for the documentables `ds` of the cache. */
    function Answer(ds: seq<Documentable>, canBeCache: bool): seq<Documentable>
      reads this`postIncludeCache
    {
      if canBeCache then LoadedAll(ds, postIncludeCache, modifyDocContentAndUpdate) else ds
    }

    /**
     * `query` (lines 179-209). A key already cached is answered from the
     * cache without calling `queryNew`; otherwise `queryNew`'s answer, with
     * the query filter applied, is cached, and an unknown path (`null`) caches
     * nothing. With `canBeCache` the documentables get their post-`@include`
     * content, in the cache as well (the cache holds the same wrappers).
     */
    method Query(path: string, queryContext: Documentable, canBeCache: bool) returns (r: Option<seq<Documentable>>)
      modifies this`queryCache
      ensures var key := (queryContext.identifier, path);
        && (key in old(queryCache) ==>
              r == Some(Answer(old(queryCache)[key], canBeCache)))
        && (key !in old(queryCache) && queryNew(queryContext, path).None? ==> r.None? && queryCache == old(queryCache))
        && (key !in old(queryCache) && queryNew(queryContext, path).Some? ==>
              r == Some(Answer(Filtered(queryFilter, queryNew(queryContext, path).value), canBeCache)))
        && (r.Some? ==> queryCache == old(queryCache)[key := r.value])
    {
      var key := (queryContext.identifier, path);
      var res: seq<Documentable>;
      if key in queryCache {
        res := queryCache[key];
      } else {
        var found := queryNew(queryContext, path);
        if found.None? {
          return None;
        }
        res := Filtered(queryFilter, found.value);
        queryCache := queryCache[key := res];
      }
      if canBeCache {
        res := LoadAll(res);
        queryCache := queryCache[key := res];
      }
      r := Some(res);
    }

    /**
     * Lines 215-220: a fact of `doc` itself calls for a rebuild: its hash code
     * differs from the cached one (or none is cached), it is not a vertex of
     * the dependency graph, it has no cached result, or it has a tag whose
     * content comes from outside (`@sample`, `@includeFile`).
     */
    function StaleItself(doc: Documentable): bool
      reads this`sourceHashes, this`vertices, this`resultCache
    {
      StaleIn(State(), doc)
    }

    /** `StaleItself` in the state `s`. */
    function StaleIn(s: Snapshot, x: Documentable): bool {
      || x.identifier !in s.hashes || s.hashes[x.identifier] != DocHashcode(x)
      || x.identifier !in s.vertices
      || x.identifier !in s.results
      || externalTags * x.tags != {}
    }

    /** `get(id)` finds a documentable. */
    ghost predicate Found(id: Id)
      reads this`queryCache
    {
      FoundIn(queryCache, id)
    }

    /** `get(id)` finds a documentable, with the query cache `qc`. */
    ghost predicate FoundIn(qc: map<Key, seq<Documentable>>, id: Id) {
      CachedIn(qc, id) || lookup(id).Some?
    }

    /** The hash code, vertex and result caches. */
    function State(): Snapshot
      reads this`sourceHashes, this`vertices, this`resultCache
    {
      Snapshot(sourceHashes, vertices, resultCache)
    }

    /**
     * What `get(dep)` may hand back with the query cache `qc`: a documentable
     * with that identifier from the cache when it holds one, else what the
     * lookup finds.
     */
    ghost predicate Candidate(qc: map<Key, seq<Documentable>>, dep: Id, y: Documentable) {
      if CachedIn(qc, dep) then y.identifier == dep && exists k :: k in qc && y in qc[k]
      else lookup(dep) == Some(y)
    }

    /**
     * The rebuild condition of lines 213-234, stated on its own, with the
     * edges `es` and the query cache `qc`, in the state `s` and following
     * dependencies for at most `f` levels: `x` is stale itself, or one of its
     * dependencies is due.
     */
    ghost predicate RebuildDue(es: set<Edge<Id>>, qc: map<Key, seq<Documentable>>, s: Snapshot, x: Documentable, f: nat)
      decreases f, 1
    {
      StaleIn(s, x) || exists dep :: dep in Dependencies(es, x.identifier) && DueDep(es, qc, s, dep, f)
    }

    /**
     * A dependency is due when no level is left, when `get` finds nothing for
     * it, or when whatever `get` may find for it is due.
     */
    ghost predicate DueDep(es: set<Edge<Id>>, qc: map<Key, seq<Documentable>>, s: Snapshot, dep: Id, f: nat)
      decreases f, 0
    {
      f == 0 || !FoundIn(qc, dep) || forall y :: Candidate(qc, dep, y) ==> RebuildDue(es, qc, s, y, f - 1)
    }

    /**
     * A documentable is due when one of its dependencies is stale, whichever
     * documentable `get` finds for it, and a level is left to follow it.
     */
    lemma StaleDependencyMakesDue(es: set<Edge<Id>>, qc: map<Key, seq<Documentable>>, s: Snapshot,
                                  x: Documentable, dep: Id, f: nat)
      requires f >= 1 && Edge(dep, x.identifier) in es
      requires forall y :: Candidate(qc, dep, y) ==> StaleIn(s, y)
      ensures RebuildDue(es, qc, s, x, f)
    {
      assert dep in Dependencies(es, x.identifier);
      assert DueDep(es, qc, s, dep, f);
    }

    /** With no level left, a documentable is due exactly when it is stale or has a dependency. */
    lemma DueWithoutDepth(es: set<Edge<Id>>, qc: map<Key, seq<Documentable>>, s: Snapshot, x: Documentable)
      ensures RebuildDue(es, qc, s, x, 0) <==> StaleIn(s, x) || Dependencies(es, x.identifier) != {}
    {
      if Dependencies(es, x.identifier) != {} {
        var dep :| dep in Dependencies(es, x.identifier);
        assert DueDep(es, qc, s, dep, 0);
      }
    }

    lemma StaleMonotone(s0: Snapshot, s1: Snapshot, x: Documentable)
      requires Evolved(s0, s1) && StaleIn(s0, x)
      ensures StaleIn(s1, x)
    {
    }

    /** What is due stays due while the state evolves. */
    lemma {:induction false} DueMonotone(es: set<Edge<Id>>, qc: map<Key, seq<Documentable>>, s0: Snapshot, s1: Snapshot,
                                         x: Documentable, f: nat)
      requires Evolved(s0, s1) && RebuildDue(es, qc, s0, x, f)
      ensures RebuildDue(es, qc, s1, x, f)
      decreases f, 1
    {
      if StaleIn(s0, x) {
        StaleMonotone(s0, s1, x);
      } else {
        var dep :| dep in Dependencies(es, x.identifier) && DueDep(es, qc, s0, dep, f);
        DueDepMonotone(es, qc, s0, s1, dep, f);
      }
    }

    lemma {:induction false} DueDepMonotone(es: set<Edge<Id>>, qc: map<Key, seq<Documentable>>, s0: Snapshot, s1: Snapshot,
                                            dep: Id, f: nat)
      requires Evolved(s0, s1) && DueDep(es, qc, s0, dep, f)
      ensures DueDep(es, qc, s1, dep, f)
      decreases f, 0
    {
      if f > 0 && FoundIn(qc, dep) {
        forall y | Candidate(qc, dep, y) ensures RebuildDue(es, qc, s1, y, f - 1) {
          DueMonotone(es, qc, s0, s1, y, f - 1);
        }
      }
    }

    /** The result caches only lose entries and the hash code cache only gains keys. */
    twostate predicate CachesShrunk()
      reads this`sourceHashes, this`resultCache, this`postIncludeCache
    {
      && SubMap(resultCache, old(resultCache)) && SubMap(postIncludeCache, old(postIncludeCache))
      && old(sourceHashes).Keys <= sourceHashes.Keys
    }

    /**
     * `needsRebuild` (lines 213-254), with recursion depth `fuel` (at depth 0
     * every dependency counts as needing a rebuild). The documentable needs a
     * rebuild exactly when it is stale itself or some dependency (the `from` of
     * an incoming edge) is not found or needs a rebuild (`stale` holds those).
     * Its identifier becomes a vertex. On a rebuild the new hash code is
     * stored and the result and post-`@include` caches lose the documentable
     * and everything reachable from it; without one, no cache changes. The
     * caches only ever lose entries, and the graph's edges stay.
     */
    method NeedsRebuild(doc: Documentable, fuel: nat) returns (r: bool, ghost stale: set<Id>)
      requires Valid()
      modifies this`vertices, this`sourceHashes, this`resultCache, this`postIncludeCache
      decreases fuel, 2
      ensures Valid()
      ensures old(vertices) + {doc.identifier} <= vertices
      ensures stale <= Dependencies(edges, doc.identifier)
      ensures r <==> old(StaleItself(doc)) || stale != {}
      ensures forall dep :: dep in stale ==> fuel == 0 || !Found(dep) || (dep !in resultCache && dep !in postIncludeCache)
      ensures r ==> doc.identifier in sourceHashes && sourceHashes[doc.identifier] == DocHashcode(doc)
      ensures r ==> doc.identifier !in resultCache && doc.identifier !in postIncludeCache
      ensures r ==> forall v :: Reaches(edges, doc.identifier, v) ==> v !in resultCache && v !in postIncludeCache
      ensures !r ==> sourceHashes == old(sourceHashes) && resultCache == old(resultCache) && postIncludeCache == old(postIncludeCache)
      ensures CachesShrunk()
      ensures RebuildDue(edges, queryCache, old(State()), doc, fuel) ==> r
      ensures Evolved(old(State()), State())
    {
      var id := doc.identifier;
      var itself := StaleItself(doc);
      ghost var vs0 := vertices;
      if id !in vertices {
        vertices := vertices + {id};
      }
      ghost var vs1 := vertices;
      var dependenciesNeedRebuild;
      dependenciesNeedRebuild, stale := DependenciesNeedRebuild(Dependencies(edges, id), fuel);
      r := itself || dependenciesNeedRebuild;
      ghost var s2 := State();
      if r {
        Invalidate(doc);
      }
      EvolvedTrans(old(State()).(vertices := vs1), s2, State());
      if vs1 != vs0 {
        EvolvedDropVertex(old(State()), id, State());
      }
    }

    /** Lines 224-231: `needsRebuild` of every dependency, each with the state the previous ones left. */
    method DependenciesNeedRebuild(dependencies: set<Id>, fuel: nat) returns (any: bool, ghost stale: set<Id>)
      requires Valid()
      modifies this`vertices, this`sourceHashes, this`resultCache, this`postIncludeCache
      decreases fuel, 1
      ensures Valid()
      ensures old(vertices) <= vertices
      ensures stale <= dependencies && (any <==> stale != {})
      ensures forall dep :: dep in stale ==> fuel == 0 || !Found(dep) || (dep !in resultCache && dep !in postIncludeCache)
      ensures !any ==> sourceHashes == old(sourceHashes) && resultCache == old(resultCache) && postIncludeCache == old(postIncludeCache)
      ensures CachesShrunk()
      ensures forall dep :: dep in dependencies && DueDep(edges, queryCache, old(State()), dep, fuel) ==> dep in stale
      ensures Evolved(old(State()), State())
    {
      var remaining := dependencies;
      any := false;
      stale := {};
      while remaining != {}
        invariant remaining <= dependencies && stale <= dependencies
        invariant any <==> stale != {}
        invariant Valid() && old(vertices) <= vertices
        invariant CachesShrunk()
        invariant stale == {} ==>
          sourceHashes == old(sourceHashes) && resultCache == old(resultCache) && postIncludeCache == old(postIncludeCache)
        invariant forall dep :: dep in stale ==> fuel == 0 || !Found(dep) || (dep !in resultCache && dep !in postIncludeCache)
        invariant Evolved(old(State()), State())
        invariant forall dep ::
          (dep in dependencies && dep !in remaining && DueDep(edges, queryCache, old(State()), dep, fuel))
          ==> dep in stale
        decreases |remaining|
      {
        var dep :| dep in remaining;
        ghost var s1 := State();
        if DueDep(edges, queryCache, old(State()), dep, fuel) {
          DueDepMonotone(edges, queryCache, old(State()), s1, dep, fuel);
        }
        var needs := DependencyNeedsRebuild(dep, fuel);
        EvolvedTrans(old(State()), s1, State());
        if needs {
          stale := stale + {dep};
          any := true;
        }
        remaining := remaining - {dep};
      }
    }

    /** Lines 227-231 for one dependency: `it == null || needsRebuild(it)`. */
    method DependencyNeedsRebuild(dep: Id, fuel: nat) returns (needs: bool)
      requires Valid()
      modifies this`vertices, this`sourceHashes, this`resultCache, this`postIncludeCache
      decreases fuel, 0
      ensures Valid()
      ensures old(vertices) <= vertices
      ensures needs ==> fuel == 0 || !Found(dep) || (dep !in resultCache && dep !in postIncludeCache)
      ensures !needs ==> sourceHashes == old(sourceHashes) && resultCache == old(resultCache) && postIncludeCache == old(postIncludeCache)
      ensures CachesShrunk()
      ensures DueDep(edges, queryCache, old(State()), dep, fuel) ==> needs
      ensures Evolved(old(State()), State())
    {
      var found := Get(dep);
      needs := true;
      if found.Some? && fuel > 0 {
        assert FoundIn(queryCache, dep) && Candidate(queryCache, dep, found.value);
        ghost var deeper;
        needs, deeper := NeedsRebuild(found.value, fuel - 1);
      }
    }

    /** Lines 239-251: the new hash code is stored, and `doc` and its dependents lose their results. */
    method Invalidate(doc: Documentable)
      requires Valid()
      modifies this`sourceHashes, this`resultCache, this`postIncludeCache
      ensures Valid()
      ensures sourceHashes == old(sourceHashes)[doc.identifier := DocHashcode(doc)]
      ensures doc.identifier !in resultCache && doc.identifier !in postIncludeCache
      ensures forall v :: v in resultCache <==> v in old(resultCache) && !Reaches(edges, doc.identifier, v)
      ensures forall v :: v in postIncludeCache <==> v in old(postIncludeCache) && !Reaches(edges, doc.identifier, v)
      ensures SubMap(resultCache, old(resultCache)) && SubMap(postIncludeCache, old(postIncludeCache))
      ensures Evolved(old(State()), State())
    {
      var id := doc.identifier;
      sourceHashes := sourceHashes[id := DocHashcode(doc)];
      resultCache := resultCache - {id};
      postIncludeCache := postIncludeCache - {id};
      var dependents := BreadthFirst(edges, id);
      resultCache := resultCache - dependents;
      postIncludeCache := postIncludeCache - dependents;
    }

    /** The hash code, result and post-`@include` caches are as they were. */
    twostate predicate ResultsKept()
      reads this`sourceHashes, this`resultCache, this`postIncludeCache
    {
      sourceHashes == old(sourceHashes) && resultCache == old(resultCache) && postIncludeCache == old(postIncludeCache)
    }

    /**
     * Lines 114-134: the dependency graph takes over the incoming edges of
     * every vertex of the analysed graph, between identifiers (see
     * `UpdatedGraph`).
     */
    method UpdateDependencyGraph(graph: Graph<Documentable>)
      requires Valid()
      requires forall e :: e in graph.edges ==> e.from.identifier != e.to.identifier
      modifies this`vertices, this`edges
      ensures Valid()
      ensures old(vertices) + Ids(graph.vertices) <= vertices
      ensures forall v :: v in graph.vertices && UniqueId(graph, v) ==> IncomingEdges(edges, v.identifier) == NewIncoming(graph, v)
      ensures forall id :: id !in Ids(graph.vertices) ==> IncomingEdges(edges, id) == IncomingEdges(old(edges), id)
    {
      vertices, edges := UpdatedGraph(vertices, edges, graph);
    }

    /** Lines 144-152: each documentable of the list added to the query cache under each of its paths. */
    method FillQueryCache(orderedList: seq<Documentable>)
      modifies this`queryCache
      ensures forall k, x :: ListedUnder(queryCache, k, x) <==>
        ListedUnder(old(queryCache), k, x) || (x in orderedList && k.0 == x.identifier && k.1 in Paths(x))
    {
      queryCache := AppendEachOf(queryCache, orderedList, CacheKeys);
      AppendAllSpec(old(queryCache), orderedList, CacheKeys);
      assert forall k, x :: KeyedBy(CacheKeys, x, k) <==> k in CacheKeys(x);
    }

    /**
     * Lines 159-160 for one documentable: `needsRebuild`, with everything
     * reachable from the earlier rebuilt identifiers (`roots`) still out of the
     * caches, and on a rebuild everything reachable from this one out too.
     */
    method RebuildIfNeeded(d: Documentable, fuel: nat) returns (r: bool)
      requires Valid()
      modifies this`vertices, this`sourceHashes, this`resultCache, this`postIncludeCache
      ensures Valid() && old(vertices) <= vertices && d.identifier in vertices
      ensures CachesShrunk()
      ensures !r ==> ResultsKept()
      ensures r ==> Cleared(resultCache, postIncludeCache, edges, {d.identifier})
      ensures RebuildDue(edges, queryCache, old(State()), d, fuel) ==> r
      ensures Evolved(old(State()), State())
    {
      ghost var stale;
      r, stale := NeedsRebuild(d, fuel);
    }

    /**
     * Lines 154-166: every documentable of the list that needs a rebuild
     * (`rebuilt`, in order) is queued under each of its paths, and loses its
     * result and post-`@include` content, as does everything reachable from
     * it. Every identifier of the list becomes a vertex. The documentables
     * are queued after the loop, in the same order: `needsRebuild` does not
     * read the queue.
     */
    method MarkRebuilds(orderedList: seq<Documentable>, fuel: nat) returns (needs: bool, ghost rebuilt: seq<Documentable>)
      requires Valid()
      modifies this`vertices, this`sourceHashes, this`resultCache, this`postIncludeCache, this`docsToProcess
      ensures Valid() && old(vertices) <= vertices
      ensures forall x :: x in orderedList ==> x.identifier in vertices
      ensures forall x :: x in rebuilt ==> x in orderedList
      ensures needs <==> rebuilt != []
      ensures forall p, x :: ListedUnder(docsToProcess, p, x) <==> ListedUnder(old(docsToProcess), p, x) || (x in rebuilt && p in Paths(x))
      ensures forall x :: x in rebuilt ==> x.identifier !in resultCache && x.identifier !in postIncludeCache
      ensures forall x, v :: x in rebuilt && Reaches(edges, x.identifier, v) ==> v !in resultCache && v !in postIncludeCache
      ensures !needs ==> ResultsKept()
      ensures CachesShrunk()
      ensures forall x :: x in orderedList && RebuildDue(edges, queryCache, old(State()), x, fuel) ==> x in rebuilt
      ensures Evolved(old(State()), State())
    {
      needs := false;
      var toQueue: seq<Documentable> := [];
      ghost var roots: set<Id> := {};
      for i := 0 to |orderedList|
        invariant Valid() && old(vertices) <= vertices
        invariant forall j :: 0 <= j < i ==> orderedList[j].identifier in vertices
        invariant forall x :: x in toQueue ==> x in orderedList
        invariant needs <==> toQueue != []
        invariant docsToProcess == old(docsToProcess)
        invariant forall x :: x in toQueue ==> x.identifier in roots
        invariant Cleared(resultCache, postIncludeCache, edges, roots)
        invariant !needs ==> ResultsKept()
        invariant CachesShrunk()
        invariant Evolved(old(State()), State())
        invariant forall j ::
          (0 <= j < i && RebuildDue(edges, queryCache, old(State()), orderedList[j], fuel))
          ==> orderedList[j] in toQueue
      {
        var dependencyDoc := orderedList[i];
        ghost var results0, postInclude0 := resultCache, postIncludeCache;
        ghost var s1 := State();
        if RebuildDue(edges, queryCache, old(State()), dependencyDoc, fuel) {
          DueMonotone(edges, queryCache, old(State()), s1, dependencyDoc, fuel);
        }
        var r := RebuildIfNeeded(dependencyDoc, fuel);
        EvolvedTrans(old(State()), s1, State());
        ClearedShrinks(results0, postInclude0, resultCache, postIncludeCache, edges, roots);
        if r {
          needs := true;
          ClearedUnion(resultCache, postIncludeCache, edges, roots, {dependencyDoc.identifier});
          roots := roots + {dependencyDoc.identifier};
          toQueue := toQueue + [dependencyDoc];
        }
      }
      rebuilt := toQueue;
      forall x, v | x in rebuilt && Reaches(edges, x.identifier, v)
        ensures v !in resultCache && v !in postIncludeCache
      {
      }
      forall x | x in rebuilt
        ensures x.identifier !in resultCache && x.identifier !in postIncludeCache
      {
        assert ReachIn(edges, x.identifier, x.identifier, 0);
      }
      docsToProcess := AppendEachOf(docsToProcess, toQueue, Paths);
      AppendAllSpec(old(docsToProcess), rebuilt, Paths);
      assert forall p, x :: KeyedBy(Paths, x, p) <==> p in Paths(x);
    }

    /** Lines 103-113: the analysed graph when `@include` is processed, else an empty graph. */
    function AnalysedOrEmpty(analysed: Graph<Documentable>): (g: Graph<Documentable>)
      ensures includeDocProcessorLoaded ==> g == analysed
      ensures !includeDocProcessorLoaded ==> g.vertices == {} && g.edges == {}
    {
      if includeDocProcessorLoaded then analysed else Graph({}, {})
    }

    /**
     * Lines 93-152 of `updatePreProcessing`: `doc` becomes the documentable to
     * process and the only one queued, the dependency graph takes over the
     * incoming edges of the analysed graph, and the query cache holds exactly
     * the entries of `analysisCache` and the documentables of the order and
     * `doc`, each under its identifier and each of its paths. The result is
     * the order with `doc` added. `analysisCache` stands for what the
     * `@include` analysis of lines 104-109, which queries through this object
     * (`getOrPut`, line 184), stored after line 99 cleared the cache.
     */
    method Prepare(doc: Documentable, analysed: Graph<Documentable>, analysisCache: map<Key, seq<Documentable>>,
                   order: seq<Documentable>)
      returns (orderedList: seq<Documentable>)
      requires Valid()
      requires forall e :: e in analysed.edges ==> e.from.identifier != e.to.identifier
      requires forall x :: x in order <==> x in AnalysedOrEmpty(analysed).vertices
      modifies this`docToProcess, this`docsToProcess, this`queryCache, this`vertices, this`edges
      ensures Valid()
      ensures docToProcess == Some(doc) && docsToProcess == FirstQueue(doc)
      ensures forall x :: x in orderedList <==> x == doc || x in order
      ensures var graph := AnalysedOrEmpty(analysed);
        && old(vertices) + Ids(graph.vertices) <= vertices
        && (forall v :: v in graph.vertices && UniqueId(graph, v) ==> IncomingEdges(edges, v.identifier) == NewIncoming(graph, v))
        && (forall id :: id !in Ids(graph.vertices) ==> IncomingEdges(edges, id) == IncomingEdges(old(edges), id))
      ensures forall k, x :: ListedUnder(queryCache, k, x) <==>
        ListedUnder(analysisCache, k, x) || ((x == doc || x in order) && k.0 == x.identifier && k.1 in Paths(x))
    {
      docToProcess := Some(doc);
      docsToProcess := FirstQueue(doc);
      queryCache := analysisCache;
      UpdateDependencyGraph(AnalysedOrEmpty(analysed));
      orderedList := OrderedList(order, doc);
      FillQueryCache(orderedList);
    }

    /**
     * `updatePreProcessing` (lines 92-169). The analysed dependency graph of
     * `doc` (from the `@include` analysis, which is not run here), the query
     * cache entries that analysis left and its topological order are given.
     * After `Prepare`, each documentable of the
     * order with `doc` is checked for a rebuild; the queue holds `doc` and
     * each documentable that needs one, under each of their paths. The result
     * is whether any needed a rebuild; the ones that did, and all that is
     * reachable from them, lose their results and post-`@include` contents,
     * and without a rebuild no cache changes.
     */
    method UpdatePreProcessing(doc: Documentable, analysed: Graph<Documentable>, analysisCache: map<Key, seq<Documentable>>,
                               order: seq<Documentable>, fuel: nat)
      returns (needs: bool, ghost rebuilt: seq<Documentable>, ghost prepared: set<Id>)
      requires Valid()
      requires forall e :: e in analysed.edges ==> e.from.identifier != e.to.identifier
      requires forall x :: x in order <==> x in AnalysedOrEmpty(analysed).vertices
      modifies this`docToProcess, this`docsToProcess, this`queryCache
      modifies this`vertices, this`edges, this`sourceHashes, this`resultCache, this`postIncludeCache
      ensures Valid()
      ensures docToProcess == Some(doc)
      ensures var graph := AnalysedOrEmpty(analysed);
        && old(vertices) + Ids(graph.vertices) + {doc.identifier} <= vertices
        && (forall v :: v in graph.vertices && UniqueId(graph, v) ==> IncomingEdges(edges, v.identifier) == NewIncoming(graph, v))
        && (forall id :: id !in Ids(graph.vertices) ==> IncomingEdges(edges, id) == IncomingEdges(old(edges), id))
      ensures forall k, x :: ListedUnder(queryCache, k, x) <==>
        ListedUnder(analysisCache, k, x) || ((x == doc || x in order) && k.0 == x.identifier && k.1 in Paths(x))
      ensures forall p, x :: ListedUnder(docsToProcess, p, x) <==> (x == doc || x in rebuilt) && p in Paths(x)
      ensures forall x :: x in rebuilt ==> x == doc || x in order
      ensures needs <==> rebuilt != []
      ensures forall x, v :: x in rebuilt && Reaches(edges, x.identifier, v) ==> v !in resultCache && v !in postIncludeCache
      ensures !needs ==> ResultsKept()
      ensures CachesShrunk()
      ensures old(vertices) + Ids(AnalysedOrEmpty(analysed).vertices) <= prepared <= vertices
      ensures forall x ::
        ((x == doc || x in order) && RebuildDue(edges, queryCache, old(State()).(vertices := prepared), x, fuel))
        ==> x in rebuilt
      ensures StaleIn(old(State()).(vertices := prepared), doc) ==> needs && doc in rebuilt
      ensures Evolved(old(State()).(vertices := prepared), State())
    {
      var orderedList := Prepare(doc, analysed, analysisCache, order);
      prepared := vertices;
      needs, rebuilt := MarkRebuilds(orderedList, fuel);
    }

    /** `withQueryFilter` (lines 264-265): this object, with the query filter replaced. */
    method WithQueryFilter(queryFilter: Filter) returns (r: DocumentablesByPathWithCache)
      modifies this`queryFilter
      ensures r == this && this.queryFilter == queryFilter
    {
      this.queryFilter := queryFilter;
      r := this;
    }

    /** `withDocsToProcessFilter` (lines 267-268): this object, with the filter of the documentables to process replaced. */
    method WithDocsToProcessFilter(docsToProcessFilter: Filter) returns (r: DocumentablesByPathWithCache)
      modifies this`documentablesToProcessFilter
      ensures r == this && documentablesToProcessFilter == docsToProcessFilter
    {
      documentablesToProcessFilter := docsToProcessFilter;
      r := this;
    }

    /** `withFilters` (lines 270-277): this object, with both filters replaced. */
    method WithFilters(queryFilter: Filter, docsToProcessFilter: Filter) returns (r: DocumentablesByPathWithCache)
      modifies this`queryFilter, this`documentablesToProcessFilter
      ensures r == this && this.queryFilter == queryFilter && documentablesToProcessFilter == docsToProcessFilter
    {
      this.queryFilter := queryFilter;
      documentablesToProcessFilter := docsToProcessFilter;
      r := this;
    }

    /** `toMutable` (line 262): the object is already mutable, so it is handed back itself. */
    method ToMutable() returns (r: DocumentablesByPathWithCache)
      ensures r == this
    {
      r := this;
    }

    /**
     * `updatePostProcessing` (lines 256-260): every documentable to process
     * has its doc content stored as its result, and the other results stay.
     */
    method UpdatePostProcessing()
      modifies this`resultCache
      ensures forall x :: ListedIn(docsToProcess, x) ==> x.identifier in resultCache
      ensures forall id :: id in resultCache ==>
        || (id in old(resultCache) && resultCache[id] == old(resultCache)[id]
            && forall x :: ListedIn(docsToProcess, x) ==> x.identifier != id)
        || exists x :: ListedIn(docsToProcess, x) && x.identifier == id && resultCache[id] == x.docContent
    {
      var all := Flatten(docsToProcess);
      var results := resultCache;
      for i := 0 to |all|
        invariant results == StoreAll(resultCache, all[..i])
      {
        assert all[..i + 1][..i] == all[..i];
        results := results[all[i].identifier := all[i].docContent];
      }
      assert all[..|all|] == all;
      StoreAllSpec(resultCache, all);
      resultCache := results;
    }
  }

  /** `keys.forEach { m.add(it, d) }` on a copy of `m`. */
  method AppendEach<K>(m: map<K, seq<Documentable>>, d: Documentable, keys: seq<K>) returns (r: map<K, seq<Documentable>>)
    ensures r == AppendUnder(m, d, keys)
  {
    r := m;
    for j := 0 to |keys|
      invariant r == AppendUnder(m, d, keys[..j])
    {
      assert keys[..j + 1][..j] == keys[..j];
      r := AppendAt(r, keys[j], d);
    }
    assert keys[..|keys|] == keys;
  }

  /**
   * Lines 115-133 for one vertex of the analysed graph: its identifier
   * becomes a vertex and its incoming edges become exactly those it has in the
   * analysed graph (the endpoints of new edges become vertices); the incoming
   * edges of every other identifier stay.
   */
  method ReplaceIncoming(vertices: set<Id>, edges: set<Edge<Id>>, graph: Graph<Documentable>, vertex: Documentable)
    returns (vs: set<Id>, es: set<Edge<Id>>)
    requires SimpleOn(vertices, edges)
    requires forall e :: e in graph.edges ==> e.from.identifier != e.to.identifier
    ensures SimpleOn(vs, es)
    ensures vertices + {vertex.identifier} <= vs
    ensures IncomingEdges(es, vertex.identifier) == NewIncoming(graph, vertex)
    ensures forall other :: other != vertex.identifier ==> IncomingEdges(es, other) == IncomingEdges(edges, other)
  {
    var id := vertex.identifier;
    vs, es := vertices, edges;
    if id !in vs {
      vs := vs + {id};
    }
    var oldIncoming := IncomingEdges(es, id);
    var newIncoming := NewIncoming(graph, vertex);
    var added := newIncoming - oldIncoming;
    vs := vs + Endpoints(added);
    es := es + added;
    es := es - (oldIncoming - newIncoming);
    IncomingReplaced(edges, id, newIncoming);
  }

  /**
   * Lines 114-134 on the vertices and edges of the dependency graph: every
   * vertex's identifier becomes a vertex; a vertex that is the only one with
   * its identifier has exactly its analysed incoming edges; identifiers
   * outside the analysed graph keep theirs.
   */
  method UpdatedGraph(vertices: set<Id>, edges: set<Edge<Id>>, graph: Graph<Documentable>)
    returns (vs: set<Id>, es: set<Edge<Id>>)
    requires SimpleOn(vertices, edges)
    requires forall e :: e in graph.edges ==> e.from.identifier != e.to.identifier
    ensures SimpleOn(vs, es)
    ensures vertices + Ids(graph.vertices) <= vs
    ensures forall v :: v in graph.vertices && UniqueId(graph, v) ==> IncomingEdges(es, v.identifier) == NewIncoming(graph, v)
    ensures forall id :: id !in Ids(graph.vertices) ==> IncomingEdges(es, id) == IncomingEdges(edges, id)
  {
    vs, es := vertices, edges;
    var remaining := graph.vertices;
    ghost var done: set<Documentable> := {};
    ghost var doneIds: set<Id> := {};
    while remaining != {}
      invariant done <= graph.vertices && remaining <= graph.vertices && graph.vertices <= done + remaining
      invariant Progress(vertices, edges, graph, vs, es, done, doneIds)
      decreases |remaining|
    {
      var vertex :| vertex in remaining;
      ghost var vs0, es0 := vs, es;
      vs, es := ReplaceIncoming(vs, es, graph, vertex);
      ProgressStep(vertices, edges, graph, vs0, es0, vs, es, done, doneIds, vertex);
      remaining := remaining - {vertex};
      done := done + {vertex};
      doneIds := doneIds + {vertex.identifier};
    }
    ProgressDone(vertices, edges, graph, vs, es, done, doneIds);
  }

  /**
   * Loop state of `UpdatedGraph` after the vertices `done`, whose identifiers
   * are `doneIds`.
   */
  ghost predicate Progress(vertices: set<Id>, edges: set<Edge<Id>>, graph: Graph<Documentable>,
                           vs: set<Id>, es: set<Edge<Id>>, done: set<Documentable>, doneIds: set<Id>) {
    && doneIds <= Ids(graph.vertices) && vertices + doneIds <= vs
    && (forall v :: v in done ==> v.identifier in doneIds)
    && SimpleOn(vs, es)
    && TookOver(es, graph, done) && KeptOutside(es, edges, doneIds)
  }

  /** One more vertex keeps the loop state. */
  lemma ProgressStep(vertices: set<Id>, edges: set<Edge<Id>>, graph: Graph<Documentable>,
                     vs0: set<Id>, es0: set<Edge<Id>>, vs: set<Id>, es: set<Edge<Id>>,
                     done: set<Documentable>, doneIds: set<Id>, vertex: Documentable)
    requires Progress(vertices, edges, graph, vs0, es0, done, doneIds)
    requires vertex in graph.vertices
    requires SimpleOn(vs, es) && vs0 + {vertex.identifier} <= vs
    requires IncomingEdges(es, vertex.identifier) == NewIncoming(graph, vertex)
    requires forall other :: other != vertex.identifier ==> IncomingEdges(es, other) == IncomingEdges(es0, other)
    ensures Progress(vertices, edges, graph, vs, es, done + {vertex}, doneIds + {vertex.identifier})
  {
    TakeOverStep(es0, es, edges, graph, done, doneIds, vertex);
  }

  /** After every vertex, the loop state gives what `UpdatedGraph` promises. */
  lemma ProgressDone(vertices: set<Id>, edges: set<Edge<Id>>, graph: Graph<Documentable>,
                     vs: set<Id>, es: set<Edge<Id>>, done: set<Documentable>, doneIds: set<Id>)
    requires Progress(vertices, edges, graph, vs, es, done, doneIds) && graph.vertices <= done
    ensures SimpleOn(vs, es)
    ensures vertices + Ids(graph.vertices) <= vs
    ensures forall v :: v in graph.vertices && UniqueId(graph, v) ==> IncomingEdges(es, v.identifier) == NewIncoming(graph, v)
    ensures forall id :: id !in Ids(graph.vertices) ==> IncomingEdges(es, id) == IncomingEdges(edges, id)
  {
  }

  /** Every vertex of `done` that is the only one with its identifier has its analysed incoming edges in `es`. */
  ghost predicate TookOver(es: set<Edge<Id>>, graph: Graph<Documentable>, done: set<Documentable>) {
    forall v :: v in done && UniqueId(graph, v) ==> IncomingEdges(es, v.identifier) == NewIncoming(graph, v)
  }

  /** Every identifier outside `doneIds` has the same incoming edges in `es` as in `edges`. */
  ghost predicate KeptOutside(es: set<Edge<Id>>, edges: set<Edge<Id>>, doneIds: set<Id>) {
    forall id :: id !in doneIds ==> IncomingEdges(es, id) == IncomingEdges(edges, id)
  }

  /** Replacing the incoming edges of one more vertex keeps what the earlier ones took over. */
  lemma TakeOverStep(es0: set<Edge<Id>>, es1: set<Edge<Id>>, edges: set<Edge<Id>>, graph: Graph<Documentable>,
                     done: set<Documentable>, doneIds: set<Id>, vertex: Documentable)
    requires TookOver(es0, graph, done) && KeptOutside(es0, edges, doneIds)
    requires vertex in graph.vertices
    requires IncomingEdges(es1, vertex.identifier) == NewIncoming(graph, vertex)
    requires forall other :: other != vertex.identifier ==> IncomingEdges(es1, other) == IncomingEdges(es0, other)
    ensures TookOver(es1, graph, done + {vertex}) && KeptOutside(es1, edges, doneIds + {vertex.identifier})
  {
    forall v | v in done + {vertex} && UniqueId(graph, v)
      ensures IncomingEdges(es1, v.identifier) == NewIncoming(graph, v)
    {
      if v.identifier == vertex.identifier {
        assert v == vertex;
      }
    }
  }

  /** Each documentable of `ds` in turn appended under each of its keys, on a copy of `m`. */
  method AppendEachOf<K>(m: map<K, seq<Documentable>>, ds: seq<Documentable>, keysOf: Documentable -> seq<K>)
    returns (r: map<K, seq<Documentable>>)
    ensures r == AppendAll(m, ds, keysOf)
  {
    r := m;
    for i := 0 to |ds|
      invariant r == AppendAll(m, ds[..i], keysOf)
    {
      r := AppendEach(r, ds[i], keysOf(ds[i]));
      assert ds[..i + 1][..i] == ds[..i];
    }
    assert ds[..|ds|] == ds;
  }

  /** Nothing reachable from `roots` has a result or a post-`@include` content. */
  ghost predicate Cleared(results: map<Id, string>, postInclude: map<Id, string>, edges: set<Edge<Id>>, roots: set<Id>) {
    forall x, v :: x in roots && Reaches(edges, x, v) ==> v !in results && v !in postInclude
  }

  /** Caches that only lose entries stay cleared. */
  lemma ClearedShrinks(results0: map<Id, string>, postInclude0: map<Id, string>,
                       results: map<Id, string>, postInclude: map<Id, string>, edges: set<Edge<Id>>, roots: set<Id>)
    requires Cleared(results0, postInclude0, edges, roots)
    requires SubMap(results, results0) && SubMap(postInclude, postInclude0)
    ensures Cleared(results, postInclude, edges, roots)
  {
  }

  /** Caches cleared from two sets of roots are cleared from their union. */
  lemma ClearedUnion(results: map<Id, string>, postInclude: map<Id, string>, edges: set<Edge<Id>>, roots: set<Id>, more: set<Id>)
    requires Cleared(results, postInclude, edges, roots) && Cleared(results, postInclude, edges, more)
    ensures Cleared(results, postInclude, edges, roots + more)
  {
  }

  /** `x` is in one of the lists of `m`. */
  ghost predicate ListedIn<K>(m: map<K, seq<Documentable>>, x: Documentable) {
    exists k :: k in m && x in m[k]
  }

  /** `values.flatten()`, the lists in some order. */
  method Flatten<K>(m: map<K, seq<Documentable>>) returns (all: seq<Documentable>)
    ensures forall x :: x in all <==> ListedIn(m, x)
  {
    all := [];
    var keys := m.Keys;
    while keys != {}
      invariant keys <= m.Keys
      invariant forall x :: x in all <==> exists k :: k in m && k !in keys && x in m[k]
      decreases |keys|
    {
      var k :| k in keys;
      all := all + m[k];
      keys := keys - {k};
    }
  }

  /** Each documentable's content stored under its identifier, in order. */
  function StoreAll(m: map<Id, string>, ds: seq<Documentable>): map<Id, string>
    decreases |ds|
  {
    if ds == [] then m
    else StoreAll(m, ds[..|ds| - 1])[ds[|ds| - 1].identifier := ds[|ds| - 1].docContent]
  }

  /**
   * After storing, every documentable's identifier has a result, which is the
   * content of a documentable with that identifier; the other entries stay.
   */
  lemma {:induction false} StoreAllSpec(m: map<Id, string>, ds: seq<Documentable>)
    ensures forall x :: x in ds ==> x.identifier in StoreAll(m, ds)
    ensures forall id :: id in StoreAll(m, ds) ==>
      || (id in m && StoreAll(m, ds)[id] == m[id] && forall x :: x in ds ==> x.identifier != id)
      || exists x :: x in ds && x.identifier == id && StoreAll(m, ds)[id] == x.docContent
    decreases |ds|
  {
    if ds != [] {
      var init := ds[..|ds| - 1];
      StoreAllSpec(m, init);
      assert forall x :: x in ds ==> x in init || x == ds[|ds| - 1];
      assert forall x :: x in init ==> x in ds;
    }
  }
}
