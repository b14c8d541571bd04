/**
 * `kodex-common/.../utils/GraphUtils.kt`: the `Edge` data class and the
 * simple directed graph built from a set of edges.
 */
module Graphs {
  /** `Edge(from, to)` */
  datatype Edge<T> = Edge(from: T, to: T)

  /** The vertices and edges of a `SimpleDirectedGraph`. */
  datatype Graph<T> = Graph(vertices: set<T>, edges: set<Edge<T>>)

  /** Every edge joins two of the vertices, and no edge is a loop. */
  predicate Simple<T(==)>(g: Graph<T>) {
    forall e :: e in g.edges ==> e.from in g.vertices && e.to in g.vertices && e.from != e.to
  }

  /** The end points of a set of edges. */
  function Endpoints<T>(edges: set<Edge<T>>): set<T> {
    (set e | e in edges :: e.from) + (set e | e in edges :: e.to)
  }

  lemma EndpointsAdd<T>(edges: set<Edge<T>>, dep: Edge<T>)
    ensures Endpoints(edges + {dep}) == Endpoints(edges) + {dep.from, dep.to}
  {
    assert (set e | e in edges + {dep} :: e.from) == (set e | e in edges :: e.from) + {dep.from};
    assert (set e | e in edges + {dep} :: e.to) == (set e | e in edges :: e.to) + {dep.to};
  }

  lemma EndpointsContain<T>(edges: set<Edge<T>>)
    ensures forall e :: e in edges ==> e.from in Endpoints(edges) && e.to in Endpoints(edges)
  {
    forall e | e in edges ensures e.from in Endpoints(edges) && e.to in Endpoints(edges) {
      assert e.from in (set e | e in edges :: e.from);
      assert e.to in (set e | e in edges :: e.to);
    }
  }

  /**
   * `buildSimpleDirectedGraph { for (dep in edges) addEdge(dep.from, dep.to, dep) }`:
   * `addEdge` adds both end points with the edge. A loop edge would make
   * `addEdge` throw, so the graph is simple when no edge is a loop.
   */
  method BuildGraph<T(==)>(edges: set<Edge<T>>) returns (g: Graph<T>)
    ensures g.edges == edges && g.vertices == Endpoints(edges)
    ensures (forall e :: e in edges ==> e.from != e.to) ==> Simple(g)
  {
    g := Graph({}, {});
    assert Endpoints<T>({}) == {};
    var remaining := edges;
    while remaining != {}
      invariant remaining <= edges && g.edges == edges - remaining
      invariant g.vertices == Endpoints(g.edges)
      decreases |remaining|
    {
      var dep :| dep in remaining;
      EndpointsAdd(g.edges, dep);
      g := Graph(g.vertices + {dep.from, dep.to}, g.edges + {dep});
      remaining := remaining - {dep};
    }
    EndpointsContain(edges);
  }

  // ---------------------------------------------------------------------------
  // Reachability and `BreadthFirstIterator`
  // ---------------------------------------------------------------------------

  /** `b` can be reached from `a` along at most `n` edges. */
  ghost predicate ReachIn<T>(edges: set<Edge<T>>, a: T, b: T, n: nat)
    decreases n
  {
    a == b || (n > 0 && exists e :: e in edges && e.from == a && ReachIn(edges, e.to, b, n - 1))
  }

  /** `b` can be reached from `a` along the edges. */
  ghost predicate Reaches<T>(edges: set<Edge<T>>, a: T, b: T) {
    exists n: nat :: ReachIn(edges, a, b, n)
  }

  /** No edge leaves the set. */
  ghost predicate Closed<T>(edges: set<Edge<T>>, s: set<T>) {
    forall e :: e in edges && e.from in s ==> e.to in s
  }

  /** The vertices one edge away from `v`. */
  function Successors<T>(edges: set<Edge<T>>, v: T): set<T> {
    set e | e in edges && e.from == v :: e.to
  }

  lemma {:induction false} ReachInStep<T>(edges: set<Edge<T>>, a: T, b: T, n: nat, e: Edge<T>)
    requires ReachIn(edges, a, b, n) && e in edges && e.from == b
    ensures ReachIn(edges, a, e.to, n + 1)
    decreases n
  {
    if a == b {
      assert ReachIn(edges, e.to, e.to, n);
    } else {
      var e' :| e' in edges && e'.from == a && ReachIn(edges, e'.to, b, n - 1);
      ReachInStep(edges, e'.to, b, n - 1, e);
    }
  }

  /** One more edge extends a path. */
  lemma ReachesStep<T>(edges: set<Edge<T>>, a: T, b: T, e: Edge<T>)
    requires Reaches(edges, a, b) && e in edges && e.from == b
    ensures Reaches(edges, a, e.to)
  {
    var n: nat :| ReachIn(edges, a, b, n);
    ReachInStep(edges, a, b, n, e);
  }

  lemma {:induction false} ClosedReachIn<T>(edges: set<Edge<T>>, s: set<T>, a: T, b: T, n: nat)
    requires Closed(edges, s) && a in s && ReachIn(edges, a, b, n)
    ensures b in s
    decreases n
  {
    if a != b {
      var e :| e in edges && e.from == a && ReachIn(edges, e.to, b, n - 1);
      ClosedReachIn(edges, s, e.to, b, n - 1);
    }
  }

  /** A set that no edge leaves holds everything reachable from its members. */
  lemma ClosedHoldsReachable<T>(edges: set<Edge<T>>, s: set<T>, a: T)
    requires Closed(edges, s) && a in s
    ensures forall b :: Reaches(edges, a, b) ==> b in s
  {
    forall b | Reaches(edges, a, b) ensures b in s {
      var n: nat :| ReachIn(edges, a, b, n);
      ClosedReachIn(edges, s, a, b, n);
    }
  }

  /**
   * The vertices `BreadthFirstIterator(graph, start)` visits: exactly those
   * reachable from `start`, `start` included.
   */
  method BreadthFirst<T(==)>(edges: set<Edge<T>>, start: T) returns (reached: set<T>)
    ensures start in reached
    ensures forall v :: v in reached <==> Reaches(edges, start, v)
  {
    assert ReachIn(edges, start, start, 0);
    EndpointsContain(edges);
    reached := {start};
    var queue := {start};
    while queue != {}
      invariant queue <= reached && start in reached
      invariant reached <= Endpoints(edges) + {start}
      invariant forall e :: e in edges && e.from in reached - queue ==> e.to in reached
      invariant forall v :: v in reached ==> Reaches(edges, start, v)
      decreases |Endpoints(edges) + {start} - reached|, |queue|
    {
      var v :| v in queue;
      var next := Successors(edges, v) - reached;
      forall w | w in next ensures Reaches(edges, start, w) && w in Endpoints(edges) {
        var e :| e in edges && e.from == v && e.to == w;
        ReachesStep(edges, start, v, e);
      }
      if next != {} {
        assert Endpoints(edges) + {start} - (reached + next) < Endpoints(edges) + {start} - reached;
      }
      reached := reached + next;
      queue := queue - {v} + next;
    }
    ClosedHoldsReachable(edges, reached, start);
  }
}
