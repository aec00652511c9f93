/** Path costs, dependency graphs and paths: the vocabulary of app/bz_critical_path. */
module Paths {
  import opened Collections

  /** Costs are ordered by runtime, then by number of vertices. */
  datatype PathCost = PathCost(runtime: nat, len: nat) {
    predicate Leq(other: PathCost) {
      runtime < other.runtime || (runtime == other.runtime && len <= other.len)
    }
    function Plus(other: PathCost): PathCost {
      PathCost(runtime + other.runtime, len + other.len)
    }
  }

  const ZERO_COST := PathCost(0, 0)

  function MaxCost(a: PathCost, b: PathCost): (r: PathCost) { if a.Leq(b) then b else a }

  datatype GraphVertex = GraphVertex(edgesIdx: nat, edgesCount: nat)

  /** Adjacency in one flat array: vertex `v` owns `edges[edgesIdx .. edgesIdx + edgesCount]`. */
  datatype Graph = Graph(vertices: seq<GraphVertex>, edges: seq<nat>) {

    /** Every slice lies within `edges`, and every edge names a vertex. */
    ghost predicate Valid() {
      && (forall v :: 0 <= v < |vertices| ==> vertices[v].edgesIdx + vertices[v].edgesCount <= |edges|)
      && (forall i :: 0 <= i < |edges| ==> edges[i] < |vertices|)
    }

    /** The direct dependencies of `v`. */
    function Edges(v: nat): (r: seq<nat>)
      requires Valid() && v < |vertices|
      ensures forall i :: 0 <= i < |r| ==> r[i] < |vertices|
    {
      edges[vertices[v].edgesIdx..vertices[v].edgesIdx + vertices[v].edgesCount]
    }

    /** `b` directly depends on `a`. */
    predicate Edge(a: nat, b: nat)
      requires Valid()
    {
      b < |vertices| && a in Edges(b)
    }

    /** A chain of vertices, each depending on the one before it. */
    ghost predicate Path(p: seq<nat>)
      requires Valid()
    {
      && (forall i :: 0 <= i < |p| ==> p[i] < |vertices|)
      && (forall i, j :: 0 <= i && j == i + 1 && j < |p| ==> Edge(p[i], p[j]))
    }

    ghost predicate PathBetween(p: seq<nat>, a: nat, b: nat)
      requires Valid()
    {
      |p| > 0 && p[0] == a && p[|p| - 1] == b && Path(p)
    }

    ghost predicate Reach(a: nat, b: nat)
      requires Valid()
    {
      exists p :: PathBetween(p, a, b)
    }

    /** A closed chain of at least one edge. */
    ghost predicate Cycle(p: seq<nat>)
      requires Valid()
    {
      |p| > 1 && p[0] == p[|p| - 1] && Path(p)
    }

    ghost predicate Acyclic()
      requires Valid()
    {
      forall p :: !Cycle(p)
    }

    /** `rank` grows along every dependency. */
    ghost predicate Ranked(rank: seq<int>)
      requires Valid()
    {
      |rank| == |vertices| && forall a: nat, b: nat :: Edge(a, b) ==> rank[a] < rank[b]
    }
  }

  /** The weight of a vertex; vertices outside the graph weigh nothing. */
  function Weight(w: seq<nat>, v: nat): nat { if v < |w| then w[v] else 0 }

  function Runtime(w: seq<nat>, p: seq<nat>): nat {
    if p == [] then 0 else Weight(w, p[0]) + Runtime(w, p[1..])
  }

  function Cost(w: seq<nat>, p: seq<nat>): PathCost { PathCost(Runtime(w, p), |p|) }

  lemma {:induction false} RuntimeConcat(w: seq<nat>, p: seq<nat>, q: seq<nat>)
    ensures Runtime(w, p + q) == Runtime(w, p) + Runtime(w, q)
  {
    if p == [] {
      assert p + q == q;
    } else {
      var r := p + q;
      RuntimeConcat(w, p[1..], q);
      assert r[1..] == p[1..] + q && r[0] == p[0] && r != [];
    }
  }

  lemma {:induction false} CostConcat(w: seq<nat>, p: seq<nat>, q: seq<nat>)
    ensures Cost(w, p + q) == Cost(w, p).Plus(Cost(w, q))
  {
    hide Runtime;
    RuntimeConcat(w, p, q);
  }

  lemma {:induction false} Singleton(g: Graph, w: seq<nat>, v: nat)
    requires g.Valid() && v < |g.vertices| == |w|
    ensures g.Path([v]) && Cost(w, [v]) == PathCost(w[v], 1)
  {
    assert [v][1..] == [];
    assert Runtime(w, [v]) == Weight(w, v) + Runtime(w, []);
  }

  lemma {:induction false} CostReverse(w: seq<nat>, p: seq<nat>)
    ensures Cost(w, Reverse(p)) == Cost(w, p)
  {
    if p != [] {
      CostReverse(w, p[1..]);
      assert Reverse(p) == Reverse(p[1..]) + [p[0]];
      CostConcat(w, Reverse(p[1..]), [p[0]]);
      assert Runtime(w, [p[0]]) == Weight(w, p[0]) + Runtime(w, []);
    }
  }

  lemma {:induction false} PathConcat(g: Graph, p: seq<nat>, q: seq<nat>)
    requires g.Valid() && g.Path(p) && g.Path(q)
    requires p != [] && q != [] ==> g.Edge(p[|p| - 1], q[0])
    ensures g.Path(p + q)
  {
    var r := p + q;
    forall i | 0 <= i < |r| - 1 ensures g.Edge(r[i], r[i + 1]) {
      if i + 1 < |p| {
        assert g.Edge(p[i], p[i + 1]);
      } else if i >= |p| {
        assert g.Edge(q[i - |p|], q[i - |p| + 1]);
      }
    }
  }

  lemma {:induction false} PathCons(g: Graph, w: seq<nat>, v: nat, p: seq<nat>)
    requires g.Valid() && v < |g.vertices| == |w| && g.Path(p)
    requires p != [] ==> g.Edge(v, p[0])
    ensures g.Path([v] + p) && Cost(w, [v] + p) == PathCost(w[v], 1).Plus(Cost(w, p))
  {
    Singleton(g, w, v);
    PathConcat(g, [v], p);
    CostConcat(w, [v], p);
  }

  lemma {:induction false} PathSnoc(g: Graph, w: seq<nat>, p: seq<nat>, v: nat)
    requires g.Valid() && v < |g.vertices| == |w| && g.Path(p)
    requires p != [] ==> g.Edge(p[|p| - 1], v)
    ensures g.Path(p + [v]) && Cost(w, p + [v]) == Cost(w, p).Plus(PathCost(w[v], 1))
  {
    Singleton(g, w, v);
    PathConcat(g, p, [v]);
    CostConcat(w, p, [v]);
  }

  lemma {:induction false} PathSlice(g: Graph, p: seq<nat>, lo: nat, hi: nat)
    requires g.Valid() && g.Path(p) && lo <= hi <= |p|
    ensures g.Path(p[lo..hi])
  {
    var r := p[lo..hi];
    forall i | 0 <= i < |r| - 1 ensures g.Edge(r[i], r[i + 1]) {
      assert g.Edge(p[lo + i], p[lo + i + 1]);
    }
  }

  lemma {:induction false} ReachTrans(g: Graph, a: nat, b: nat, c: nat)
    requires g.Valid() && g.Reach(a, b) && g.Reach(b, c)
    ensures g.Reach(a, c)
  {
    var p :| g.PathBetween(p, a, b);
    var q :| g.PathBetween(q, b, c);
    PathSlice(g, q, 1, |q|);
    if |q| > 1 { assert g.Edge(q[0], q[1]); }
    PathConcat(g, p, q[1..]);
    assert g.PathBetween(p + q[1..], a, c);
  }

  lemma {:induction false} ReachAlong(g: Graph, p: seq<nat>, i: nat, j: nat)
    requires g.Valid() && g.Path(p) && i <= j < |p|
    ensures g.Reach(p[i], p[j])
  {
    PathSlice(g, p, i, j + 1);
    assert g.PathBetween(p[i..j + 1], p[i], p[j]);
  }

  lemma {:induction false} RankAlong(g: Graph, rank: seq<int>, p: seq<nat>, i: nat, j: nat)
    requires g.Valid() && g.Ranked(rank) && g.Path(p) && i <= j < |p|
    ensures rank[p[i]] + j - i <= rank[p[j]]
    decreases j
  {
    if i < j {
      RankAlong(g, rank, p, i, j - 1);
      assert g.Edge(p[j - 1], p[j - 1 + 1]);
    }
  }

  /** A graph whose dependencies all increase some rank has no cycle. */
  lemma {:induction false} RankedIsAcyclic(g: Graph, rank: seq<int>)
    requires g.Valid() && g.Ranked(rank)
    ensures g.Acyclic()
  {
    forall p | g.Cycle(p) ensures false {
      RankAlong(g, rank, p, 0, |p| - 1);
    }
  }

  /** Some path is a longest one in the whole graph, and `c` is its cost. */
  ghost predicate LongestCost(g: Graph, w: seq<nat>, c: PathCost)
    requires g.Valid() && |w| == |g.vertices|
  {
    && (exists p :: |p| > 0 && g.Path(p) && Cost(w, p) == c)
    && (forall p :: |p| > 0 && g.Path(p) ==> Cost(w, p).Leq(c))
  }

  /** `c` is the cost of a longest path ending at `v`. */
  ghost predicate LongestTo(g: Graph, w: seq<nat>, v: nat, c: PathCost)
    requires g.Valid() && |w| == |g.vertices|
  {
    && (exists p :: |p| > 0 && p[|p| - 1] == v && g.Path(p) && Cost(w, p) == c)
    && (forall p :: |p| > 0 && p[|p| - 1] == v && g.Path(p) ==> Cost(w, p).Leq(c))
  }

  /** `c` is the cost of a longest path starting at `v`. */
  ghost predicate LongestFrom(g: Graph, w: seq<nat>, v: nat, c: PathCost)
    requires g.Valid() && |w| == |g.vertices|
  {
    && (exists p :: |p| > 0 && p[0] == v && g.Path(p) && Cost(w, p) == c)
    && (forall p :: |p| > 0 && p[0] == v && g.Path(p) ==> Cost(w, p).Leq(c))
  }
}
