/** Reversal of a flat adjacency array by counting: `Graph::reversed` in app/bz_critical_path/src/graph.rs. */
module GraphReverse {
  import opened Paths

  /** The slices of `vertices` follow each other and cover exactly `0..total`. */
  ghost predicate LaidOut(vertices: seq<GraphVertex>, total: nat) {
    && (if vertices == [] then total == 0 else vertices[0].edgesIdx == 0)
    && (forall i, j :: 0 <= i && j == i + 1 && j < |vertices| ==>
          vertices[i].edgesIdx + vertices[i].edgesCount == vertices[j].edgesIdx)
    && (forall i :: 0 <= i < |vertices| && i == |vertices| - 1 ==>
          vertices[i].edgesIdx + vertices[i].edgesCount == total)
    && (forall i, j :: 0 <= i < j < |vertices| ==>
          vertices[i].edgesIdx + vertices[i].edgesCount <= vertices[j].edgesIdx)
    && (forall i :: 0 <= i < |vertices| ==> vertices[i].edgesIdx + vertices[i].edgesCount <= total)
  }

  ghost predicate Packed(g: Graph) {
    LaidOut(g.vertices, |g.edges|)
  }

  /** Where the slice of vertex `k` starts. */
  function Start(g: Graph, k: nat): (r: nat)
    requires k <= |g.vertices|
  {
    if k == |g.vertices| then |g.edges| else g.vertices[k].edgesIdx
  }

  function Count(s: seq<nat>, u: nat): (r: nat) {
    if s == [] then 0 else Count(s[..|s| - 1], u) + if s[|s| - 1] == u then 1 else 0
  }

  function Repeat(v: nat, n: nat): (r: seq<nat>)
    ensures |r| == n && forall i :: 0 <= i < n ==> r[i] == v
  {
    seq(n, _ => v)
  }

  /** The vertices below `k` that depend on `u`, in order, once for each parallel edge. */
  function Dependants(g: Graph, u: nat, k: nat): (r: seq<nat>)
    requires g.Valid() && k <= |g.vertices|
  {
    if k == 0 then [] else Dependants(g, u, k - 1) + Repeat(k - 1, Count(g.Edges(k - 1), u))
  }

  lemma {:induction false} CountConcat(s: seq<nat>, t: seq<nat>, u: nat)
    ensures Count(s + t, u) == Count(s, u) + Count(t, u)
  {
    if t == [] {
      assert s + t == s;
    } else {
      assert (s + t)[..|s + t| - 1] == s + t[..|t| - 1];
      CountConcat(s, t[..|t| - 1], u);
    }
  }

  lemma {:induction false} CountZero(s: seq<nat>, u: nat)
    ensures Count(s, u) == 0 <==> u !in s
  {
    if s != [] {
      CountZero(s[..|s| - 1], u);
      assert s == s[..|s| - 1] + [s[|s| - 1]];
    }
  }

  lemma {:induction false} StartNext(g: Graph, k: nat)
    requires g.Valid() && Packed(g) && k <= |g.vertices|
    ensures k == 0 ==> Start(g, k) == 0
    ensures k > 0 ==> Start(g, k - 1) <= Start(g, k) && g.Edges(k - 1) == g.edges[Start(g, k - 1)..Start(g, k)]
    ensures Start(g, k) <= |g.edges|
  {
    if k > 0 {
      assert g.vertices[k - 1].edgesIdx + g.vertices[k - 1].edgesCount == Start(g, k);
    }
  }

  /** A vertex is listed as often below `k` as it occurs before the slice of `k`. */
  lemma {:induction false} DependantsCount(g: Graph, u: nat, k: nat)
    requires g.Valid() && Packed(g) && k <= |g.vertices|
    ensures Start(g, k) <= |g.edges|
    ensures |Dependants(g, u, k)| == Count(g.edges[..Start(g, k)], u)
  {
    hide Packed, Graph.Valid;
    StartNext(g, k);
    if k > 0 {
      DependantsCount(g, u, k - 1);
      var lo, hi := Start(g, k - 1), Start(g, k);
      CountConcat(g.edges[..lo], g.edges[lo..hi], u);
      assert g.edges[..hi] == g.edges[..lo] + g.edges[lo..hi];
    }
  }

  lemma {:induction false} DependantsMember(g: Graph, u: nat, k: nat, v: nat)
    requires g.Valid() && k <= |g.vertices|
    ensures v in Dependants(g, u, k) <==> v < k && u in g.Edges(v)
  {
    if k > 0 {
      DependantsMember(g, u, k - 1, v);
      CountZero(g.Edges(k - 1), u);
      var r := Repeat(k - 1, Count(g.Edges(k - 1), u));
      assert v in r <==> |r| > 0 && v == k - 1 by {
        if |r| > 0 { assert r[0] == k - 1; }
      }
    }
  }

  /** Sum of the first `k` counters. */
  function Total(counts: seq<nat>, k: nat): (r: nat)
    requires k <= |counts|
  {
    if k == 0 then 0 else Total(counts, k - 1) + counts[k - 1]
  }

  lemma {:induction false} TotalBump(counts: seq<nat>, e: nat, k: nat)
    requires e < |counts| && k <= |counts|
    ensures Total(counts[e := counts[e] + 1], k) == Total(counts, k) + if e < k then 1 else 0
  {
    if k > 0 { TotalBump(counts, e, k - 1); }
  }

  lemma {:induction false} ZeroTotal(n: nat, k: nat)
    requires k <= n
    ensures Total(seq(n, _ => 0), k) == 0
  {
    if k > 0 { ZeroTotal(n, k - 1); }
  }

  /** In-degrees: how often each vertex occurs in the edge array. */
  method CountEdges(g: Graph) returns (counts: seq<nat>)
    requires g.Valid()
    ensures |counts| == |g.vertices|
    ensures forall u :: 0 <= u < |counts| ==> counts[u] == Count(g.edges, u)
    ensures Total(counts, |counts|) == |g.edges|
  {
    counts := seq(|g.vertices|, _ => 0);
    ZeroTotal(|g.vertices|, |g.vertices|);
    for i := 0 to |g.edges|
      invariant |counts| == |g.vertices|
      invariant forall u :: 0 <= u < |counts| ==> counts[u] == Count(g.edges[..i], u)
      invariant Total(counts, |counts|) == i
    {
      var e := g.edges[i];
      TotalBump(counts, e, |counts|);
      assert g.edges[..i + 1][..|g.edges[..i + 1]| - 1] == g.edges[..i];
      counts := counts[e := counts[e] + 1];
    }
    assert g.edges[..|g.edges|] == g.edges;
  }

  /** The first `v` slices are laid out, and `idx` is where the next one starts. */
  ghost predicate Placed(counts: seq<nat>, vertices: seq<GraphVertex>, v: nat, idx: nat) {
    && v <= |vertices| == |counts| && idx == Total(counts, v) && LaidOut(vertices[..v], idx)
    && forall u :: 0 <= u < |counts| ==> vertices[u].edgesCount == counts[u]
  }

  lemma {:induction false} NonePlaced(counts: seq<nat>, vertices: seq<GraphVertex>)
    requires |vertices| == |counts| && forall u :: 0 <= u < |counts| ==> vertices[u].edgesCount == counts[u]
    ensures Placed(counts, vertices, 0, 0)
  {
    assert vertices[..0] == [];
  }

  lemma {:induction false} LaidOutSnoc(vertices: seq<GraphVertex>, v: GraphVertex)
    requires LaidOut(vertices, v.edgesIdx)
    ensures LaidOut(vertices + [v], v.edgesIdx + v.edgesCount)
  {
    var t := vertices + [v];
    if vertices == [] {
      assert t[0] == v;
    }
    assert forall i :: 0 <= i < |vertices| ==> t[i] == vertices[i];
  }

  lemma {:induction false} LaidOutNext(vertices: seq<GraphVertex>, v: nat, idx: nat)
    requires v < |vertices| && LaidOut(vertices[..v], idx)
    ensures LaidOut(vertices[v := GraphVertex(idx, vertices[v].edgesCount)][..v + 1], idx + vertices[v].edgesCount)
  {
    hide LaidOut;
    var next := GraphVertex(idx, vertices[v].edgesCount);
    assert vertices[v := next][..v + 1] == vertices[..v] + [next];
    LaidOutSnoc(vertices[..v], next);
  }

  lemma {:induction false} PlacedNext(counts: seq<nat>, vertices: seq<GraphVertex>, v: nat, idx: nat)
    requires Placed(counts, vertices, v, idx) && v < |counts|
    ensures |vertices| == |counts|
    ensures Placed(counts, vertices[v := GraphVertex(idx, vertices[v].edgesCount)], v + 1, idx + vertices[v].edgesCount)
  {
    hide LaidOut;
    LaidOutNext(vertices, v, idx);
  }

  lemma {:induction false} PlacedAll(counts: seq<nat>, vertices: seq<GraphVertex>, idx: nat)
    requires Placed(counts, vertices, |counts|, idx)
    ensures |vertices| == |counts| && idx == Total(counts, |counts|) && LaidOut(vertices, idx)
    ensures forall v :: 0 <= v < |counts| ==> vertices[v].edgesCount == counts[v]
  {
    hide LaidOut;
    assert vertices[..|counts|] == vertices;
  }

  /** The running sum that gives each vertex its slice. */
  method LayOut(counts: seq<nat>) returns (vertices: seq<GraphVertex>, idx: nat)
    ensures |vertices| == |counts| && idx == Total(counts, |counts|)
    ensures forall v :: 0 <= v < |counts| ==> vertices[v].edgesCount == counts[v]
    ensures LaidOut(vertices, idx)
  {
    hide LaidOut, Placed, Total;
    vertices := seq(|counts|, i requires 0 <= i < |counts| => GraphVertex(0, counts[i]));
    idx := 0;
    NonePlaced(counts, vertices);
    for v := 0 to |counts|
      invariant Placed(counts, vertices, v, idx)
    {
      PlacedNext(counts, vertices, v, idx);
      vertices := vertices[v := GraphVertex(idx, vertices[v].edgesCount)];
      idx := idx + vertices[v].edgesCount;
    }
    PlacedAll(counts, vertices, idx);
  }

  /** The new edge array while it is being filled, and how far each slice is filled. */
  datatype Slots = Slots(edges: seq<nat>, offsets: seq<nat>) {
    ghost predicate Room(layout: seq<GraphVertex>, to: nat) {
      to < |layout| && to < |offsets| && layout[to].edgesIdx + offsets[to] < |edges|
    }

    function Put(layout: seq<GraphVertex>, to: nat, from: nat): (r: Slots)
      requires Room(layout, to)
    {
      Slots(edges[layout[to].edgesIdx + offsets[to] := from], offsets[to := offsets[to] + 1])
    }

    ghost predicate Slice(layout: seq<GraphVertex>, u: nat, content: seq<nat>) {
      && u < |layout| && u < |offsets| && layout[u].edgesIdx + offsets[u] <= |edges|
      && edges[layout[u].edgesIdx..layout[u].edgesIdx + offsets[u]] == content
    }
  }

  /** What is listed for `u` after the first `t` edges of `from`. */
  function Listed(g: Graph, u: nat, from: nat, t: nat): (r: seq<nat>)
    requires g.Valid() && from < |g.vertices| && t <= |g.Edges(from)|
  {
    Dependants(g, u, from) + Repeat(from, Count(g.Edges(from)[..t], u))
  }

  /** The slices of `layout` are as long as the in-degrees in `g`. */
  ghost predicate Prepared(g: Graph, layout: seq<GraphVertex>) {
    && g.Valid() && Packed(g) && |layout| == |g.vertices| && LaidOut(layout, |g.edges|)
    && forall u :: 0 <= u < |layout| ==> layout[u].edgesCount == Count(g.edges, u)
  }

  /** Each slice holds, up to its fill mark, what is listed for its vertex so far. Slots to be filled hold 0. */
  ghost predicate Filled(g: Graph, layout: seq<GraphVertex>, s: Slots, from: nat, t: nat)
    requires Prepared(g, layout) && from < |g.vertices| && t <= |g.Edges(from)|
  {
    && |s.offsets| == |layout| && |s.edges| == |g.edges|
    && (forall i :: 0 <= i < |s.edges| ==> s.edges[i] == 0 || s.edges[i] < |g.vertices|)
    && (forall u :: 0 <= u < |layout| ==> s.Slice(layout, u, Listed(g, u, from, t)))
  }

  lemma {:induction false} ListedNext(g: Graph, u: nat, from: nat, t: nat)
    requires g.Valid() && from < |g.vertices| && t < |g.Edges(from)|
    ensures Listed(g, u, from, t + 1) == Listed(g, u, from, t) + (if g.Edges(from)[t] == u then [from] else [])
  {
    var deps := g.Edges(from);
    assert deps[..t + 1][..|deps[..t + 1]| - 1] == deps[..t];
  }

  lemma {:induction false} ListedBound(g: Graph, u: nat, from: nat, t: nat)
    requires g.Valid() && Packed(g) && from < |g.vertices| && t <= |g.Edges(from)|
    ensures |Listed(g, u, from, t)| <= Count(g.edges, u)
  {
    DependantsCount(g, u, from);
    var lo := g.vertices[from].edgesIdx;
    assert g.edges == (g.edges[..lo] + g.Edges(from)[..t]) + g.edges[lo + t..];
    CountConcat(g.edges[..lo] + g.Edges(from)[..t], g.edges[lo + t..], u);
    CountConcat(g.edges[..lo], g.Edges(from)[..t], u);
  }

  /** Writing into a slice that has room extends that slice and leaves the others as they were. */
  lemma {:induction false} PutSlices(layout: seq<GraphVertex>, s: Slots, to: nat, from: nat, u: nat, mine: seq<nat>,
                                     other: seq<nat>)
    requires LaidOut(layout, |s.edges|)
    requires s.Slice(layout, to, mine) && s.Slice(layout, u, other)
    requires |mine| < layout[to].edgesCount && |other| <= layout[u].edgesCount
    ensures s.Room(layout, to)
    ensures s.Put(layout, to, from).Slice(layout, u, if u == to then mine + [from] else other)
  {
    var at := layout[to].edgesIdx + s.offsets[to];
    var lo, hi := layout[u].edgesIdx, layout[u].edgesIdx + s.offsets[u];
    assert |s.edges[layout[to].edgesIdx..at]| == s.offsets[to] && |s.edges[lo..hi]| == s.offsets[u];
    assert layout[to].edgesIdx + layout[to].edgesCount <= |s.edges|;
    var edges' := s.edges[at := from];
    if u == to {
      assert edges'[lo..hi + 1] == s.edges[lo..hi] + [from];
    } else {
      assert at < lo || hi <= at;
      assert edges'[lo..hi] == s.edges[lo..hi];
    }
  }

  lemma {:induction false} FillStep(g: Graph, layout: seq<GraphVertex>, s: Slots, from: nat, t: nat)
    requires Prepared(g, layout) && from < |g.vertices| && t < |g.Edges(from)|
    requires Filled(g, layout, s, from, t)
    ensures s.Room(layout, g.Edges(from)[t])
    ensures Filled(g, layout, s.Put(layout, g.Edges(from)[t], from), from, t + 1)
  {
    var to := g.Edges(from)[t];
    hide Listed, LaidOut, Graph.Valid, Count, Slots.Slice;
    ListedNext(g, to, from, t);
    ListedBound(g, to, from, t + 1);
    ListedBound(g, to, from, t);
    PutSlices(layout, s, to, from, to, Listed(g, to, from, t), Listed(g, to, from, t));
    var s', next := s.Put(layout, to, from), t + 1;
    forall u | 0 <= u < |layout| ensures s'.Slice(layout, u, Listed(g, u, from, next)) {
      ListedNext(g, u, from, t);
      ListedBound(g, u, from, t);
      PutSlices(layout, s, to, from, u, Listed(g, to, from, t), Listed(g, u, from, t));
      assert Listed(g, u, from, t) + [] == Listed(g, u, from, t);
    }
  }

  lemma {:induction false} NextVertex(g: Graph, layout: seq<GraphVertex>, s: Slots, from: nat)
    requires Prepared(g, layout) && from + 1 < |g.vertices|
    requires Filled(g, layout, s, from, |g.Edges(from)|)
    ensures Filled(g, layout, s, from + 1, 0)
  {
    hide LaidOut;
    var deps := g.Edges(from);
    assert deps[..|deps|] == deps;
    var next := from + 1;
    forall u | 0 <= u < |layout| ensures s.Slice(layout, u, Listed(g, u, next, 0)) {
      assert g.Edges(next)[..0] == [];
      assert Listed(g, u, next, 0) == Listed(g, u, from, |deps|);
    }
  }

  ghost predicate Transposed(g: Graph, r: Graph)
    requires g.Valid()
  {
    && |r.vertices| == |g.vertices| && Packed(r) && r.Valid()
    && forall u :: 0 <= u < |g.vertices| ==> r.Edges(u) == Dependants(g, u, |g.vertices|)
  }

  /** The inner loop: files `from` under each of its dependencies. */
  method FillFrom(g: Graph, layout: seq<GraphVertex>, before: Slots, from: nat) returns (s: Slots)
    requires Prepared(g, layout) && from < |g.vertices| && Filled(g, layout, before, from, 0)
    ensures Filled(g, layout, s, from, |g.Edges(from)|)
  {
    s := before;
    hide Filled, LaidOut, Count, Packed;
    var deps := g.Edges(from);
    for t := 0 to |deps|
      invariant Filled(g, layout, s, from, t)
    {
      FillStep(g, layout, s, from, t);
      s := s.Put(layout, deps[t], from);
    }
  }

  lemma {:induction false} StartFilled(g: Graph, layout: seq<GraphVertex>, s: Slots)
    requires Prepared(g, layout) && |g.vertices| > 0
    requires |s.offsets| == |layout| && |s.edges| == |g.edges|
    requires forall i :: 0 <= i < |s.edges| ==> s.edges[i] == 0
    requires forall u :: 0 <= u < |layout| ==> s.offsets[u] == 0
    ensures Filled(g, layout, s, 0, 0)
  {
    forall u | 0 <= u < |layout| ensures s.Slice(layout, u, Listed(g, u, 0, 0)) {
      assert g.Edges(0)[..0] == [];
      assert Listed(g, u, 0, 0) == [];
      assert layout[u].edgesIdx + layout[u].edgesCount <= |s.edges|;
    }
  }

  lemma {:induction false} OneFilled(g: Graph, s: Slots, r: Graph, u: nat)
    requires Prepared(g, r.vertices) && r.edges == s.edges && r.Valid() && u < |g.vertices| == |r.vertices|
    requires Filled(g, r.vertices, s, |g.vertices| - 1, |g.Edges(|g.vertices| - 1)|)
    ensures r.Edges(u) == Dependants(g, u, |g.vertices|)
  {
    var n := |g.vertices|;
    DependantsCount(g, u, n);
    assert g.edges[..|g.edges|] == g.edges;
    var deps := g.Edges(n - 1);
    assert deps[..|deps|] == deps;
    var lo := r.vertices[u].edgesIdx;
    assert s.Slice(r.vertices, u, Listed(g, u, n - 1, |deps|));
    assert |r.edges[lo..lo + s.offsets[u]]| == s.offsets[u];
  }

  lemma {:induction false} AllFilled(g: Graph, s: Slots, r: Graph)
    requires Prepared(g, r.vertices) && r.edges == s.edges
    requires if |g.vertices| == 0 then |r.edges| == |g.edges|
             else Filled(g, r.vertices, s, |g.vertices| - 1, |g.Edges(|g.vertices| - 1)|)
    ensures Transposed(g, r)
  {
    var n := |g.vertices|;
    assert n == 0 ==> g.edges == [];
    forall u | 0 <= u < n ensures r.Edges(u) == Dependants(g, u, n) {
      OneFilled(g, s, r, u);
    }
    hide Filled, Dependants;
  }

  /**
   `reversed`: the edges of `u` in the result are the vertices that depend on `u`, in ascending order and once
   for each parallel edge. The running sum always ends at the number of edges, as the code asserts.
   */
  method Reversed(g: Graph) returns (r: Graph)
    requires g.Valid() && Packed(g)
    ensures Transposed(g, r)
  {
    var counts := CountEdges(g);
    var vertices, idx := LayOut(counts);
    assert idx == |g.edges|;
    var s := Slots(seq(|g.edges|, _ => 0), seq(|g.vertices|, _ => 0));
    assert Prepared(g, vertices);
    if |g.vertices| > 0 {
      StartFilled(g, vertices, s);
    }
    hide Filled, LaidOut, Count, Prepared, Transposed, Graph.Valid;
    for from := 0 to |g.vertices|
      invariant from < |g.vertices| ==> Filled(g, vertices, s, from, 0)
      invariant 0 < from == |g.vertices| ==> Filled(g, vertices, s, from - 1, |g.Edges(from - 1)|)
      invariant from == 0 ==> s.edges == seq(|g.edges|, _ => 0)
    {
      s := FillFrom(g, vertices, s, from);
      if from + 1 < |g.vertices| {
        NextVertex(g, vertices, s, from);
      }
    }
    r := Graph(vertices, s.edges);
    AllFilled(g, s, r);
  }

  /** Reversal turns every dependency around and adds no other. */
  lemma {:induction false} TransposedEdge(g: Graph, r: Graph, a: nat, b: nat)
    requires g.Valid() && Transposed(g, r)
    ensures r.Edge(b, a) <==> g.Edge(a, b)
  {
    if a < |g.vertices| {
      DependantsMember(g, a, |g.vertices|, b);
    }
  }
}
