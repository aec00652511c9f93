/**
 The near-linear computation of how much each vertex of the critical path could save:
 `compute_critical_path_potentials` in app/bz_critical_path/src/potential.rs.
 */
module Potentials {
  import opened Collections
  import opened Paths
  import opened TopoSort
  import opened LongestPaths
  import opened GraphReverse
  import opened Replacement
  import Sweep

  ghost function Unset(mark: seq<Option<nat>>): set<int> {
    set x | 0 <= x < |mark| && mark[x].None?
  }

  lemma {:induction false} ReachEdge(g: Graph, x: nat, d: nat, v: nat)
    requires g.Valid() && g.Reach(x, d) && g.Edge(d, v)
    ensures g.Reach(x, v)
  {
    assert g.PathBetween([d, v], d, v);
    ReachTrans(g, x, d, v);
  }

  /** Marks everything reachable along the edges of `graph` from the roots it is given, first root first. */
  class GraphVisitor {
    const graph: Graph
    var mark: seq<Option<nat>>
    var cpIdx: nat

    constructor (graph: Graph)
      ensures this.graph == graph && mark == seq(|graph.vertices|, _ => None)
    {
      this.graph := graph;
      mark := seq(|graph.vertices|, _ => None);
      cpIdx := 0;
    }

    /** The recursive `visit`: marks `v` and what it leads to with `cpIdx`, and keeps all earlier marks. */
    method Visit(v: nat)
      requires graph.Valid() && |mark| == |graph.vertices| && v < |mark|
      modifies this`mark
      ensures |mark| == |graph.vertices| && mark[v].Some?
      ensures forall x :: 0 <= x < |mark| && old(mark)[x].Some? ==> mark[x] == old(mark)[x]
      ensures forall x :: 0 <= x < |mark| && old(mark)[x].None? && mark[x].Some? ==>
                mark[x].value == cpIdx && graph.Reach(x, v)
      ensures forall x, d: nat :: 0 <= x < |mark| && old(mark)[x].None? && mark[x].Some? && graph.Edge(d, x) ==>
                mark[d].Some?
      decreases Unset(mark)
    {
      if mark[v].Some? {
        return;
      }
      ghost var before := mark;
      mark := mark[v := Some(cpIdx)];
      assert graph.PathBetween([v], v, v);
      assert v in Unset(before) && Unset(mark) <= Unset(before) && v !in Unset(mark);
      ghost var here := mark;
      hide Graph.Reach;
      var deps := graph.Edges(v);
      for k := 0 to |deps|
        invariant |mark| == |graph.vertices| && mark[v] == Some(cpIdx)
        invariant Unset(mark) < Unset(before)
        invariant forall x :: 0 <= x < |mark| && before[x].Some? ==> mark[x] == before[x]
        invariant forall x :: 0 <= x < |mark| && before[x].None? && mark[x].Some? ==>
                    mark[x].value == cpIdx && graph.Reach(x, v)
        invariant forall x, d: nat :: 0 <= x < |mark| && x != v && before[x].None? && mark[x].Some? ==>
                    graph.Edge(d, x) ==> mark[d].Some?
        invariant forall i :: 0 <= i < k ==> mark[deps[i]].Some?
      {
        ghost var prev := mark;
        Visit(deps[k]);
        assert Unset(mark) <= Unset(prev);
        forall x | 0 <= x < |mark| && before[x].None? && mark[x].Some? ensures graph.Reach(x, v) {
          if prev[x].None? { ReachEdge(graph, x, deps[k], v); }
        }
      }
    }
  }

  /** Marks are closed under dependencies, so whatever leads to a marked vertex is marked. */
  lemma {:induction false} MarkedDownTo(g: Graph, mark: seq<Option<nat>>, p: seq<nat>)
    requires g.Valid() && |mark| == |g.vertices| && g.Path(p) && |p| > 0
    requires forall x, d: nat :: 0 <= x < |mark| && mark[x].Some? && g.Edge(d, x) ==> mark[d].Some?
    requires mark[p[|p| - 1]].Some?
    ensures mark[p[0]].Some?
    decreases |p|
  {
    if |p| > 1 {
      PathSlice(g, p, 0, |p| - 1);
      assert g.Edge(p[|p| - 2], p[|p| - 1]);
      MarkedDownTo(g, mark, p[..|p| - 1]);
    }
  }

  /** The mark of `x` is the label of the first root among `roots[..t]` that `x` leads to, if there is one. */
  ghost predicate FirstRoot(g: Graph, roots: seq<(nat, nat)>, t: nat, x: nat, m: Option<nat>)
    requires g.Valid() && t <= |roots|
  {
    match m
    case None => forall i :: 0 <= i < t ==> !g.Reach(x, roots[i].1)
    case Some(k) => exists i :: 0 <= i < t && roots[i].0 == k && g.Reach(x, roots[i].1)
                                && forall j :: 0 <= j < i ==> !g.Reach(x, roots[j].1)
  }

  lemma {:induction false} NextRoot(g: Graph, roots: seq<(nat, nat)>, t: nat, x: nat, before: Option<nat>,
                                    after: Option<nat>)
    requires g.Valid() && t < |roots| && FirstRoot(g, roots, t, x, before)
    requires before.Some? ==> after == before
    requires before.None? && after.Some? ==> after.value == roots[t].0 && g.Reach(x, roots[t].1)
    requires after.None? ==> !g.Reach(x, roots[t].1)
    ensures FirstRoot(g, roots, t + 1, x, after)
  {
    if before.Some? {
      var i :| 0 <= i < t && roots[i].0 == before.value && g.Reach(x, roots[i].1)
               && forall j :: 0 <= j < i ==> !g.Reach(x, roots[j].1);
      assert 0 <= i < t + 1;
    } else if after.Some? {
      assert 0 <= t < t + 1 && roots[t].0 == after.value;
    }
  }

  lemma {:induction false} NoRoot(g: Graph, roots: seq<(nat, nat)>)
    requires g.Valid()
    ensures forall x :: 0 <= x < |g.vertices| ==> FirstRoot(g, roots, 0, x, None)
  {
  }

  lemma {:induction false} UnmarkedUnreached(g: Graph, mark: seq<Option<nat>>, x: nat, root: nat)
    requires g.Valid() && |mark| == |g.vertices| && x < |mark| && root < |mark|
    requires forall x, d: nat :: 0 <= x < |mark| && mark[x].Some? && g.Edge(d, x) ==> mark[d].Some?
    requires mark[root].Some? && mark[x].None?
    ensures !g.Reach(x, root)
  {
    if g.Reach(x, root) {
      var p :| g.PathBetween(p, x, root);
      MarkedDownTo(g, mark, p);
    }
  }

  /** The loops that visit the critical path, forwards over the dependencies or backwards over the reversed graph. */
  method MarkAll(g: Graph, roots: seq<(nat, nat)>) returns (mark: seq<Option<nat>>)
    requires g.Valid() && forall t :: 0 <= t < |roots| ==> roots[t].1 < |g.vertices|
    ensures |mark| == |g.vertices|
    ensures forall x :: 0 <= x < |mark| ==> FirstRoot(g, roots, |roots|, x, mark[x])
  {
    var visitor := new GraphVisitor(g);
    hide FirstRoot, Graph.Reach;
    assert forall x :: 0 <= x < |g.vertices| ==> FirstRoot(g, roots, 0, x, None) by { NoRoot(g, roots); }
    for t := 0 to |roots|
      invariant |visitor.mark| == |g.vertices|
      invariant forall x :: 0 <= x < |visitor.mark| ==> FirstRoot(g, roots, t, x, visitor.mark[x])
      invariant forall x, d: nat :: 0 <= x < |visitor.mark| && visitor.mark[x].Some? && g.Edge(d, x) ==>
                  visitor.mark[d].Some?
    {
      ghost var before := visitor.mark;
      visitor.cpIdx := roots[t].0;
      visitor.Visit(roots[t].1);
      forall x | 0 <= x < |visitor.mark| ensures FirstRoot(g, roots, t + 1, x, visitor.mark[x]) {
        if visitor.mark[x].None? { UnmarkedUnreached(g, visitor.mark, x, roots[t].1); }
        NextRoot(g, roots, t, x, before[x], visitor.mark[x]);
      }
    }
    mark := visitor.mark;
  }

  /** The critical path with its index at each vertex, forwards. */
  function Enumerate(cp: seq<nat>): (r: seq<(nat, nat)>) {
    seq(|cp|, i requires 0 <= i < |cp| => (i, cp[i]))
  }

  /** The first root forwards is the first index `x` leads to: before `cp[i]` means at most `i`. */
  lemma {:induction false} FirstSuccessor(g: Graph, cp: seq<nat>, x: nat, m: Option<nat>, i: nat)
    requires g.Valid() && i < |cp| && FirstRoot(g, Enumerate(cp), |cp|, x, m)
    ensures Before(g, cp, i, x) <==> m.Some? && m.value <= i
  {
    var roots := Enumerate(cp);
    if m.Some? {
      var t :| 0 <= t < |cp| && roots[t].0 == m.value && g.Reach(x, roots[t].1)
               && forall j :: 0 <= j < t ==> !g.Reach(x, roots[j].1);
      if Before(g, cp, i, x) {
        var j :| 0 <= j <= i && g.Reach(x, cp[j]);
        assert roots[j].1 == cp[j];
      } else {
        assert roots[t].1 == cp[t];
      }
    } else {
      forall j | 0 <= j <= i ensures !g.Reach(x, cp[j]) {
        assert roots[j].1 == cp[j];
      }
    }
  }

  /** A path of the reversed graph is a path of the graph read backwards. */
  lemma {:induction false} TransposedPath(g: Graph, r: Graph, p: seq<nat>)
    requires g.Valid() && Transposed(g, r)
    ensures r.Path(p) <==> g.Path(Reverse(p))
  {
    assert r.Valid() && |r.vertices| == |g.vertices|;
    hide Transposed, Graph.Edge, Graph.Valid;
    var q := Reverse(p);
    forall i, j | 0 <= i && j == i + 1 && j < |p| ensures r.Edge(p[i], p[j]) <==> g.Edge(p[j], p[i]) {
      TransposedEdge(g, r, p[j], p[i]);
    }
    forall i, j | 0 <= i && j == i + 1 && j < |q| ensures g.Edge(q[i], q[j]) <==> r.Edge(q[j], q[i]) {
      TransposedEdge(g, r, q[i], q[j]);
    }
    if r.Path(p) {
      forall i, j | 0 <= i && j == i + 1 && j < |q| ensures g.Edge(q[i], q[j]) {
        assert r.Edge(p[|p| - 1 - j], p[|p| - 1 - i]);
      }
    }
    if g.Path(q) {
      assert p == Reverse(q);
      forall i, j | 0 <= i && j == i + 1 && j < |p| ensures r.Edge(p[i], p[j]) {
        assert g.Edge(q[|p| - 1 - j], q[|p| - 1 - i]);
      }
      forall i | 0 <= i < |p| ensures p[i] < |r.vertices| {
        assert q[|p| - 1 - i] < |g.vertices|;
      }
    }
  }

  lemma {:induction false} TransposedBetween(g: Graph, r: Graph, p: seq<nat>, a: nat, b: nat)
    requires g.Valid() && Transposed(g, r)
    ensures r.PathBetween(p, b, a) <==> g.PathBetween(Reverse(p), a, b)
  {
    TransposedPath(g, r, p);
  }

  lemma {:induction false} TransposedReach(g: Graph, r: Graph, a: nat, b: nat)
    requires g.Valid() && Transposed(g, r)
    ensures r.Reach(b, a) <==> g.Reach(a, b)
  {
    if r.Reach(b, a) {
      var p :| r.PathBetween(p, b, a);
      TransposedBetween(g, r, p, a, b);
    }
    if g.Reach(a, b) {
      var p :| g.PathBetween(p, a, b);
      assert p == Reverse(Reverse(p));
      TransposedBetween(g, r, Reverse(p), a, b);
    }
  }

  /** Backwards over the reversed graph it is the last index that leads to `x`. */
  lemma {:induction false} LastPredecessor(g: Graph, r: Graph, cp: seq<nat>, x: nat, m: Option<nat>, i: nat)
    requires g.Valid() && Transposed(g, r) && i < |cp|
    requires FirstRoot(r, Reverse(Enumerate(cp)), |cp|, x, m)
    ensures After(g, cp, i, x) <==> m.Some? && m.value >= i
  {
    var roots := Reverse(Enumerate(cp));
    assert forall t :: 0 <= t < |cp| ==> roots[t] == (|cp| - 1 - t, cp[|cp| - 1 - t]);
    forall v: nat ensures r.Reach(x, v) <==> g.Reach(v, x) { TransposedReach(g, r, v, x); }
    if m.Some? {
      var t :| 0 <= t < |cp| && roots[t].0 == m.value && r.Reach(x, roots[t].1)
               && forall j :: 0 <= j < t ==> !r.Reach(x, roots[j].1);
      if After(g, cp, i, x) {
        var k :| i <= k < |cp| && g.Reach(cp[k], x);
        assert roots[|cp| - 1 - k].1 == cp[k];
      } else {
        assert g.Reach(cp[m.value], x);
      }
    } else {
      forall k | i <= k < |cp| ensures !g.Reach(cp[k], x) {
        assert roots[|cp| - 1 - k].1 == cp[k];
      }
    }
  }

  /** Longest paths to a vertex in the reversed graph are longest paths from it. */
  lemma {:induction false} TransposedLongest(g: Graph, r: Graph, w: seq<nat>, v: nat, c: PathCost)
    requires g.Valid() && Transposed(g, r) && |w| == |g.vertices| == |r.vertices|
    requires r.Valid() && LongestTo(r, w, v, c)
    ensures LongestFrom(g, w, v, c)
  {
    hide Graph.Path, Transposed, Runtime;
    var p: seq<nat> :| |p| > 0 && p[|p| - 1] == v && r.Path(p) && Cost(w, p) == c;
    TransposedPath(g, r, p);
    CostReverse(w, p);
    assert |Reverse(p)| > 0 && Reverse(p)[0] == v;
    forall q | |q| > 0 && q[0] == v && g.Path(q) ensures Cost(w, q).Leq(c) {
      var q' := Reverse(q);
      assert Reverse(q') == q;
      TransposedPath(g, r, q');
      CostReverse(w, q);
      assert |q'| > 0 && q'[|q'| - 1] == v;
    }
  }

  lemma {:induction false} EveryVertexListed(g: Graph, order: seq<nat>)
    requires g.Valid() && TopologicalOrder(g, order)
    ensures forall v :: 0 <= v < |g.vertices| ==> v in order
  {
    DistinctIsShort(order, |g.vertices|);
  }

  lemma {:induction false} ReversedDepsFirst(g: Graph, order: seq<nat>)
    requires g.Valid() && TopologicalOrder(g, order) && forall v :: 0 <= v < |g.vertices| ==> v in order
    ensures DepsFirst(g, Reverse(order))
  {
    var n, back := |g.vertices|, Reverse(order);
    forall v | 0 <= v < n ensures v in back {
      assert v in order;
      var i :| 0 <= i < n && order[i] == v;
      assert back[n - 1 - i] == v;
    }
    forall i, d: nat | 0 <= i < n && g.Edge(d, back[i]) ensures d in back[..i] {
      assert d in g.Edges(back[i]) && d in order;
      var k :| 0 <= k < n && order[k] == d;
      assert g.Edge(order[k], order[n - 1 - i]);
      assert back[..i][n - 1 - k] == d;
    }
  }

  lemma {:induction false} TransposedDepsFirst(g: Graph, r: Graph, order: seq<nat>)
    requires g.Valid() && Transposed(g, r) && TopologicalOrder(g, order)
             && forall v :: 0 <= v < |g.vertices| ==> v in order
    ensures DepsFirst(r, order)
  {
    var n := |g.vertices|;
    forall i, d: nat | 0 <= i < n && r.Edge(d, order[i]) ensures d in order[..i] {
      TransposedEdge(g, r, order[i], d);
      assert d in order;
      var k :| 0 <= k < n && order[k] == d;
      assert g.Edge(order[i], order[k]);
      assert order[..i][k] == d;
    }
  }

  /** Read backwards, a topological order has dependencies first; read forwards it has them first in the reverse. */
  lemma {:induction false} OrdersForBoth(g: Graph, r: Graph, order: seq<nat>)
    requires g.Valid() && Transposed(g, r) && TopologicalOrder(g, order)
    ensures DepsFirst(g, Reverse(order)) && DepsFirst(r, order)
  {
    EveryVertexListed(g, order);
    ReversedDepsFirst(g, order);
    TransposedDepsFirst(g, r, order);
  }

  /** The last vertex of greatest cost. */
  method Sink(costs: seq<PathCost>) returns (v: nat)
    requires costs != []
    ensures v < |costs| && forall u :: 0 <= u < |costs| ==> costs[u].Leq(costs[v])
    ensures forall u :: v < u < |costs| ==> costs[u] != costs[v]
  {
    v := 0;
    for u := 1 to |costs|
      invariant v < u <= |costs|
      invariant forall x :: 0 <= x < u ==> costs[x].Leq(costs[v])
      invariant forall x :: v < x < u ==> costs[x] != costs[v]
    {
      if costs[v].Leq(costs[u]) {
        v := u;
      }
    }
  }

  /** The longest path through each vertex, counting the vertex once, and the indices between which it is live. */
  method Candidates(g: Graph, ghost r: Graph, w: seq<nat>, cp: seq<nat>, to: seq<PathCost>, from: seq<PathCost>,
                    pred: seq<Option<nat>>, succ: seq<Option<nat>>)
    returns (candidates: seq<Sweep.Candidate>)
    requires g.Valid() && Transposed(g, r)
    requires |w| == |g.vertices| == |to| == |from| == |pred| == |succ|
    requires forall x :: 0 <= x < |w| ==> LongestTo(g, w, x, to[x]) && LongestFrom(g, w, x, from[x])
    requires forall x :: 0 <= x < |w| ==> FirstRoot(r, Reverse(Enumerate(cp)), |cp|, x, pred[x])
    requires forall x :: 0 <= x < |w| ==> FirstRoot(g, Enumerate(cp), |cp|, x, succ[x])
    ensures |candidates| == |w|
    ensures forall x :: 0 <= x < |w| ==> LongestThrough(g, w, x, candidates[x].cost)
    ensures forall x, i :: 0 <= x < |w| && 0 <= i < |cp| ==>
              (Sweep.Live(candidates[x], i) <==> !Before(g, cp, i, x) && !After(g, cp, i, x))
  {
    candidates := [];
    hide FirstRoot, LongestThrough, LongestTo, LongestFrom, Before, After, Transposed;
    for x := 0 to |w|
      invariant |candidates| == x
      invariant forall y :: 0 <= y < x ==> LongestThrough(g, w, y, candidates[y].cost)
      invariant forall y, i :: 0 <= y < x && 0 <= i < |cp| ==>
                  (Sweep.Live(candidates[y], i) <==> !Before(g, cp, i, y) && !After(g, cp, i, y))
    {
      ThroughIsToPlusFrom(g, w, x, to[x], from[x]);
      var cost := to[x].Plus(from[x]);
      var candidate := Sweep.Candidate(PathCost(cost.runtime - w[x], cost.len - 1),
                                       if pred[x].Some? then pred[x].value + 1 else 0, succ[x]);
      forall i | 0 <= i < |cp|
        ensures Sweep.Live(candidate, i) <==> !Before(g, cp, i, x) && !After(g, cp, i, x)
      {
        FirstSuccessor(g, cp, x, succ[x], i);
        LastPredecessor(g, r, cp, x, pred[x], i);
      }
      candidates := candidates + [candidate];
    }
  }

  /** The critical path with the runtime of one vertex dropped, for each of its vertices. */
  method Dropped(w: seq<nat>, cp: seq<nat>, cost: PathCost) returns (base: seq<PathCost>)
    requires forall i :: 0 <= i < |cp| ==> cp[i] < |w| && w[cp[i]] <= cost.runtime
    ensures |base| == |cp|
    ensures forall i :: 0 <= i < |cp| ==> base[i] == PathCost(cost.runtime - w[cp[i]], cost.len)
  {
    base := seq(|cp|, _ => ZERO_COST);
    for i := 0 to |cp|
      invariant |base| == |cp|
      invariant forall k :: 0 <= k < i ==> base[k] == PathCost(cost.runtime - w[cp[k]], cost.len)
    {
      base := base[i := PathCost(cost.runtime - w[cp[i]], cost.len)];
    }
  }

  datatype Potential =
    | Potential(path: seq<nat>, cost: PathCost, replacements: seq<PathCost>,
                costs: seq<PathCost>, preds: seq<Option<nat>>)
    | CyclicGraph(cycle: seq<nat>)

  /** What the doc comment promises of each returned part. */
  ghost predicate Correct(g: Graph, w: seq<nat>, p: Potential)
    requires g.Valid() && |w| == |g.vertices| && p.Potential?
  {
    && PredecessorTree(g, w, p.costs, p.preds)
    && (forall v :: 0 <= v < |w| ==> LongestTo(g, w, v, p.costs[v]))
    && |p.replacements| == |p.path|
    && (if g.vertices == [] then p.path == [] && p.cost == ZERO_COST
        else CriticalPath(g, w, p.path, p.cost))
    && (forall i :: 0 <= i < |p.path| ==> p.path[i] < |w| && LongestCost(g, w[p.path[i] := 0], p.replacements[i]))
  }

  function Costs(candidates: seq<Sweep.Candidate>): (r: seq<PathCost>)
    ensures |r| == |candidates| && forall x :: 0 <= x < |r| ==> r[x] == candidates[x].cost
  {
    seq(|candidates|, x requires 0 <= x < |candidates| => candidates[x].cost)
  }

  lemma {:induction false} SweepIsBest(g: Graph, w: seq<nat>, cp: seq<nat>, c: PathCost, i: nat, base: PathCost,
                    candidates: seq<Sweep.Candidate>, r: PathCost)
    requires g.Valid() && |w| == |g.vertices| == |candidates| && i < |cp| && cp[i] < |w| && c.runtime >= w[cp[i]]
    requires base == PathCost(c.runtime - w[cp[i]], c.len)
    requires forall x :: 0 <= x < |w| ==>
               (Sweep.Live(candidates[x], i) <==> !Before(g, cp, i, x) && !After(g, cp, i, x))
    requires Sweep.Attained(candidates, i, base, r) && Sweep.Dominates(candidates, i, r)
    ensures BestReplacement(g, w, cp, c, i, Costs(candidates), r)
  {
    hide Before, After;
    if r != base {
      var x :| 0 <= x < |candidates| && Sweep.Live(candidates[x], i) && candidates[x].cost == r;
      assert Costs(candidates)[x] == r;
    }
  }

  lemma {:induction false} VertexWeightAtMostCost(g: Graph, w: seq<nat>, p: seq<nat>)
    requires g.Valid() && |w| == |g.vertices| && g.Path(p)
    ensures forall i :: 0 <= i < |p| ==> p[i] < |w| && w[p[i]] <= Cost(w, p).runtime
  {
    forall i | 0 <= i < |p| ensures p[i] < |w| && w[p[i]] <= Cost(w, p).runtime {
      SplitAt(g, w, p, i);
    }
  }

  lemma {:induction false} ReplacementsCorrect(g: Graph, rank: seq<int>, w: seq<nat>, cp: seq<nat>, c: PathCost,
                                               base: seq<PathCost>, candidates: seq<Sweep.Candidate>,
                                               updated: seq<PathCost>)
    requires g.Valid() && g.Ranked(rank) && |w| == |g.vertices| == |candidates| && CriticalPath(g, w, cp, c)
    requires |base| == |cp| == |updated|
    requires forall i :: 0 <= i < |cp| ==> cp[i] < |w| && w[cp[i]] <= c.runtime
    requires forall i :: 0 <= i < |cp| ==> base[i] == PathCost(c.runtime - w[cp[i]], c.len)
    requires forall x :: 0 <= x < |w| ==> LongestThrough(g, w, x, candidates[x].cost)
    requires forall x, i :: 0 <= x < |w| && 0 <= i < |cp| ==>
               (Sweep.Live(candidates[x], i) <==> !Before(g, cp, i, x) && !After(g, cp, i, x))
    requires forall i :: 0 <= i < |cp| ==>
               Sweep.Attained(candidates, i, base[i], updated[i]) && Sweep.Dominates(candidates, i, updated[i])
    ensures forall i :: 0 <= i < |cp| ==> LongestCost(g, w[cp[i] := 0], updated[i])
  {
    hide Before, After, CriticalPath, BestReplacement, LongestThrough, LongestCost, Sweep.Attained, Sweep.Dominates,
         Sweep.Live;
    forall i | 0 <= i < |cp| ensures LongestCost(g, w[cp[i] := 0], updated[i]) {
      SweepIsBest(g, w, cp, c, i, base[i], candidates, updated[i]);
      ReplacementIsLongest(g, rank, w, cp, c, i, Costs(candidates), updated[i]);
    }
  }

  /** The second half: which vertices are independent of which part of the critical path, and what that is worth. */
  method ReplacementCosts(g: Graph, r: Graph, w: seq<nat>, ghost order: seq<nat>,
                          costFromSource: seq<PathCost>, costToSink: seq<PathCost>, cp: seq<nat>, cost: PathCost)
    returns (updated: seq<PathCost>)
    requires g.Valid() && Transposed(g, r) && |w| == |g.vertices| && TopologicalOrder(g, order)
    requires |costFromSource| == |costToSink| == |w|
    requires forall x :: 0 <= x < |w| ==> LongestTo(g, w, x, costFromSource[x])
    requires forall x :: 0 <= x < |w| ==> LongestTo(r, w, x, costToSink[x])
    requires CriticalPath(g, w, cp, cost)
    requires forall i :: 0 <= i < |cp| ==> cp[i] < |w| && w[cp[i]] <= cost.runtime
    ensures |updated| == |cp|
    ensures forall i :: 0 <= i < |cp| ==> LongestCost(g, w[cp[i] := 0], updated[i])
  {
    assert |r.vertices| == |w| && r.Valid();
    hide TopologicalOrder, Transposed, Graph.Path, LongestTo, LongestFrom, LongestThrough, FirstRoot, LongestCost,
         Before, After, Sweep.Attained, Sweep.Dominates, Sweep.Live, CriticalPath;
    var pred := MarkAll(r, Reverse(Enumerate(cp)));
    var succ := MarkAll(g, Enumerate(cp));
    forall x | 0 <= x < |w| ensures LongestFrom(g, w, x, costToSink[x]) {
      TransposedLongest(g, r, w, x, costToSink[x]);
    }
    var candidates := Candidates(g, r, w, cp, costFromSource, costToSink, pred, succ);
    var base := Dropped(w, cp, cost);
    updated := Sweep.Run(candidates, base);
    ghost var rank := OrderedIsRanked(g, order);
    ReplacementsCorrect(g, rank, w, cp, cost, base, candidates, updated);
  }

  lemma {:induction false} TreeSizes(g: Graph, w: seq<nat>, costs: seq<PathCost>, preds: seq<Option<nat>>)
    requires g.Valid() && |g.vertices| == |w| && PredecessorTree(g, w, costs, preds)
    ensures |costs| == |preds| == |w|
  {
  }

  lemma {:induction false} CriticalPathFound(g: Graph, w: seq<nat>, costs: seq<PathCost>, sink: nat, cp: seq<nat>)
    requires g.Valid() && |w| == |g.vertices| == |costs| && sink < |w|
    requires forall v :: 0 <= v < |w| ==> LongestTo(g, w, v, costs[v])
    requires forall u :: 0 <= u < |w| ==> costs[u].Leq(costs[sink])
    requires PathOfCost(g, w, cp, sink, costs[sink])
    ensures CriticalPath(g, w, cp, costs[sink])
    ensures forall i :: 0 <= i < |cp| ==> cp[i] < |w| && w[cp[i]] <= costs[sink].runtime
  {
    GreatestIsLongest(g, w, costs, sink);
    VertexWeightAtMostCost(g, w, cp);
  }

  /** The computation after the topological sort has succeeded. */
  method PotentialsInOrder(g: Graph, r: Graph, w: seq<nat>, order: seq<nat>) returns (p: Potential)
    requires g.Valid() && Transposed(g, r) && |w| == |g.vertices| && TopologicalOrder(g, order)
    ensures p.Potential? && Correct(g, w, p)
  {
    OrdersForBoth(g, r, order);
    hide TopologicalOrder, DepsFirst, LongestTo, LongestCost, PredecessorTree, CriticalPath, PathOfCost;
    var costToSink, successors := FindLongestPaths(r, order, w);
    var costFromSource, preds := FindLongestPaths(g, Reverse(order), w);
    TreeSizes(g, w, costFromSource, preds);
    TreeSizes(r, w, costToSink, successors);
    if |w| == 0 {
      return Potential([], ZERO_COST, [], costFromSource, preds);
    }
    var sink := Sink(costFromSource);
    var cost := costFromSource[sink];
    var cp := PathFor(g, w, costFromSource, preds, sink);
    CriticalPathFound(g, w, costFromSource, sink, cp);
    var updated := ReplacementCosts(g, r, w, order, costFromSource, costToSink, cp, cost);
    p := Potential(cp, cost, updated, costFromSource, preds);
  }

  /**
   `compute_critical_path_potentials`: a critical path and its cost, and for each of its vertices exactly the cost
   of a longest path of the graph in which that vertex takes no time. A cyclic graph gives its cycle instead.
   */
  method ComputePotentials(g: Graph, w: seq<nat>) returns (p: Potential)
    requires g.Valid() && Packed(g) && |w| == |g.vertices|
    ensures p.Potential? <==> g.Acyclic()
    ensures p.Potential? ==> Correct(g, w, p)
    ensures p.CyclicGraph? ==> g.Cycle(Reverse(p.cycle))
  {
    var r := Reversed(g);
    var sorted := Sort(g);
    match sorted {
      case CycleFound(cycle) =>
        return CyclicGraph(cycle);
      case Order(order) =>
        p := PotentialsInOrder(g, r, w, order);
    }
  }

  /** In an acyclic graph no path visits a vertex twice. */
  lemma {:induction false} AcyclicPathIsSimple(g: Graph, p: seq<nat>)
    requires g.Valid() && g.Acyclic() && g.Path(p)
    ensures NoDuplicates(p)
  {
    forall i, j | 0 <= i < j < |p| ensures p[i] != p[j] {
      PathSlice(g, p, i, j + 1);
      assert !g.Cycle(p[i..j + 1]);
    }
  }

  /** The reported saving of a vertex never underflows and is at most that vertex's own runtime. */
  lemma {:induction false} SavingIsBounded(g: Graph, w: seq<nat>, p: Potential, i: nat)
    requires g.Valid() && |w| == |g.vertices| && g.Acyclic() && p.Potential? && Correct(g, w, p) && i < |p.path|
    ensures p.replacements[i].runtime <= p.cost.runtime <= p.replacements[i].runtime + w[p.path[i]]
  {
    hide Graph.Path, PredecessorTree, LongestTo, Graph.Acyclic;
    var v, free := p.path[i], w[p.path[i] := 0];
    assert LongestCost(g, free, p.replacements[i]);
    var q :| |q| > 0 && g.Path(q) && Cost(free, q) == p.replacements[i];
    AcyclicPathIsSimple(g, q);
    FreeCost(w, v, q);
    CriticalPathFacts(g, w, p.path, p.cost);
    AcyclicPathIsSimple(g, p.path);
    FreeCost(w, v, p.path);
  }
}
