/**
 Longest paths over an acyclic graph and their reconstruction: `Graph::find_longest_paths` in
 app/bz_critical_path/src/graph.rs and `CriticalPathAccessor` in app/bz_critical_path/src/critical_path_accessor.rs.
 */
module LongestPaths {
  import opened Collections
  import opened Paths

  /** Every vertex once, each after all of its dependencies. */
  ghost predicate DepsFirst(g: Graph, order: seq<nat>)
    requires g.Valid()
  {
    && NoDuplicates(order)
    && (forall i :: 0 <= i < |order| ==> order[i] < |g.vertices|)
    && (forall v :: 0 <= v < |g.vertices| ==> v in order)
    && (forall i, d: nat :: 0 <= i < |order| && g.Edge(d, order[i]) ==> d in order[..i])
  }

  /** The cost of `v` is its own weight, added to the cost of its predecessor if it has any dependency. */
  ghost predicate PredecessorOf(g: Graph, w: seq<nat>, costs: seq<PathCost>, v: nat, pred: Option<nat>)
    requires g.Valid() && v < |g.vertices| == |w| == |costs|
  {
    match pred
    case None => g.Edges(v) == [] && costs[v] == PathCost(w[v], 1)
    case Some(u) => g.Edge(u, v) && costs[v] == costs[u].Plus(PathCost(w[v], 1))
  }

  ghost predicate PredecessorTree(g: Graph, w: seq<nat>, costs: seq<PathCost>, preds: seq<Option<nat>>)
    requires g.Valid() && |g.vertices| == |w|
  {
    && |costs| == |preds| == |w|
    && forall v :: 0 <= v < |w| ==> PredecessorOf(g, w, costs, v, preds[v]) && costs[v].len > 0
  }

  lemma {:induction false} LastEdge(g: Graph, p: seq<nat>)
    requires g.Valid() && g.Path(p) && |p| > 1
    ensures g.Edge(p[|p| - 2], p[|p| - 1])
  {
  }

  lemma {:induction false} WithinLongest(g: Graph, w: seq<nat>, d: nat, c: PathCost, q: seq<nat>)
    requires g.Valid() && |w| == |g.vertices| && LongestTo(g, w, d, c) && |q| > 0 && q[|q| - 1] == d && g.Path(q)
    ensures Cost(w, q).Leq(c)
  {
  }

  lemma {:induction false} EmptyCost(w: seq<nat>)
    ensures Cost(w, []) == ZERO_COST
  {
  }

  lemma {:induction false} LongestStepBound(g: Graph, w: seq<nat>, v: nat, p: seq<nat>, depCosts: seq<PathCost>)
    requires g.Valid() && |w| == |g.vertices| == |depCosts| && v < |w|
    requires forall d: nat :: g.Edge(d, v) ==> LongestTo(g, w, d, depCosts[d])
    requires |p| > 0 && p[|p| - 1] == v && g.Path(p)
    ensures |p| == 1 ==> Cost(w, p) == PathCost(w[v], 1)
    ensures |p| > 1 ==> g.Edge(p[|p| - 2], v) && Cost(w, p).Leq(depCosts[p[|p| - 2]].Plus(PathCost(w[v], 1)))
  {
    EmptyCost(w);
    if |p| > 1 { LastEdge(g, p); }
    hide Graph.Path, Runtime, Graph.Edge, Cost, LongestTo;
    var q := p[..|p| - 1];
    assert p == q + [v] && p[0..|p| - 1] == q;
    PathSlice(g, p, 0, |p| - 1);
    PathSnoc(g, w, q, v);
    if q != [] {
      var d := p[|p| - 2];
      assert q[|q| - 1] == d && LongestTo(g, w, d, depCosts[d]);
      WithinLongest(g, w, d, depCosts[d], q);
    }
  }

  /** What one round of the outer loop establishes, from the same fact for all dependencies. */
  lemma {:induction false} LongestStep(g: Graph, w: seq<nat>, v: nat, best: Option<(PathCost, nat)>,
                                       depCosts: seq<PathCost>)
    requires g.Valid() && |w| == |g.vertices| == |depCosts| && v < |w|
    requires forall d: nat :: g.Edge(d, v) ==> LongestTo(g, w, d, depCosts[d])
    requires best.None? ==> g.Edges(v) == []
    requires best.Some? ==> g.Edge(best.value.1, v) && depCosts[best.value.1] == best.value.0
    requires best.Some? ==> forall d: nat :: g.Edge(d, v) ==> depCosts[d].Leq(best.value.0)
    ensures LongestTo(g, w, v, (if best.Some? then best.value.0 else ZERO_COST).Plus(PathCost(w[v], 1)))
  {
    var c := (if best.Some? then best.value.0 else ZERO_COST).Plus(PathCost(w[v], 1));
    if best.Some? {
      var u := best.value.1;
      var p :| |p| > 0 && p[|p| - 1] == u && g.Path(p) && Cost(w, p) == best.value.0;
      PathSnoc(g, w, p, v);
      assert |p + [v]| > 0 && (p + [v])[|p + [v]| - 1] == v;
    } else {
      Singleton(g, w, v);
      assert |[v]| > 0 && [v][|[v]| - 1] == v;
    }
    forall p | |p| > 0 && p[|p| - 1] == v && g.Path(p) ensures Cost(w, p).Leq(c) {
      LongestStepBound(g, w, v, p, depCosts);
    }
  }

  /** No dependency listed before `d` has the given cost. */
  ghost predicate FirstOf(deps: seq<nat>, costs: seq<PathCost>, d: nat, cost: PathCost)
    requires forall i :: 0 <= i < |deps| ==> deps[i] < |costs|
  {
    exists k :: 0 <= k < |deps| && deps[k] == d && forall j :: 0 <= j < k ==> costs[deps[j]] != cost
  }

  /** The first dependency of greatest cost, by the inner loop's scan. */
  method BestDependency(g: Graph, v: nat, costs: seq<PathCost>) returns (best: Option<(PathCost, nat)>)
    requires g.Valid() && v < |g.vertices| == |costs|
    ensures best.None? <==> g.Edges(v) == []
    ensures best.Some? ==> g.Edge(best.value.1, v) && costs[best.value.1] == best.value.0
    ensures best.Some? ==> forall d: nat :: g.Edge(d, v) ==> costs[d].Leq(best.value.0)
    ensures best.Some? ==> FirstOf(g.Edges(v), costs, best.value.1, best.value.0)
  {
    var deps := g.Edges(v);
    best := None;
    ghost var at := 0;
    for i := 0 to |deps|
      invariant best.None? <==> i == 0
      invariant best.Some? ==>
                at < i && deps[at] == best.value.1 && forall j :: 0 <= j < at ==> costs[deps[j]] != best.value.0
      invariant best.Some? ==> best.value.1 in deps[..i] && costs[best.value.1] == best.value.0
      invariant best.Some? ==> forall k :: 0 <= k < i ==> costs[deps[k]].Leq(best.value.0)
    {
      var cost := costs[deps[i]];
      if best.None? || !cost.Leq(best.value.0) {
        best, at := Some((cost, deps[i])), i;
      }
    }
  }

  /** Setting the cost of a vertex leaves what came before it in the order as it was. */
  lemma {:induction false} StillPredecessor(g: Graph, order: seq<nat>, w: seq<nat>, costs: seq<PathCost>, v: nat,
                                            cost: PathCost, k: nat, pred: Option<nat>)
    requires g.Valid() && |w| == |g.vertices| == |costs| && DepsFirst(g, order) && v < |w|
    requires k < |order| && order[k] != v && v !in order[..k] && PredecessorOf(g, w, costs, order[k], pred)
    ensures PredecessorOf(g, w, costs[v := cost], order[k], pred)
  {
    if pred.Some? { assert pred.value in order[..k]; }
  }

  /**
   `find_longest_paths`: for every vertex the cost of a longest path ending there, over all paths of the graph,
   and a dependency that such a path goes through.
   */
  method FindLongestPaths(g: Graph, order: seq<nat>, w: seq<nat>)
    returns (costs: seq<PathCost>, preds: seq<Option<nat>>)
    requires g.Valid() && |w| == |g.vertices| && DepsFirst(g, order)
    ensures PredecessorTree(g, w, costs, preds)
    ensures forall v :: 0 <= v < |w| ==> LongestTo(g, w, v, costs[v])
  {
    hide Graph.Path, LongestTo;
    costs, preds := seq(|w|, _ => ZERO_COST), seq(|w|, _ => None);
    for i := 0 to |order|
      invariant |costs| == |preds| == |w|
      invariant forall k :: 0 <= k < i ==>
                  && LongestTo(g, w, order[k], costs[order[k]])
                  && PredecessorOf(g, w, costs, order[k], preds[order[k]])
                  && costs[order[k]].len > 0
    {
      var v := order[i];
      var best := BestDependency(g, v, costs);
      forall d: nat | g.Edge(d, v) ensures LongestTo(g, w, d, costs[d]) && costs[d].len > 0 && d != v {
        assert d in order[..i];
      }
      LongestStep(g, w, v, best, costs);
      ghost var old' := costs;
      match best {
        case Some((cost, u)) =>
          costs := costs[v := cost.Plus(PathCost(w[v], 1))];
          preds := preds[v := Some(u)];
        case None =>
          costs := costs[v := PathCost(w[v], 1)];
          preds := preds[v := None];
      }
      forall k | 0 <= k < i ensures PredecessorOf(g, w, costs, order[k], preds[order[k]]) {
        StillPredecessor(g, order, w, old', v, costs[v], k, preds[order[k]]);
      }
    }
    forall v | 0 <= v < |w|
      ensures LongestTo(g, w, v, costs[v]) && PredecessorOf(g, w, costs, v, preds[v]) && costs[v].len > 0
    {
      assert v in order;
    }
  }

  /** A path to `sink` that still has to be extended backwards from `v`. */
  ghost predicate Walked(g: Graph, w: seq<nat>, costs: seq<PathCost>, sink: nat, tail: seq<nat>, v: nat)
    requires g.Valid() && |w| == |g.vertices| == |costs| && sink < |w|
  {
    && v < |w| && g.Path(tail)
    && (if tail == [] then v == sink else g.Edge(v, tail[0]) && tail[|tail| - 1] == sink)
    && Cost(w, tail).Plus(costs[v]) == costs[sink]
  }

  ghost predicate PathOfCost(g: Graph, w: seq<nat>, path: seq<nat>, sink: nat, c: PathCost)
    requires g.Valid() && |w| == |g.vertices|
  {
    |path| > 0 && path[|path| - 1] == sink && g.Path(path) && Cost(w, path) == c
  }

  lemma {:induction false} EdgeInRange(g: Graph, u: nat, v: nat)
    requires g.Valid() && g.Edge(u, v)
    ensures u < |g.vertices|
  {
  }

  lemma {:induction false} WalkStep(g: Graph, w: seq<nat>, costs: seq<PathCost>, preds: seq<Option<nat>>, sink: nat,
                                    tail: seq<nat>, v: nat)
    requires g.Valid() && |w| == |g.vertices| && PredecessorTree(g, w, costs, preds) && sink < |w|
    requires Walked(g, w, costs, sink, tail, v)
    ensures |tail| < costs[sink].len
    ensures |tail| + 1 < costs[sink].len ==>
              preds[v].Some? && Walked(g, w, costs, sink, [v] + tail, preds[v].value)
    ensures |tail| + 1 == costs[sink].len ==> PathOfCost(g, w, [v] + tail, sink, costs[sink])
  {
    hide Graph.Path, Runtime, Graph.Edge;
    PathCons(g, w, v, tail);
    assert ([v] + tail)[0] == v && ([v] + tail)[|tail|] == (if tail == [] then v else tail[|tail| - 1]);
    assert PredecessorOf(g, w, costs, v, preds[v]) && costs[v].len > 0;
    if preds[v].Some? {
      EdgeInRange(g, preds[v].value, v);
      assert costs[preds[v].value].len > 0;
    }
  }

  lemma {:induction false} WriteBefore(path: seq<nat>, k: nat, v: nat)
    requires k < |path|
    ensures path[k := v][k..] == [v] + path[k + 1..]
  {
  }

  /** The path is in place from `from` on, and `v` is the vertex before that, if there is one. */
  ghost predicate Tracing(g: Graph, w: seq<nat>, costs: seq<PathCost>, sink: nat, path: seq<nat>, from: nat, v: nat)
    requires g.Valid() && |w| == |g.vertices| == |costs| && sink < |w|
  {
    && from <= |path| == costs[sink].len
    && if from > 0 then Walked(g, w, costs, sink, path[from..], v) else PathOfCost(g, w, path, sink, costs[sink])
  }

  lemma {:induction false} TraceStart(g: Graph, w: seq<nat>, costs: seq<PathCost>, preds: seq<Option<nat>>, sink: nat,
                                      path: seq<nat>)
    requires g.Valid() && |w| == |g.vertices| && PredecessorTree(g, w, costs, preds) && sink < |w|
             && |path| == costs[sink].len
    ensures Tracing(g, w, costs, sink, path, |path|, sink)
  {
    assert path[|path|..] == [];
    assert Walked(g, w, costs, sink, [], sink);
    assert PredecessorOf(g, w, costs, sink, preds[sink]);
  }

  lemma {:induction false} TraceAt(g: Graph, w: seq<nat>, costs: seq<PathCost>, sink: nat, path: seq<nat>, from: nat,
                                   v: nat)
    requires g.Valid() && |w| == |g.vertices| == |costs| && sink < |w| && from > 0
             && Tracing(g, w, costs, sink, path, from, v)
    ensures v < |w| && from <= |path| == costs[sink].len && Walked(g, w, costs, sink, path[from..], v)
  {
  }

  lemma {:induction false} TraceFrom(g: Graph, w: seq<nat>, costs: seq<PathCost>, sink: nat, path: seq<nat>, from: nat,
                                     v: nat)
    requires g.Valid() && |w| == |g.vertices| == |costs| && sink < |w| && from <= |path| == costs[sink].len
    requires if from > 0 then Walked(g, w, costs, sink, path[from..], v)
             else PathOfCost(g, w, path[from..], sink, costs[sink])
    ensures Tracing(g, w, costs, sink, path, from, v)
  {
    assert path[0..] == path;
  }

  lemma {:induction false} TraceNext(g: Graph, w: seq<nat>, costs: seq<PathCost>, preds: seq<Option<nat>>, sink: nat,
                                     path: seq<nat>, from: nat, v: nat)
    requires g.Valid() && |w| == |g.vertices| && PredecessorTree(g, w, costs, preds) && sink < |w|
    requires 0 < from <= |path| && Tracing(g, w, costs, sink, path, from, v)
    ensures v < |w| && (from > 1 ==> preds[v].Some?)
    ensures Tracing(g, w, costs, sink, path[from - 1 := v], from - 1, if from > 1 then preds[v].value else v)
  {
    TraceAt(g, w, costs, sink, path, from, v);
    hide Walked, PathOfCost, PredecessorOf, Tracing, Graph.Valid;
    WalkStep(g, w, costs, preds, sink, path[from..], v);
    WriteBefore(path, from - 1, v);
    TraceFrom(g, w, costs, sink, path[from - 1 := v], from - 1, if from > 1 then preds[v].value else v);
  }

  lemma {:induction false} TraceEnd(g: Graph, w: seq<nat>, costs: seq<PathCost>, sink: nat, path: seq<nat>, v: nat)
    requires g.Valid() && |w| == |g.vertices| == |costs| && sink < |w| && Tracing(g, w, costs, sink, path, 0, v)
    ensures PathOfCost(g, w, path, sink, costs[sink])
  {
  }

  /**
   `critical_path_for_vertex_and_cost`: follows predecessors from `sink` and returns a path that ends there and
   has exactly the recorded cost, so the unwrap in the loop cannot fail.
   */
  method PathFor(g: Graph, w: seq<nat>, costs: seq<PathCost>, preds: seq<Option<nat>>, sink: nat)
    returns (path: seq<nat>)
    requires g.Valid() && |w| == |g.vertices| && PredecessorTree(g, w, costs, preds) && sink < |w|
    ensures PathOfCost(g, w, path, sink, costs[sink])
  {
    hide PathOfCost, Walked, Graph.Valid, PredecessorOf, Tracing;
    var len := costs[sink].len;
    path := seq(len, _ => 0);
    var v: nat := sink;
    TraceStart(g, w, costs, preds, sink, path);
    for i := 0 to len
      invariant |path| == len && Tracing(g, w, costs, sink, path, len - i, v)
    {
      TraceNext(g, w, costs, preds, sink, path, len - i, v);
      path := path[len - 1 - i := v];
      if i != len - 1 {
        v := preds[v].value;
      }
    }
    TraceEnd(g, w, costs, sink, path, v);
  }

  /** A longest path ending at a vertex of greatest cost is a longest path of the graph. */
  lemma {:induction false} GreatestIsLongest(g: Graph, w: seq<nat>, costs: seq<PathCost>, v: nat)
    requires g.Valid() && |w| == |g.vertices| == |costs| && v < |w|
    requires forall u :: 0 <= u < |w| ==> LongestTo(g, w, u, costs[u])
    requires forall u :: 0 <= u < |w| ==> costs[u].Leq(costs[v])
    ensures LongestCost(g, w, costs[v])
  {
    assert LongestTo(g, w, v, costs[v]);
    forall p | |p| > 0 && g.Path(p) ensures Cost(w, p).Leq(costs[v]) {
      var u := p[|p| - 1];
      assert LongestTo(g, w, u, costs[u]);
    }
  }
}
