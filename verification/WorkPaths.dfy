/**
 The critical path through real work: `compute_real_work_critical_path` and its helpers in
 app/bz_build_signals_impl/src/backend/longest_path_graph.rs. The graph is contracted to the vertices that stand for
 work; a vertex adds to a path only the time after its predecessor ended.
 */
module WorkPaths {
  import opened Collections
  import opened Paths
  import opened Timeline
  import Chains

  // ----- Work behind other vertices -----

  /** A path all of whose vertices but the first are not work. */
  ghost predicate ClearPath(g: Graph, isWork: seq<bool>, p: seq<nat>)
    requires g.Valid() && |isWork| == |g.vertices|
  {
    |p| > 0 && g.Path(p) && forall i :: 0 < i < |p| ==> !isWork[p[i]]
  }

  /** `x` is one of the roots, or behind one with no work in between. */
  ghost predicate Sees(g: Graph, isWork: seq<bool>, x: nat, roots: seq<nat>)
    requires g.Valid() && |isWork| == |g.vertices|
  {
    exists p :: ClearPath(g, isWork, p) && p[0] == x && p[|p| - 1] in roots
  }

  ghost predicate InRange(vs: seq<nat>, n: nat) { forall i :: 0 <= i < |vs| ==> vs[i] < n }

  /** What has been seen, and what of it still waits on the stack. */
  ghost predicate Collecting(g: Graph, isWork: seq<bool>, roots: seq<nat>, visited: set<nat>, stack: seq<nat>)
    requires g.Valid() && |isWork| == |g.vertices|
  {
    && (forall v :: v in visited || v in stack ==> v < |isWork| && Sees(g, isWork, v, roots))
    && (forall r :: r in roots ==> r in visited || r in stack)
    && (forall v: nat, d: nat :: g.Edge(d, v) && v in visited && !isWork[v] ==> d in visited || d in stack)
  }

  ghost predicate IsWorkOf(isWork: seq<bool>, visited: set<nat>, work: seq<nat>) {
    NoDuplicates(work) && forall x: nat :: x in work <==> x in visited && x < |isWork| && isWork[x]
  }

  lemma {:induction false} CollectStart(g: Graph, isWork: seq<bool>, roots: seq<nat>)
    requires g.Valid() && |isWork| == |g.vertices| && InRange(roots, |isWork|)
    ensures Collecting(g, isWork, roots, {}, roots)
  {
    forall v | v in roots ensures v < |isWork| && Sees(g, isWork, v, roots) {
      assert ClearPath(g, isWork, [v]) && [v][|[v]| - 1] in roots;
    }
  }

  lemma {:induction false} CollectDrop(g: Graph, isWork: seq<bool>, roots: seq<nat>, visited: set<nat>, rest: seq<nat>,
                                       v: nat)
    requires g.Valid() && |isWork| == |g.vertices|
    requires Collecting(g, isWork, roots, visited, rest + [v]) && (v in visited || (v < |isWork| && isWork[v]))
    ensures Collecting(g, isWork, roots, visited + {v}, rest)
  {
    hide Sees;
    assert (rest + [v])[|rest|] in rest + [v];
    forall x | x in rest ensures x in rest + [v] {}
    forall x | x in rest + [v] && x != v ensures x in rest {}
  }

  lemma {:induction false} SeesEdge(g: Graph, isWork: seq<bool>, roots: seq<nat>, d: nat, v: nat)
    requires g.Valid() && |isWork| == |g.vertices| && g.Edge(d, v) && !isWork[v] && Sees(g, isWork, v, roots)
    ensures d < |isWork| && Sees(g, isWork, d, roots)
  {
    var p :| ClearPath(g, isWork, p) && p[0] == v && p[|p| - 1] in roots;
    PathConcat(g, [d], p);
    var q := [d] + p;
    forall i | 0 < i < |q| ensures !isWork[q[i]] { assert q[i] == p[i - 1]; }
    assert ClearPath(g, isWork, q) && q[0] == d && q[|q| - 1] == p[|p| - 1];
  }

  lemma {:induction false} CollectExpand(g: Graph, isWork: seq<bool>, roots: seq<nat>, visited: set<nat>,
                                         rest: seq<nat>, v: nat)
    requires g.Valid() && |isWork| == |g.vertices|
    requires Collecting(g, isWork, roots, visited, rest + [v]) && v < |isWork| && !isWork[v]
    ensures Collecting(g, isWork, roots, visited + {v}, rest + g.Edges(v))
  {
    hide Sees;
    var stack, next := rest + [v], rest + g.Edges(v);
    assert stack[|rest|] in stack;
    forall x | x in stack && x != v ensures x in rest {}
    forall x | x in visited + {v} || x in next ensures x < |isWork| && Sees(g, isWork, x, roots) {
      if x in rest {
        assert x in stack;
      } else if x in next {
        assert g.Edge(x, v);
        SeesEdge(g, isWork, roots, x, v);
      }
    }
    forall x: nat, d: nat | g.Edge(d, x) && x in visited + {v} && !isWork[x] ensures d in visited + {v} || d in next {
      if x == v { assert d in g.Edges(v); }
    }
  }

  lemma {:induction false} VisitedAlong(g: Graph, isWork: seq<bool>, roots: seq<nat>, visited: set<nat>, p: seq<nat>,
                                        i: nat)
    requires g.Valid() && |isWork| == |g.vertices| && Collecting(g, isWork, roots, visited, [])
    requires ClearPath(g, isWork, p) && p[|p| - 1] in roots && i < |p|
    ensures p[i] in visited
    decreases |p| - i
  {
    if i + 1 < |p| {
      VisitedAlong(g, isWork, roots, visited, p, i + 1);
      assert g.Edge(p[i], p[i + 1]);
    }
  }

  /** With nothing left on the stack, all that can be seen was visited. */
  lemma {:induction false} CollectedAll(g: Graph, isWork: seq<bool>, roots: seq<nat>, visited: set<nat>, x: nat)
    requires g.Valid() && |isWork| == |g.vertices| && Collecting(g, isWork, roots, visited, [])
    ensures x in visited <==> Sees(g, isWork, x, roots)
  {
    if Sees(g, isWork, x, roots) {
      var p :| ClearPath(g, isWork, p) && p[0] == x && p[|p| - 1] in roots;
      VisitedAlong(g, isWork, roots, visited, p, 0);
    }
  }

  ghost function Unvisited(n: nat, visited: set<nat>): set<nat> {
    set v: nat | v < n && v !in visited
  }

  lemma {:induction false} WorkStart(isWork: seq<bool>)
    ensures IsWorkOf(isWork, {}, [])
  {
  }

  lemma {:induction false} WorkSkip(isWork: seq<bool>, visited: set<nat>, work: seq<nat>, v: nat)
    requires IsWorkOf(isWork, visited, work) && v < |isWork| && !isWork[v]
    ensures IsWorkOf(isWork, visited + {v}, work)
  {
    hide NoDuplicates;
  }

  lemma {:induction false} WorkEnd(g: Graph, isWork: seq<bool>, roots: seq<nat>, visited: set<nat>, work: seq<nat>)
    requires g.Valid() && |isWork| == |g.vertices| && Collecting(g, isWork, roots, visited, [])
    requires IsWorkOf(isWork, visited, work)
    ensures NoDuplicates(work)
    ensures forall x: nat :: x in work <==> x < |isWork| && isWork[x] && Sees(g, isWork, x, roots)
  {
    hide Collecting, Sees, Graph.Valid, NoDuplicates;
    forall x: nat ensures x in work <==> x < |isWork| && isWork[x] && Sees(g, isWork, x, roots) {
      CollectedAll(g, isWork, roots, visited, x);
    }
  }

  lemma {:induction false} InBounds(g: Graph, isWork: seq<bool>, roots: seq<nat>, visited: set<nat>, rest: seq<nat>,
                                    v: nat)
    requires g.Valid() && |isWork| == |g.vertices| && Collecting(g, isWork, roots, visited, rest + [v])
    ensures v < |isWork|
  {
    assert (rest + [v])[|rest|] in rest + [v];
  }

  lemma {:induction false} WorkSnoc(isWork: seq<bool>, visited: set<nat>, work: seq<nat>, v: nat)
    requires IsWorkOf(isWork, visited, work) && v !in visited && v < |isWork| && isWork[v]
    ensures IsWorkOf(isWork, visited + {v}, work + [v])
  {
    var more := work + [v];
    forall x: nat ensures x in more <==> x in visited + {v} && x < |isWork| && isWork[x] {
      if x == v { assert more[|work|] == v; } else { assert x in more <==> x in work; }
    }
  }

  lemma {:induction false} Smaller(n: nat, before: set<nat>, now: set<nat>, w: nat)
    requires before <= now && w in now && w !in before && w < n
    ensures Unvisited(n, now) < Unvisited(n, before)
  {
    assert w in Unvisited(n, before);
  }

  /** `collect_reachable_work_vertices`: exactly the work seen from the roots, each once. */
  method CollectReachable(g: Graph, isWork: seq<bool>, roots: seq<nat>) returns (work: seq<nat>)
    requires g.Valid() && |isWork| == |g.vertices| && InRange(roots, |isWork|)
    ensures NoDuplicates(work)
    ensures forall x: nat :: x in work <==> x < |isWork| && isWork[x] && Sees(g, isWork, x, roots)
  {
    hide Collecting, Sees, Graph.Valid, Graph.Edges, IsWorkOf, Unvisited, NoDuplicates;
    work := [];
    var visited: set<nat>, stack := {}, roots;
    CollectStart(g, isWork, roots);
    WorkStart(isWork);
    while stack != []
      invariant Collecting(g, isWork, roots, visited, stack) && IsWorkOf(isWork, visited, work)
      decreases Unvisited(|isWork|, visited), |stack|
    {
      var v, rest := stack[|stack| - 1], stack[..|stack| - 1];
      assert stack == rest + [v];
      InBounds(g, isWork, roots, visited, rest, v);
      if v in visited {
        CollectDrop(g, isWork, roots, visited, rest, v);
        assert visited + {v} == visited;
        stack := rest;
      } else {
        Smaller(|isWork|, visited, visited + {v}, v);
        if isWork[v] {
          CollectDrop(g, isWork, roots, visited, rest, v);
          WorkSnoc(isWork, visited, work, v);
          work, stack := work + [v], rest;
        } else {
          CollectExpand(g, isWork, roots, visited, rest, v);
          WorkSkip(isWork, visited, work, v);
          stack := rest + g.Edges(v);
        }
        visited := visited + {v};
      }
    }
    WorkEnd(g, isWork, roots, visited, work);
  }

  // ----- The contracted graph -----

  /** `retain`: the vertex itself and repetitions are dropped. */
  method Retain(deps: seq<nat>, w: nat) returns (r: seq<nat>)
    ensures NoDuplicates(r) && forall x :: x in r <==> x in deps && x != w
  {
    r := [];
    for i := 0 to |deps|
      invariant NoDuplicates(r) && forall x :: x in r <==> x in deps[..i] && x != w
    {
      assert deps[..i + 1] == deps[..i] + [deps[i]];
      if deps[i] != w && deps[i] !in r {
        ghost var longer := r + [deps[i]];
        assert forall x :: x in longer <==> x in r || x == deps[i];
        r := r + [deps[i]];
      }
    }
    assert deps[..|deps|] == deps;
  }

  /** The work a work vertex depends on: named inputs, and what is seen from its dependencies. */
  ghost predicate IsDep(g: Graph, isWork: seq<bool>, named: seq<seq<nat>>, d: nat, w: nat)
    requires g.Valid() && |isWork| == |named| == |g.vertices| && w < |isWork|
  {
    d != w && (d in named[w] || (d < |isWork| && isWork[d] && Sees(g, isWork, d, g.Edges(w))))
  }

  ghost predicate Contracts(g: Graph, isWork: seq<bool>, named: seq<seq<nat>>, w: nat, deps: seq<nat>)
    requires g.Valid() && |isWork| == |named| == |g.vertices| && w < |isWork|
  {
    if isWork[w] then NoDuplicates(deps) && forall d :: d in deps <==> IsDep(g, isWork, named, d, w) else deps == []
  }

  ghost predicate NamesWork(isWork: seq<bool>, named: seq<seq<nat>>) {
    && |named| == |isWork|
    && forall w, i :: 0 <= w < |named| && 0 <= i < |named[w]| ==> named[w][i] < |isWork| && isWork[named[w][i]]
  }

  /** The loop that contracts the graph. */
  method WorkDeps(g: Graph, isWork: seq<bool>, named: seq<seq<nat>>) returns (deps: seq<seq<nat>>)
    requires g.Valid() && |isWork| == |g.vertices| && NamesWork(isWork, named)
    ensures |deps| == |isWork| && forall w :: 0 <= w < |deps| ==> Contracts(g, isWork, named, w, deps[w])
  {
    deps := [];
    hide Sees;
    for w := 0 to |isWork|
      invariant |deps| == w && forall v :: 0 <= v < w ==> Contracts(g, isWork, named, v, deps[v])
    {
      if isWork[w] {
        var seen := CollectReachable(g, isWork, g.Edges(w));
        var own := Retain(named[w] + seen, w);
        assert Contracts(g, isWork, named, w, own);
        deps := deps + [own];
      } else {
        deps := deps + [[]];
      }
    }
  }

  ghost predicate DepsInRange(deps: seq<seq<nat>>) {
    forall w, d :: 0 <= w < |deps| && d in deps[w] ==> d < |deps|
  }

  ghost predicate AreWork(isWork: seq<bool>, ds: seq<nat>) {
    forall i :: 0 <= i < |ds| ==> ds[i] < |isWork| && isWork[ds[i]]
  }

  /** Only work depends, and on work only. */
  ghost predicate OnlyWork(isWork: seq<bool>, deps: seq<seq<nat>>) {
    |isWork| == |deps| && forall w :: 0 <= w < |deps| ==> (deps[w] == [] || isWork[w]) && AreWork(isWork, deps[w])
  }

  lemma {:induction false} DepIsWork(g: Graph, isWork: seq<bool>, named: seq<seq<nat>>, w: nat, deps: seq<nat>, d: nat)
    requires g.Valid() && |isWork| == |g.vertices| && NamesWork(isWork, named) && w < |isWork|
    requires Contracts(g, isWork, named, w, deps) && d in deps
    ensures isWork[w] && d < |isWork| && isWork[d]
  {
    hide Sees, NoDuplicates;
    assert IsDep(g, isWork, named, d, w);
    if d in named[w] { var i :| 0 <= i < |named[w]| && named[w][i] == d; }
  }

  lemma {:induction false} DepsAreWork(g: Graph, isWork: seq<bool>, named: seq<seq<nat>>, deps: seq<seq<nat>>)
    requires g.Valid() && |isWork| == |g.vertices| && NamesWork(isWork, named)
    requires |deps| == |isWork| && forall w :: 0 <= w < |deps| ==> Contracts(g, isWork, named, w, deps[w])
    ensures DepsInRange(deps) && OnlyWork(isWork, deps)
  {
    hide Contracts, NamesWork, Graph.Valid;
    forall w, d | 0 <= w < |deps| && d in deps[w] ensures d < |deps| {
      DepIsWork(g, isWork, named, w, deps[w], d);
    }
    forall w | 0 <= w < |deps| ensures (deps[w] == [] || isWork[w]) && AreWork(isWork, deps[w]) {
      forall i | 0 <= i < |deps[w]| ensures isWork[w] && deps[w][i] < |isWork| && isWork[deps[w][i]] {
        DepIsWork(g, isWork, named, w, deps[w], deps[w][i]);
      }
      if deps[w] != [] { DepIsWork(g, isWork, named, w, deps[w], deps[w][0]); }
    }
  }

  // ----- Costs -----

  /** `non_overlapping_duration`. */
  function Beyond(totals: seq<TimeSpan>, w: nat, d: nat): nat
    requires w < |totals| && d < |totals|
  {
    Since(totals[w].end, Max(totals[w].start, totals[d].end))
  }

  /** A chain of work, each vertex depending on the one before it. */
  ghost predicate WorkPath(deps: seq<seq<nat>>, p: seq<nat>) {
    && |p| > 0 && (forall i :: 0 <= i < |p| ==> p[i] < |deps|)
    && forall i, j :: 0 <= i && j == i + 1 && j < |p| ==> p[i] in deps[p[j]]
  }

  /** A chain that starts where there is nothing to wait for. */
  ghost predicate FullPath(deps: seq<seq<nat>>, p: seq<nat>) {
    WorkPath(deps, p) && deps[p[0]] == []
  }

  /** The time of the first vertex, and of every other what lies beyond the one before it. */
  function WorkTime(totals: seq<TimeSpan>, p: seq<nat>): nat
    requires |p| > 0 && forall i :: 0 <= i < |p| ==> p[i] < |totals|
  {
    if |p| == 1 then Duration(totals[p[0]])
    else WorkTime(totals, p[..|p| - 1]) + Beyond(totals, p[|p| - 1], p[|p| - 2])
  }

  /** `c` is the greatest time over all full paths that end at `w`. */
  ghost predicate Best(deps: seq<seq<nat>>, totals: seq<TimeSpan>, w: nat, c: nat)
    requires |totals| == |deps|
  {
    && (exists p :: FullPath(deps, p) && p[|p| - 1] == w && WorkTime(totals, p) == c)
    && (forall p :: FullPath(deps, p) && p[|p| - 1] == w ==> WorkTime(totals, p) <= c)
  }

  lemma {:induction false} FullFront(deps: seq<seq<nat>>, p: seq<nat>)
    requires FullPath(deps, p) && |p| > 1
    ensures FullPath(deps, p[..|p| - 1]) && p[|p| - 2] in deps[p[|p| - 1]]
  {
    var q := p[..|p| - 1];
    forall i, j | 0 <= i && j == i + 1 && j < |q| ensures q[i] in deps[q[j]] { assert p[i] in deps[p[j]]; }
  }

  lemma {:induction false} BestSource(deps: seq<seq<nat>>, totals: seq<TimeSpan>, w: nat)
    requires |totals| == |deps| && w < |deps| && deps[w] == []
    ensures Best(deps, totals, w, Duration(totals[w]))
  {
    assert FullPath(deps, [w]) && [w][|[w]| - 1] == w && WorkTime(totals, [w]) == Duration(totals[w]);
    forall p | FullPath(deps, p) && p[|p| - 1] == w ensures WorkTime(totals, p) <= Duration(totals[w]) {
      if |p| > 1 {
        FullFront(deps, p);
        assert false;
      }
    }
  }

  lemma {:induction false} FullSnoc(deps: seq<seq<nat>>, totals: seq<TimeSpan>, p: seq<nat>, w: nat)
    requires |totals| == |deps| && w < |deps| && FullPath(deps, p) && p[|p| - 1] in deps[w]
    ensures FullPath(deps, p + [w]) && WorkTime(totals, p + [w]) == WorkTime(totals, p) + Beyond(totals, w, p[|p| - 1])
  {
    var q := p + [w];
    forall i, j | 0 <= i && j == i + 1 && j < |q| ensures q[i] in deps[q[j]] {
      if j < |p| { assert p[i] in deps[p[j]]; }
    }
    assert q[..|q| - 1] == p;
  }

  /** The best of all dependencies, each with its own best, is best. */
  lemma {:induction false} BestStep(deps: seq<seq<nat>>, totals: seq<TimeSpan>, w: nat, costs: map<nat, nat>, d: nat)
    requires |totals| == |deps| && DepsInRange(deps) && w < |deps| && d in deps[w]
    requires forall x :: x in deps[w] ==> x in costs && Best(deps, totals, x, costs[x])
    requires forall x :: x in deps[w] ==> costs[x] + Beyond(totals, w, x) <= costs[d] + Beyond(totals, w, d)
    ensures Best(deps, totals, w, costs[d] + Beyond(totals, w, d))
  {
    assert Best(deps, totals, d, costs[d]);
    var p :| FullPath(deps, p) && p[|p| - 1] == d && WorkTime(totals, p) == costs[d];
    FullSnoc(deps, totals, p, w);
    assert (p + [w])[|p + [w]| - 1] == w;
    forall q | FullPath(deps, q) && q[|q| - 1] == w ensures WorkTime(totals, q) <= costs[d] + Beyond(totals, w, d) {
      assert |q| > 1;
      FullFront(deps, q);
      var x := q[|q| - 2];
      assert Best(deps, totals, x, costs[x]) && q[..|q| - 1][|q| - 2] == x;
    }
  }

  // ----- The search -----

  /** `w` depends on `d`. */
  ghost function Edges(deps: seq<seq<nat>>): set<(nat, nat)> {
    set w: nat, d: nat | w < |deps| && d in deps[w] :: (w, d)
  }

  datatype WorkState = WorkState(cost: nat, predecessor: Option<nat>)

  /** A state in the memo: the best time, reached through the recorded predecessor, with all dependencies known. */
  ghost predicate Known(deps: seq<seq<nat>>, totals: seq<TimeSpan>, memo: map<nat, WorkState>, w: nat)
    requires |totals| == |deps|
  {
    && w < |deps| && w in memo && (forall d :: d in deps[w] ==> d in memo) && Best(deps, totals, w, memo[w].cost)
    && match memo[w].predecessor
       case None => deps[w] == [] && memo[w].cost == Duration(totals[w])
       case Some(d) => d in deps[w] && d < |deps| && memo[w].cost == memo[d].cost + Beyond(totals, w, d)
  }

  /** The memo is right and without cycles; what is being visited is a chain of dependencies outside of it. */
  ghost predicate Searching(deps: seq<seq<nat>>, totals: seq<TimeSpan>, memo: map<nat, WorkState>, visiting: set<nat>,
                            stack: seq<nat>)
    requires |totals| == |deps|
  {
    && DepsInRange(deps) && (forall w :: w in memo ==> Known(deps, totals, memo, w)) && memo.Keys !! visiting
    && Chains.AcyclicOn(Edges(deps), memo.Keys)
    && NoDuplicates(stack) && Chains.Chain(Edges(deps), stack) && (forall w :: w in visiting <==> w in stack)
  }

  ghost predicate Grows(memo: map<nat, WorkState>, more: map<nat, WorkState>) {
    forall w :: w in memo ==> w in more && more[w] == memo[w]
  }

  ghost predicate Reaches(deps: seq<seq<nat>>, stack: seq<nat>, w: nat) {
    w < |deps| && (stack != [] ==> (stack[|stack| - 1], w) in Edges(deps))
  }

  lemma {:induction false} Visits(deps: seq<seq<nat>>, totals: seq<TimeSpan>, memo: map<nat, WorkState>,
                                  visiting: set<nat>, stack: seq<nat>, w: nat)
    requires |totals| == |deps| && Searching(deps, totals, memo, visiting, stack) && Reaches(deps, stack, w)
    requires w !in memo && w !in visiting
    ensures Searching(deps, totals, memo, visiting + {w}, stack + [w])
  {
    hide Known, Chains.AcyclicOn, Edges;
    Chains.ChainSnoc(Edges(deps), stack, w);
    var longer := stack + [w];
    forall x ensures x in visiting + {w} <==> x in longer {
      if x == w { assert longer[|stack|] == w; } else { assert x in longer <==> x in stack; }
    }
  }

  lemma {:induction false} VisitedTwice(deps: seq<seq<nat>>, totals: seq<TimeSpan>, memo: map<nat, WorkState>,
                                        visiting: set<nat>, stack: seq<nat>, w: nat)
    requires |totals| == |deps| && Searching(deps, totals, memo, visiting, stack) && Reaches(deps, stack, w)
             && w in visiting
    ensures Chains.Cyclic(Edges(deps))
  {
    hide Known, Chains.AcyclicOn, Edges;
    assert w in stack;
    var i :| 0 <= i < |stack| && stack[i] == w;
    Chains.ChainSnoc(Edges(deps), stack, w);
    Chains.RepeatIsCycle(Edges(deps), stack + [w], i, |stack|);
  }

  /** The first greatest cost over the dependencies looked at so far. */
  ghost predicate BestSoFar(totals: seq<TimeSpan>, memo: map<nat, WorkState>, w: nat, seen: seq<nat>,
                            best: Option<(nat, nat)>)
    requires w < |totals| && forall x :: x in seen ==> x < |totals|
  {
    && (forall x :: x in seen ==> x in memo)
    && match best
       case None => seen == []
       case Some((c, d)) =>
         && d in seen && c == memo[d].cost + Beyond(totals, w, d)
         && forall x :: x in seen ==> memo[x].cost + Beyond(totals, w, x) <= c
  }

  lemma {:induction false} BestSoFarNext(totals: seq<TimeSpan>, memo: map<nat, WorkState>, more: map<nat, WorkState>,
                                         w: nat, seen: seq<nat>, best: Option<(nat, nat)>, x: nat)
    requires w < |totals| && (forall y :: y in seen + [x] ==> y < |totals|)
    requires (forall y :: y in seen ==> y < |totals|) && BestSoFar(totals, memo, w, seen, best)
    requires Grows(memo, more) && x in more && x < |totals|
    ensures var c := more[x].cost + Beyond(totals, w, x);
            BestSoFar(totals, more, w, seen + [x], if best.None? || c > best.value.0 then Some((c, x)) else best)
  {
    assert (seen + [x])[|seen|] in seen + [x];
    assert forall y :: y in seen + [x] ==> y in seen || y == x;
    hide Beyond;
  }

  /** What is recorded once all dependencies have been looked at. */
  function StateOf(totals: seq<TimeSpan>, w: nat, best: Option<(nat, nat)>): WorkState
    requires w < |totals|
  {
    match best
    case Some((cost, d)) => WorkState(cost, Some(d))
    case None => WorkState(Duration(totals[w]), None)
  }

  lemma {:induction false} KnownStays(deps: seq<seq<nat>>, totals: seq<TimeSpan>, memo: map<nat, WorkState>, w: nat,
                                      state: WorkState)
    requires |totals| == |deps| && w !in memo && forall x :: x in memo ==> Known(deps, totals, memo, x)
    ensures forall x :: x in memo ==> Known(deps, totals, memo[w := state], x)
  {
    hide Best, Beyond;
    forall x | x in memo ensures Known(deps, totals, memo[w := state], x) {
      assert Known(deps, totals, memo, x);
    }
  }

  /** With all dependencies known, the vertex is known. */
  lemma {:induction false} KnownNow(deps: seq<seq<nat>>, totals: seq<TimeSpan>, memo: map<nat, WorkState>, w: nat,
                                    best: Option<(nat, nat)>)
    requires |totals| == |deps| && DepsInRange(deps) && w < |deps| && w !in memo
    requires (forall x :: x in memo ==> Known(deps, totals, memo, x)) && (forall x :: x in deps[w] ==> x < |totals|)
    requires BestSoFar(totals, memo, w, deps[w], best)
    ensures Known(deps, totals, memo[w := StateOf(totals, w, best)], w)
  {
    hide Best, Beyond;
    if best.None? {
      BestSource(deps, totals, w);
    } else {
      var costs := map x | x in memo :: memo[x].cost;
      forall x | x in deps[w] ensures Best(deps, totals, x, costs[x]) { assert Known(deps, totals, memo, x); }
      BestStep(deps, totals, w, costs, best.value.1);
    }
  }

  lemma {:induction false} KnownNext(deps: seq<seq<nat>>, totals: seq<TimeSpan>, memo: map<nat, WorkState>, w: nat,
                                     best: Option<(nat, nat)>, more: map<nat, WorkState>)
    requires |totals| == |deps| && DepsInRange(deps) && w < |deps| && w !in memo
    requires (forall x :: x in memo ==> Known(deps, totals, memo, x)) && (forall x :: x in deps[w] ==> x < |totals|)
    requires BestSoFar(totals, memo, w, deps[w], best) && more == memo[w := StateOf(totals, w, best)]
    ensures forall x :: x in more ==> Known(deps, totals, more, x)
  {
    hide Known, BestSoFar;
    KnownStays(deps, totals, memo, w, StateOf(totals, w, best));
    KnownNow(deps, totals, memo, w, best);
  }

  lemma {:induction false} DepsAreMemo(totals: seq<TimeSpan>, memo: map<nat, WorkState>, w: nat, seen: seq<nat>,
                                       best: Option<(nat, nat)>)
    requires w < |totals| && (forall x :: x in seen ==> x < |totals|) && BestSoFar(totals, memo, w, seen, best)
    ensures forall x :: x in seen ==> x in memo
  {
  }

  lemma {:induction false} StackShrinks(visiting: set<nat>, stack: seq<nat>, w: nat)
    requires NoDuplicates(stack + [w]) && w !in visiting && forall x :: x in visiting + {w} <==> x in stack + [w]
    ensures NoDuplicates(stack) && forall x :: x in visiting <==> x in stack
  {
    var longer := stack + [w];
    forall i, j | 0 <= i < j < |stack| ensures stack[i] != stack[j] { assert longer[i] != longer[j]; }
    forall x ensures x in visiting <==> x in stack {
      if x == w {
        forall i | 0 <= i < |stack| ensures stack[i] != w { assert longer[i] != longer[|stack|]; }
      } else {
        assert x in longer <==> x in stack;
      }
    }
  }

  lemma {:induction false} ClosedMemo(deps: seq<seq<nat>>, totals: seq<TimeSpan>, memo: map<nat, WorkState>, w: nat)
    requires |totals| == |deps| && w < |deps| && (forall x :: x in memo ==> Known(deps, totals, memo, x))
    requires forall x :: x in deps[w] ==> x in memo
    ensures forall e :: e in Edges(deps) && (e.0 in memo.Keys || e.0 == w) ==> e.1 in memo.Keys
  {
    hide Best;
    forall e | e in Edges(deps) && (e.0 in memo.Keys || e.0 == w) ensures e.1 in memo.Keys {
      if e.0 in memo.Keys { assert Known(deps, totals, memo, e.0); }
    }
  }

  lemma {:induction false} Settles(deps: seq<seq<nat>>, totals: seq<TimeSpan>, memo: map<nat, WorkState>,
                                   visiting: set<nat>, stack: seq<nat>, w: nat, best: Option<(nat, nat)>)
    requires |totals| == |deps| && Searching(deps, totals, memo, visiting + {w}, stack + [w])
    requires w !in visiting && w < |deps|
    requires (forall x :: x in deps[w] ==> x < |totals|) && BestSoFar(totals, memo, w, deps[w], best)
    ensures w !in memo && Searching(deps, totals, memo[w := StateOf(totals, w, best)], visiting, stack)
  {
    hide Known, Edges, BestSoFar, Chains.Chain;
    assert w in visiting + {w} && w !in memo;
    var more := memo[w := StateOf(totals, w, best)];
    DepsAreMemo(totals, memo, w, deps[w], best);
    KnownNext(deps, totals, memo, w, best, more);
    ClosedMemo(deps, totals, memo, w);
    Chains.AcyclicAdd(Edges(deps), memo.Keys, w);
    assert more.Keys == memo.Keys + {w};
    Chains.ChainSlice(Edges(deps), stack + [w], 0, |stack|);
    assert (stack + [w])[0..|stack|] == stack;
    StackShrinks(visiting, stack, w);
  }

  lemma {:induction false} WInRange(deps: seq<seq<nat>>, stack: seq<nat>, w: nat)
    requires Reaches(deps, stack, w)
    ensures w < |deps|
  {
  }

  lemma {:induction false} DepsBelow(deps: seq<seq<nat>>, totals: seq<TimeSpan>, memo: map<nat, WorkState>,
                                     visiting: set<nat>, stack: seq<nat>, w: nat)
    requires |totals| == |deps| && Searching(deps, totals, memo, visiting, stack) && w < |deps|
    ensures forall x :: x in deps[w] ==> x < |totals|
  {
    hide Known, Chains.AcyclicOn, Edges;
  }

  lemma {:induction false} BestStart(totals: seq<TimeSpan>, memo: map<nat, WorkState>, w: nat, deps: seq<nat>)
    requires w < |totals|
    ensures (forall x :: x in deps[..0] ==> x < |totals|) && BestSoFar(totals, memo, w, deps[..0], None)
  {
    assert deps[..0] == [];
  }

  lemma {:induction false} NextReaches(deps: seq<seq<nat>>, stack: seq<nat>, w: nat, i: nat)
    requires w < |deps| && i < |deps[w]| && deps[w][i] < |deps| && stack != [] && stack[|stack| - 1] == w
    ensures Reaches(deps, stack, deps[w][i])
  {
  }

  class Search {
    const deps: seq<seq<nat>>
    const totals: seq<TimeSpan>
    var memo: map<nat, WorkState>
    var visiting: set<nat>
    ghost var stack: seq<nat>

    constructor (deps: seq<seq<nat>>, totals: seq<TimeSpan>)
      ensures this.deps == deps && this.totals == totals && memo == map[] && visiting == {} && stack == []
    {
      this.deps, this.totals, memo, visiting, stack := deps, totals, map[], {}, [];
    }

    ghost predicate Valid()
      reads this
    {
      |totals| == |deps| && Searching(deps, totals, memo, visiting, stack)
    }

    /** `compute_work_path_state`: the best state of a vertex, or an error only if the dependencies have a cycle. */
    method ComputeState(w: nat) returns (r: Option<WorkState>)
      requires Valid() && Reaches(deps, stack, w)
      modifies this
      ensures r.None? ==> Chains.Cyclic(Edges(deps))
      ensures r.Some? ==> Valid() && visiting == old(visiting) && stack == old(stack) && Grows(old(memo), memo)
      ensures r.Some? ==> w in memo && memo[w] == r.value
      decreases Unvisited(|deps|, memo.Keys + visiting)
    {
      hide Searching, Reaches, Edges, BestSoFar, Chains.Cyclic, Beyond;
      if w in memo {
        return Some(memo[w]);
      }
      if w in visiting {
        VisitedTwice(deps, totals, memo, visiting, stack, w);
        return None;
      }
      ghost var memo0, visiting0, stack0 := memo, visiting, stack;
      WInRange(deps, stack, w);
      Visits(deps, totals, memo, visiting, stack, w);
      assert w in Unvisited(|deps|, memo.Keys + visiting);
      visiting := visiting + {w};
      stack := stack + [w];
      DepsBelow(deps, totals, memo, visiting, stack, w);
      var best: Option<(nat, nat)> := None;
      BestStart(totals, memo, w, deps[w]);
      for i := 0 to |deps[w]|
        invariant Valid() && visiting == visiting0 + {w} && stack == stack0 + [w] && Grows(memo0, memo)
        invariant (forall x :: x in deps[w][..i] ==> x < |totals|) && BestSoFar(totals, memo, w, deps[w][..i], best)
      {
        var d := deps[w][i];
        assert d in deps[w];
        ghost var before := memo;
        NextReaches(deps, stack, w, i);
        Smaller(|deps|, memo0.Keys + visiting0, memo.Keys + visiting, w);
        var state := ComputeState(d);
        if state.None? {
          return None;
        }
        assert deps[w][..i + 1] == deps[w][..i] + [d];
        BestSoFarNext(totals, before, memo, w, deps[w][..i], best, d);
        var cost := state.value.cost + Beyond(totals, w, d);
        if best.None? || cost > best.value.0 {
          best := Some((cost, d));
        }
      }
      assert deps[w][..|deps[w]|] == deps[w];
      Settles(deps, totals, memo, visiting0, stack0, w, best);
      var state := StateOf(totals, w, best);
      visiting := visiting - {w};
      assert visiting == visiting0;
      stack := stack0;
      memo := memo[w := state];
      r := Some(state);
    }
  }

  // ----- From the memo to the path -----

  /** An entry of the path, with the time it adds. */
  datatype Step = Step(vertex: nat, duration: nat)

  function Vertices(steps: seq<Step>): (r: seq<nat>)
    ensures |r| == |steps| && forall i :: 0 <= i < |r| ==> r[i] == steps[i].vertex
  {
    if steps == [] then [] else [steps[0].vertex] + Vertices(steps[1..])
  }

  function TotalTime(steps: seq<Step>): nat {
    if steps == [] then 0 else steps[0].duration + TotalTime(steps[1..])
  }

  /** The step at a vertex, given where the memo leads on. */
  function StepAt(totals: seq<TimeSpan>, v: nat, predecessor: Option<nat>): Step
    requires v < |totals| && (predecessor.Some? ==> predecessor.value < |totals|)
  {
    Step(v, match predecessor case Some(d) => Beyond(totals, v, d) case None => Duration(totals[v]))
  }

  /** A step taken from the memo, which leads on to `next`. */
  ghost predicate Leads(totals: seq<TimeSpan>, memo: map<nat, WorkState>, step: Step, next: Option<nat>) {
    && step.vertex in memo && step.vertex < |totals| && (next.Some? ==> next.value < |totals|)
    && memo[step.vertex].predecessor == next && step == StepAt(totals, step.vertex, next)
  }

  /** Steps taken one after the other, last vertex of the path first. */
  ghost predicate Follows(totals: seq<TimeSpan>, memo: map<nat, WorkState>, steps: seq<Step>, next: Option<nat>) {
    if steps == [] then true
    else if |steps| == 1 then Leads(totals, memo, steps[0], next)
    else Leads(totals, memo, steps[0], Some(steps[1].vertex)) && Follows(totals, memo, steps[1..], next)
  }

  lemma {:induction false} StepVertex(totals: seq<TimeSpan>, v: nat, predecessor: Option<nat>)
    requires v < |totals| && (predecessor.Some? ==> predecessor.value < |totals|)
    ensures StepAt(totals, v, predecessor).vertex == v
  {
  }

  lemma {:induction false} FollowsNext(totals: seq<TimeSpan>, memo: map<nat, WorkState>, steps: seq<Step>, v: nat)
    requires Follows(totals, memo, steps, Some(v)) && v in memo && v < |totals|
    requires memo[v].predecessor.Some? ==> memo[v].predecessor.value < |totals|
    ensures Follows(totals, memo, steps + [StepAt(totals, v, memo[v].predecessor)], memo[v].predecessor)
  {
    var more := steps + [StepAt(totals, v, memo[v].predecessor)];
    StepVertex(totals, v, memo[v].predecessor);
    hide StepAt;
    if |steps| > 0 {
      assert more[1..] == steps[1..] + [more[|steps|]];
      FollowsNext(totals, memo, steps[1..], v);
    }
  }

  lemma {:induction false} FollowsAt(totals: seq<TimeSpan>, memo: map<nat, WorkState>, steps: seq<Step>,
                                     next: Option<nat>, i: nat)
    requires Follows(totals, memo, steps, next) && i < |steps|
    ensures Leads(totals, memo, steps[i], if i + 1 < |steps| then Some(steps[i + 1].vertex) else next)
  {
    hide Leads;
    if i > 0 { FollowsAt(totals, memo, steps[1..], next, i - 1); }
  }

  /** What the memo leads through is a chain of dependencies. */
  lemma {:induction false} FollowsChain(deps: seq<seq<nat>>, totals: seq<TimeSpan>, memo: map<nat, WorkState>,
                                        steps: seq<Step>, next: Option<nat>)
    requires |totals| == |deps| && (forall x :: x in memo ==> Known(deps, totals, memo, x))
    requires Follows(totals, memo, steps, next)
    ensures Chains.Chain(Edges(deps), Vertices(steps)) && Chains.Within(Vertices(steps), memo.Keys)
  {
    hide Best, Beyond, StepAt;
    var p := Vertices(steps);
    forall i, j | 0 <= i && j == i + 1 && j < |p| ensures (p[i], p[j]) in Edges(deps) {
      FollowsAt(totals, memo, steps, next, i);
      assert Known(deps, totals, memo, steps[i].vertex);
    }
    forall i | 0 <= i < |p| ensures p[i] in memo.Keys { FollowsAt(totals, memo, steps, next, i); }
  }

  lemma {:induction false} PredecessorInRange(deps: seq<seq<nat>>, totals: seq<TimeSpan>, memo: map<nat, WorkState>,
                                              v: nat)
    requires |totals| == |deps| && v in memo && Known(deps, totals, memo, v)
    ensures v < |totals| && (memo[v].predecessor.Some? ==>
              memo[v].predecessor.value < |totals| && memo[v].predecessor.value in memo)
  {
    hide Best, Beyond;
  }

  /** The walk along the memo never comes to a vertex twice. */
  lemma {:induction false} NeverTwice(deps: seq<seq<nat>>, totals: seq<TimeSpan>, memo: map<nat, WorkState>,
                                      steps: seq<Step>, v: nat)
    requires |totals| == |deps| && Searching(deps, totals, memo, {}, [])
    requires Follows(totals, memo, steps, Some(v)) && v in memo
    ensures v !in Vertices(steps)
  {
    hide Best, Beyond, StepAt, Follows;
    var p := Vertices(steps);
    if v in p {
      var i :| 0 <= i < |p| && p[i] == v;
      assert Known(deps, totals, memo, v);
      PredecessorInRange(deps, totals, memo, v);
      FollowsNext(totals, memo, steps, v);
      var more := steps + [StepAt(totals, v, memo[v].predecessor)];
      StepVertex(totals, v, memo[v].predecessor);
      FollowsChain(deps, totals, memo, more, memo[v].predecessor);
      var q := Vertices(more);
      assert q[i] == more[i].vertex == steps[i].vertex == p[i] && q[|p|] == v;
      Chains.RepeatWithin(Edges(deps), memo.Keys, q, i, |p|);
      assert false;
    }
  }

  /** Walked to the end, the steps are a full path, and their times add up to the cost of its last vertex. */
  lemma {:induction false} StepsAddUp(deps: seq<seq<nat>>, totals: seq<TimeSpan>, memo: map<nat, WorkState>,
                                      steps: seq<Step>)
    requires |totals| == |deps| && (forall x :: x in memo ==> Known(deps, totals, memo, x))
    requires steps != [] && Follows(totals, memo, steps, None)
    ensures FullPath(deps, Reverse(Vertices(steps)))
    ensures WorkTime(totals, Reverse(Vertices(steps))) == TotalTime(steps) == memo[steps[0].vertex].cost
  {
    hide Best, Beyond;
    var v := steps[0].vertex;
    assert Known(deps, totals, memo, v);
    var rest := steps[1..];
    assert Vertices(steps) == [v] + Vertices(rest);
    if rest == [] {
      assert Reverse(Vertices(steps)) == [v] && FullPath(deps, [v]);
      assert TotalTime(steps) == steps[0].duration + TotalTime([]);
    } else {
      StepsAddUp(deps, totals, memo, rest);
      var p := Reverse(Vertices(rest));
      assert p[|p| - 1] == rest[0].vertex;
      FullSnoc(deps, totals, p, v);
      assert Reverse(Vertices(steps)) == p + [v];
    }
  }

  lemma {:induction false} FollowsNothing(totals: seq<TimeSpan>, memo: map<nat, WorkState>, next: Option<nat>)
    ensures Follows(totals, memo, [], next)
  {
  }

  lemma {:induction false} VerticesSnoc(steps: seq<Step>, s: Step)
    ensures Vertices(steps + [s]) == Vertices(steps) + [s.vertex]
  {
  }

  lemma {:induction false} VerticesReverse(steps: seq<Step>)
    ensures Vertices(Reverse(steps)) == Reverse(Vertices(steps))
  {
  }

  lemma {:induction false} TotalSnoc(steps: seq<Step>, s: Step)
    ensures TotalTime(steps + [s]) == TotalTime(steps) + s.duration
  {
    if steps != [] {
      assert (steps + [s])[1..] == steps[1..] + [s];
      TotalSnoc(steps[1..], s);
    } else {
      assert steps + [s] == [s] && TotalTime([s]) == s.duration + TotalTime([]);
    }
  }

  lemma {:induction false} TotalReverse(steps: seq<Step>)
    ensures TotalTime(Reverse(steps)) == TotalTime(steps)
  {
    if steps != [] {
      assert Reverse(steps) == Reverse(steps[1..]) + [steps[0]];
      TotalReverse(steps[1..]);
      TotalSnoc(Reverse(steps[1..]), steps[0]);
    }
  }

  /** `work_path_to_detailed_path`: its cycle error never arises. */
  method PathTo(deps: seq<seq<nat>>, totals: seq<TimeSpan>, memo: map<nat, WorkState>, w: nat)
    returns (r: Option<seq<Step>>)
    requires |totals| == |deps| && Searching(deps, totals, memo, {}, []) && w in memo
    ensures r.Some? && r.value != [] && r.value[|r.value| - 1].vertex == w
    ensures FullPath(deps, Vertices(r.value))
    ensures WorkTime(totals, Vertices(r.value)) == TotalTime(r.value) == memo[w].cost
  {
    hide Known, Chains.AcyclicOn, Edges, StepAt, Follows;
    var steps: seq<Step>, visited: set<nat>, current := [], {}, Some(w);
    FollowsNothing(totals, memo, current);
    while current.Some?
      invariant Follows(totals, memo, steps, current) && (current.Some? ==> current.value in memo)
      invariant (forall v :: v in visited <==> v in Vertices(steps)) && visited <= memo.Keys
      invariant if steps == [] then current == Some(w) else steps[0].vertex == w
      decreases memo.Keys - visited, current.Some?
    {
      var v := current.value;
      NeverTwice(deps, totals, memo, steps, v);
      if v in visited {
        return None;
      }
      assert Known(deps, totals, memo, v);
      PredecessorInRange(deps, totals, memo, v);
      FollowsNext(totals, memo, steps, v);
      StepVertex(totals, v, memo[v].predecessor);
      VerticesSnoc(steps, StepAt(totals, v, memo[v].predecessor));
      assert v in memo.Keys - visited;
      visited := visited + {v};
      steps := steps + [StepAt(totals, v, memo[v].predecessor)];
      current := memo[v].predecessor;
    }
    StepsAddUp(deps, totals, memo, steps);
    VerticesReverse(steps);
    TotalReverse(steps);
    r := Some(Reverse(steps));
  }

  // ----- The whole computation -----

  datatype Critical = NoWork | CycleDetected | Critical(path: seq<Step>)

  /** The vertices below `n` that stand for work, in order. */
  function WorkVertices(isWork: seq<bool>, n: nat): (r: seq<nat>)
    requires n <= |isWork|
    ensures forall v: nat :: v in r <==> v < n && isWork[v]
  {
    if n == 0 then [] else WorkVertices(isWork, n - 1) + if isWork[n - 1] then [n - 1] else []
  }

  /** A full path of work; what is not work is on none. */
  ghost predicate WorkChain(isWork: seq<bool>, deps: seq<seq<nat>>, p: seq<nat>)
    requires |isWork| == |deps|
  {
    FullPath(deps, p) && forall i :: 0 <= i < |p| ==> isWork[p[i]]
  }

  ghost predicate Contraction(g: Graph, isWork: seq<bool>, named: seq<seq<nat>>, deps: seq<seq<nat>>)
    requires g.Valid() && |isWork| == |named| == |g.vertices|
  {
    |deps| == |isWork| && forall w :: 0 <= w < |deps| ==> Contracts(g, isWork, named, w, deps[w])
  }

  /** Greatest so far, the first of equals. */
  ghost predicate Greatest(memo: map<nat, WorkState>, seen: seq<nat>, max: Option<(nat, nat)>) {
    && (forall x :: x in seen ==> x in memo)
    && match max
       case None => seen == []
       case Some((v, c)) => v in seen && memo[v].cost == c && forall x :: x in seen ==> memo[x].cost <= c
  }

  lemma {:induction false} GreatestNext(memo: map<nat, WorkState>, more: map<nat, WorkState>, seen: seq<nat>,
                                        max: Option<(nat, nat)>, x: nat)
    requires Greatest(memo, seen, max) && Grows(memo, more) && x in more
    ensures Greatest(more, seen + [x], if max.None? || more[x].cost > max.value.1 then Some((x, more[x].cost)) else max)
  {
    assert (seen + [x])[|seen|] in seen + [x];
    assert forall y :: y in seen + [x] ==> y in seen || y == x;
  }

  lemma {:induction false} EdgeIsWork(isWork: seq<bool>, deps: seq<seq<nat>>, w: nat, d: nat)
    requires |isWork| == |deps| && OnlyWork(isWork, deps) && (w, d) in Edges(deps)
    ensures w < |isWork| && isWork[w] && d < |isWork| && isWork[d]
  {
    assert d in deps[w];
    var i: nat :| i < |deps[w]| && deps[w][i] == d;
  }

  /** With all work known, no cycle is left. */
  lemma {:induction false} AllKnown(isWork: seq<bool>, deps: seq<seq<nat>>, totals: seq<TimeSpan>,
                                    memo: map<nat, WorkState>)
    requires |totals| == |deps| == |isWork| && OnlyWork(isWork, deps) && Searching(deps, totals, memo, {}, [])
    requires forall w :: 0 <= w < |isWork| && isWork[w] ==> w in memo
    ensures !Chains.Cyclic(Edges(deps))
  {
    hide Known;
    forall p | |p| > 1 && Chains.Chain(Edges(deps), p) ensures p[0] != p[|p| - 1] {
      forall i | 0 <= i < |p| ensures p[i] in memo.Keys {
        if i + 1 < |p| {
          EdgeIsWork(isWork, deps, p[i], p[i + 1]);
        } else {
          EdgeIsWork(isWork, deps, p[i - 1], p[i]);
        }
      }
      assert Chains.Within(p, memo.Keys);
      if p[0] == p[|p| - 1] { Chains.RepeatWithin(Edges(deps), memo.Keys, p, 0, |p| - 1); }
    }
  }

  /** The greatest cost bounds the time of every chain of work. */
  lemma {:induction false} GreatestOfAll(isWork: seq<bool>, deps: seq<seq<nat>>, totals: seq<TimeSpan>,
                                         memo: map<nat, WorkState>, c: nat, p: seq<nat>)
    requires |totals| == |deps| == |isWork| && WorkChain(isWork, deps, p)
    requires forall x :: x in memo ==> Known(deps, totals, memo, x)
    requires forall w :: 0 <= w < |isWork| && isWork[w] ==> w in memo && memo[w].cost <= c
    ensures WorkTime(totals, p) <= c
  {
    var w := p[|p| - 1];
    assert isWork[w] && Known(deps, totals, memo, w);
  }

  lemma {:induction false} AllAreKnown(deps: seq<seq<nat>>, totals: seq<TimeSpan>, memo: map<nat, WorkState>)
    requires |totals| == |deps| && Searching(deps, totals, memo, {}, [])
    ensures forall x :: x in memo ==> Known(deps, totals, memo, x)
  {
    hide Known;
  }

  lemma {:induction false} SearchStarts(deps: seq<seq<nat>>, totals: seq<TimeSpan>)
    requires |totals| == |deps| && DepsInRange(deps)
    ensures Searching(deps, totals, map[], {}, [])
  {
    hide Known, Edges;
    var memo: map<nat, WorkState> := map[];
    forall p | Chains.Cycle(Edges(deps), p) ensures !Chains.Within(p, memo.Keys) { assert p[0] !in memo.Keys; }
  }

  lemma {:induction false} StartsAnywhere(deps: seq<seq<nat>>, w: nat)
    requires w < |deps|
    ensures Reaches(deps, [], w)
  {
  }

  lemma {:induction false} GreatestStart(memo: map<nat, WorkState>, work: seq<nat>)
    ensures Greatest(memo, work[..0], None)
  {
    assert work[..0] == [];
  }

  lemma {:induction false} GreatestEnd(memo: map<nat, WorkState>, work: seq<nat>, max: Option<(nat, nat)>)
    requires Greatest(memo, work, max) && work != []
    ensures max.Some? && max.value.0 in memo && memo[max.value.0].cost == max.value.1
    ensures forall x :: x in work ==> x in memo && memo[x].cost <= max.value.1
    ensures max.value.0 in work
  {
  }

  /** A path that ends with work is all work. */
  lemma {:induction false} AllWork(isWork: seq<bool>, deps: seq<seq<nat>>, p: seq<nat>)
    requires |isWork| == |deps| && OnlyWork(isWork, deps) && FullPath(deps, p) && isWork[p[|p| - 1]]
    ensures WorkChain(isWork, deps, p)
  {
    forall i | 0 <= i < |p| ensures isWork[p[i]] {
      if i + 1 < |p| {
        assert p[i] in deps[p[i + 1]];
        var k: nat :| k < |deps[p[i + 1]]| && deps[p[i + 1]][k] == p[i];
      }
    }
  }

  /**
   `compute_real_work_critical_path`: an error exactly when the contracted graph has a cycle; otherwise the path is
   one of work, it takes the sum of the reported times, and no chain of work takes longer.
   */
  method RealWorkPath(g: Graph, isWork: seq<bool>, named: seq<seq<nat>>, totals: seq<TimeSpan>)
    returns (r: Critical, deps: seq<seq<nat>>, memo: map<nat, WorkState>)
    requires g.Valid() && |isWork| == |g.vertices| == |totals| && NamesWork(isWork, named)
    ensures r.NoWork? <==> forall w :: 0 <= w < |isWork| ==> !isWork[w]
    ensures !r.NoWork? ==> Contraction(g, isWork, named, deps)
    ensures !r.NoWork? ==> (r.CycleDetected? <==> Chains.Cyclic(Edges(deps)))
    ensures r.Critical? ==> WorkChain(isWork, deps, Vertices(r.path))
    ensures r.Critical? ==> WorkTime(totals, Vertices(r.path)) == TotalTime(r.path)
    ensures r.Critical? ==> forall p :: WorkChain(isWork, deps, p) ==> WorkTime(totals, p) <= TotalTime(r.path)
    ensures r.Critical? ==>
            Searching(deps, totals, memo, {}, []) && forall w :: 0 <= w < |isWork| && isWork[w] ==> w in memo
  {
    hide Contracts, Searching, Known, Edges, Chains.Cyclic, Sees, WorkTime, Greatest, Graph.Valid;
    var work := WorkVertices(isWork, |isWork|);
    deps, memo := [], map[];
    if work == [] {
      assert forall w :: 0 <= w < |isWork| && isWork[w] ==> w in work;
      return NoWork, deps, memo;
    }
    deps := WorkDeps(g, isWork, named);
    DepsAreWork(g, isWork, named, deps);
    var search := new Search(deps, totals);
    SearchStarts(deps, totals);
    var max: Option<(nat, nat)> := None;
    GreatestStart(map[], work);
    for i := 0 to |work|
      invariant search.deps == deps && search.totals == totals && search.visiting == {} && search.stack == []
      invariant search.Valid() && Greatest(search.memo, work[..i], max)
      modifies search
    {
      assert work[i] in work;
      ghost var before := search.memo;
      StartsAnywhere(deps, work[i]);
      var state := search.ComputeState(work[i]);
      if state.None? {
        return CycleDetected, deps, map[];
      }
      assert work[..i + 1] == work[..i] + [work[i]];
      GreatestNext(before, search.memo, work[..i], max, work[i]);
      if max.None? || state.value.cost > max.value.1 {
        max := Some((work[i], state.value.cost));
      }
    }
    assert work[..|work|] == work;
    memo := search.memo;
    GreatestEnd(memo, work, max);
    AllKnown(isWork, deps, totals, memo);
    var path := PathTo(deps, totals, memo, max.value.0);
    r := Critical(path.value);
    AllWork(isWork, deps, Vertices(r.path));
    forall p | WorkChain(isWork, deps, p) ensures WorkTime(totals, p) <= TotalTime(r.path) {
      AllAreKnown(deps, totals, memo);
      GreatestOfAll(isWork, deps, totals, memo, max.value.1, p);
    }
  }

  /** `x` is work, seen from one of a target's artifacts that have a vertex. */
  ghost predicate SeenFrom(g: Graph, isWork: seq<bool>, artifacts: seq<Option<nat>>, x: nat)
    requires g.Valid() && |isWork| == |g.vertices|
  {
    x < |isWork| && isWork[x]
      && exists i :: 0 <= i < |artifacts| && artifacts[i].Some? && Sees(g, isWork, x, [artifacts[i].value])
  }

  ghost predicate InKeys(artifacts: seq<Option<nat>>, n: nat) {
    forall i :: 0 <= i < |artifacts| && artifacts[i].Some? ==> artifacts[i].value < n
  }

  lemma {:induction false} SeenNext(g: Graph, isWork: seq<bool>, artifacts: seq<Option<nat>>, i: nat)
    requires g.Valid() && |isWork| == |g.vertices| && i < |artifacts|
    ensures forall x: nat :: SeenFrom(g, isWork, artifacts[..i + 1], x) <==>
              || SeenFrom(g, isWork, artifacts[..i], x)
              || (x < |isWork| && isWork[x] && artifacts[i].Some? && Sees(g, isWork, x, [artifacts[i].value]))
  {
    hide Sees;
    var more := artifacts[..i + 1];
    forall x: nat ensures SeenFrom(g, isWork, more, x) <==>
              || SeenFrom(g, isWork, artifacts[..i], x)
              || (x < |isWork| && isWork[x] && artifacts[i].Some? && Sees(g, isWork, x, [artifacts[i].value]))
    {
      assert more[i] == artifacts[i];
      if SeenFrom(g, isWork, artifacts[..i], x) {
        var k :| 0 <= k < i && artifacts[..i][k].Some? && Sees(g, isWork, x, [artifacts[..i][k].value]);
        assert more[k] == artifacts[..i][k];
      }
      if SeenFrom(g, isWork, more, x) {
        var k :| 0 <= k < |more| && more[k].Some? && Sees(g, isWork, x, [more[k].value]);
        if k < i { assert more[k] == artifacts[..i][k]; }
      }
    }
  }

  lemma {:induction false} TargetBest(g: Graph, isWork: seq<bool>, deps: seq<seq<nat>>, totals: seq<TimeSpan>,
                                      memo: map<nat, WorkState>, artifacts: seq<Option<nat>>, seen: seq<nat>,
                                      max: Option<(nat, nat)>)
    requires g.Valid() && |isWork| == |g.vertices| == |totals| == |deps|
    requires Searching(deps, totals, memo, {}, []) && Greatest(memo, seen, max)
    requires forall x: nat :: x in seen <==> SeenFrom(g, isWork, artifacts, x)
    ensures max.None? <==> forall x :: !SeenFrom(g, isWork, artifacts, x)
    ensures max.Some? ==>
              exists p :: FullPath(deps, p) && SeenFrom(g, isWork, artifacts, p[|p| - 1])
                && WorkTime(totals, p) == max.value.1
    ensures max.Some? ==>
              forall p :: FullPath(deps, p) && SeenFrom(g, isWork, artifacts, p[|p| - 1]) ==>
                WorkTime(totals, p) <= max.value.1
  {
    hide Sees, SeenFrom, Edges, Chains.AcyclicOn;
    if max.Some? {
      var v := max.value.0;
      assert Known(deps, totals, memo, v) && SeenFrom(g, isWork, artifacts, v);
      var p :| FullPath(deps, p) && p[|p| - 1] == v && WorkTime(totals, p) == max.value.1;
      forall p | FullPath(deps, p) && SeenFrom(g, isWork, artifacts, p[|p| - 1])
        ensures WorkTime(totals, p) <= max.value.1
      {
        assert p[|p| - 1] in seen && Known(deps, totals, memo, p[|p| - 1]);
      }
    } else {
      assert seen == [];
    }
  }

  /** The time of a top-level target: that of the longest chain of work behind its artifacts, if there is work. */
  method TargetTime(g: Graph, isWork: seq<bool>, deps: seq<seq<nat>>, totals: seq<TimeSpan>, memo: map<nat, WorkState>,
                    artifacts: seq<Option<nat>>) returns (r: Option<nat>)
    requires g.Valid() && |isWork| == |g.vertices| == |totals| == |deps| && InKeys(artifacts, |isWork|)
    requires Searching(deps, totals, memo, {}, []) && forall w :: 0 <= w < |isWork| && isWork[w] ==> w in memo
    ensures r.None? <==> forall x :: !SeenFrom(g, isWork, artifacts, x)
    ensures r.Some? ==>
              exists p ::
                FullPath(deps, p) && SeenFrom(g, isWork, artifacts, p[|p| - 1]) && WorkTime(totals, p) == r.value
    ensures r.Some? ==>
              forall p :: FullPath(deps, p) && SeenFrom(g, isWork, artifacts, p[|p| - 1]) ==>
                WorkTime(totals, p) <= r.value
  {
    hide Searching, Known, Sees, Graph.Valid, Greatest, WorkTime;
    var seen: seq<nat>, max: Option<(nat, nat)> := [], None;
    GreatestStart(memo, seen);
    for i := 0 to |artifacts|
      invariant Greatest(memo, seen, max) && forall x: nat :: x in seen <==> SeenFrom(g, isWork, artifacts[..i], x)
    {
      SeenNext(g, isWork, artifacts, i);
      if artifacts[i].Some? {
        var work := CollectReachable(g, isWork, [artifacts[i].value]);
        ghost var start := seen;
        for j := 0 to |work|
          invariant Greatest(memo, seen, max) && forall x: nat :: x in seen <==> x in start || x in work[..j]
        {
          assert work[j] in work && work[..j + 1] == work[..j] + [work[j]];
          GreatestNext(memo, memo, seen, max, work[j]);
          assert forall x :: x in seen + [work[j]] <==> x in seen || x == work[j];
          if max.None? || memo[work[j]].cost > max.value.1 {
            max := Some((work[j], memo[work[j]].cost));
          }
          seen := seen + [work[j]];
        }
        assert work[..|work|] == work;
      }
    }
    assert artifacts[..|artifacts|] == artifacts;
    r := if max.Some? then Some(max.value.1) else None;
    TargetBest(g, isWork, deps, totals, memo, artifacts, seen, max);
  }

  // ----- When there is no error, and what the time means -----

  lemma {:induction false} RoundTrip(g: Graph, a: nat, b: nat)
    requires g.Valid() && g.Reach(a, b) && g.Reach(b, a) && a != b
    ensures !g.Acyclic()
  {
    var p :| g.PathBetween(p, a, b);
    var q :| g.PathBetween(q, b, a);
    PathSlice(g, q, 1, |q|);
    assert g.Edge(q[0], q[1]);
    PathConcat(g, p, q[1..]);
    assert g.Cycle(p + q[1..]);
  }

  /** What is named as an input is also behind the vertex in the graph. */
  ghost predicate NamedBehind(g: Graph, named: seq<seq<nat>>)
    requires g.Valid()
  {
    forall w, i :: 0 <= w < |named| && 0 <= i < |named[w]| ==> named[w][i] != w ==> g.Reach(named[w][i], w)
  }

  lemma {:induction false} DepIsBehind(g: Graph, isWork: seq<bool>, named: seq<seq<nat>>, deps: seq<seq<nat>>, w: nat,
                                       d: nat)
    requires g.Valid() && |isWork| == |named| == |g.vertices| && Contraction(g, isWork, named, deps)
    requires NamedBehind(g, named) && (w, d) in Edges(deps)
    ensures d != w && g.Reach(d, w)
  {
    assert d in deps[w] && Contracts(g, isWork, named, w, deps[w]) && IsDep(g, isWork, named, d, w);
    if d in named[w] {
      var i :| 0 <= i < |named[w]| && named[w][i] == d;
    } else {
      var p :| ClearPath(g, isWork, p) && p[0] == d && p[|p| - 1] in g.Edges(w);
      PathConcat(g, p, [w]);
      assert g.PathBetween(p + [w], d, w);
    }
  }

  lemma {:induction false} ChainIsBehind(g: Graph, isWork: seq<bool>, named: seq<seq<nat>>, deps: seq<seq<nat>>,
                                         p: seq<nat>)
    requires g.Valid() && |isWork| == |named| == |g.vertices| && Contraction(g, isWork, named, deps)
    requires NamedBehind(g, named) && |p| > 1 && Chains.Chain(Edges(deps), p)
    ensures g.Reach(p[|p| - 1], p[0])
  {
    hide Contraction, Edges, NamedBehind, Graph.Reach;
    assert (p[|p| - 2], p[|p| - 1]) in Edges(deps);
    DepIsBehind(g, isWork, named, deps, p[|p| - 2], p[|p| - 1]);
    if |p| > 2 {
      var q := p[..|p| - 1];
      Chains.ChainSlice(Edges(deps), p, 0, |p| - 1);
      assert q == p[0..|p| - 1];
      ChainIsBehind(g, isWork, named, deps, q);
      ReachTrans(g, p[|p| - 1], p[|p| - 2], p[0]);
    }
  }

  /** In a graph without cycles that has the named inputs too, the contraction has none. */
  lemma {:induction false} NeverCyclic(g: Graph, isWork: seq<bool>, named: seq<seq<nat>>, deps: seq<seq<nat>>)
    requires g.Valid() && |isWork| == |named| == |g.vertices| && Contraction(g, isWork, named, deps)
    requires NamedBehind(g, named) && g.Acyclic()
    ensures !Chains.Cyclic(Edges(deps))
  {
    hide Contraction, Edges, NamedBehind, Graph.Reach, Graph.Acyclic;
    forall p | |p| > 1 && Chains.Chain(Edges(deps), p) ensures p[0] != p[|p| - 1] {
      assert (p[0], p[1]) in Edges(deps);
      DepIsBehind(g, isWork, named, deps, p[0], p[1]);
      if |p| > 2 {
        Chains.ChainSlice(Edges(deps), p, 1, |p|);
        ChainIsBehind(g, isWork, named, deps, p[1..|p|]);
        if p[0] == p[|p| - 1] { RoundTrip(g, p[0], p[1]); }
      }
    }
  }

  /** Along the path each vertex ends no earlier than the one before it. */
  ghost predicate EndsInOrder(totals: seq<TimeSpan>, p: seq<nat>)
    requires forall i :: 0 <= i < |p| ==> p[i] < |totals|
  {
    forall i, j :: 0 <= i && j == i + 1 && j < |p| ==> totals[p[i]].end <= totals[p[j]].end
  }

  /** The time during which nothing on the path ran. */
  function Gaps(totals: seq<TimeSpan>, p: seq<nat>): nat
    requires |p| > 0 && forall i :: 0 <= i < |p| ==> p[i] < |totals|
  {
    if |p| == 1 then 0
    else Gaps(totals, p[..|p| - 1]) + Since(totals[p[|p| - 1]].start, totals[p[|p| - 2]].end)
  }

  /** Nothing is counted twice: the time is what passed from the first start to the last end, without the gaps. */
  lemma {:induction false} WithinWallClock(totals: seq<TimeSpan>, p: seq<nat>)
    requires |p| > 0 && (forall i :: 0 <= i < |p| ==> p[i] < |totals|) && EndsInOrder(totals, p)
    ensures WorkTime(totals, p) + Gaps(totals, p) == totals[p[|p| - 1]].end - totals[p[0]].start
  {
    if |p| > 1 {
      var q := p[..|p| - 1];
      assert totals[p[|p| - 2]].end <= totals[p[|p| - 1]].end;
      assert EndsInOrder(totals, q) by {
        forall i, j | 0 <= i && j == i + 1 && j < |q| ensures totals[q[i]].end <= totals[q[j]].end {
          assert totals[p[i]].end <= totals[p[j]].end;
        }
      }
      WithinWallClock(totals, q);
    }
  }
}
