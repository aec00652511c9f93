/**
 Depth-first topological sort with an explicit work stack, and the extraction of a cycle from that stack:
 `Graph::topo_sort` in app/bz_critical_path/src/graph.rs.
 */
module TopoSort {
  import opened Collections
  import opened Paths

  /** `Push` asks to visit a vertex, `Pop` closes it once everything above it on the stack is done. */
  datatype Work = Push(node: nat) | Pop(node: nat)

  datatype TopoResult = Order(order: seq<nat>) | CycleFound(cycle: seq<nat>)

  /** `order` lists every vertex once, each before all of its dependencies. */
  ghost predicate TopologicalOrder(g: Graph, order: seq<nat>)
    requires g.Valid()
  {
    && |order| == |g.vertices|
    && NoDuplicates(order)
    && (forall i :: 0 <= i < |order| ==> order[i] < |g.vertices|)
    && (forall i, j :: 0 <= i < |order| && 0 <= j < |order| && g.Edge(order[i], order[j]) ==> j < i)
  }

  ghost predicate AllPush(q: seq<Work>, lo: int, hi: int) {
    forall k :: lo < k < hi && 0 <= k < |q| ==> q[k].Push?
  }

  /** Every entry on the stack is a dependency of the nearest open vertex below it. */
  ghost predicate Chained(g: Graph, q: seq<Work>)
    requires g.Valid()
  {
    && (forall i :: 0 <= i < |q| ==> q[i].node < |g.vertices|)
    && (forall i, m :: 0 <= i < m < |q| && q[i].Pop? && AllPush(q, i, m) ==> g.Edge(q[m].node, q[i].node))
  }

  /** The open vertices (marked, not yet visited) are exactly the `Pop` entries, each there once. */
  ghost predicate OpenAreOnStack(n: nat, q: seq<Work>, marked: seq<bool>, visited: seq<bool>) {
    && |marked| == |visited| == n
    && (forall v :: 0 <= v < n && visited[v] ==> marked[v])
    && (forall v :: 0 <= v < n ==> (marked[v] && !visited[v] <==> Pop(v) in q))
    && (forall i, j :: 0 <= i < j < |q| && q[i].Pop? ==> q[i] != q[j])
  }

  /** Each dependency of an open vertex is finished or waits above it on the stack. */
  ghost predicate DepsPending(g: Graph, q: seq<Work>, visited: seq<bool>)
    requires g.Valid() && |visited| == |g.vertices|
  {
    forall j, d: nat :: 0 <= j < |q| && q[j].Pop? && g.Edge(d, q[j].node) ==>
      visited[d] || exists i :: j < i < |q| && q[i].node == d
  }

  /** Vertices in the order they were finished; all dependencies of a finished vertex were finished before it. */
  ghost predicate FinishedInOrder(g: Graph, visited: seq<bool>, done: seq<nat>)
    requires g.Valid()
  {
    && |visited| == |g.vertices|
    && NoDuplicates(done)
    && (forall k :: 0 <= k < |done| ==> done[k] < |g.vertices|)
    && (forall v :: 0 <= v < |visited| ==> (visited[v] <==> v in done))
    && (forall k, d: nat :: 0 <= k < |done| && g.Edge(d, done[k]) ==> d in done[..k])
  }

  ghost predicate DfsInv(g: Graph, q: seq<Work>, marked: seq<bool>, visited: seq<bool>, done: seq<nat>)
    requires g.Valid()
  {
    && Chained(g, q)
    && OpenAreOnStack(|g.vertices|, q, marked, visited)
    && DepsPending(g, q, visited)
    && FinishedInOrder(g, visited, done)
  }

  lemma {:induction false} SkipVisited(g: Graph, q: seq<Work>, marked: seq<bool>, visited: seq<bool>, done: seq<nat>,
                                       j: nat)
    requires g.Valid() && DfsInv(g, q + [Push(j)], marked, visited, done)
    requires j < |visited| && visited[j]
    ensures DfsInv(g, q, marked, visited, done)
  {
    var q' := q + [Push(j)];
    assert forall i :: 0 <= i < |q| ==> q'[i] == q[i];
    forall i, m | 0 <= i < m < |q| && q[i].Pop? && AllPush(q, i, m) ensures g.Edge(q[m].node, q[i].node) {
      assert AllPush(q', i, m);
      assert q'[m] == q[m] && q'[i] == q[i];
    }
    forall v | 0 <= v < |marked| ensures Pop(v) in q <==> Pop(v) in q' {}
    forall k, d: nat | 0 <= k < |q| && q[k].Pop? && g.Edge(d, q[k].node)
      ensures visited[d] || exists i :: k < i < |q| && q[i].node == d
    {
      assert q'[k] == q[k];
      if !visited[d] {
        var i :| k < i < |q'| && q'[i].node == d;
        assert q[i].node == d;
      }
    }
  }

  function Pushes(deps: seq<nat>): (r: seq<Work>)
    ensures |r| == |deps|
    ensures forall i :: 0 <= i < |deps| ==> r[i] == Push(deps[i])
  {
    seq(|deps|, i requires 0 <= i < |deps| => Push(deps[i]))
  }

  lemma {:induction false} OpenVertexChained(g: Graph, q: seq<Work>, j: nat)
    requires g.Valid() && Chained(g, q + [Push(j)])
    ensures j < |g.vertices|
    ensures Chained(g, q + [Pop(j)] + Pushes(g.Edges(j)))
  {
    var q' := q + [Push(j)];
    assert q'[|q|] == Push(j);
    var q'' := q + [Pop(j)] + Pushes(g.Edges(j));
    forall i | 0 <= i < |q''| ensures q''[i].node < |g.vertices| {
      if i < |q| { assert q''[i] == q'[i]; }
    }
    forall i, m | 0 <= i < m < |q''| && q''[i].Pop? && AllPush(q'', i, m)
      ensures g.Edge(q''[m].node, q''[i].node)
    {
      if m > |q| {
        assert i >= |q| by { assert q''[|q|].Pop?; }
      } else {
        assert forall k :: 0 <= k < |q| ==> q''[k] == q'[k];
        assert AllPush(q', i, m);
        assert q'[m].node == q''[m].node && q'[i] == q''[i];
      }
    }
  }

  lemma {:induction false} OpenVertexStack(n: nat, q: seq<Work>, marked: seq<bool>, visited: seq<bool>, j: nat,
                                           deps: seq<nat>)
    requires OpenAreOnStack(n, q + [Push(j)], marked, visited)
    requires j < n && !marked[j]
    ensures OpenAreOnStack(n, q + [Pop(j)] + Pushes(deps), marked[j := true], visited)
  {
    var q' := q + [Push(j)];
    var q'' := q + [Pop(j)] + Pushes(deps);
    assert !visited[j];
    assert Pop(j) !in q';
    forall v | 0 <= v < n ensures marked[j := true][v] && !visited[v] <==> Pop(v) in q'' {
      if v == j {
        assert q''[|q|] == Pop(j);
      } else {
        assert Pop(v) in q'' <==> Pop(v) in q;
        assert Pop(v) in q' <==> Pop(v) in q;
      }
    }
    forall i, k | 0 <= i < k < |q''| && q''[i].Pop? ensures q''[i] != q''[k] {
      if k < |q| {
        assert q'[i] == q''[i] && q'[k] == q''[k];
      } else if k == |q| {
        assert q'[i] == q''[i];
      }
    }
  }

  lemma {:induction false} OpenedPending(g: Graph, q: seq<Work>, j: nat, d: nat)
    requires g.Valid() && g.Edge(d, j)
    ensures var q'' := q + [Pop(j)] + Pushes(g.Edges(j));
            exists i :: |q| < i < |q''| && q''[i].node == d
  {
    var q'' := q + [Pop(j)] + Pushes(g.Edges(j));
    var i :| 0 <= i < |g.Edges(j)| && g.Edges(j)[i] == d;
    assert q''[|q| + 1 + i].node == d;
  }

  lemma {:induction false} StillPending(g: Graph, q: seq<Work>, visited: seq<bool>, j: nat, k: nat, d: nat)
    requires g.Valid() && |visited| == |g.vertices| && j < |g.vertices|
    requires DepsPending(g, q + [Push(j)], visited) && k < |q| && q[k].Pop? && g.Edge(d, q[k].node)
    ensures var q'' := q + [Pop(j)] + Pushes(g.Edges(j));
            visited[d] || exists i :: k < i < |q''| && q''[i].node == d
  {
    var q', q'' := q + [Push(j)], q + [Pop(j)] + Pushes(g.Edges(j));
    assert q'[k] == q[k];
    hide Graph.Edges;
    if !visited[d] {
      var i :| k < i < |q'| && q'[i].node == d;
      assert q''[i].node == d;
    }
  }

  lemma {:induction false} OpenVertexPending(g: Graph, q: seq<Work>, visited: seq<bool>, j: nat)
    requires g.Valid() && |visited| == |g.vertices| && j < |g.vertices|
    requires DepsPending(g, q + [Push(j)], visited)
    ensures DepsPending(g, q + [Pop(j)] + Pushes(g.Edges(j)), visited)
  {
    var q'' := q + [Pop(j)] + Pushes(g.Edges(j));
    forall k, d: nat | 0 <= k < |q''| && q''[k].Pop? && g.Edge(d, q''[k].node)
      ensures visited[d] || exists i :: k < i < |q''| && q''[i].node == d
    {
      if k == |q| {
        OpenedPending(g, q, j, d);
      } else {
        StillPending(g, q, visited, j, k, d);
      }
    }
  }

  lemma {:induction false} ClosedChained(g: Graph, q: seq<Work>, j: nat)
    requires g.Valid() && Chained(g, q + [Pop(j)])
    ensures Chained(g, q)
  {
    var q' := q + [Pop(j)];
    assert forall i :: 0 <= i < |q| ==> q'[i] == q[i];
    forall i, m | 0 <= i < m < |q| && q[i].Pop? && AllPush(q, i, m) ensures g.Edge(q[m].node, q[i].node) {
      assert AllPush(q', i, m);
      assert q'[m] == q[m] && q'[i] == q[i];
    }
  }

  lemma {:induction false} ClosedStack(n: nat, q: seq<Work>, marked: seq<bool>, visited: seq<bool>, j: nat)
    requires OpenAreOnStack(n, q + [Pop(j)], marked, visited) && j < n
    ensures OpenAreOnStack(n, q, marked, visited[j := true])
  {
    var q' := q + [Pop(j)];
    assert q'[|q|] == Pop(j) && Pop(j) in q';
    assert forall i :: 0 <= i < |q| ==> q'[i] == q[i];
    forall v | 0 <= v < n ensures marked[v] && !visited[j := true][v] <==> Pop(v) in q {
      if v != j { assert Pop(v) in q' <==> Pop(v) in q; }
    }
  }

  lemma {:induction false} ClosedPending(g: Graph, q: seq<Work>, visited: seq<bool>, j: nat)
    requires g.Valid() && |visited| == |g.vertices| && j < |visited| && DepsPending(g, q + [Pop(j)], visited)
    ensures DepsPending(g, q, visited[j := true])
  {
    var q' := q + [Pop(j)];
    forall k, d: nat | 0 <= k < |q| && q[k].Pop? && g.Edge(d, q[k].node)
      ensures visited[j := true][d] || exists i :: k < i < |q| && q[i].node == d
    {
      assert q'[k] == q[k];
      if !visited[d] && d != j {
        var i :| k < i < |q'| && q'[i].node == d;
        assert q[i].node == d;
      }
    }
  }

  lemma {:induction false} ClosedInOrder(g: Graph, q: seq<Work>, visited: seq<bool>, done: seq<nat>, j: nat)
    requires g.Valid() && j < |visited| && !visited[j] && FinishedInOrder(g, visited, done)
             && DepsPending(g, q + [Pop(j)], visited)
    ensures j !in done && FinishedInOrder(g, visited[j := true], done + [j])
  {
    var q', done' := q + [Pop(j)], done + [j];
    assert q'[|q|] == Pop(j);
    forall k, d: nat | 0 <= k < |done'| && g.Edge(d, done'[k]) ensures d in done'[..k] {
      if k == |done| {
        assert g.Edge(d, q'[|q|].node);
        assert visited[d];
        assert done'[..k] == done;
      } else {
        assert done'[k] == done[k];
        assert done'[..k] == done[..k];
      }
    }
    forall v | 0 <= v < |visited| ensures visited[j := true][v] <==> v in done' {
      if v == j { assert done'[|done|] == j; }
    }
  }

  lemma {:induction false} CloseVertex(g: Graph, q: seq<Work>, marked: seq<bool>, visited: seq<bool>, done: seq<nat>,
                                       j: nat)
    requires g.Valid() && DfsInv(g, q + [Pop(j)], marked, visited, done)
    ensures j < |visited| && j !in done
    ensures DfsInv(g, q, marked, visited[j := true], done + [j])
    ensures FinishedInOrder(g, visited[j := true], done + [j])
  {
    assert (q + [Pop(j)])[|q|] == Pop(j);
    assert Pop(j) in q + [Pop(j)];
    ClosedChained(g, q, j);
    ClosedStack(|g.vertices|, q, marked, visited, j);
    ClosedPending(g, q, visited, j);
    ClosedInOrder(g, q, visited, done, j);
    hide Chained, OpenAreOnStack, DepsPending, FinishedInOrder;
  }

  lemma {:induction false} DistinctIsShort(s: seq<nat>, n: nat)
    requires NoDuplicates(s) && forall i :: 0 <= i < |s| ==> s[i] < n
    ensures |s| <= n
    ensures |s| == n ==> forall v :: 0 <= v < n ==> v in s
    decreases n
  {
    assert |s| > 0 ==> s[0] < n;
    if n > 0 {
      if n - 1 in s {
        var i :| 0 <= i < |s| && s[i] == n - 1;
        var t := s[..i] + s[i + 1..];
        DistinctIsShort(t, n - 1);
        assert forall v :: v in t ==> v in s;
      } else {
        DistinctIsShort(s, n - 1);
      }
    }
  }

  lemma {:induction false} AllPresentIsLong(s: seq<nat>, n: nat)
    requires forall v :: 0 <= v < n ==> v in s
    ensures |s| >= n
    decreases n
  {
    if n > 0 {
      assert n - 1 in s;
      var i :| 0 <= i < |s| && s[i] == n - 1;
      var t := s[..i] + s[i + 1..];
      forall v | 0 <= v < n - 1 ensures v in t {
        assert v in s;
        var k :| 0 <= k < |s| && s[k] == v;
        if k < i { assert t[k] == v; } else { assert t[k - 1] == v; }
      }
      AllPresentIsLong(t, n - 1);
    }
  }

  ghost function Unmarked(marked: seq<bool>): set<int> {
    set v | 0 <= v < |marked| && !marked[v]
  }

  /** The closed vertices, read backwards from the end of the array, are the finished ones in order. */
  ghost predicate WrittenBack(order: seq<nat>, next: nat, n: nat, done: seq<nat>) {
    && |order| == n && |done| <= n
    && (|done| < n ==> next == n - 1 - |done|)
    && forall k :: 0 <= k < |done| ==> order[n - 1 - k] == done[k]
  }

  lemma {:induction false} WrittenAll(order: seq<nat>, next: nat, n: nat, done: seq<nat>)
    requires WrittenBack(order, next, n, done) && |done| == n
    ensures |order| == n
  {
  }

  lemma {:induction false} WrittenAt(order: seq<nat>, next: nat, n: nat, done: seq<nat>, i: nat)
    requires WrittenBack(order, next, n, done) && |done| == n && i < n
    ensures |order| == n && order[i] == done[n - 1 - i]
  {
    assert order[n - 1 - (n - 1 - i)] == done[n - 1 - i];
  }

  lemma {:induction false} FinishedLength(g: Graph, visited: seq<bool>, done: seq<nat>)
    requires g.Valid() && FinishedInOrder(g, visited, done) && forall v :: 0 <= v < |visited| ==> visited[v]
    ensures |done| == |g.vertices| && NoDuplicates(done) && forall k :: 0 <= k < |done| ==> done[k] < |g.vertices|
  {
    AllPresentIsLong(done, |g.vertices|);
    DistinctIsShort(done, |g.vertices|);
  }

  /** A dependency was finished before what depends on it. */
  lemma {:induction false} FinishedBefore(g: Graph, visited: seq<bool>, done: seq<nat>, a: nat, b: nat)
    requires g.Valid() && FinishedInOrder(g, visited, done) && a < |done| && b < |done| && g.Edge(done[a], done[b])
    ensures a < b
  {
    assert done[a] in done[..b];
    var m :| 0 <= m < b && done[..b][m] == done[a];
    assert done[m] == done[a];
  }

  lemma {:induction false} FinishedPart(g: Graph, q: seq<Work>, marked: seq<bool>, visited: seq<bool>, done: seq<nat>)
    requires g.Valid() && DfsInv(g, q, marked, visited, done)
    ensures FinishedInOrder(g, visited, done)
  {
    hide Chained, OpenAreOnStack, DepsPending, FinishedInOrder;
  }

  lemma {:induction false} FinishedIsTopological(g: Graph, q: seq<Work>, marked: seq<bool>, visited: seq<bool>,
                                                 done: seq<nat>, order: seq<nat>, next: nat)
    requires g.Valid() && DfsInv(g, q, marked, visited, done)
    requires forall v :: 0 <= v < |visited| ==> visited[v]
    requires WrittenBack(order, next, |g.vertices|, done)
    ensures TopologicalOrder(g, order)
  {
    FinishedPart(g, q, marked, visited, done);
    FinishedLength(g, visited, done);
    hide DfsInv, FinishedInOrder, Graph.Valid, Graph.Edges, WrittenBack;
    var n := |g.vertices|;
    assert |order| == n by { WrittenAll(order, next, n, done); }
    forall i, j | 0 <= i < j < n ensures order[i] != order[j] {
      WrittenAt(order, next, n, done, i);
      WrittenAt(order, next, n, done, j);
    }
    forall i | 0 <= i < n ensures order[i] < n {
      WrittenAt(order, next, n, done, i);
    }
    forall i, j | 0 <= i < n && 0 <= j < n && g.Edge(order[i], order[j]) ensures j < i {
      WrittenAt(order, next, n, done, i);
      WrittenAt(order, next, n, done, j);
      FinishedBefore(g, visited, done, n - 1 - i, n - 1 - j);
    }
  }

  lemma {:induction false} Started(g: Graph, n: nat, next: nat)
    requires g.Valid() && n == |g.vertices| && (n > 0 ==> next == n - 1)
    ensures DfsInv(g, [], seq(n, _ => false), seq(n, _ => false), [])
    ensures WrittenBack(seq(n, _ => 0), next, n, [])
  {
  }

  lemma {:induction false} PushRoot(g: Graph, marked: seq<bool>, visited: seq<bool>, done: seq<nat>, i: nat)
    requires g.Valid() && DfsInv(g, [], marked, visited, done) && i < |g.vertices|
    ensures DfsInv(g, [Push(i)], marked, visited, done)
  {
    forall v | 0 <= v < |marked| ensures marked[v] && !visited[v] <==> Pop(v) in [Push(i)] {
      assert Pop(v) !in [];
    }
  }

  lemma {:induction false} OpenVertex(g: Graph, q: seq<Work>, marked: seq<bool>, visited: seq<bool>, done: seq<nat>,
                                      j: nat)
    requires g.Valid() && DfsInv(g, q + [Push(j)], marked, visited, done)
    requires j < |g.vertices| && !marked[j]
    ensures DfsInv(g, q + [Pop(j)] + Pushes(g.Edges(j)), marked[j := true], visited, done)
    ensures Unmarked(marked[j := true]) < Unmarked(marked)
  {
    hide Chained, DepsPending, FinishedInOrder;
    OpenVertexChained(g, q, j);
    OpenVertexStack(|g.vertices|, q, marked, visited, j, g.Edges(j));
    OpenVertexPending(g, q, visited, j);
    assert j in Unmarked(marked) && j !in Unmarked(marked[j := true]);
  }

  lemma {:induction false} WriteBack(g: Graph, visited: seq<bool>, done: seq<nat>, j: nat, order: seq<nat>, next: nat)
    requires g.Valid() && FinishedInOrder(g, visited, done + [j])
    requires WrittenBack(order, next, |g.vertices|, done)
    ensures next < |order|
    ensures WrittenBack(order[next := j], if next == 0 then 0 else next - 1, |g.vertices|, done + [j])
  {
    DistinctIsShort(done + [j], |g.vertices|);
  }

  lemma {:induction false} StackFacts(g: Graph, q: seq<Work>, marked: seq<bool>, visited: seq<bool>, done: seq<nat>)
    requires g.Valid() && DfsInv(g, q, marked, visited, done)
    ensures |marked| == |visited| == |g.vertices|
    ensures forall i :: 0 <= i < |q| ==> q[i].node < |g.vertices|
    ensures forall v :: 0 <= v < |marked| && marked[v] && !visited[v] ==> Pop(v) in q
  {
  }

  lemma {:induction false} ChainedStack(g: Graph, q: seq<Work>, marked: seq<bool>, visited: seq<bool>, done: seq<nat>)
    requires g.Valid() && DfsInv(g, q, marked, visited, done)
    ensures Chained(g, q)
  {
  }

  /** The open vertices met from the top of the stack down to `k`, each depending on the one before it. */
  ghost predicate Climbing(g: Graph, q: seq<Work>, j: nat, found: seq<nat>, last: nat, k: nat)
    requires g.Valid()
  {
    && Chained(g, q) && k <= last < |q| && |found| > 0 && found[0] == j && found[|found| - 1] == q[last].node
    && g.Path(found) && (forall m :: k <= m < last ==> q[m].Push?)
  }

  lemma {:induction false} ClimbStart(g: Graph, q: seq<Work>, j: nat)
    requires g.Valid() && Chained(g, q + [Push(j)])
    ensures Climbing(g, q + [Push(j)], j, [j], |q|, |q|)
  {
    assert (q + [Push(j)])[|q|] == Push(j);
  }

  /** A vertex that only waits is passed over; an open one depends on the last one collected. */
  lemma {:induction false} ClimbStep(g: Graph, q: seq<Work>, j: nat, found: seq<nat>, last: nat, k: nat)
    requires g.Valid() && Climbing(g, q, j, found, last, k + 1)
    ensures q[k].Push? ==> Climbing(g, q, j, found, last, k)
    ensures q[k].Pop? ==> Climbing(g, q, j, found + [q[k].node], k, k)
    ensures q[k] == Pop(j) ==> g.Cycle(found + [q[k].node])
  {
    if q[k].Pop? {
      assert AllPush(q, k, last);
      assert g.Edge(q[last].node, q[k].node);
      assert g.Path([q[k].node]);
      PathConcat(g, found, [q[k].node]);
    }
  }

  /** Walks the stack down from a vertex that is already open and collects the open vertices up to it. */
  method ExtractCycle(g: Graph, q: seq<Work>, j: nat) returns (cycle: seq<nat>)
    requires g.Valid() && Chained(g, q + [Push(j)])
    requires Pop(j) in q
    ensures g.Cycle(Reverse(cycle))
  {
    hide Chained, Graph.Path, Graph.Valid, Climbing, Graph.Cycle;
    ghost var q' := q + [Push(j)];
    ClimbStart(g, q, j);
    var found := [j];
    var k: nat := |q|;
    ghost var last: nat := |q|;
    while k > 0
      invariant k <= |q| && Climbing(g, q', j, found, last, k)
      invariant forall m :: k <= m < |q| ==> q[m] != Pop(j)
    {
      k := k - 1;
      assert q'[k] == q[k];
      ClimbStep(g, q', j, found, last, k);
      if q[k].Pop? {
        found := found + [q[k].node];
        last := k;
        if q[k].node == j {
          cycle := Reverse(found);
          assert Reverse(cycle) == found;
          return;
        }
      }
    }
    assert false;
  }

  lemma {:induction false} CycleIsCyclic(g: Graph, p: seq<nat>)
    requires g.Valid() && g.Cycle(p)
    ensures !g.Acyclic()
  {
  }

  /** The place of each vertex counted from the back is a rank that grows along dependencies. */
  ghost function RankOf(order: seq<nat>, v: nat): (r: int)
    requires v in order
    ensures exists i :: 0 <= i < |order| && order[i] == v && r == -i
  {
    var i :| 0 <= i < |order| && order[i] == v; -i
  }

  lemma {:induction false} OrderedIsRanked(g: Graph, order: seq<nat>) returns (rank: seq<int>)
    requires g.Valid() && TopologicalOrder(g, order)
    ensures g.Ranked(rank)
    ensures forall i :: 0 <= i < |order| ==> rank[order[i]] == -i
  {
    DistinctIsShort(order, |g.vertices|);
    rank := seq(|g.vertices|, v requires 0 <= v < |g.vertices| => RankOf(order, v));
    forall i | 0 <= i < |order| ensures rank[order[i]] == -i {
      var k :| 0 <= k < |order| && order[k] == order[i] && RankOf(order, order[i]) == -k;
    }
    forall a: nat, b: nat | g.Edge(a, b) ensures rank[a] < rank[b] {
      assert a in g.Edges(b) && a in order && b in order;
      var i :| 0 <= i < |order| && order[i] == a;
      var j :| 0 <= j < |order| && order[j] == b;
    }
  }

  lemma {:induction false} OrderedIsAcyclic(g: Graph, order: seq<nat>)
    requires g.Valid() && TopologicalOrder(g, order)
    ensures g.Acyclic()
  {
    var rank := OrderedIsRanked(g, order);
    RankedIsAcyclic(g, rank);
  }

  /**
   `topo_sort`: either every vertex in an order that puts it before its dependencies, or a closed chain of
   dependencies. In the second case the first and last vertex of the list are the same.
   */
  method Sort(g: Graph) returns (r: TopoResult)
    requires g.Valid()
    ensures r.Order? ==> TopologicalOrder(g, r.order)
    ensures r.CycleFound? ==> g.Cycle(Reverse(r.cycle))
    ensures r.Order? <==> g.Acyclic()
  {
    hide DfsInv, Chained, FinishedInOrder, WrittenBack, Unmarked, TopologicalOrder, Graph.Valid, Graph.Acyclic,
         Graph.Cycle, Pushes;
    var n := |g.vertices|;
    var order: seq<nat> := seq(n, _ => 0);
    var marked, visited := seq(n, _ => false), seq(n, _ => false);
    var next: nat := if n == 0 then 0 else n - 1;
    var queue: seq<Work> := [];
    ghost var done: seq<nat> := [];
    Started(g, n, next);

    for i := 0 to n
      invariant queue == [] && DfsInv(g, queue, marked, visited, done)
      invariant WrittenBack(order, next, n, done)
      invariant |visited| == n && forall v :: 0 <= v < i ==> visited[v]
    {
      PushRoot(g, marked, visited, done, i);
      queue := [Push(i)];
      while queue != []
        invariant DfsInv(g, queue, marked, visited, done)
        invariant WrittenBack(order, next, n, done)
        invariant |visited| == n && forall v :: 0 <= v < i ==> visited[v]
        invariant visited[i] || (queue != [] && queue[0].node == i)
        decreases Unmarked(marked), |queue|
      {
        StackFacts(g, queue, marked, visited, done);
        var top, rest := queue[|queue| - 1], queue[..|queue| - 1];
        assert queue == rest + [top];
        var j := top.node;
        match top {
          case Push(_) =>
            if visited[j] {
              SkipVisited(g, rest, marked, visited, done, j);
              queue := rest;
            } else if marked[j] {
              assert Chained(g, queue) by { ChainedStack(g, queue, marked, visited, done); }
              var cycle := ExtractCycle(g, rest, j);
              CycleIsCyclic(g, Reverse(cycle));
              return CycleFound(cycle);
            } else {
              OpenVertex(g, rest, marked, visited, done, j);
              marked := marked[j := true];
              queue := rest + [Pop(j)] + Pushes(g.Edges(j));
            }
          case Pop(_) =>
            CloseVertex(g, rest, marked, visited, done, j);
            WriteBack(g, visited[j := true], done, j, order, next);
            visited := visited[j := true];
            order := order[next := j];
            done := done + [j];
            next := if next == 0 then 0 else next - 1;
            queue := rest;
        }
      }
    }
    FinishedIsTopological(g, queue, marked, visited, done, order, next);
    OrderedIsAcyclic(g, order);
    r := Order(order);
  }
}
