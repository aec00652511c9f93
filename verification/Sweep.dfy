/**
 The sweep at the end of app/bz_critical_path/src/potential.rs: work items sorted by critical path index, and a
 max-heap of the paths that do not touch the critical path at the current index.
 */
module Sweep {
  import opened Collections
  import opened Paths

  /** A vertex with its longest path, the first index it is live at and the index it dies at, if any. */
  datatype Candidate = Candidate(cost: PathCost, validAt: nat, invalidAt: Option<nat>)

  ghost predicate Live(c: Candidate, i: nat) {
    c.validAt <= i && (c.invalidAt.Some? ==> c.invalidAt.value > i)
  }

  datatype WorkItem = NodeValid(idx: nat, invalidAt: Option<nat>) | Compute

  type HeapItem = (PathCost, Option<nat>)

  /** Items are ordered by cost, then by when they become invalid; never comes first. */
  predicate HeapLeq(a: HeapItem, b: HeapItem) {
    if a.0 == b.0 then a.1.None? || (b.1.Some? && a.1.value <= b.1.value) else a.0.Leq(b.0)
  }

  /** Index of a greatest item, standing for the peek of the binary heap. */
  method Peek(heap: seq<HeapItem>) returns (top: nat)
    requires heap != []
    ensures top < |heap|
    ensures forall k :: 0 <= k < |heap| ==> HeapLeq(heap[k], heap[top])
  {
    top := 0;
    for k := 1 to |heap|
      invariant top < |heap|
      invariant forall m :: 0 <= m < k ==> HeapLeq(heap[m], heap[top])
    {
      if HeapLeq(heap[top], heap[k]) {
        top := k;
      }
    }
  }

  /** Work at the same index is ordered so that every vertex that becomes valid comes before the computation. */
  function WorkKey(item: (nat, WorkItem)): (r: nat) {
    2 * item.0 + (if item.1.Compute? then 1 else 0)
  }

  /** The unsorted work list: one computation per index of the critical path, one entry per vertex. */
  function Work(candidates: seq<Candidate>, n: nat): (r: seq<(nat, WorkItem)>) {
    seq(n, i => (i, Compute)) +
    seq(|candidates|, x requires 0 <= x < |candidates| =>
          (candidates[x].validAt, NodeValid(x, candidates[x].invalidAt)))
  }

  function Entry(candidates: seq<Candidate>, x: nat): (r: (nat, WorkItem))
    requires x < |candidates|
  {
    (candidates[x].validAt, NodeValid(x, candidates[x].invalidAt))
  }

  ghost predicate WellFormed(item: (nat, WorkItem), candidates: seq<Candidate>, n: nat) {
    match item.1
    case Compute => item.0 < n
    case NodeValid(x, _) => x < |candidates| && item == Entry(candidates, x)
  }

  /** Sorted work that holds a `Compute` for each index, every candidate, and nothing else. */
  ghost predicate Schedule(work: seq<(nat, WorkItem)>, candidates: seq<Candidate>, n: nat) {
    && SortedBy(work, WorkKey)
    && (forall i :: 0 <= i < n ==> (i, Compute) in work)
    && (forall x :: 0 <= x < |candidates| ==> Entry(candidates, x) in work)
    && (forall t :: 0 <= t < |work| ==> WellFormed(work[t], candidates, n))
  }

  lemma {:induction false} WorkMembers(candidates: seq<Candidate>, n: nat, x: nat)
    ensures x < n ==> (x, Compute) in Work(candidates, n)
    ensures x < |candidates| ==> Entry(candidates, x) in Work(candidates, n)
  {
    var raw := Work(candidates, n);
    if x < n { assert raw[x] == (x, Compute); }
    if x < |candidates| { assert raw[n + x] == Entry(candidates, x); }
  }

  lemma {:induction false} WorkWellFormed(candidates: seq<Candidate>, n: nat, item: (nat, WorkItem))
    requires item in Work(candidates, n)
    ensures WellFormed(item, candidates, n)
  {
    var raw := Work(candidates, n);
    var k :| 0 <= k < |raw| && raw[k] == item;
  }

  lemma {:induction false} SortedWorkMember(candidates: seq<Candidate>, n: nat, t: nat)
    requires t < |SortBy(Work(candidates, n), WorkKey)|
    ensures SortBy(Work(candidates, n), WorkKey)[t] in Work(candidates, n)
  {
    var raw := Work(candidates, n);
    var work := SortBy(raw, WorkKey);
    SortByCorrect(raw, WorkKey);
    assert work[t] in multiset(work);
    assert work[t] in multiset(raw);
  }

  lemma {:induction false} SortedWork(candidates: seq<Candidate>, n: nat)
    ensures Schedule(SortBy(Work(candidates, n), WorkKey), candidates, n)
  {
    var raw := Work(candidates, n);
    var work := SortBy(raw, WorkKey);
    hide SortBy, WellFormed;
    SortByMembers(raw, WorkKey);
    forall i | 0 <= i < n ensures (i, Compute) in work {
      WorkMembers(candidates, n, i);
    }
    forall x | 0 <= x < |candidates| ensures Entry(candidates, x) in work {
      WorkMembers(candidates, n, x);
    }
    forall t | 0 <= t < |work| ensures WellFormed(work[t], candidates, n) {
      SortedWorkMember(candidates, n, t);
      WorkWellFormed(candidates, n, work[t]);
    }
  }

  ghost predicate IsItem(candidates: seq<Candidate>, x: nat, h: HeapItem)
    requires x < |candidates|
  {
    h == (candidates[x].cost, candidates[x].invalidAt)
  }

  /** Every heap item is the longest path of a vertex that has become valid by index `i`. */
  ghost predicate HeapSound(heap: seq<HeapItem>, candidates: seq<Candidate>, i: nat) {
    forall h :: h in heap ==>
      exists x :: 0 <= x < |candidates| && IsItem(candidates, x, h) && candidates[x].validAt <= i
  }

  /** Every vertex seen so far is in the heap, unless it has died by index `i`. */
  ghost predicate HeapComplete(heap: seq<HeapItem>, candidates: seq<Candidate>, seen: seq<(nat, WorkItem)>, i: nat) {
    forall x :: 0 <= x < |candidates| && Entry(candidates, x) in seen ==>
      (candidates[x].cost, candidates[x].invalidAt) in heap ||
      (candidates[x].invalidAt.Some? && candidates[x].invalidAt.value <= i)
  }

  /** `r` is `base` or the cost of a live candidate. */
  ghost predicate Attained(candidates: seq<Candidate>, i: nat, base: PathCost, r: PathCost) {
    base.Leq(r) && (r == base || exists x :: 0 <= x < |candidates| && Live(candidates[x], i) && candidates[x].cost == r)
  }

  /** No live candidate costs more than `r`. */
  ghost predicate Dominates(candidates: seq<Candidate>, i: nat, r: PathCost) {
    forall x :: 0 <= x < |candidates| && Live(candidates[x], i) ==> candidates[x].cost.Leq(r)
  }

  lemma {:induction false} RemoveExpired(heap: seq<HeapItem>, top: nat, candidates: seq<Candidate>,
                                         seen: seq<(nat, WorkItem)>, i: nat)
    requires top < |heap| && heap[top].1.Some? && heap[top].1.value <= i
    requires HeapSound(heap, candidates, i) && HeapComplete(heap, candidates, seen, i)
    ensures HeapSound(heap[..top] + heap[top + 1..], candidates, i)
    ensures HeapComplete(heap[..top] + heap[top + 1..], candidates, seen, i)
  {
    var rest := heap[..top] + heap[top + 1..];
    assert forall h :: h in rest ==> h in heap;
    forall x | 0 <= x < |candidates| && Entry(candidates, x) in seen
      ensures (candidates[x].cost, candidates[x].invalidAt) in rest ||
              (candidates[x].invalidAt.Some? && candidates[x].invalidAt.value <= i)
    {
      var h := (candidates[x].cost, candidates[x].invalidAt);
      if h in heap && h != heap[top] {
        var k :| 0 <= k < |heap| && heap[k] == h;
        if k < top { assert rest[k] == h; } else { assert rest[k - 1] == h; }
      }
    }
  }

  /** When the greatest item is live, it is the greatest cost among all live candidates. */
  lemma {:induction false} TopIsBest(heap: seq<HeapItem>, top: nat, candidates: seq<Candidate>,
                                     seen: seq<(nat, WorkItem)>, i: nat)
    requires top < |heap| && (forall k :: 0 <= k < |heap| ==> HeapLeq(heap[k], heap[top]))
    requires heap[top].1.Some? ==> heap[top].1.value > i
    requires HeapSound(heap, candidates, i) && HeapComplete(heap, candidates, seen, i)
    requires forall x :: 0 <= x < |candidates| && candidates[x].validAt <= i ==> Entry(candidates, x) in seen
    ensures Dominates(candidates, i, heap[top].0)
    ensures exists x :: 0 <= x < |candidates| && Live(candidates[x], i) && candidates[x].cost == heap[top].0
  {
    assert heap[top] in heap;
    forall x | 0 <= x < |candidates| && Live(candidates[x], i) ensures candidates[x].cost.Leq(heap[top].0) {
      var h := (candidates[x].cost, candidates[x].invalidAt);
      assert h in heap;
      var k :| 0 <= k < |heap| && heap[k] == h;
      assert HeapLeq(heap[k], heap[top]);
    }
    var x :| 0 <= x < |candidates| && IsItem(candidates, x, heap[top]) && candidates[x].validAt <= i;
    assert Live(candidates[x], i);
  }

  lemma {:induction false} EmptyMeansNoneLive(candidates: seq<Candidate>, seen: seq<(nat, WorkItem)>, i: nat)
    requires HeapComplete([], candidates, seen, i)
    requires forall x :: 0 <= x < |candidates| && candidates[x].validAt <= i ==> Entry(candidates, x) in seen
    ensures forall x :: 0 <= x < |candidates| ==> !Live(candidates[x], i)
  {
    forall x | 0 <= x < |candidates| ensures !Live(candidates[x], i) {
      assert (candidates[x].cost, candidates[x].invalidAt) !in [];
    }
  }

  /** One computation: drops dead items from the top, then compares the current cost with the best live path. */
  method ComputeOne(heap0: seq<HeapItem>, candidates: seq<Candidate>, ghost seen: seq<(nat, WorkItem)>, i: nat,
                    ghost base: PathCost, current: PathCost)
    returns (heap: seq<HeapItem>, cost: PathCost)
    requires HeapSound(heap0, candidates, i) && HeapComplete(heap0, candidates, seen, i)
    requires forall x :: 0 <= x < |candidates| && candidates[x].validAt <= i ==> Entry(candidates, x) in seen
    requires Attained(candidates, i, base, current)
    ensures HeapSound(heap, candidates, i) && HeapComplete(heap, candidates, seen, i)
    ensures Attained(candidates, i, base, cost) && Dominates(candidates, i, cost)
  {
    heap, cost := heap0, current;
    while heap != []
      invariant HeapSound(heap, candidates, i) && HeapComplete(heap, candidates, seen, i)
      invariant cost == current
      decreases |heap|
    {
      var top := Peek(heap);
      if heap[top].1.Some? && heap[top].1.value <= i {
        RemoveExpired(heap, top, candidates, seen, i);
        heap := heap[..top] + heap[top + 1..];
      } else {
        TopIsBest(heap, top, candidates, seen, i);
        cost := MaxCost(cost, heap[top].0);
        return;
      }
    }
    EmptyMeansNoneLive(candidates, seen, i);
  }

  /** By the time index `i` is computed, exactly the vertices valid at `i` have been seen. */
  lemma {:induction false} SeenByCompute(work: seq<(nat, WorkItem)>, candidates: seq<Candidate>, n: nat, t: nat)
    requires Schedule(work, candidates, n) && t < |work| && work[t].1.Compute?
    ensures forall x :: 0 <= x < |candidates| && candidates[x].validAt <= work[t].0 ==>
            Entry(candidates, x) in work[..t]
  {
    forall x | 0 <= x < |candidates| && candidates[x].validAt <= work[t].0 ensures Entry(candidates, x) in work[..t] {
      assert Entry(candidates, x) in work;
      var k :| 0 <= k < |work| && work[k] == Entry(candidates, x);
      assert WorkKey(work[k]) < WorkKey(work[t]);
      assert k < t;
      assert work[..t][k] == Entry(candidates, x);
    }
  }

  /** The state of the sweep before work item `t`. */
  ghost predicate Swept(work: seq<(nat, WorkItem)>, candidates: seq<Candidate>, base: seq<PathCost>,
                        updated: seq<PathCost>, heap: seq<HeapItem>, t: nat)
    requires t <= |work|
  {
    && |updated| == |base|
    && (forall i :: 0 <= i < |base| ==> Attained(candidates, i, base[i], updated[i]))
    && (forall i :: 0 <= i < |base| && (i, Compute) in work[..t] ==> Dominates(candidates, i, updated[i]))
    && (t < |work| ==> HeapSound(heap, candidates, work[t].0) && HeapComplete(heap, candidates, work[..t], work[t].0))
  }

  lemma {:induction false} SweepStarted(work: seq<(nat, WorkItem)>, candidates: seq<Candidate>, base: seq<PathCost>)
    ensures Swept(work, candidates, base, base, [], 0)
  {
  }

  lemma {:induction false} SweepFinished(work: seq<(nat, WorkItem)>, candidates: seq<Candidate>, base: seq<PathCost>,
                      updated: seq<PathCost>, heap: seq<HeapItem>)
    requires Schedule(work, candidates, |base|) && Swept(work, candidates, base, updated, heap, |work|)
    ensures |updated| == |base|
    ensures forall i :: 0 <= i < |base| ==>
              Attained(candidates, i, base[i], updated[i]) && Dominates(candidates, i, updated[i])
  {
    hide Attained, Dominates;
    assert work[..|work|] == work;
  }

  lemma {:induction false} WorkAt(work: seq<(nat, WorkItem)>, candidates: seq<Candidate>, n: nat, t: nat)
    requires Schedule(work, candidates, n) && t < |work|
    ensures work[t].1.NodeValid? ==> work[t].1.idx < |candidates|
    ensures work[t].1.Compute? ==> work[t].0 < n
  {
    assert WellFormed(work[t], candidates, n);
  }

  lemma {:induction false} ComputeReady(heap: seq<HeapItem>, candidates: seq<Candidate>, work: seq<(nat, WorkItem)>,
                     base: seq<PathCost>, updated: seq<PathCost>, t: nat)
    requires Schedule(work, candidates, |base|) && t < |work| && work[t].1.Compute? && work[t].0 < |base| == |updated|
    requires Swept(work, candidates, base, updated, heap, t)
    ensures HeapSound(heap, candidates, work[t].0) && HeapComplete(heap, candidates, work[..t], work[t].0)
    ensures Attained(candidates, work[t].0, base[work[t].0], updated[work[t].0])
    ensures forall x :: 0 <= x < |candidates| && candidates[x].validAt <= work[t].0 ==>
            Entry(candidates, x) in work[..t]
  {
    hide Attained, Dominates;
    SeenByCompute(work, candidates, |base|, t);
  }

  lemma {:induction false} SeenGrows(heap: seq<HeapItem>, candidates: seq<Candidate>, seen: seq<(nat, WorkItem)>,
                                     item: (nat, WorkItem), i: nat)
    requires item.1.Compute? && HeapComplete(heap, candidates, seen, i)
    ensures HeapComplete(heap, candidates, seen + [item], i)
  {
  }

  lemma {:induction false} LaterIndex(heap: seq<HeapItem>, candidates: seq<Candidate>, seen: seq<(nat, WorkItem)>,
                                      i: nat, j: nat, work: seq<(nat, WorkItem)>, t: nat)
    requires t + 1 < |work| && SortedBy(work, WorkKey) && i == work[t].0 && j == work[t + 1].0
    requires HeapSound(heap, candidates, i) && HeapComplete(heap, candidates, seen, i)
    ensures HeapSound(heap, candidates, j) && HeapComplete(heap, candidates, seen, j)
  {
    assert WorkKey(work[t]) <= WorkKey(work[t + 1]);
    forall h | h in heap
      ensures exists x :: 0 <= x < |candidates| && IsItem(candidates, x, h) && candidates[x].validAt <= j
    {
      var x :| 0 <= x < |candidates| && IsItem(candidates, x, h) && candidates[x].validAt <= i;
    }
  }

  lemma {:induction false} ComputeStep(before: seq<HeapItem>, heap: seq<HeapItem>, cost: PathCost,
                                       candidates: seq<Candidate>, work: seq<(nat, WorkItem)>, base: seq<PathCost>,
                                       updated: seq<PathCost>, t: nat)
    requires Schedule(work, candidates, |base|) && t < |work| && work[t].1.Compute? && work[t].0 < |base| == |updated|
    requires Swept(work, candidates, base, updated, before, t)
    requires HeapSound(heap, candidates, work[t].0) && HeapComplete(heap, candidates, work[..t], work[t].0)
    requires Attained(candidates, work[t].0, base[work[t].0], cost) && Dominates(candidates, work[t].0, cost)
    ensures Swept(work, candidates, base, updated[work[t].0 := cost], heap, t + 1)
  {
    hide Attained, Dominates;
    assert work[..t + 1] == work[..t] + [work[t]];
    SeenGrows(heap, candidates, work[..t], work[t], work[t].0);
    if t + 1 < |work| {
      LaterIndex(heap, candidates, work[..t + 1], work[t].0, work[t + 1].0, work, t);
    }
  }

  lemma {:induction false} PushItem(heap: seq<HeapItem>, candidates: seq<Candidate>, work: seq<(nat, WorkItem)>,
                                    n: nat, t: nat)
    requires Schedule(work, candidates, n) && t < |work| && work[t].1.NodeValid?
    requires HeapSound(heap, candidates, work[t].0) && HeapComplete(heap, candidates, work[..t], work[t].0)
    ensures work[t].1.idx < |candidates|
    ensures var heap' := heap + [(candidates[work[t].1.idx].cost, work[t].1.invalidAt)];
            HeapSound(heap', candidates, work[t].0) && HeapComplete(heap', candidates, work[..t + 1], work[t].0)
  {
    var x := work[t].1.idx;
    assert work[t] == Entry(candidates, x);
    var item := (candidates[x].cost, work[t].1.invalidAt);
    var heap' := heap + [item];
    assert work[..t + 1] == work[..t] + [work[t]];
    forall h | h in heap'
      ensures exists y :: 0 <= y < |candidates| && IsItem(candidates, y, h) && candidates[y].validAt <= work[t].0
    {
      if h == item { assert IsItem(candidates, x, h); }
    }
    forall y | 0 <= y < |candidates| && Entry(candidates, y) in work[..t + 1]
      ensures (candidates[y].cost, candidates[y].invalidAt) in heap' ||
              (candidates[y].invalidAt.Some? && candidates[y].invalidAt.value <= work[t].0)
    {
      if Entry(candidates, y) == work[t] {
        assert heap'[|heap|] == (candidates[y].cost, candidates[y].invalidAt);
      }
    }
  }

  lemma {:induction false} PushStep(heap: seq<HeapItem>, candidates: seq<Candidate>, work: seq<(nat, WorkItem)>,
                 base: seq<PathCost>, updated: seq<PathCost>, t: nat)
    requires Schedule(work, candidates, |base|) && t < |work| && work[t].1.NodeValid? && work[t].1.idx < |candidates|
    requires Swept(work, candidates, base, updated, heap, t)
    ensures Swept(work, candidates, base, updated,
                  heap + [(candidates[work[t].1.idx].cost, work[t].1.invalidAt)], t + 1)
  {
    hide Attained, Dominates;
    var heap' := heap + [(candidates[work[t].1.idx].cost, work[t].1.invalidAt)];
    PushItem(heap, candidates, work, |base|, t);
    assert work[..t + 1] == work[..t] + [work[t]];
    if t + 1 < |work| {
      LaterIndex(heap', candidates, work[..t + 1], work[t].0, work[t + 1].0, work, t);
    }
  }

  /** The whole sweep, as the code's final loop runs it over the sorted work list. */
  method Run(candidates: seq<Candidate>, base: seq<PathCost>) returns (updated: seq<PathCost>)
    ensures |updated| == |base|
    ensures forall i :: 0 <= i < |base| ==>
              Attained(candidates, i, base[i], updated[i]) && Dominates(candidates, i, updated[i])
  {
    var work := SortBy(Work(candidates, |base|), WorkKey);
    SortedWork(candidates, |base|);
    updated := base;
    var heap: seq<HeapItem> := [];
    hide Swept, Schedule, SortBy, Work, Attained, Dominates;
    SweepStarted(work, candidates, base);
    for t := 0 to |work|
      invariant |updated| == |base| && Swept(work, candidates, base, updated, heap, t)
    {
      WorkAt(work, candidates, |base|, t);
      match work[t].1 {
        case NodeValid(x, invalidAt) =>
          PushStep(heap, candidates, work, base, updated, t);
          heap := heap + [(candidates[x].cost, invalidAt)];
        case Compute =>
          var index := work[t].0;
          ComputeReady(heap, candidates, work, base, updated, t);
          var cost;
          ghost var before := heap;
          heap, cost := ComputeOne(heap, candidates, work[..t], index, base[index], updated[index]);
          ComputeStep(before, heap, cost, candidates, work, base, updated, t);
          updated := updated[index := cost];
      }
    }
    SweepFinished(work, candidates, base, updated, heap);
  }
}
