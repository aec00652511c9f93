/** Finite relations and the cycles in them. */
module Chains {
  import opened Collections

  /** A walk along the relation, forwards. */
  ghost predicate Chain<T>(edges: set<(T, T)>, p: seq<T>) {
    forall i, j :: 0 <= i && j == i + 1 && j < |p| ==> (p[i], p[j]) in edges
  }

  ghost predicate Cycle<T>(edges: set<(T, T)>, p: seq<T>) {
    |p| > 1 && p[0] == p[|p| - 1] && Chain(edges, p)
  }

  ghost predicate Cyclic<T(!new)>(edges: set<(T, T)>) {
    exists p :: Cycle(edges, p)
  }

  /** A relation that leads from one place only, and not back to it, has no cycle. */
  lemma {:induction false} OneSource<T(!new)>(edges: set<(T, T)>, x: T)
    requires forall e :: e in edges ==> e.0 == x && e.1 != x
    ensures !Cyclic(edges)
  {
    forall p | |p| > 1 && Chain(edges, p) ensures p[0] != p[|p| - 1] {
      assert (p[0], p[1]) in edges && (p[|p| - 2], p[|p| - 1]) in edges;
    }
  }

  ghost predicate HasNext<T>(edges: set<(T, T)>, within: set<T>, x: T) {
    exists y :: y in within && (x, y) in edges
  }

  ghost predicate Within<T>(p: seq<T>, within: set<T>) {
    forall i :: 0 <= i < |p| ==> p[i] in within
  }

  lemma {:induction false} ChainSnoc<T>(edges: set<(T, T)>, p: seq<T>, y: T)
    requires Chain(edges, p) && (p != [] ==> (p[|p| - 1], y) in edges)
    ensures Chain(edges, p + [y])
  {
    var q := p + [y];
    forall i, j | 0 <= i && j == i + 1 && j < |q| ensures (q[i], q[j]) in edges {
      if j < |p| { assert (p[i], p[j]) in edges; }
    }
  }

  lemma {:induction false} ChainSlice<T>(edges: set<(T, T)>, p: seq<T>, lo: nat, hi: nat)
    requires Chain(edges, p) && lo <= hi <= |p|
    ensures Chain(edges, p[lo..hi])
  {
    var q := p[lo..hi];
    forall i, j | 0 <= i && j == i + 1 && j < |q| ensures (q[i], q[j]) in edges {
      assert (p[lo + i], p[lo + j]) in edges;
    }
  }

  /** A chain that comes to the same place twice holds a cycle. */
  lemma {:induction false} RepeatIsCycle<T(!new)>(edges: set<(T, T)>, p: seq<T>, i: nat, j: nat)
    requires Chain(edges, p) && i < j < |p| && p[i] == p[j]
    ensures Cyclic(edges)
  {
    ChainSlice(edges, p, i, j + 1);
    assert Cycle(edges, p[i..j + 1]);
  }

  lemma {:induction false} DistinctWithin<T>(s: seq<T>, within: set<T>)
    requires NoDuplicates(s) && Within(s, within)
    ensures |s| <= |within|
  {
    if s != [] { DistinctWithin(s[1..], within - {s[0]}); }
  }

  /** If everything in a set leads on within the set, chains in it are as long as one likes. */
  lemma {:induction false} LongChain<T>(edges: set<(T, T)>, within: set<T>, x: T, n: nat) returns (p: seq<T>)
    requires x in within && forall y :: y in within ==> HasNext(edges, within, y)
    ensures |p| == n + 1 && p[0] == x && Chain(edges, p) && Within(p, within)
  {
    if n == 0 {
      p := [x];
    } else {
      var prefix := LongChain(edges, within, x, n - 1);
      assert HasNext(edges, within, prefix[n - 1]);
      var y :| y in within && (prefix[n - 1], y) in edges;
      p := prefix + [y];
      ChainSnoc(edges, prefix, y);
    }
  }

  /** From any member of such a set a chain leads to a repetition. */
  lemma {:induction false} RepeatFrom<T>(edges: set<(T, T)>, within: set<T>, x: T) returns (p: seq<T>)
    requires x in within && forall y :: y in within ==> HasNext(edges, within, y)
    ensures p != [] && p[0] == x && Chain(edges, p) && !NoDuplicates(p)
  {
    hide HasNext, Chain;
    p := LongChain(edges, within, x, |within|);
    if NoDuplicates(p) { DistinctWithin(p, within); }
  }

  /** Without a cycle, a nonempty set has a member that leads nowhere in it. */
  lemma {:induction false} SomeLeaf<T(!new)>(edges: set<(T, T)>, within: set<T>) returns (leaf: T)
    requires within != {} && !Cyclic(edges)
    ensures leaf in within && !HasNext(edges, within, leaf)
  {
    hide HasNext, Cyclic, Chain;
    if forall y :: y in within ==> HasNext(edges, within, y) {
      var x :| x in within;
      var p := RepeatFrom(edges, within, x);
      var i, j :| 0 <= i < j < |p| && p[i] == p[j];
      RepeatIsCycle(edges, p, i, j);
      assert false;
    }
    leaf :| leaf in within && !HasNext(edges, within, leaf);
  }

  /** No cycle lies within the set. */
  ghost predicate AcyclicOn<T(!new)>(edges: set<(T, T)>, within: set<T>) {
    forall p :: Cycle(edges, p) ==> !Within(p, within)
  }

  lemma {:induction false} NothingWithin<T(!new)>(edges: set<(T, T)>)
    ensures AcyclicOn(edges, {})
  {
    forall p ensures Cycle(edges, p) ==> !Within(p, {}) {
      if p != [] { assert p[0] !in {}; }
    }
  }

  lemma {:induction false} StaysInside<T>(edges: set<(T, T)>, within: set<T>, p: seq<T>, i: nat, j: nat)
    requires forall e :: e in edges && e.0 in within ==> e.1 in within
    requires Chain(edges, p) && i <= j < |p| && p[i] in within
    ensures p[j] in within
    decreases j
  {
    if i < j {
      StaysInside(edges, within, p, i, j - 1);
      assert (p[j - 1], p[j]) in edges;
    }
  }

  /** Adding a member that leads only into the set, out of which nothing leads, adds no cycle. */
  lemma {:induction false} RepeatWithin<T(!new)>(edges: set<(T, T)>, within: set<T>, p: seq<T>, i: nat, j: nat)
    requires Chain(edges, p) && Within(p, within) && i < j < |p| && p[i] == p[j]
    ensures !AcyclicOn(edges, within)
  {
    ChainSlice(edges, p, i, j + 1);
    assert Cycle(edges, p[i..j + 1]) && Within(p[i..j + 1], within);
  }

  lemma {:induction false} AcyclicAdd<T(!new)>(edges: set<(T, T)>, within: set<T>, x: T)
    requires AcyclicOn(edges, within) && x !in within
    requires forall e :: e in edges && (e.0 in within || e.0 == x) ==> e.1 in within
    ensures AcyclicOn(edges, within + {x})
  {
    forall p | Cycle(edges, p) ensures !Within(p, within + {x}) {
      if Within(p, within + {x}) {
        assert (p[0], p[1]) in edges;
        assert p[0] in within + {x} && p[1] in within;
        StaysInside(edges, within, p, 1, |p| - 1);
        forall i | 0 <= i < |p| ensures p[i] in within {
          if i > 0 { StaysInside(edges, within, p, 1, i); }
        }
        assert Within(p, within);
        assert false;
      }
    }
  }

  /** If all members of the relation are in the set, there is no cycle at all. */
  lemma {:induction false} AcyclicAll<T(!new)>(edges: set<(T, T)>, within: set<T>)
    requires AcyclicOn(edges, within) && forall e :: e in edges ==> e.0 in within && e.1 in within
    ensures !Cyclic(edges)
  {
    forall p ensures !Cycle(edges, p) {
      if Cycle(edges, p) {
        assert (p[0], p[1]) in edges;
        forall i | 0 <= i < |p| ensures p[i] in within {
          StaysInside(edges, within, p, 0, i);
        }
        assert Within(p, within);
        assert false;
      }
    }
  }
}
