/**
 Why the replacement costs of app/bz_critical_path/src/potential.rs are right: the longest path after one vertex
 of the critical path is made free is the critical path without that vertex's runtime, or a longest path through
 a vertex that is neither before nor after it.
 */
module Replacement {
  import opened Collections
  import opened Paths

  ghost predicate CriticalPath(g: Graph, w: seq<nat>, cp: seq<nat>, c: PathCost)
    requires g.Valid() && |w| == |g.vertices|
  {
    |cp| > 0 && g.Path(cp) && Cost(w, cp) == c && LongestCost(g, w, c)
  }

  /** `x` leads to the critical path at or before index `i`. */
  ghost predicate Before(g: Graph, cp: seq<nat>, i: nat, x: nat)
    requires g.Valid() && i < |cp|
  {
    exists j :: 0 <= j <= i && g.Reach(x, cp[j])
  }

  /** `x` is reached from the critical path at or after index `i`. */
  ghost predicate After(g: Graph, cp: seq<nat>, i: nat, x: nat)
    requires g.Valid() && i < |cp|
  {
    exists k :: i <= k < |cp| && g.Reach(cp[k], x)
  }

  /** `c` is the cost of a longest path that visits `x`. */
  ghost predicate LongestThrough(g: Graph, w: seq<nat>, x: nat, c: PathCost)
    requires g.Valid() && |w| == |g.vertices|
  {
    && (exists p :: x in p && g.Path(p) && Cost(w, p) == c)
    && (forall p :: x in p && g.Path(p) ==> Cost(w, p).Leq(c))
  }

  lemma {:induction false} NeighbourEdges(g: Graph, p: seq<nat>, k: nat)
    requires g.Valid() && g.Path(p) && k < |p|
    ensures p[k] < |g.vertices| && (k > 0 ==> g.Edge(p[k - 1], p[k])) && (k + 1 < |p| ==> g.Edge(p[k], p[k + 1]))
  {
  }

  lemma {:induction false} Rejoin(p: seq<nat>, k: nat)
    requires k < |p|
    ensures p[..k] + [p[k]] + p[k + 1..] == p
  {
  }

  lemma {:induction false} SplitAt(g: Graph, w: seq<nat>, p: seq<nat>, k: nat)
    requires g.Valid() && |w| == |g.vertices| && g.Path(p) && k < |p|
    ensures g.Path(p[..k]) && g.Path(p[k + 1..]) && g.Path(p[..k] + [p[k]]) && g.Path([p[k]] + p[k + 1..])
    ensures Cost(w, p[..k] + [p[k]]) == Cost(w, p[..k]).Plus(PathCost(w[p[k]], 1))
    ensures Cost(w, [p[k]] + p[k + 1..]) == PathCost(w[p[k]], 1).Plus(Cost(w, p[k + 1..]))
    ensures Cost(w, p) == Cost(w, p[..k]).Plus(PathCost(w[p[k]], 1)).Plus(Cost(w, p[k + 1..]))
  {
    NeighbourEdges(g, p, k);
    hide Graph.Path, Runtime, Cost, Graph.Edge;
    PathSlice(g, p, 0, k);
    PathSlice(g, p, k + 1, |p|);
    assert p[..k] == p[0..k] && p[k + 1..] == p[k + 1..|p|];
    PathSnoc(g, w, p[..k], p[k]);
    PathCons(g, w, p[k], p[k + 1..]);
    CostConcat(w, p[..k] + [p[k]], p[k + 1..]);
    Rejoin(p, k);
  }

  lemma {:induction false} JoinAt(g: Graph, w: seq<nat>, p: seq<nat>, q: seq<nat>)
    requires g.Valid() && |w| == |g.vertices| && |p| > 0 && |q| > 0 && g.Path(p) && g.Path(q) && p[|p| - 1] == q[0]
    ensures q[0] < |w| && g.Path(p + q[1..])
    ensures Cost(w, p + q[1..]).Plus(PathCost(w[q[0]], 1)) == Cost(w, p).Plus(Cost(w, q))
  {
    SplitAt(g, w, q, 0);
    if |q| > 1 { assert g.Edge(q[0], q[1]); }
    PathConcat(g, p, q[1..]);
    CostConcat(w, p, q[1..]);
    assert q[..0] == [];
  }

  /** A longest path through `x` joins a longest path to `x` with a longest path from `x`. */
  lemma {:induction false} ThroughIsToPlusFrom(g: Graph, w: seq<nat>, x: nat, to: PathCost, from: PathCost)
    requires g.Valid() && |w| == |g.vertices| && x < |w|
    requires LongestTo(g, w, x, to) && LongestFrom(g, w, x, from)
    ensures to.runtime + from.runtime >= w[x] && to.len + from.len >= 1
    ensures LongestThrough(g, w, x, PathCost(to.runtime + from.runtime - w[x], to.len + from.len - 1))
  {
    hide Graph.Path, Runtime;
    var p :| |p| > 0 && p[|p| - 1] == x && g.Path(p) && Cost(w, p) == to;
    var q :| |q| > 0 && q[0] == x && g.Path(q) && Cost(w, q) == from;
    JoinAt(g, w, p, q);
    var c := PathCost(to.runtime + from.runtime - w[x], to.len + from.len - 1);
    assert (p + q[1..])[|p| - 1] == x && Cost(w, p + q[1..]) == c;
    forall r | x in r && g.Path(r) ensures Cost(w, r).Leq(c) {
      var k :| 0 <= k < |r| && r[k] == x;
      SplitAt(g, w, r, k);
      var a, b := r[..k] + [x], [x] + r[k + 1..];
      assert a[|a| - 1] == x && b[0] == x;
    }
  }

  /** A vertex before `cp[i]` can be continued into the critical path at `i`. */
  lemma {:induction false} BeforeExtends(g: Graph, cp: seq<nat>, i: nat, x: nat) returns (r: seq<nat>)
    requires g.Valid() && g.Path(cp) && i < |cp| && x != cp[i] && Before(g, cp, i, x)
    ensures |r| > 0 && r[0] == x && g.Path(r) && g.Edge(r[|r| - 1], cp[i])
  {
    var j :| 0 <= j <= i && g.Reach(x, cp[j]);
    ReachAlong(g, cp, j, i);
    ReachTrans(g, x, cp[j], cp[i]);
    var z :| g.PathBetween(z, x, cp[i]);
    r := z[..|z| - 1];
    PathSlice(g, z, 0, |z| - 1);
    assert g.Edge(z[|z| - 2], z[|z| - 1]);
  }

  lemma {:induction false} AfterExtends(g: Graph, cp: seq<nat>, i: nat, x: nat) returns (r: seq<nat>)
    requires g.Valid() && g.Path(cp) && i < |cp| && x != cp[i] && After(g, cp, i, x)
    ensures |r| > 0 && r[|r| - 1] == x && g.Path(r) && g.Edge(cp[i], r[0])
  {
    var k :| i <= k < |cp| && g.Reach(cp[k], x);
    ReachAlong(g, cp, i, k);
    ReachTrans(g, cp[i], cp[k], x);
    var z :| g.PathBetween(z, cp[i], x);
    r := z[1..];
    PathSlice(g, z, 1, |z|);
    assert g.Edge(z[0], z[1]);
  }

  /** Nothing that leads into `cp[i]` costs more than the critical path up to `i`. */
  lemma {:induction false} PrefixIsLongest(g: Graph, w: seq<nat>, cp: seq<nat>, c: PathCost, i: nat, p: seq<nat>)
    requires g.Valid() && |w| == |g.vertices| && CriticalPath(g, w, cp, c) && i < |cp|
    requires |p| > 0 && g.Path(p) && g.Edge(p[|p| - 1], cp[i])
    ensures Cost(w, p).Leq(Cost(w, cp[..i]))
  {
    hide Graph.Path, Runtime;
    PathSlice(g, cp, i, |cp|);
    assert cp[i..|cp|] == cp[i..] && cp[i..][0] == cp[i];
    PathConcat(g, p, cp[i..]);
    CostConcat(w, p, cp[i..]);
    CostConcat(w, cp[..i], cp[i..]);
    assert cp == cp[..i] + cp[i..];
  }

  lemma {:induction false} SuffixIsLongest(g: Graph, w: seq<nat>, cp: seq<nat>, c: PathCost, i: nat, p: seq<nat>)
    requires g.Valid() && |w| == |g.vertices| && CriticalPath(g, w, cp, c) && i < |cp|
    requires |p| > 0 && g.Path(p) && g.Edge(cp[i], p[0])
    ensures Cost(w, p).Leq(Cost(w, cp[i + 1..]))
  {
    hide Graph.Path, Runtime;
    PathSlice(g, cp, 0, i + 1);
    assert cp[0..i + 1] == cp[..i + 1] && cp[..i + 1][i] == cp[i];
    PathConcat(g, cp[..i + 1], p);
    CostConcat(w, cp[..i + 1], p);
    CostConcat(w, cp[..i + 1], cp[i + 1..]);
    assert cp == cp[..i + 1] + cp[i + 1..];
  }

  lemma {:induction false} CostOfPart(w: seq<nat>, p: seq<nat>, q: seq<nat>)
    ensures Cost(w, p).Leq(Cost(w, p + q)) && Cost(w, q).Leq(Cost(w, p + q))
  {
    CostConcat(w, p, q);
  }

  lemma {:induction false} CriticalPathFacts(g: Graph, w: seq<nat>, cp: seq<nat>, c: PathCost)
    requires g.Valid() && |w| == |g.vertices| && CriticalPath(g, w, cp, c)
    ensures |cp| > 0 && g.Path(cp) && Cost(w, cp) == c && LongestCost(g, w, c)
    ensures forall i :: 0 <= i < |cp| ==> cp[i] < |w|
  {
  }

  /** The part of a path that ends before `cp[i]`. */
  lemma {:induction false} HeadBound(g: Graph, w: seq<nat>, cp: seq<nat>, c: PathCost, i: nat, p: seq<nat>)
    requires g.Valid() && |w| == |g.vertices| && CriticalPath(g, w, cp, c) && i < |cp| && g.Path(p)
    requires p != [] ==> p[|p| - 1] != cp[i] && Before(g, cp, i, p[|p| - 1])
    ensures Cost(w, p).Leq(Cost(w, cp[..i]))
  {
    hide Graph.Path, LongestCost, Before;
    if p != [] {
      CriticalPathFacts(g, w, cp, c);
      var r := BeforeExtends(g, cp, i, p[|p| - 1]);
      JoinAt(g, w, p, r);
      var whole := p + r[1..];
      assert whole[|whole| - 1] == r[|r| - 1];
      PrefixIsLongest(g, w, cp, c, i, whole);
      CostOfPart(w, p, r[1..]);
    }
  }

  /** The part of a path that starts after `cp[i]`. */
  lemma {:induction false} TailBound(g: Graph, w: seq<nat>, cp: seq<nat>, c: PathCost, i: nat, p: seq<nat>)
    requires g.Valid() && |w| == |g.vertices| && CriticalPath(g, w, cp, c) && i < |cp| && g.Path(p)
    requires p != [] ==> p[0] != cp[i] && After(g, cp, i, p[0])
    ensures Cost(w, p).Leq(Cost(w, cp[i + 1..]))
  {
    hide Graph.Path, LongestCost, After;
    if p != [] {
      CriticalPathFacts(g, w, cp, c);
      var r := AfterExtends(g, cp, i, p[0]);
      JoinAt(g, w, r, p);
      var whole := r + p[1..];
      assert whole == r[..|r| - 1] + p && whole[0] == r[0];
      SuffixIsLongest(g, w, cp, c, i, whole);
      CostOfPart(w, r[..|r| - 1], p);
    }
  }

  /** Index of the first vertex of `p` that is not before `cp[i]`. */
  lemma {:induction false} FirstNotBefore(g: Graph, cp: seq<nat>, i: nat, p: seq<nat>) returns (s: nat)
    requires g.Valid() && i < |cp|
    ensures s <= |p|
    ensures s > 0 ==> Before(g, cp, i, p[s - 1])
    ensures s < |p| ==> !Before(g, cp, i, p[s])
  {
    s := 0;
    while s < |p| && Before(g, cp, i, p[s])
      invariant s <= |p|
      invariant s > 0 ==> Before(g, cp, i, p[s - 1])
    {
      s := s + 1;
    }
  }

  /** A path that avoids `cp[i]` and only visits vertices before or after it costs no more than `cp` without it. */
  lemma {:induction false} AvoidingBound(g: Graph, w: seq<nat>, cp: seq<nat>, c: PathCost, i: nat, p: seq<nat>)
    requires g.Valid() && |w| == |g.vertices| && CriticalPath(g, w, cp, c) && i < |cp|
    requires g.Path(p) && cp[i] !in p
    requires forall x :: x in p ==> Before(g, cp, i, x) || After(g, cp, i, x)
    ensures c.runtime >= w[cp[i]] && Cost(w, p).Leq(PathCost(c.runtime - w[cp[i]], c.len))
  {
    hide Before, After, CriticalPath, Graph.Path, Runtime;
    CriticalPathFacts(g, w, cp, c);
    var s := FirstNotBefore(g, cp, i, p);
    var head, tail := p[..s], p[s..];
    PathSlice(g, p, 0, s);
    PathSlice(g, p, s, |p|);
    assert head == p[0..s] && tail == p[s..|p|] && p == head + tail;
    assert s > 0 ==> head[|head| - 1] == p[s - 1] && p[s - 1] in p;
    assert s < |p| ==> tail[0] == p[s] && p[s] in p;
    HeadBound(g, w, cp, c, i, head);
    TailBound(g, w, cp, c, i, tail);
    CostConcat(w, head, tail);
    SplitAt(g, w, cp, i);
  }

  /** Making a vertex free lowers a path by that vertex's weight, if the path visits it, which it does once at most. */
  lemma {:induction false} FreeCost(w: seq<nat>, v: nat, p: seq<nat>)
    requires v < |w| && NoDuplicates(p)
    ensures Cost(w, p) == Cost(w[v := 0], p).Plus(PathCost(if v in p then w[v] else 0, 0))
  {
    if p != [] {
      assert p == [p[0]] + p[1..];
      assert p[0] !in p[1..];
      FreeCost(w, v, p[1..]);
    }
  }

  lemma {:induction false} PathIsSimple(g: Graph, rank: seq<int>, p: seq<nat>)
    requires g.Valid() && g.Ranked(rank) && g.Path(p)
    ensures NoDuplicates(p)
  {
    forall i, j | 0 <= i < j < |p| ensures p[i] != p[j] {
      RankAlong(g, rank, p, i, j);
    }
  }

  /** `r` is the larger of the critical path without the runtime of `cp[i]` and the best independent path. */
  ghost predicate BestReplacement(g: Graph, w: seq<nat>, cp: seq<nat>, c: PathCost, i: nat,
                                  through: seq<PathCost>, r: PathCost)
    requires g.Valid() && |w| == |g.vertices| == |through| && i < |cp| && cp[i] < |w| && c.runtime >= w[cp[i]]
  {
    var base := PathCost(c.runtime - w[cp[i]], c.len);
    && base.Leq(r)
    && (forall x :: 0 <= x < |w| && !Before(g, cp, i, x) && !After(g, cp, i, x) ==> through[x].Leq(r))
    && (r == base || exists x :: 0 <= x < |w| && !Before(g, cp, i, x) && !After(g, cp, i, x) && through[x] == r)
  }

  /** An independent vertex's longest paths do not visit `cp[i]`. */
  lemma {:induction false} IndependentAvoids(g: Graph, cp: seq<nat>, i: nat, x: nat, p: seq<nat>)
    requires g.Valid() && i < |cp| && g.Path(p) && x in p
    requires !Before(g, cp, i, x) && !After(g, cp, i, x)
    ensures cp[i] !in p
  {
    if cp[i] in p {
      var a :| 0 <= a < |p| && p[a] == x;
      var b :| 0 <= b < |p| && p[b] == cp[i];
      if a <= b { ReachAlong(g, p, a, b); } else { ReachAlong(g, p, b, a); }
    }
  }

  lemma {:induction false} ReplacementAttained(g: Graph, rank: seq<int>, w: seq<nat>, cp: seq<nat>, c: PathCost, i: nat,
                            through: seq<PathCost>, r: PathCost)
    requires g.Valid() && g.Ranked(rank) && |w| == |g.vertices| == |through|
    requires CriticalPath(g, w, cp, c) && i < |cp| && c.runtime >= w[cp[i]]
    requires forall x :: 0 <= x < |w| ==> LongestThrough(g, w, x, through[x])
    requires BestReplacement(g, w, cp, c, i, through, r)
    ensures exists p :: |p| > 0 && g.Path(p) && Cost(w[cp[i] := 0], p) == r
  {
    if r == PathCost(c.runtime - w[cp[i]], c.len) {
      PathIsSimple(g, rank, cp);
      FreeCost(w, cp[i], cp);
      assert cp[i] in cp;
      assert Cost(w[cp[i] := 0], cp) == r;
    } else {
      var x :| 0 <= x < |w| && !Before(g, cp, i, x) && !After(g, cp, i, x) && through[x] == r;
      assert LongestThrough(g, w, x, through[x]);
      var p :| x in p && g.Path(p) && Cost(w, p) == r;
      IndependentAvoids(g, cp, i, x, p);
      PathIsSimple(g, rank, p);
      FreeCost(w, cp[i], p);
      assert |p| > 0 && Cost(w[cp[i] := 0], p) == r;
    }
  }

  lemma {:induction false} ReplacementBounds(g: Graph, rank: seq<int>, w: seq<nat>, cp: seq<nat>, c: PathCost, i: nat,
                          through: seq<PathCost>, r: PathCost, p: seq<nat>)
    requires g.Valid() && g.Ranked(rank) && |w| == |g.vertices| == |through|
    requires CriticalPath(g, w, cp, c) && i < |cp| && c.runtime >= w[cp[i]]
    requires forall x :: 0 <= x < |w| ==> LongestThrough(g, w, x, through[x])
    requires BestReplacement(g, w, cp, c, i, through, r)
    requires |p| > 0 && g.Path(p)
    ensures Cost(w[cp[i] := 0], p).Leq(r)
  {
    PathIsSimple(g, rank, p);
    FreeCost(w, cp[i], p);
    if cp[i] in p {
      assert Cost(w, p).Leq(c);
    } else if forall x :: x in p ==> Before(g, cp, i, x) || After(g, cp, i, x) {
      AvoidingBound(g, w, cp, c, i, p);
    } else {
      var x :| x in p && !Before(g, cp, i, x) && !After(g, cp, i, x);
      assert LongestThrough(g, w, x, through[x]);
    }
  }

  /** The best replacement is the longest path cost of the graph in which `cp[i]` takes no time. */
  lemma {:induction false} ReplacementIsLongest(g: Graph, rank: seq<int>, w: seq<nat>, cp: seq<nat>, c: PathCost,
                                                i: nat, through: seq<PathCost>, r: PathCost)
    requires g.Valid() && g.Ranked(rank) && |w| == |g.vertices| == |through|
    requires CriticalPath(g, w, cp, c) && i < |cp| && c.runtime >= w[cp[i]]
    requires forall x :: 0 <= x < |w| ==> LongestThrough(g, w, x, through[x])
    requires BestReplacement(g, w, cp, c, i, through, r)
    ensures LongestCost(g, w[cp[i] := 0], r)
  {
    hide BestReplacement, CriticalPath, LongestThrough, Graph.Path, Runtime;
    CriticalPathFacts(g, w, cp, c);
    ReplacementAttained(g, rank, w, cp, c, i, through, r);
    forall p | |p| > 0 && g.Path(p) ensures Cost(w[cp[i] := 0], p).Leq(r) {
      ReplacementBounds(g, rank, w, cp, c, i, through, r, p);
    }
  }
}
