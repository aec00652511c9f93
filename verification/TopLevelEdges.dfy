/**
 The discovery edges of top-level targets, from `finish` in
 app/bz_build_signals_impl/src/backend/longest_path_graph.rs: what is built for a top-level target depends on the
 analysis of that target, because nothing of it was asked for before.
 */
module TopLevelEdges {
  import opened Collections
  import opened Paths
  import opened BuildSignals

  /** A top-level target and the artifacts that were requested for it. */
  datatype TopLevelTarget = TopLevelTarget(target: string, artifacts: seq<NodeKey>)

  type Targets = seq<TopLevelTarget>

  /** The vertex of a target's analysis; Part 2 if it was split. */
  function AnalysisOf(keys: map<NodeKey, nat>, target: string): Option<nat> {
    if AnalysisFinishKey(target) in keys then Some(keys[AnalysisFinishKey(target)])
    else if AnalysisKey(target) in keys then Some(keys[AnalysisKey(target)])
    else None
  }

  /** The known artifacts, each with the analysis it is requested by. */
  function RootsFor(keys: map<NodeKey, nat>, analysis: nat, artifacts: seq<NodeKey>): seq<(nat, nat)> {
    if artifacts == [] then []
    else
      var a := artifacts[|artifacts| - 1];
      RootsFor(keys, analysis, artifacts[..|artifacts| - 1]) + if a in keys then [(analysis, keys[a])] else []
  }

  /** All of them, in the order of the targets; a target without an analysis has none. */
  function Roots(keys: map<NodeKey, nat>, targets: Targets): seq<(nat, nat)> {
    if targets == [] then []
    else
      var t := targets[|targets| - 1];
      var analysis := AnalysisOf(keys, t.target);
      Roots(keys, targets[..|targets| - 1]) + if analysis.Some? then RootsFor(keys, analysis.value, t.artifacts) else []
  }

  /** A chain of dependencies, every node of which produces an artifact. */
  ghost predicate ArtifactPath(g: Graph, names: seq<NodeKey>, p: seq<nat>, x: nat, y: nat)
    requires g.Valid() && |names| == |g.vertices|
  {
    g.PathBetween(p, x, y) && forall i :: 0 <= i < |p| ==> names[p[i]].ArtifactKey?
  }

  /** Building `y` takes `x`. */
  ghost predicate Takes(g: Graph, names: seq<NodeKey>, x: nat, y: nat)
    requires g.Valid() && |names| == |g.vertices|
  {
    exists p :: ArtifactPath(g, names, p, x, y)
  }

  /** The label of `x` is the analysis of the first root that takes it, if one does. */
  ghost predicate FirstTaker(g: Graph, names: seq<NodeKey>, roots: seq<(nat, nat)>, x: nat, m: Option<nat>)
    requires g.Valid() && |names| == |g.vertices|
  {
    match m
    case None => forall i :: 0 <= i < |roots| ==> !Takes(g, names, x, roots[i].1)
    case Some(k) => exists i :: 0 <= i < |roots| && roots[i].0 == k && Takes(g, names, x, roots[i].1)
                                && forall j :: 0 <= j < i ==> !Takes(g, names, x, roots[j].1)
  }

  ghost predicate Labelled(g: Graph, names: seq<NodeKey>, roots: seq<(nat, nat)>, labels: seq<Option<nat>>)
    requires g.Valid() && |names| == |g.vertices|
  {
    |labels| == |names| && forall x :: 0 <= x < |labels| ==> FirstTaker(g, names, roots, x, labels[x])
  }

  /** What a labelled node takes is labelled, or still waits in the queue. */
  ghost predicate Closed(g: Graph, names: seq<NodeKey>, labels: seq<Option<nat>>, queue: seq<nat>)
    requires g.Valid() && |names| == |labels| == |g.vertices|
  {
    forall x: nat, d: nat :: g.Edge(d, x) && labels[x].Some? && names[d].ArtifactKey? ==> labels[d].Some? || d in queue
  }

  ghost function Unset(labels: seq<Option<nat>>): set<int> {
    set x | 0 <= x < |labels| && labels[x].None?
  }

  // ----- One artifact -----

  /** The labels while the queue of one artifact is worked off, against those before it. */
  ghost predicate Spreading(g: Graph, names: seq<NodeKey>, before: seq<Option<nat>>, labels: seq<Option<nat>>,
                            queue: seq<nat>, analysis: nat, artifact: nat)
    requires g.Valid() && |names| == |before| == |g.vertices|
  {
    && |labels| == |names| && artifact < |names|
    && (forall q :: q in queue ==> q < |names| && (names[q].ArtifactKey? ==> Takes(g, names, q, artifact)))
    && (forall x :: 0 <= x < |names| && before[x].Some? ==> labels[x] == before[x])
    && (forall x :: 0 <= x < |names| && before[x].None? && labels[x].Some? ==>
          labels[x].value == analysis && Takes(g, names, x, artifact))
    && Closed(g, names, labels, queue)
    && (names[artifact].ArtifactKey? ==> labels[artifact].Some? || artifact in queue)
  }

  lemma {:induction false} SpreadStart(g: Graph, names: seq<NodeKey>, labels: seq<Option<nat>>, analysis: nat,
                                       artifact: nat)
    requires g.Valid() && |names| == |labels| == |g.vertices| && artifact < |names| && Closed(g, names, labels, [])
    ensures Spreading(g, names, labels, labels, [artifact], analysis, artifact)
  {
    if names[artifact].ArtifactKey? {
      assert ArtifactPath(g, names, [artifact], artifact, artifact);
    }
    assert [artifact][0] in [artifact];
  }

  /** A node that is labelled already, or produces no artifact, is dropped. */
  lemma {:induction false} SpreadDrop(g: Graph, names: seq<NodeKey>, before: seq<Option<nat>>,
                                      labels: seq<Option<nat>>, rest: seq<nat>, i: nat, analysis: nat, artifact: nat)
    requires g.Valid() && |names| == |before| == |labels| == |g.vertices| && i < |names|
    requires Spreading(g, names, before, labels, rest + [i], analysis, artifact)
    requires labels[i].Some? || !names[i].ArtifactKey?
    ensures Spreading(g, names, before, labels, rest, analysis, artifact)
  {
    forall q | q in rest ensures q in rest + [i] {}
    forall d | d in rest + [i] && d != i ensures d in rest {}
  }

  lemma {:induction false} TakesEdge(g: Graph, names: seq<NodeKey>, d: nat, x: nat, y: nat)
    requires g.Valid() && |names| == |g.vertices| && Takes(g, names, x, y) && g.Edge(d, x) && names[d].ArtifactKey?
    ensures Takes(g, names, d, y)
  {
    var p :| ArtifactPath(g, names, p, x, y);
    PathConcat(g, [d], p);
    var q := [d] + p;
    forall i | 0 <= i < |q| ensures names[q[i]].ArtifactKey? {
      if i > 0 { assert q[i] == p[i - 1]; }
    }
    assert ArtifactPath(g, names, q, d, y);
  }

  /** A node is labelled and its dependencies are queued. */
  lemma {:induction false} SpreadLabel(g: Graph, names: seq<NodeKey>, before: seq<Option<nat>>,
                                       labels: seq<Option<nat>>, rest: seq<nat>, i: nat, analysis: nat, artifact: nat)
    requires g.Valid() && |names| == |before| == |labels| == |g.vertices| && i < |names|
    requires Spreading(g, names, before, labels, rest + [i], analysis, artifact)
    requires labels[i].None? && names[i].ArtifactKey?
    ensures Spreading(g, names, before, labels[i := Some(analysis)], rest + g.Edges(i), analysis, artifact)
  {
    var next, queue := labels[i := Some(analysis)], rest + g.Edges(i);
    assert (rest + [i])[|rest|] in rest + [i];
    hide Takes;
    forall q | q in queue ensures q < |names| && (names[q].ArtifactKey? ==> Takes(g, names, q, artifact)) {
      if q in rest {
        assert q in rest + [i];
      } else {
        assert g.Edge(q, i);
        if names[q].ArtifactKey? { TakesEdge(g, names, q, i, artifact); }
      }
    }
    forall x: nat, d: nat | g.Edge(d, x) && next[x].Some? && names[d].ArtifactKey? ensures next[d].Some? || d in queue {
      if x == i {
        assert d in g.Edges(i);
      } else if labels[d].None? && d != i {
        assert d in rest + [i];
        assert d in rest;
      }
    }
    if artifact != i && artifact in rest + [i] { assert artifact in rest; }
  }

  /** The queue loop for one artifact. */
  method LabelFrom(g: Graph, names: seq<NodeKey>, labels: seq<Option<nat>>, analysis: nat, artifact: nat)
    returns (r: seq<Option<nat>>)
    requires g.Valid() && |names| == |labels| == |g.vertices| && artifact < |names| && Closed(g, names, labels, [])
    ensures Spreading(g, names, labels, r, [], analysis, artifact)
  {
    r := labels;
    var queue := [artifact];
    SpreadStart(g, names, labels, analysis, artifact);
    hide Takes, Closed;
    while queue != []
      invariant Spreading(g, names, labels, r, queue, analysis, artifact)
      decreases Unset(r), |queue|
    {
      var i, rest := queue[|queue| - 1], queue[..|queue| - 1];
      assert queue == rest + [i] && i in queue;
      if r[i].Some? || !names[i].ArtifactKey? {
        SpreadDrop(g, names, labels, r, rest, i, analysis, artifact);
        queue := rest;
      } else {
        SpreadLabel(g, names, labels, r, rest, i, analysis, artifact);
        assert i in Unset(r) && i !in Unset(r[i := Some(analysis)]) && Unset(r[i := Some(analysis)]) <= Unset(r);
        r := r[i := Some(analysis)];
        queue := rest + g.Edges(i);
      }
    }
  }

  /** Labels are closed, so everything a labelled node takes is labelled. */
  lemma {:induction false} LabelledDown(g: Graph, names: seq<NodeKey>, labels: seq<Option<nat>>, p: seq<nat>, x: nat,
                                        y: nat)
    requires g.Valid() && |names| == |labels| == |g.vertices| && Closed(g, names, labels, [])
    requires ArtifactPath(g, names, p, x, y) && labels[y].Some?
    ensures labels[x].Some?
    decreases |p|
  {
    if |p| > 1 {
      var z := p[|p| - 2];
      PathSlice(g, p, 0, |p| - 1);
      assert g.Edge(z, y);
      assert ArtifactPath(g, names, p[..|p| - 1], x, z);
      LabelledDown(g, names, labels, p[..|p| - 1], x, z);
    }
  }

  /** After one artifact, every label is that of the first root that takes the node. */
  lemma {:induction false} NextTaker(g: Graph, names: seq<NodeKey>, roots: seq<(nat, nat)>, before: seq<Option<nat>>,
                                     after: seq<Option<nat>>, analysis: nat, artifact: nat, x: nat)
    requires g.Valid() && |names| == |before| == |g.vertices| && x < |names|
    requires FirstTaker(g, names, roots, x, before[x]) && Spreading(g, names, before, after, [], analysis, artifact)
    ensures FirstTaker(g, names, roots + [(analysis, artifact)], x, after[x])
  {
    var more := roots + [(analysis, artifact)];
    assert forall i :: 0 <= i < |roots| ==> more[i] == roots[i];
    if before[x].Some? {
      var i :| 0 <= i < |roots| && roots[i].0 == before[x].value && Takes(g, names, x, roots[i].1)
               && forall j :: 0 <= j < i ==> !Takes(g, names, x, roots[j].1);
      assert more[i].0 == before[x].value;
    } else if after[x].Some? {
      assert more[|roots|] == (analysis, artifact);
    } else if Takes(g, names, x, artifact) {
      var p :| ArtifactPath(g, names, p, x, artifact);
      assert names[p[|p| - 1]].ArtifactKey?;
      LabelledDown(g, names, after, p, x, artifact);
      assert false;
    }
  }

  lemma {:induction false} NextLabels(g: Graph, names: seq<NodeKey>, roots: seq<(nat, nat)>, before: seq<Option<nat>>,
                                      after: seq<Option<nat>>, analysis: nat, artifact: nat)
    requires g.Valid() && |names| == |g.vertices| && Labelled(g, names, roots, before)
    requires Spreading(g, names, before, after, [], analysis, artifact)
    ensures Labelled(g, names, roots + [(analysis, artifact)], after) && Closed(g, names, after, [])
  {
    hide FirstTaker;
    forall x | 0 <= x < |after| ensures FirstTaker(g, names, roots + [(analysis, artifact)], x, after[x]) {
      NextTaker(g, names, roots, before, after, analysis, artifact, x);
    }
  }

  // ----- All targets -----

  lemma {:induction false} SameLength(g: Graph, names: seq<NodeKey>, before: seq<Option<nat>>, after: seq<Option<nat>>,
                                      analysis: nat, artifact: nat)
    requires g.Valid() && |names| == |before| == |g.vertices|
             && Spreading(g, names, before, after, [], analysis, artifact)
    ensures |after| == |names|
  {
  }

  lemma {:induction false} RootsForNext(keys: map<NodeKey, nat>, analysis: nat, artifacts: seq<NodeKey>, i: nat,
                                        roots: seq<(nat, nat)>)
    requires i < |artifacts|
    ensures var before, after := RootsFor(keys, analysis, artifacts[..i]), RootsFor(keys, analysis, artifacts[..i + 1]);
            roots + after == if artifacts[i] in keys then roots + before + [(analysis, keys[artifacts[i]])]
              else roots + before
  {
    assert artifacts[..i + 1][..i] == artifacts[..i];
  }

  /** The loop over the artifacts of one target. */
  method LabelTarget(g: Graph, names: seq<NodeKey>, keys: map<NodeKey, nat>, labels: seq<Option<nat>>, analysis: nat,
                     artifacts: seq<NodeKey>, ghost roots: seq<(nat, nat)>) returns (r: seq<Option<nat>>)
    requires g.Valid() && |names| == |g.vertices| && (forall k :: k in keys ==> keys[k] < |names|)
    requires Labelled(g, names, roots, labels) && Closed(g, names, labels, [])
    ensures Labelled(g, names, roots + RootsFor(keys, analysis, artifacts), r) && Closed(g, names, r, [])
  {
    r := labels;
    assert artifacts[..0] == [] && roots + [] == roots;
    hide Labelled, Closed, Spreading;
    for i := 0 to |artifacts|
      invariant |r| == |names|
      invariant Labelled(g, names, roots + RootsFor(keys, analysis, artifacts[..i]), r) && Closed(g, names, r, [])
    {
      ghost var sofar := roots + RootsFor(keys, analysis, artifacts[..i]);
      RootsForNext(keys, analysis, artifacts, i, roots);
      if artifacts[i] in keys {
        var next := LabelFrom(g, names, r, analysis, keys[artifacts[i]]);
        SameLength(g, names, r, next, analysis, keys[artifacts[i]]);
        NextLabels(g, names, sofar, r, next, analysis, keys[artifacts[i]]);
        r := next;
      }
    }
    assert artifacts[..|artifacts|] == artifacts;
  }

  lemma {:induction false} LabelsLength(g: Graph, names: seq<NodeKey>, roots: seq<(nat, nat)>, r: seq<Option<nat>>)
    requires g.Valid() && |names| == |g.vertices| && Labelled(g, names, roots, r)
    ensures |r| == |names|
  {
  }

  /** The loop over the top-level targets. */
  method LabelAll(g: Graph, names: seq<NodeKey>, keys: map<NodeKey, nat>, targets: Targets)
    returns (r: seq<Option<nat>>)
    requires g.Valid() && |names| == |g.vertices| && (forall k :: k in keys ==> keys[k] < |names|)
    ensures Labelled(g, names, Roots(keys, targets), r)
  {
    r := seq(|names|, _ => None);
    assert targets[..0] == [] && Labelled(g, names, [], r) && Closed(g, names, r, []);
    hide Labelled, Closed, RootsFor;
    for i := 0 to |targets|
      invariant Labelled(g, names, Roots(keys, targets[..i]), r) && |r| == |names| && Closed(g, names, r, [])
    {
      assert targets[..i + 1][..i] == targets[..i];
      ghost var before := Roots(keys, targets[..i]);
      assert before + [] == before;
      var analysis := AnalysisOf(keys, targets[i].target);
      if analysis.Some? {
        r := LabelTarget(g, names, keys, r, analysis.value, targets[i].artifacts, before);
        LabelsLength(g, names, Roots(keys, targets[..i + 1]), r);
      }
    }
    assert targets[..|targets|] == targets;
  }

  /** Only nodes that produce artifacts are labelled. */
  lemma {:induction false} OnlyArtifacts(g: Graph, names: seq<NodeKey>, roots: seq<(nat, nat)>, r: seq<Option<nat>>,
                                         x: nat)
    requires g.Valid() && |names| == |g.vertices| && Labelled(g, names, roots, r) && x < |r| && r[x].Some?
    ensures names[x].ArtifactKey? && exists i :: 0 <= i < |roots| && roots[i].0 == r[x].value
  {
    assert FirstTaker(g, names, roots, x, r[x]);
    var i :| 0 <= i < |roots| && roots[i].0 == r[x].value && Takes(g, names, x, roots[i].1);
    var p :| ArtifactPath(g, names, p, x, roots[i].1);
    assert names[p[0]].ArtifactKey?;
  }

  lemma {:induction false} RootsForAnalysis(keys: map<NodeKey, nat>, analysis: nat, artifacts: seq<NodeKey>, i: nat)
    requires i < |RootsFor(keys, analysis, artifacts)|
    ensures RootsFor(keys, analysis, artifacts)[i].0 == analysis
  {
    if artifacts != [] {
      var before := artifacts[..|artifacts| - 1];
      if i < |RootsFor(keys, analysis, before)| { RootsForAnalysis(keys, analysis, before, i); }
    }
  }

  /** Every label is the analysis of one of the targets. */
  lemma {:induction false} RootsAreAnalyses(keys: map<NodeKey, nat>, targets: Targets, i: nat)
    requires i < |Roots(keys, targets)|
    ensures exists t :: t in targets && AnalysisOf(keys, t.target) == Some(Roots(keys, targets)[i].0)
  {
    if targets != [] {
      var before, t := targets[..|targets| - 1], targets[|targets| - 1];
      assert targets == before + [t] && t in targets;
      if i < |Roots(keys, before)| {
        RootsAreAnalyses(keys, before, i);
        var u :| u in before && AnalysisOf(keys, u.target) == Some(Roots(keys, before)[i].0);
        assert u in targets;
      } else {
        var analysis := AnalysisOf(keys, t.target).value;
        RootsForAnalysis(keys, analysis, t.artifacts, i - |Roots(keys, before)|);
      }
    }
  }
}
