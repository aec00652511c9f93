/**
 From the signals of a build to the reported timeline: the computed critical path with the detail that
 app/bz_build_signals_impl/src/backend/longest_path_graph.rs attaches to its nodes, handed to
 `into_critical_path_proto` of app/bz_build_signals_impl/src/lib.rs.
 */
module CriticalPathReport {
  import opened Collections
  import opened Paths
  import opened Timeline
  import BuildSignals
  import SignalGraph
  import TopLevelEdges
  import LongestPaths
  import Potentials

  type Stream = seq<BuildSignals.Evaluation>

  /** The latest end among the given nodes, `None` if there are none. */
  function LatestEnd(totals: seq<TimeSpan>, deps: seq<nat>): (r: Option<Instant>)
    requires forall i :: 0 <= i < |deps| ==> deps[i] < |totals|
    ensures r.None? <==> deps == []
    ensures forall i :: 0 <= i < |deps| ==> totals[deps[i]].end <= r.value
    ensures r.Some? ==> exists i :: 0 <= i < |deps| && totals[deps[i]].end == r.value
  {
    if deps == [] then None
    else
      var d := deps[|deps| - 1];
      var rest := LatestEnd(totals, deps[..|deps| - 1]);
      if rest.None? || rest.value < totals[d].end
      then assert deps[|deps| - 1] == d; Some(totals[d].end)
      else rest
  }

  /** A span and waiting data for every vertex. */
  ghost predicate Timed(g: Graph, totals: seq<TimeSpan>, waits: seq<WaitingData>) {
    g.Valid() && |totals| == |waits| == |g.vertices|
  }

  /** The entry of a vertex of the path: its dependencies were finished when the last of them ended. */
  function EntryOf(g: Graph, totals: seq<TimeSpan>, waits: seq<WaitingData>, v: nat): (r: PathEntry)
    requires Timed(g, totals, waits) && v < |totals|
  {
    PathEntry(v, totals[v], waits[v], LatestEnd(totals, g.Edges(v)), None)
  }

  function Detailed(g: Graph, totals: seq<TimeSpan>, waits: seq<WaitingData>, p: seq<nat>): (r: seq<PathEntry>)
    requires Timed(g, totals, waits) && forall i :: 0 <= i < |p| ==> p[i] < |totals|
  {
    if p == [] then [] else [EntryOf(g, totals, waits, p[0])] + Detailed(g, totals, waits, p[1..])
  }

  /** The nodes of the detailed path are the path. */
  lemma {:induction false} NodesOfDetailed(g: Graph, totals: seq<TimeSpan>, waits: seq<WaitingData>, p: seq<nat>)
    requires Timed(g, totals, waits) && forall i :: 0 <= i < |p| ==> p[i] < |totals|
    ensures Nodes(Detailed(g, totals, waits, p)) == p
  {
    if p != [] {
      NodesOfDetailed(g, totals, waits, p[1..]);
      var r := Detailed(g, totals, waits, p);
      assert r[1..] == Detailed(g, totals, waits, p[1..]) && r[0].node == p[0];
      assert [p[0]] + p[1..] == p;
    }
  }

  /** No node ends before one of its dependencies. */
  ghost predicate EndsInOrder(g: Graph, totals: seq<TimeSpan>)
    requires g.Valid() && |totals| == |g.vertices|
  {
    forall a: nat, b: nat :: g.Edge(a, b) ==> totals[a].end <= totals[b].end
  }

  ghost predicate WaitsInOrder(waits: seq<WaitingData>) {
    forall v :: 0 <= v < |waits| ==> Nondecreasing(Phases(waits[v]))
  }

  /**
   What the enhancer must have reached when it comes to a vertex: no more than a dependency, or else the vertex, ended
   at.
   */
  ghost predicate Reached(g: Graph, totals: seq<TimeSpan>, last: Instant, v: nat)
    requires g.Valid() && |totals| == |g.vertices| && v < |totals|
  {
    if g.Edges(v) == [] then last <= totals[v].end
    else exists d: nat :: g.Edge(d, v) && last <= totals[d].end
  }

  lemma {:induction false} VertexInOrder(g: Graph, totals: seq<TimeSpan>, waits: seq<WaitingData>, s: Enhanced, v: nat)
    requires Timed(g, totals, waits) && EndsInOrder(g, totals) && WaitsInOrder(waits) && v < |totals|
    requires Reached(g, totals, s.lastEntryEnd, v)
    ensures InOrder(s.lastEntryEnd, EntryOf(g, totals, waits, v))
    ensures Clipped(s.lastEntryEnd, EntryOf(g, totals, waits, v)).end == totals[v].end
  {
    var deps := g.Edges(v);
    var latest := LatestEnd(totals, deps);
    if deps != [] {
      var d: nat :| g.Edge(d, v) && s.lastEntryEnd <= totals[d].end;
      var i :| 0 <= i < |deps| && deps[i] == d;
      assert totals[deps[i]].end <= latest.value;
      var j :| 0 <= j < |deps| && totals[deps[j]].end == latest.value;
      assert g.Edge(deps[j], v);
    }
  }

  lemma {:induction false} EndOfPathEntry(s: Enhanced, p: PathEntry)
    ensures WithPathEntry(s, p).lastEntryEnd == Clipped(s.lastEntryEnd, p).end
  {
    hide WithWaits, PhaseSpans, WithSimple;
  }

  /** Along a path, every vertex is in order after the one before it, and the report ends with the last vertex. */
  lemma {:induction false} DetailedInOrder(g: Graph, totals: seq<TimeSpan>, waits: seq<WaitingData>, s: Enhanced,
                                           p: seq<nat>)
    requires Timed(g, totals, waits) && EndsInOrder(g, totals) && WaitsInOrder(waits) && g.Path(p)
    requires p != [] ==> Reached(g, totals, s.lastEntryEnd, p[0])
    ensures PathInOrder(s, Detailed(g, totals, waits, p))
    ensures WithPath(s, Detailed(g, totals, waits, p)).lastEntryEnd ==
            if p == [] then s.lastEntryEnd else totals[p[|p| - 1]].end
    decreases |p|
  {
    hide WithPathEntry, EndsInOrder, WaitsInOrder, Clipped, InOrder, EntryOf;
    if p != [] {
      var r, e := Detailed(g, totals, waits, p), EntryOf(g, totals, waits, p[0]);
      VertexInOrder(g, totals, waits, s, p[0]);
      EndOfPathEntry(s, e);
      PathSlice(g, p, 1, |p|);
      if |p| > 1 {
        assert g.Edge(p[0], p[1]);
        assert g.Edges(p[1]) != [];
      }
      assert r[0] == e && r[1..] == Detailed(g, totals, waits, p[1..]);
      assert p[1..|p|] == p[1..];
      DetailedInOrder(g, totals, waits, WithPathEntry(s, e), p[1..]);
    }
  }

  /** A longest path starts at a vertex without dependencies: an earlier start would make it longer. */
  lemma {:induction false} StartsAtSource(g: Graph, w: seq<nat>, p: seq<nat>, c: PathCost)
    requires g.Valid() && |w| == |g.vertices| && LongestCost(g, w, c) && |p| > 0 && g.Path(p) && Cost(w, p) == c
    ensures g.Edges(p[0]) == []
  {
    var deps := g.Edges(p[0]);
    if deps != [] {
      assert g.Edge(deps[0], p[0]);
      PathCons(g, w, deps[0], p);
      assert false;
    }
  }

  // ----- Ends in order -----

  /** Evaluation `i` names `j` as a dependency, or is a load of a package that load `j` made visible. */
  ghost predicate Follows(stream: Stream, j: nat, i: nat)
    requires j < |stream| && i < |stream|
  {
    || stream[j].key in stream[i].deps
    || (stream[i].key.InterpreterResultsKey? && stream[j].key.InterpreterResultsKey?
        && BuildSignals.MakesVisible(stream, j, stream[i].key.package, stream[j].key.package))
  }

  /** A load ends no later than what follows it. */
  ghost predicate LoadsEndInOrder(stream: Stream) {
    forall j, i :: 0 <= j < i < |stream| && BuildSignals.IsLoadPhase(stream[j].key) && Follows(stream, j, i) ==>
      stream[j].End() <= stream[i].End()
  }

  /** Nothing is remapped to a load. */
  lemma {:induction false} NotALoad(stream: Stream, b: nat, k: BuildSignals.NodeKey)
    requires SignalGraph.Environment(stream) && b < |stream|
    ensures var m := BuildSignals.Run(stream[..b]).finishKeys;
            k in m ==> !BuildSignals.IsLoadPhase(m[k])
  {
    BuildSignals.FinishKeysOfRun(stream[..b], k);
    var m := BuildSignals.Run(stream[..b]).finishKeys;
    if k in m {
      var i :| BuildSignals.SplitAt(stream[..b], i, k) && m[k] == stream[..b][i].key;
      assert SignalGraph.PartTwoShape(stream[i]);
    }
  }

  /** An edge from a load is a dependency that was named or the load edge that was injected. */
  lemma {:induction false} LoadEdgeFollows(stream: Stream, a: nat, b: nat)
    requires SignalGraph.Environment(stream) && |BuildSignals.Run(stream).nodes| == |stream|
    requires b < |stream| && SignalGraph.DependsOn(stream, a, b) && BuildSignals.IsLoadPhase(stream[a].key)
    ensures a < b && Follows(stream, a, b)
  {
    SignalGraph.NodeEdgePrecedes(stream, a, b);
    BuildSignals.NodesOfRun(stream, b);
    var before := BuildSignals.Run(stream[..b]);
    var load := BuildSignals.LoadEdge(BuildSignals.FirstEdgeAfter(before.firstEdge, stream[b]), stream[b]);
    var raw := stream[b].deps + load;
    var t :| 0 <= t < |raw| && BuildSignals.RemapOne(before.finishKeys, raw[t]) == stream[a].key;
    NotALoad(stream, b, raw[t]);
    if t < |stream[b].deps| {
      assert raw[t] == stream[b].deps[t];
    } else {
      assert raw[t] in load;
      BuildSignals.LoadEdgePointsBack(stream, b, raw[t]);
      var j :| 0 <= j < b && stream[j].key == raw[t]
               && BuildSignals.MakesVisible(stream, j, stream[b].key.package, raw[t].package);
      assert j == a;
    }
  }

  /** The spans are those of the evaluations. */
  ghost predicate SpansOf(stream: Stream, totals: seq<TimeSpan>) {
    && |totals| == |stream|
    && forall v :: 0 <= v < |stream| ==>
         totals[v].end == stream[v].End() && Duration(totals[v]) == stream[v].span.duration
  }

  function Lengths(totals: seq<TimeSpan>): (r: seq<nat>)
    ensures |r| == |totals|
  {
    seq(|totals|, v requires 0 <= v < |totals| => Duration(totals[v]))
  }

  /** The weights of the graph are the lengths of the spans. */
  lemma {:induction false} WeightsAreLengths(stream: Stream, totals: seq<TimeSpan>)
    requires SpansOf(stream, totals) && |BuildSignals.Run(stream).nodes| == |stream|
    ensures SignalGraph.Durations(BuildSignals.Run(stream).nodes) == Lengths(totals)
  {
    hide BuildSignals.Run;
    forall v | 0 <= v < |stream| ensures BuildSignals.Run(stream).nodes[v].span.duration == Duration(totals[v]) {
      BuildSignals.NodesOfRun(stream, v);
    }
  }

  /** The analysis that first asked for a node ended no later than the node. */
  ghost predicate LabelsEndInOrder(stream: Stream, targets: TopLevelEdges.Targets)
    requires |BuildSignals.Run(stream).nodes| == |stream|
  {
    forall a, b :: 0 <= a < |stream| && 0 <= b < |stream| && SignalGraph.LabelledBy(stream, targets, a, b) ==>
      stream[a].End() <= stream[b].End()
  }

  lemma {:induction false} DiscovererIsNoLoad(stream: Stream, a: nat, b: nat)
    requires SignalGraph.Environment(stream) && a < |stream| && b < |stream| && SignalGraph.DiscoveredBy(stream, a, b)
    ensures !BuildSignals.IsLoadPhase(stream[a].key)
  {
    var i := SignalGraph.StoredDiscoverer(stream, a, b);
    SignalGraph.PartOne(stream, i, a);
  }

  lemma {:induction false} EdgeEndsInOrder(stream: Stream, a: nat, b: nat)
    requires SignalGraph.Environment(stream) && |BuildSignals.Run(stream).nodes| == |stream| && LoadsEndInOrder(stream)
    requires a < |stream| && b < |stream|
    requires SignalGraph.DependsOn(stream, a, b) || SignalGraph.DiscoveredBy(stream, a, b)
    ensures stream[a].End() <= stream[b].End()
  {
    hide BuildSignals.Run, SignalGraph.Environment, Follows;
    if !SignalGraph.DependsOn(stream, a, b) {
      SignalGraph.DiscoveryEdgePrecedes(stream, a, b);
      DiscovererIsNoLoad(stream, a, b);
    } else if BuildSignals.IsLoadPhase(stream[a].key) {
      LoadEdgeFollows(stream, a, b);
    } else {
      SignalGraph.NodeEdgePrecedes(stream, a, b);
    }
  }

  lemma {:induction false} GraphEndsInOrder(stream: Stream, targets: TopLevelEdges.Targets, g: Graph,
                                            totals: seq<TimeSpan>)
    requires SignalGraph.Environment(stream) && |BuildSignals.Run(stream).nodes| == |stream|
    requires SignalGraph.Describes(stream, targets, g) && SpansOf(stream, totals)
    requires LoadsEndInOrder(stream) && LabelsEndInOrder(stream, targets)
    ensures EndsInOrder(g, totals)
  {
    hide BuildSignals.Run, SignalGraph.Environment, Follows, SignalGraph.DependsOn, SignalGraph.DiscoveredBy,
         SignalGraph.Numbered, TopLevelEdges.Labelled, TopLevelEdges.Roots;
    var base, keys, labels :| SignalGraph.Completes(stream, targets, base, keys, labels, g);
    TopLevelEdges.LabelsLength(base, SignalGraph.KeysOf(stream), TopLevelEdges.Roots(keys, targets), labels);
    forall a: nat, b: nat | g.Edge(a, b) ensures totals[a].end <= totals[b].end {
      if labels[b] == Some(a) {
        assert SignalGraph.LabelledBy(stream, targets, a, b);
      } else {
        EdgeEndsInOrder(stream, a, b);
      }
    }
  }

  // ----- The report -----

  /** When the early command timings end. */
  function EarlyEnd(t: EarlyTiming): Instant { Max(OpenSpan(t, |t.spans|).0, t.end) }

  lemma {:induction false} EndOfEarly(t: EarlyTiming)
    ensures BeforeFinal(t, []).lastEntryEnd == EarlyEnd(t)
  {
    hide WithEarly;
  }

  /**
   What the report of a run is made from: spans of the evaluations, in order also for loads and after the early phase.
   */
  ghost predicate Measured(stream: Stream, targets: TopLevelEdges.Targets, totals: seq<TimeSpan>,
                           waits: seq<WaitingData>, t: EarlyTiming, computeStart: Instant)
  {
    && SpansOf(stream, totals) && |waits| == |stream| && WaitsInOrder(waits)
    && LoadsEndInOrder(stream) && |BuildSignals.Run(stream).nodes| == |stream| && LabelsEndInOrder(stream, targets)
    && EarlyEnd(t) <= computeStart
    && forall v :: 0 <= v < |stream| ==> EarlyEnd(t) <= stream[v].End() <= computeStart
  }

  /** The vertices are a longest path of the build's graph. */
  ghost predicate CriticalIn(g: Graph, w: seq<nat>, p: seq<nat>)
    requires g.Valid() && |w| == |g.vertices|
  {
    g.Path(p) && if w == [] then p == [] else |p| > 0 && LongestCost(g, w, Cost(w, p))
  }

  /** A longest path of the build's graph, by the lengths of the spans. */
  ghost predicate IsCriticalPath(stream: Stream, targets: TopLevelEdges.Targets, totals: seq<TimeSpan>, p: seq<nat>) {
    && |BuildSignals.Run(stream).nodes| == |stream| == |totals|
    && exists g :: SignalGraph.Describes(stream, targets, g) && CriticalIn(g, Lengths(totals), p)
  }

  lemma {:induction false} PotentialPath(g: Graph, w: seq<nat>, p: Potentials.Potential)
    requires g.Valid() && |w| == |g.vertices| && p.Potential? && Potentials.Correct(g, w, p)
    ensures CriticalIn(g, w, p.path)
  {
    hide LongestTo, LongestCost, LongestPaths.PredecessorTree;
  }

  /** The end of the reported path: the end of its last node, or of the early phase if it has none. */
  function PathEnd(totals: seq<TimeSpan>, t: EarlyTiming, p: seq<nat>): Instant
    requires forall i :: 0 <= i < |p| ==> p[i] < |totals|
  {
    if p == [] then EarlyEnd(t) else totals[p[|p| - 1]].end
  }

  lemma {:induction false} StartReached(stream: Stream, targets: TopLevelEdges.Targets, g: Graph, w: seq<nat>,
                                        p: seq<nat>, totals: seq<TimeSpan>, waits: seq<WaitingData>, t: EarlyTiming,
                                        computeStart: Instant)
    requires |BuildSignals.Run(stream).nodes| == |stream| && SignalGraph.Describes(stream, targets, g)
    requires |w| == |g.vertices| && CriticalIn(g, w, p) && Measured(stream, targets, totals, waits, t, computeStart)
    ensures p != [] ==> Reached(g, totals, EarlyEnd(t), p[0])
  {
    hide BuildSignals.Run, LongestCost, SignalGraph.Completes, EarlyEnd, Runtime;
    if p != [] {
      StartsAtSource(g, w, p, Cost(w, p));
    }
  }

  lemma {:induction false} LastInTime(stream: Stream, targets: TopLevelEdges.Targets, g: Graph, p: seq<nat>,
                                      totals: seq<TimeSpan>, waits: seq<WaitingData>, t: EarlyTiming,
                                      computeStart: Instant)
    requires |BuildSignals.Run(stream).nodes| == |stream| && SignalGraph.Describes(stream, targets, g) && g.Path(p)
    requires Measured(stream, targets, totals, waits, t, computeStart)
    ensures Timed(g, totals, waits) && WaitsInOrder(waits) && forall i :: 0 <= i < |p| ==> p[i] < |totals|
    ensures PathEnd(totals, t, p) <= computeStart
  {
    hide BuildSignals.Run, SignalGraph.Completes, EarlyEnd, WaitsInOrder, LoadsEndInOrder;
  }

  /** For the detailed form of a critical path of the build nothing is left to assume of the order of its entries. */
  lemma {:induction false} CriticalPathInOrder(stream: Stream, targets: TopLevelEdges.Targets, g: Graph, w: seq<nat>,
                                               p: seq<nat>, totals: seq<TimeSpan>, waits: seq<WaitingData>,
                                               t: EarlyTiming, computeStart: Instant)
    requires SignalGraph.Environment(stream) && |BuildSignals.Run(stream).nodes| == |stream|
    requires SignalGraph.Describes(stream, targets, g) && |w| == |g.vertices| && CriticalIn(g, w, p)
    requires Measured(stream, targets, totals, waits, t, computeStart)
    ensures var path := Detailed(g, totals, waits, p);
            && PathInOrder(BeforeFinal(t, []), path) && Nodes(path) == p
            && BeforeFinal(t, path).lastEntryEnd == PathEnd(totals, t, p) <= computeStart
  {
    GraphEndsInOrder(stream, targets, g, totals);
    StartReached(stream, targets, g, w, p, totals, waits, t, computeStart);
    LastInTime(stream, targets, g, p, totals, waits, t, computeStart);
    hide SignalGraph.Environment, SignalGraph.Describes, BuildSignals.Run, PathInOrder, BeforeFinal, WithPath, EarlyEnd,
         LongestCost, EndsInOrder, Reached, Detailed, WaitsInOrder, LoadsEndInOrder, LabelsEndInOrder, Graph.Path;
    EndOfEarly(t);
    NodesOfDetailed(g, totals, waits, p);
    DetailedInOrder(g, totals, waits, BeforeFinal(t, []), p);
    Stages(t, Detailed(g, totals, waits, p), computeStart, computeStart);
  }

  /** The reported entries: they tile the wall clock, and their work entries are a critical path of the build. */
  ghost predicate Reports(stream: Stream, targets: TopLevelEdges.Targets, totals: seq<TimeSpan>, t: EarlyTiming,
                          computeStart: Instant, now: Instant, entries: seq<Entry>)
  {
    var p := WorkNodes(entries);
    && IsCriticalPath(stream, targets, totals, p) && (forall i :: 0 <= i < |p| ==> p[i] < |totals|)
    && TiledUpTo(entries, FinalGap(PathEnd(totals, t, p), computeStart), Max(computeStart, now) - t.commandStart)
  }

  lemma {:induction false} ReportedPath(stream: Stream, targets: TopLevelEdges.Targets, g: Graph, w: seq<nat>,
                                        p: seq<nat>, totals: seq<TimeSpan>, waits: seq<WaitingData>, t: EarlyTiming,
                                        computeStart: Instant, now: Instant)
    requires SignalGraph.Environment(stream) && |BuildSignals.Run(stream).nodes| == |stream|
    requires SignalGraph.Describes(stream, targets, g) && w == SignalGraph.Durations(BuildSignals.Run(stream).nodes)
    requires CriticalIn(g, w, p) && Measured(stream, targets, totals, waits, t, computeStart)
    ensures Reports(stream, targets, totals, t, computeStart, now,
            Assembled(t, Detailed(g, totals, waits, p), computeStart, now).entries)
  {
    hide SignalGraph.Environment, BuildSignals.Run, PathInOrder, BeforeFinal, Assembled, EarlyEnd, LongestCost,
         TiledUpTo, FinalGap, Detailed, SignalGraph.Completes, LabelsEndInOrder, WorkNodes, SignalGraph.Durations,
           PathEnd;
    WeightsAreLengths(stream, totals);
    CriticalPathInOrder(stream, targets, g, w, p, totals, waits, t, computeStart);
    OutputTilesWallClock(t, Detailed(g, totals, waits, p), computeStart, now);
    assert IsCriticalPath(stream, targets, totals, p);
  }

  lemma {:induction false} PathInRange(g: Graph, w: seq<nat>, p: seq<nat>)
    requires g.Valid() && |w| == |g.vertices| && CriticalIn(g, w, p)
    ensures forall i :: 0 <= i < |p| ==> p[i] < |w|
  {
  }

  /** From the signals to the report: no report exactly when the graph overflows. */
  method Report(stream: Stream, targets: TopLevelEdges.Targets, totals: seq<TimeSpan>, waits: seq<WaitingData>,
                t: EarlyTiming, computeStart: Instant, now: Instant) returns (entries: Option<seq<Entry>>)
    requires SignalGraph.Environment(stream) && Measured(stream, targets, totals, waits, t, computeStart)
    requires SignalGraph.AnalysesFirst(stream, targets)
    ensures entries.None? <==> SignalGraph.Overflows(BuildSignals.Run(stream).nodes)
    ensures entries.Some? ==> Reports(stream, targets, totals, t, computeStart, now, entries.value)
  {
    hide SignalGraph.Environment, BuildSignals.Run, EarlyEnd, LongestCost, Potentials.Correct, SignalGraph.Overflows,
         Reports, CriticalIn, SignalGraph.Completes, SignalGraph.AnalysesFirst, LabelsEndInOrder, Assembled, Detailed;
    var r := SignalGraph.CriticalPathOf(stream, targets);
    if r.Overflowed? {
      return None;
    }
    PotentialPath(r.graph, r.weights, r.potential);
    PathInRange(r.graph, r.weights, r.potential.path);
    var path := Detailed(r.graph, totals, waits, r.potential.path);
    ReportedPath(stream, targets, r.graph, r.weights, r.potential.path, totals, waits, t, computeStart, now);
    var all := IntoCriticalPathProto(t, path, computeStart, now);
    entries := Some(all);
  }
}
