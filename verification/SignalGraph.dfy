/**
 The graph built from build signals: `GraphBuilder` (app/bz_critical_path/src/builder.rs), `Graph::add_edges`
 (app/bz_critical_path/src/graph.rs) and the longest-path backend that drives them
 (app/bz_build_signals_impl/src/backend/longest_path_graph.rs). Main result: whatever the order of the signals,
 the critical path of a build that keeps its dependency order in time is computed and never fails on a cycle.
 */
module SignalGraph {
  import opened Collections
  import opened Paths
  import opened GraphReverse
  import opened BuildSignals
  import TopLevelEdges
  import Potentials

  // ----- What the environment guarantees -----

  /** The shape of what the sender sends for Part 2 of a split. */
  ghost predicate PartTwoShape(e: Evaluation) {
    e.discovery.Some? ==>
      var d := e.discovery.value;
      && CanSplit(d.analysis) && e.key == FinishKey(d.analysis) && e.deps == [d.analysis] + d.anonTargets
      && (forall a :: a in d.anonTargets ==> a.AnonTargetKey?)
      && d.analysisEnd <= e.End()
  }

  /** Every evaluation the sender produces has that shape. */
  lemma {:induction false} SentShape(a: Activation, i: nat)
    requires a.split.Some? ==> CanSplit(a.key) && a.span.end <= a.split.value.end
    requires i < |KeyActivated(a)|
    ensures PartTwoShape(KeyActivated(a)[i])
  {
    PartitionOfDeps(a.deps);
  }

  ghost predicate LoadOnly(deps: seq<NodeKey>) { forall k :: k in deps ==> IsLoadPhase(k) }

  /**
   What is assumed of a stream: keys are evaluated once; what a key depends on (for a split analysis its Part 2)
   comes earlier in the stream and ends no later, except that loads need not end in order; loads depend on loads
   only; the two parts of a split agree on the end of Part 1; an evaluated anon target ends after the Part 1 of
   some analysis that discovered it.
   */
  ghost predicate Environment(stream: seq<Evaluation>) {
    && (forall i, j :: 0 <= i < j < |stream| ==> stream[i].key != stream[j].key)
    && (forall i :: 0 <= i < |stream| ==> PartTwoShape(stream[i]))
    && (forall i, j :: 0 <= i < |stream| && 0 <= j < |stream| && stream[j].key in stream[i].deps ==>
          j < i && (IsLoadPhase(stream[j].key) || stream[j].End() <= stream[i].End()))
    && (forall i, j, k :: 0 <= i < |stream| && i != j && SplitAt(stream, j, k) && k in stream[i].deps ==>
          j < i && stream[j].End() <= stream[i].End())
    && (forall i :: 0 <= i < |stream| && IsLoadPhase(stream[i].key) ==> LoadOnly(stream[i].deps))
    && (forall i, j :: 0 <= i < |stream| && 0 <= j < |stream| && SplitAt(stream, i, stream[j].key) ==>
          stream[j].End() == stream[i].discovery.value.analysisEnd)
    && (forall j, i :: 0 <= j < |stream| && DiscoversAt(stream, i, stream[j].key) ==>
          exists m :: DiscoversAt(stream, m, stream[j].key) && stream[m].discovery.value.analysisEnd < stream[j].End())
  }

  /** Loads come before everything else and are ordered by position; the rest by end time, then position. */
  ghost predicate Precedes(stream: seq<Evaluation>, a: nat, b: nat)
    requires a < |stream| && b < |stream|
  {
    var loadA, loadB := IsLoadPhase(stream[a].key), IsLoadPhase(stream[b].key);
    if loadA != loadB then loadA
    else if loadA then a < b
    else stream[a].End() < stream[b].End() || (stream[a].End() == stream[b].End() && a < b)
  }

  /** Only keys that can be split are ever remapped. */
  lemma {:induction false} NotRemapped(stream: seq<Evaluation>, b: nat, k: NodeKey)
    requires Environment(stream) && b <= |stream| && !CanSplit(k)
    ensures k !in Run(stream[..b]).finishKeys
  {
    FinishKeysOfRun(stream[..b], k);
    forall i ensures !SplitAt(stream[..b], i, k) {
      if 0 <= i < b {
        assert stream[..b][i] == stream[i] && PartTwoShape(stream[i]);
      }
    }
  }

  lemma {:induction false} OriginalDepPrecedes(stream: seq<Evaluation>, a: nat, b: nat, k: NodeKey)
    requires Environment(stream) && a < |stream| && b < |stream| && k in stream[b].deps
    requires RemapOne(Run(stream[..b]).finishKeys, k) == stream[a].key
    ensures Precedes(stream, a, b) && a < b
  {
    FinishKeysOfRun(stream[..b], k);
    if k in Run(stream[..b]).finishKeys {
      var i :| SplitAt(stream[..b], i, k) && Run(stream[..b]).finishKeys[k] == stream[..b][i].key;
      assert SplitAt(stream, i, k) && stream[i].key == stream[a].key;
      assert i == a;
      assert PartTwoShape(stream[a]);
      assert !IsLoadPhase(stream[a].key);
    } else {
      assert k == stream[a].key;
    }
    assert IsLoadPhase(stream[b].key) ==> LoadOnly(stream[b].deps);
  }

  /** A dependency in the rewritten graph precedes the node that has it. */
  lemma {:induction false} NodeEdgePrecedes(stream: seq<Evaluation>, a: nat, b: nat)
    requires Environment(stream) && a < |stream| && b < |stream|
    requires |Run(stream).nodes| == |stream| && stream[a].key in Run(stream).nodes[b].deps
    ensures Precedes(stream, a, b) && a < b
  {
    NodesOfRun(stream, b);
    var before := Run(stream[..b]);
    var load := LoadEdge(FirstEdgeAfter(before.firstEdge, stream[b]), stream[b]);
    var raw := stream[b].deps + load;
    var t :| 0 <= t < |raw| && RemapOne(before.finishKeys, raw[t]) == stream[a].key;
    if t < |stream[b].deps| {
      assert raw[t] == stream[b].deps[t];
      OriginalDepPrecedes(stream, a, b, raw[t]);
    } else {
      assert raw[t] in load;
      LoadEdgePointsBack(stream, b, raw[t]);
      NotRemapped(stream, b, raw[t]);
    }
  }

  /** The evaluation that the stored discoverer of an anon target comes from. */
  lemma {:induction false} StoredDiscoverer(stream: seq<Evaluation>, a: nat, b: nat) returns (i: nat)
    requires a < |stream| && b < |stream|
    requires stream[b].key in Run(stream).discoverers && Run(stream).discoverers[stream[b].key].0 == stream[a].key
    ensures EarliestAt(stream, i, stream[b].key) && SplitAt(stream, i, stream[a].key)
  {
    EarliestDiscoverer(stream, stream[b].key);
    hide Run;
    var m :| EarliestAt(stream, m, stream[b].key) && Run(stream).discoverers[stream[b].key] ==
             (stream[m].discovery.value.analysis, stream[m].discovery.value.analysisEnd);
    i := m;
  }

  lemma {:induction false} PartOne(stream: seq<Evaluation>, i: nat, a: nat)
    requires Environment(stream) && a < |stream| && SplitAt(stream, i, stream[a].key)
    ensures CanSplit(stream[a].key) && stream[a].End() == stream[i].discovery.value.analysisEnd
  {
    assert PartTwoShape(stream[i]);
  }

  lemma {:induction false} EarliestEndsBefore(stream: seq<Evaluation>, i: nat, b: nat)
    requires Environment(stream) && b < |stream| && EarliestAt(stream, i, stream[b].key)
    ensures stream[i].discovery.value.analysisEnd < stream[b].End()
    ensures stream[b].key.AnonTargetKey?
  {
    var k := stream[b].key;
    assert PartTwoShape(stream[i]);
    var m :| DiscoversAt(stream, m, k) && stream[m].discovery.value.analysisEnd < stream[b].End();
  }

  /** A discovery edge may point forward in the stream, but always to an earlier end. */
  lemma {:induction false} DiscoveryEdgePrecedes(stream: seq<Evaluation>, a: nat, b: nat)
    requires Environment(stream) && a < |stream| && b < |stream|
    requires stream[b].key in Run(stream).discoverers && Run(stream).discoverers[stream[b].key].0 == stream[a].key
    ensures Precedes(stream, a, b)
  {
    var i := StoredDiscoverer(stream, a, b);
    EarliestEndsBefore(stream, i, b);
    PartOne(stream, i, a);
    hide Run, Environment, EarliestAt;
  }

  /** A key is split at most once, because its finish key is evaluated at most once. */
  lemma {:induction false} SplitOnce(stream: seq<Evaluation>, j: nat, k: NodeKey)
    requires Environment(stream) && SplitAt(stream, j, k)
    ensures forall i :: SplitAt(stream, i, k) ==> i == j
  {
    forall i | SplitAt(stream, i, k) ensures i == j {
      assert PartTwoShape(stream[i]) && PartTwoShape(stream[j]);
    }
  }

  lemma {:induction false} RemappedToFinish(stream: seq<Evaluation>, i: nat, j: nat, k: NodeKey)
    requires Environment(stream) && i < |stream| && i != j && SplitAt(stream, j, k) && k in stream[i].deps
    ensures RemapOne(Run(stream[..i]).finishKeys, k) == stream[j].key
  {
    FinishKeysOfRun(stream[..i], k);
    assert SplitAt(stream[..i], j, k);
    SplitOnce(stream, j, k);
    var m :| SplitAt(stream[..i], m, k) && Run(stream[..i]).finishKeys[k] == stream[..i][m].key;
    assert SplitAt(stream, m, k);
  }

  lemma {:induction false} RemappedAway(stream: seq<Evaluation>, i: nat, j: nat, d: NodeKey, original: bool)
    requires Environment(stream) && i < |stream| && j < |stream| && i != j && stream[j].discovery.Some?
    requires if original then d in stream[i].deps else d.InterpreterResultsKey?
    ensures RemapOne(Run(stream[..i]).finishKeys, d) != stream[j].discovery.value.analysis
  {
    var k := stream[j].discovery.value.analysis;
    assert SplitAt(stream, j, k) && PartTwoShape(stream[j]);
    FinishKeysOfRun(stream[..i], d);
    if d in Run(stream[..i]).finishKeys {
      var m :| SplitAt(stream[..i], m, d) && Run(stream[..i]).finishKeys[d] == stream[..i][m].key;
      assert stream[..i][m] == stream[m] && PartTwoShape(stream[m]);
    } else if d == k {
      assert original;
      RemappedToFinish(stream, i, j, k);
    }
  }

  /** Once a split is known, nothing but its own Part 2 has an edge to its Part 1; the rest point to Part 2. */
  lemma {:induction false} OnlyPartTwoDependsOnPartOne(stream: seq<Evaluation>, j: nat, i: nat)
    requires Environment(stream) && i < |stream| && j < |stream| && stream[j].discovery.Some?
    requires |Run(stream).nodes| == |stream|
    ensures stream[j].discovery.value.analysis in Run(stream).nodes[i].deps <==> i == j
    ensures i != j && stream[j].discovery.value.analysis in stream[i].deps ==>
              stream[j].key in Run(stream).nodes[i].deps
  {
    var k := stream[j].discovery.value.analysis;
    assert SplitAt(stream, j, k) && PartTwoShape(stream[j]);
    NodesOfRun(stream, i);
    var before := Run(stream[..i]);
    var load := LoadEdge(FirstEdgeAfter(before.firstEdge, stream[i]), stream[i]);
    var raw := stream[i].deps + load;
    if i == j {
      FinishKeysOfRun(stream[..i], k);
      SplitOnce(stream, j, k);
      assert k !in before.finishKeys;
      assert raw[0] == k;
      assert Run(stream).nodes[i].deps[0] == k;
    } else {
      forall t | 0 <= t < |raw| ensures RemapOne(before.finishKeys, raw[t]) != k {
        RemappedAway(stream, i, j, raw[t], t < |stream[i].deps|);
      }
      if k in stream[i].deps {
        var t :| 0 <= t < |stream[i].deps| && stream[i].deps[t] == k;
        assert raw[t] == k;
        RemappedToFinish(stream, i, j, k);
        assert Run(stream).nodes[i].deps[t] == stream[j].key;
      }
    }
  }

  // ----- The graph -----

  datatype PushResult = Pushed | DuplicateKey | Overflow

  const MAX_VERTEX: nat := 0x7FFF_FFFF
  const MAX_EDGE: nat := 0xFFFF_FFFF

  /** The indices of the dependencies that are known, in order. */
  function Known<K>(keys: map<K, nat>, deps: seq<K>): (r: seq<nat>) {
    if deps == [] then []
    else Known(keys, deps[..|deps| - 1]) + if deps[|deps| - 1] in keys then [keys[deps[|deps| - 1]]] else []
  }

  lemma {:induction false} KnownMember<K>(keys: map<K, nat>, deps: seq<K>, v: nat)
    requires v in Known(keys, deps)
    ensures exists k :: k in deps && k in keys && keys[k] == v
  {
    var d := deps[|deps| - 1];
    assert deps == deps[..|deps| - 1] + [d];
    if v in Known(keys, deps[..|deps| - 1]) {
      KnownMember(keys, deps[..|deps| - 1], v);
    } else {
      assert d in deps;
    }
  }

  /** Keys are numbered by the order they were pushed in. */
  ghost predicate Numbered<K>(keys: map<K, nat>, names: seq<K>) {
    && NoDuplicates(names)
    && (forall i :: 0 <= i < |names| ==> names[i] in keys && keys[names[i]] == i)
    && (forall k :: k in keys ==> k in names)
  }

  lemma {:induction false} NumberedSnoc<K>(keys: map<K, nat>, names: seq<K>, key: K)
    requires Numbered(keys, names) && key !in keys
    ensures Numbered(keys[key := |names|], names + [key])
  {
    var names' := names + [key];
    forall k | k in keys[key := |names|] ensures k in names' {
      if k == key { assert names'[|names|] == key; }
    }
  }

  lemma {:induction false} KnownInRange<K>(keys: map<K, nat>, names: seq<K>, deps: seq<K>)
    requires Numbered(keys, names)
    ensures forall i :: 0 <= i < |Known(keys, deps)| ==> Known(keys, deps)[i] < |names|
  {
    if deps != [] {
      KnownInRange(keys, names, deps[..|deps| - 1]);
      var d := deps[|deps| - 1];
      if d in keys {
        assert d in names;
        var i :| 0 <= i < |names| && names[i] == d;
      }
    }
  }

  /** The edges of vertex `v` in an array that is still growing. */
  ghost predicate Slice(vertices: seq<GraphVertex>, edges: seq<nat>, v: nat, content: seq<nat>) {
    && v < |vertices| && vertices[v].edgesIdx + vertices[v].edgesCount <= |edges|
    && edges[vertices[v].edgesIdx..vertices[v].edgesIdx + vertices[v].edgesCount] == content
  }

  /** Adding a vertex at the end with its edges at the end keeps all other slices. */
  lemma {:induction false} AppendSlice(vertices: seq<GraphVertex>, edges: seq<nat>, added: seq<nat>, v: nat,
                                       content: seq<nat>)
    requires Slice(vertices, edges, v, content) || (v == |vertices| && content == added)
    ensures Slice(vertices + [GraphVertex(|edges|, |added|)], edges + added, v, content)
  {
    var vertices' := vertices + [GraphVertex(|edges|, |added|)];
    if v < |vertices| {
      var lo, hi := vertices[v].edgesIdx, vertices[v].edgesIdx + vertices[v].edgesCount;
      assert vertices'[v] == vertices[v];
      assert (edges + added)[lo..hi] == edges[lo..hi];
    } else {
      assert vertices'[v] == GraphVertex(|edges|, |added|);
      assert (edges + added)[|edges|..|edges| + |added|] == added;
    }
  }

  lemma {:induction false} AppendVertex(g: Graph, added: seq<nat>)
    requires g.Valid() && Packed(g)
    requires forall i :: 0 <= i < |added| ==> added[i] <= |g.vertices|
    ensures var r := Graph(g.vertices + [GraphVertex(|g.edges|, |added|)], g.edges + added);
            && r.Valid() && Packed(r) && r.Edges(|g.vertices|) == added
            && forall v :: 0 <= v < |g.vertices| ==> r.Edges(v) == g.Edges(v)
  {
    LaidOutSnoc(g.vertices, GraphVertex(|g.edges|, |added|));
    hide LaidOut;
    var r := Graph(g.vertices + [GraphVertex(|g.edges|, |added|)], g.edges + added);
    AppendSlice(g.vertices, g.edges, added, |g.vertices|, added);
    forall v | 0 <= v < |g.vertices| ensures Slice(r.vertices, r.edges, v, g.Edges(v)) {
      assert Slice(g.vertices, g.edges, v, g.Edges(v));
      AppendSlice(g.vertices, g.edges, added, v, g.Edges(v));
    }
    forall i | 0 <= i < |r.edges| ensures r.edges[i] < |r.vertices| {
      if i < |g.edges| { assert r.edges[i] == g.edges[i]; }
    }
  }

  class GraphBuilder<K(==), D> {
    var keys: map<K, nat>
    var data: seq<D>
    var vertices: seq<GraphVertex>
    var edges: seq<nat>
    var names: seq<K>

    ghost predicate Valid()
      reads this
    {
      Built().Valid() && Packed(Built()) && |names| == |vertices| == |data| && Numbered(keys, names)
    }

    function Built(): Graph
      reads this
    {
      Graph(vertices, edges)
    }

    constructor ()
      ensures Valid() && names == [] && data == [] && edges == []
    {
      keys, data, vertices, edges, names := map[], [], [], [], [];
    }

    /** `push`: a new vertex with edges to the dependencies that are already known, itself included. */
    method Push(key: K, deps: seq<K>, d: D) returns (r: PushResult)
      requires Valid()
      modifies this
      ensures r.Pushed? ==> Valid() && key !in old(keys) && names == old(names) + [key] && data == old(data) + [d]
      ensures r.Pushed? ==> Built().Edges(|names| - 1) == Known(keys, deps)
      ensures r.Pushed? ==> |edges| == |old(edges)| + |Known(keys, deps)|
      ensures r.Pushed? ==> forall v :: 0 <= v < |old(names)| ==> Built().Edges(v) == old(Built().Edges(v))
      ensures r.DuplicateKey? ==> key in old(keys)
      ensures r.DuplicateKey? ==>
              Built() == old(Built()) && keys == old(keys) && names == old(names) && data == old(data)
      ensures r.Overflow? <==> old(|vertices|) > MAX_VERTEX || (key !in old(keys) && old(|edges|) > MAX_EDGE)
    {
      var idx := |vertices|;
      if idx > MAX_VERTEX {
        return Overflow;
      }
      if key in keys {
        return DuplicateKey;
      }
      ghost var before, oldKeys, oldNames, newData := Built(), keys, names, data + [d];
      keys := keys[key := idx];
      data := data + [d];
      var edgesIdx := |edges|;
      if edgesIdx > MAX_EDGE {
        return Overflow;
      }
      NumberedSnoc(oldKeys, names, key);
      names := names + [key];
      var edgesCount := 0;
      for i := 0 to |deps|
        invariant keys == oldKeys[key := idx] && names == oldNames + [key] && data == newData
                  && vertices == before.vertices
        invariant edges == before.edges + Known(keys, deps[..i]) && edgesCount == |Known(keys, deps[..i])|
      {
        assert deps[..i + 1][..i] == deps[..i];
        if deps[i] in keys {
          edges := edges + [keys[deps[i]]];
          edgesCount := edgesCount + 1;
        }
      }
      assert deps[..|deps|] == deps;
      vertices := vertices + [GraphVertex(edgesIdx, edgesCount)];
      KnownInRange(keys, names, deps);
      AppendVertex(before, Known(keys, deps));
      r := Pushed;
    }
  }

  /** The inner loops: a vertex's own edges, then the extra one. */
  method CopyEdges(before: seq<nat>, own: seq<nat>, extra: Option<nat>) returns (edges: seq<nat>)
    ensures edges == before + (own + (if extra.Some? then [extra.value] else []))
  {
    edges := before;
    for i := 0 to |own|
      invariant edges == before + own[..i]
    {
      edges := edges + [own[i]];
    }
    if extra.Some? {
      edges := edges + [extra.value];
    }
  }

  /** The dependencies of a vertex with the extra one appended. */
  function Extended(g: Graph, add: seq<Option<nat>>, v: nat): (r: seq<nat>)
    requires g.Valid() && v < |g.vertices| == |add|
  {
    g.Edges(v) + (if add[v].Some? then [add[v].value] else [])
  }

  /** The first vertices of the new graph, complete with their edges. */
  ghost predicate Partial(g: Graph, add: seq<Option<nat>>, r: Graph)
    requires g.Valid() && |add| == |g.vertices|
  {
    && |r.vertices| <= |g.vertices| && Packed(r)
    && (forall i :: 0 <= i < |r.edges| ==> r.edges[i] < |g.vertices|)
    && (forall v :: 0 <= v < |r.vertices| ==> Slice(r.vertices, r.edges, v, Extended(g, add, v)))
  }

  lemma {:induction false} PartialSnoc(g: Graph, add: seq<Option<nat>>, r: Graph)
    requires g.Valid() && |add| == |g.vertices| && Partial(g, add, r) && |r.vertices| < |g.vertices|
    requires forall v :: 0 <= v < |add| && add[v].Some? ==> add[v].value < |g.vertices|
    ensures var next := Extended(g, add, |r.vertices|);
            Partial(g, add, Graph(r.vertices + [GraphVertex(|r.edges|, |next|)], r.edges + next))
  {
    var from := |r.vertices|;
    var next := Extended(g, add, from);
    LaidOutSnoc(r.vertices, GraphVertex(|r.edges|, |next|));
    hide LaidOut, Slice;
    var r' := Graph(r.vertices + [GraphVertex(|r.edges|, |next|)], r.edges + next);
    forall v | 0 <= v < |r'.vertices| ensures Slice(r'.vertices, r'.edges, v, Extended(g, add, v)) {
      AppendSlice(r.vertices, r.edges, next, v, Extended(g, add, v));
    }
  }

  lemma {:induction false} PartialDone(g: Graph, add: seq<Option<nat>>, r: Graph)
    requires g.Valid() && |add| == |g.vertices| == |r.vertices| && Partial(g, add, r)
    ensures r.Valid() && Packed(r)
    ensures forall v :: 0 <= v < |add| ==> r.Edges(v) == Extended(g, add, v)
  {
    hide LaidOut;
    forall v | 0 <= v < |r.vertices| ensures r.vertices[v].edgesIdx + r.vertices[v].edgesCount <= |r.edges| {
      assert Slice(r.vertices, r.edges, v, Extended(g, add, v));
    }
    forall v | 0 <= v < |add| ensures r.Edges(v) == Extended(g, add, v) {
      assert Slice(r.vertices, r.edges, v, Extended(g, add, v));
    }
  }

  /** `add_edges` with at most one extra edge per vertex. */
  method AddEdges(g: Graph, add: seq<Option<nat>>) returns (r: Graph)
    requires g.Valid() && |add| == |g.vertices|
    requires forall v :: 0 <= v < |add| && add[v].Some? ==> add[v].value < |g.vertices|
    ensures |r.vertices| == |g.vertices| && r.Valid() && Packed(r)
    ensures forall v :: 0 <= v < |add| ==> r.Edges(v) == Extended(g, add, v)
  {
    r := Graph([], []);
    assert Partial(g, add, r);
    hide Partial, LaidOut;
    for from := 0 to |g.vertices|
      invariant |r.vertices| == from && Partial(g, add, r)
    {
      var edges := CopyEdges(r.edges, g.Edges(from), add[from]);
      PartialSnoc(g, add, r);
      r := Graph(r.vertices + [GraphVertex(|r.edges|, |edges| - |r.edges|)], edges);
    }
    PartialDone(g, add, r);
  }

  // ----- The backend -----

  /** A known dependency is one whose key has been pushed. */
  lemma {:induction false} KnownIff<K>(keys: map<K, nat>, names: seq<K>, deps: seq<K>, a: nat)
    requires Numbered(keys, names)
    ensures a in Known(keys, deps) <==> a < |names| && names[a] in deps
  {
    if deps != [] {
      var rest, d := deps[..|deps| - 1], deps[|deps| - 1];
      KnownIff(keys, names, rest, a);
      assert deps == rest + [d];
      if d in keys {
        assert d in names;
        var i :| 0 <= i < |names| && names[i] == d;
        assert keys[d] == i;
      }
    }
  }

  /** The node of evaluation `b` was passed on with a dependency on `a`, which had been passed on by then. */
  ghost predicate DependsOn(stream: seq<Evaluation>, a: nat, b: nat)
    requires |Run(stream).nodes| == |stream| && b < |stream|
  {
    a <= b && stream[a].key in Run(stream).nodes[b].deps
  }

  /** The vertices are the evaluations so far, and their edges the rewritten dependencies pushed before them. */
  ghost predicate Mirrors(stream: seq<Evaluation>, g: Graph, names: seq<NodeKey>, data: seq<Node>)
    requires |Run(stream).nodes| == |stream|
  {
    && g.Valid() && |g.vertices| == |names| == |data| <= |stream|
    && (forall v :: 0 <= v < |names| ==> names[v] == stream[v].key && data[v] == Run(stream).nodes[v])
    && (forall a: nat, b :: 0 <= b < |names| ==> (g.Edge(a, b) <==> DependsOn(stream, a, b)))
  }

  /** `b` is an anon target and `a` the Part 1 stored as its discoverer. */
  ghost predicate DiscoveredBy(stream: seq<Evaluation>, a: nat, b: nat)
    requires a < |stream| && b < |stream|
  {
    var m := Run(stream).discoverers;
    stream[b].key in m && m[stream[b].key].0 == stream[a].key
  }

  lemma {:induction false} MirrorsSnoc(stream: seq<Evaluation>, g: Graph, g': Graph, keys: map<NodeKey, nat>,
                                       names: seq<NodeKey>, data: seq<Node>)
    requires |Run(stream).nodes| == |stream| && |names| < |stream| && Mirrors(stream, g, names, data)
    requires var i := |names|;
             && Numbered(keys, names + [stream[i].key]) && g'.Valid() && |g'.vertices| == i + 1
             && g'.Edges(i) == Known(keys, Run(stream).nodes[i].deps)
             && forall v :: 0 <= v < i ==> g'.Edges(v) == g.Edges(v)
    ensures Mirrors(stream, g', names + [stream[|names|].key], data + [Run(stream).nodes[|names|]])
  {
    hide Run;
    var i := |names|;
    var names' := names + [stream[i].key];
    forall a: nat, b | 0 <= b < |names'| ensures g'.Edge(a, b) <==> DependsOn(stream, a, b) {
      if b < i {
        assert g'.Edges(b) == g.Edges(b);
        assert g'.Edge(a, b) <==> g.Edge(a, b);
      } else {
        KnownIff(keys, names', Run(stream).nodes[i].deps, a);
        assert a < |names'| ==> names'[a] == stream[a].key;
      }
    }
  }

  function KeysOf(stream: seq<Evaluation>): (r: seq<NodeKey>)
    ensures |r| == |stream| && forall v :: 0 <= v < |r| ==> r[v] == stream[v].key
  {
    seq(|stream|, v requires 0 <= v < |stream| => stream[v].key)
  }

  /** The graph of the dependencies alone. */
  ghost predicate IsBase(stream: seq<Evaluation>, g: Graph)
    requires |Run(stream).nodes| == |stream|
  {
    && g.Valid() && |g.vertices| == |stream|
    && forall a: nat, b :: 0 <= b < |stream| ==> (g.Edge(a, b) <==> DependsOn(stream, a, b))
  }

  /**
   The vertices of the finished graph are the evaluations; its edges are the dependencies, the labels by top-level
   targets, and the discoveries of what has no label.
   */
  ghost predicate Completes(stream: seq<Evaluation>, targets: TopLevelEdges.Targets, base: Graph,
                            keys: map<NodeKey, nat>, labels: seq<Option<nat>>, g: Graph)
    requires |Run(stream).nodes| == |stream| && g.Valid() && |g.vertices| == |stream|
  {
    && IsBase(stream, base) && Numbered(keys, KeysOf(stream))
    && TopLevelEdges.Labelled(base, KeysOf(stream), TopLevelEdges.Roots(keys, targets), labels)
    && forall a: nat, b :: 0 <= b < |stream| ==>
         (g.Edge(a, b) <==>
          || DependsOn(stream, a, b) || labels[b] == Some(a)
          || (labels[b].None? && a < |stream| && DiscoveredBy(stream, a, b)))
  }

  /** `a` is the analysis that first asked for `b`. */
  ghost predicate LabelledBy(stream: seq<Evaluation>, targets: TopLevelEdges.Targets, a: nat, b: nat)
    requires |Run(stream).nodes| == |stream| && b < |stream|
  {
    exists base, keys, labels ::
      && IsBase(stream, base) && Numbered(keys, KeysOf(stream))
      && TopLevelEdges.Labelled(base, KeysOf(stream), TopLevelEdges.Roots(keys, targets), labels)
        && labels[b] == Some(a)
  }

  ghost predicate Describes(stream: seq<Evaluation>, targets: TopLevelEdges.Targets, g: Graph)
    requires |Run(stream).nodes| == |stream|
  {
    && g.Valid() && |g.vertices| == |stream|
    && exists base, keys, labels :: Completes(stream, targets, base, keys, labels, g)
  }

  /** `b` was passed on with an edge to `a`, or `a` discovered it. */
  ghost predicate Linked(stream: seq<Evaluation>, a: nat, b: nat)
    requires |Run(stream).nodes| == |stream| && a < |stream| && b < |stream|
  {
    DependsOn(stream, a, b) || DiscoveredBy(stream, a, b)
  }

  ghost predicate Chain(stream: seq<Evaluation>, p: seq<nat>)
    requires |Run(stream).nodes| == |stream|
  {
    && (forall i :: 0 <= i < |p| ==> p[i] < |stream|)
    && forall i, j :: 0 <= i && j == i + 1 && j < |p| ==> Linked(stream, p[i], p[j])
  }

  /** `v` produces an artifact or depends on a node that does, through any number of others. */
  ghost predicate Late(stream: seq<Evaluation>, v: nat)
    requires |Run(stream).nodes| == |stream|
  {
    exists p :: Chain(stream, p) && |p| > 0 && p[|p| - 1] == v && stream[p[0]].key.ArtifactKey?
  }

  ghost predicate IsAnalysisOf(k: NodeKey, target: string) {
    k == AnalysisKey(target) || k == AnalysisFinishKey(target)
  }

  /** What is assumed of top-level targets: nothing is built for the sake of their analyses. */
  ghost predicate AnalysesFirst(stream: seq<Evaluation>, targets: TopLevelEdges.Targets)
    requires |Run(stream).nodes| == |stream|
  {
    forall v, t :: 0 <= v < |stream| && t in targets && IsAnalysisOf(stream[v].key, t.target) ==> !Late(stream, v)
  }

  lemma {:induction false} LateNext(stream: seq<Evaluation>, a: nat, b: nat)
    requires |Run(stream).nodes| == |stream| && a < |stream| && b < |stream| && Linked(stream, a, b) && Late(stream, a)
    ensures Late(stream, b)
  {
    hide Linked, Run;
    var p :| Chain(stream, p) && |p| > 0 && p[|p| - 1] == a && stream[p[0]].key.ArtifactKey?;
    var q := p + [b];
    forall i, j | 0 <= i && j == i + 1 && j < |q| ensures Linked(stream, q[i], q[j]) {
      if j < |p| { assert Linked(stream, p[i], p[j]); }
    }
    assert Chain(stream, q) && q[|q| - 1] == b && q[0] == p[0];
  }

  lemma {:induction false} ArtifactIsLate(stream: seq<Evaluation>, v: nat)
    requires |Run(stream).nodes| == |stream| && v < |stream| && stream[v].key.ArtifactKey?
    ensures Late(stream, v)
  {
    hide Linked, Run;
    assert Chain(stream, [v]) && [v][|[v]| - 1] == v;
  }

  /** A number given to a key is the place of that key. */
  lemma {:induction false} NumberOf<K>(keys: map<K, nat>, names: seq<K>, k: K)
    requires Numbered(keys, names) && k in keys
    ensures keys[k] < |names| && names[keys[k]] == k
  {
    assert k in names;
    var i :| 0 <= i < |names| && names[i] == k;
  }

  /** A label is the vertex of the analysis of a top-level target, and what it labels produces an artifact. */
  lemma {:induction false} LabelFacts(g: Graph, names: seq<NodeKey>, keys: map<NodeKey, nat>,
                                      targets: TopLevelEdges.Targets, labels: seq<Option<nat>>, b: nat)
    requires g.Valid() && |names| == |g.vertices| && Numbered(keys, names)
    requires TopLevelEdges.Labelled(g, names, TopLevelEdges.Roots(keys, targets), labels) && b < |labels|
             && labels[b].Some?
    ensures |labels| == |names| && names[b].ArtifactKey? && labels[b].value < |names|
    ensures exists t :: t in targets && IsAnalysisOf(names[labels[b].value], t.target)
  {
    var roots := TopLevelEdges.Roots(keys, targets);
    TopLevelEdges.OnlyArtifacts(g, names, roots, labels, b);
    var i :| 0 <= i < |roots| && roots[i].0 == labels[b].value;
    TopLevelEdges.RootsAreAnalyses(keys, targets, i);
    hide Numbered, TopLevelEdges.Labelled, TopLevelEdges.Roots;
    var t :| t in targets && TopLevelEdges.AnalysisOf(keys, t.target) == Some(roots[i].0);
    NumberOf(keys, names, if AnalysisFinishKey(t.target) in keys then AnalysisFinishKey(t.target)
      else AnalysisKey(t.target));
    assert IsAnalysisOf(names[labels[b].value], t.target);
  }

  /** The order all edges agree with: what produces artifacts, and what depends on that, comes last. */
  ghost predicate Comes(stream: seq<Evaluation>, a: nat, b: nat)
    requires |Run(stream).nodes| == |stream| && a < |stream| && b < |stream|
  {
    if Late(stream, a) != Late(stream, b) then Late(stream, b) else Precedes(stream, a, b)
  }

  lemma {:induction false} LinkComes(stream: seq<Evaluation>, a: nat, b: nat)
    requires Environment(stream) && |Run(stream).nodes| == |stream| && a < |stream| && b < |stream|
             && Linked(stream, a, b)
    ensures Comes(stream, a, b)
  {
    if DependsOn(stream, a, b) {
      NodeEdgePrecedes(stream, a, b);
    } else {
      DiscoveryEdgePrecedes(stream, a, b);
    }
    hide Run, Environment, Precedes, Late, Linked;
    if Late(stream, a) { LateNext(stream, a, b); }
  }

  lemma {:induction false} LabelComes(stream: seq<Evaluation>, targets: TopLevelEdges.Targets, a: nat, b: nat)
    requires |Run(stream).nodes| == |stream| && AnalysesFirst(stream, targets) && a < |stream| && b < |stream|
    requires stream[b].key.ArtifactKey? && exists t :: t in targets && IsAnalysisOf(stream[a].key, t.target)
    ensures Comes(stream, a, b)
  {
    hide Run, Late;
    ArtifactIsLate(stream, b);
  }

  lemma {:induction false} EdgeComes(stream: seq<Evaluation>, targets: TopLevelEdges.Targets, g: Graph, a: nat, b: nat)
    requires |Run(stream).nodes| == |stream| && Environment(stream) && AnalysesFirst(stream, targets)
             && Describes(stream, targets, g)
    requires g.Edge(a, b)
    ensures a < |stream| && b < |stream| && Comes(stream, a, b)
  {
    hide Run, Environment, Comes, Late, TopLevelEdges.Labelled, Numbered;
    var base, keys, labels :| Completes(stream, targets, base, keys, labels, g);
    TopLevelEdges.LabelsLength(base, KeysOf(stream), TopLevelEdges.Roots(keys, targets), labels);
    if labels[b] == Some(a) {
      LabelFacts(base, KeysOf(stream), keys, targets, labels, b);
      LabelComes(stream, targets, a, b);
    } else {
      assert Linked(stream, a, b);
      LinkComes(stream, a, b);
    }
  }

  lemma {:induction false} ComesTrans(stream: seq<Evaluation>, a: nat, b: nat, c: nat)
    requires |Run(stream).nodes| == |stream| && a < |stream| && b < |stream| && c < |stream|
    requires Comes(stream, a, b) && Comes(stream, b, c)
    ensures Comes(stream, a, c)
  {
    hide Run, Late;
  }

  lemma {:induction false} ComesAlong(stream: seq<Evaluation>, targets: TopLevelEdges.Targets, g: Graph, p: seq<nat>,
                                      j: nat)
    requires |Run(stream).nodes| == |stream| && Environment(stream) && AnalysesFirst(stream, targets)
             && Describes(stream, targets, g)
    requires g.Path(p) && 0 < j < |p|
    ensures p[0] < |stream| && p[j] < |stream| && Comes(stream, p[0], p[j])
  {
    assert g.Edge(p[j - 1], p[j]);
    hide Run, Environment, AnalysesFirst, Completes, Comes, Graph.Edge;
    EdgeComes(stream, targets, g, p[j - 1], p[j]);
    if j > 1 {
      ComesAlong(stream, targets, g, p, j - 1);
      ComesTrans(stream, p[0], p[j - 1], p[j]);
    }
  }

  /** For every stream that meets the assumptions, dependencies, labels and discoveries together have no cycle. */
  lemma {:induction false} SignalGraphIsAcyclic(stream: seq<Evaluation>, targets: TopLevelEdges.Targets, g: Graph)
    requires |Run(stream).nodes| == |stream| && Environment(stream) && AnalysesFirst(stream, targets)
             && Describes(stream, targets, g)
    ensures g.Acyclic()
  {
    hide Run, Environment, AnalysesFirst, Completes, Late;
    forall p ensures !g.Cycle(p) {
      if g.Cycle(p) {
        ComesAlong(stream, targets, g, p, |p| - 1);
        assert false;
      }
    }
  }

  lemma {:induction false} RunLength(stream: seq<Evaluation>)
    ensures |Run(stream).nodes| == |stream|
  {
    if stream != [] { NodesOfRun(stream, 0); }
  }

  /** The distinct keys of the nodes, in order: the vertices that were pushed. */
  function NamesOf(nodes: seq<Node>): seq<NodeKey> {
    if nodes == [] then []
    else
      var names, key := NamesOf(nodes[..|nodes| - 1]), nodes[|nodes| - 1].key;
      if key in names then names else names + [key]
  }

  function CountIn(names: seq<NodeKey>, deps: seq<NodeKey>): nat {
    if deps == [] then 0 else CountIn(names, deps[..|deps| - 1]) + if deps[|deps| - 1] in names then 1 else 0
  }

  /** The edges that were pushed with them: a node's dependencies that had a vertex by then. */
  function EdgeCount(nodes: seq<Node>): nat {
    if nodes == [] then 0
    else
      var before, last := nodes[..|nodes| - 1], nodes[|nodes| - 1];
      EdgeCount(before) + if last.key in NamesOf(before) then 0 else CountIn(NamesOf(before) + [last.key], last.deps)
  }

  /** There is no room left for the node after the given ones. */
  predicate FullAt(nodes: seq<Node>, i: nat)
    requires i < |nodes|
  {
    || |NamesOf(nodes[..i])| > MAX_VERTEX
    || (nodes[i].key !in NamesOf(nodes[..i]) && EdgeCount(nodes[..i]) > MAX_EDGE)
  }

  ghost predicate Overflows(nodes: seq<Node>) {
    exists i :: 0 <= i < |nodes| && FullAt(nodes, i)
  }

  function TotalDeps(nodes: seq<Node>): nat {
    if nodes == [] then 0 else TotalDeps(nodes[..|nodes| - 1]) + |nodes[|nodes| - 1].deps|
  }

  lemma {:induction false} CountInBounded(names: seq<NodeKey>, deps: seq<NodeKey>)
    ensures CountIn(names, deps) <= |deps|
  {
    if deps != [] { CountInBounded(names, deps[..|deps| - 1]); }
  }

  lemma {:induction false} LastNodeBounded(nodes: seq<Node>)
    requires nodes != []
    ensures var before := nodes[..|nodes| - 1];
            && |NamesOf(nodes)| <= |NamesOf(before)| + 1 && TotalDeps(before) <= TotalDeps(nodes)
            && EdgeCount(nodes) - EdgeCount(before) <= TotalDeps(nodes) - TotalDeps(before)
  {
    var n := |nodes| - 1;
    CountInBounded(NamesOf(nodes[..n]) + [nodes[n].key], nodes[n].deps);
  }

  lemma {:induction false} SizesBounded(nodes: seq<Node>, i: nat)
    requires i <= |nodes|
    ensures |NamesOf(nodes[..i])| <= i && EdgeCount(nodes[..i]) <= TotalDeps(nodes)
    decreases |nodes|
  {
    if nodes == [] {
      assert nodes[..i] == [];
    } else {
      var n := |nodes| - 1;
      LastNodeBounded(nodes);
      hide NamesOf, EdgeCount, TotalDeps;
      if i <= n {
        SizesBounded(nodes[..n], i);
        assert nodes[..n][..i] == nodes[..i];
      } else {
        SizesBounded(nodes[..n], n);
        assert nodes[..i] == nodes && nodes[..n][..n] == nodes[..n];
      }
    }
  }

  /** Up to the limits on vertices and edges nothing overflows. */
  lemma {:induction false} FitsWithinLimits(nodes: seq<Node>)
    requires |nodes| <= MAX_VERTEX + 1 && TotalDeps(nodes) <= MAX_EDGE
    ensures !Overflows(nodes)
  {
    forall i | 0 <= i < |nodes| ensures !FullAt(nodes, i) {
      SizesBounded(nodes, i);
    }
  }

  lemma {:induction false} KnownCounts(keys: map<NodeKey, nat>, names: seq<NodeKey>, deps: seq<NodeKey>)
    requires Numbered(keys, names)
    ensures |Known(keys, deps)| == CountIn(names, deps)
  {
    if deps != [] {
      KnownCounts(keys, names, deps[..|deps| - 1]);
      assert deps[|deps| - 1] in keys <==> deps[|deps| - 1] in names;
    }
  }

  /** The builder holds what was pushed of the first `i` nodes. */
  ghost predicate Holds(nodes: seq<Node>, i: nat, names: seq<NodeKey>, edges: nat)
    requires i <= |nodes|
  {
    names == NamesOf(nodes[..i]) && edges == EdgeCount(nodes[..i])
  }

  lemma {:induction false} HoldsAfterDuplicate(nodes: seq<Node>, i: nat, keys: map<NodeKey, nat>, names: seq<NodeKey>,
                                               edges: nat)
    requires i < |nodes| && Holds(nodes, i, names, edges) && Numbered(keys, names)
    requires nodes[i].key in keys
    ensures Holds(nodes, i + 1, names, edges)
  {
    assert nodes[..i + 1][..i] == nodes[..i];
    assert nodes[i].key in names;
  }

  lemma {:induction false} LastIsNew<K>(names: seq<K>, key: K)
    requires NoDuplicates(names + [key])
    ensures key !in names
  {
    var more := names + [key];
    forall j | 0 <= j < |names| ensures names[j] != key {
      assert more[j] != more[|names|];
    }
  }

  lemma {:induction false} HoldsAfterPush(nodes: seq<Node>, i: nat, keys: map<NodeKey, nat>, names: seq<NodeKey>,
                                          edges: nat)
    requires i < |nodes| && Holds(nodes, i, names, edges) && Numbered(keys, names + [nodes[i].key])
    ensures Holds(nodes, i + 1, names + [nodes[i].key], edges + |Known(keys, nodes[i].deps)|)
  {
    assert nodes[..i + 1][..i] == nodes[..i];
    KnownCounts(keys, names + [nodes[i].key], nodes[i].deps);
    LastIsNew(names, nodes[i].key);
    hide Numbered, CountIn, Known;
  }

  /** The builder after the first `i` nodes of a run. */
  ghost predicate Pushing(stream: seq<Evaluation>, nodes: seq<Node>, i: nat, builder: GraphBuilder<NodeKey, Node>)
    requires |Run(stream).nodes| == |stream| && i <= |nodes|
    reads builder
  {
    && builder.Valid() && Holds(nodes, i, builder.names, |builder.edges|)
    && (Environment(stream) ==>
          Mirrors(stream, builder.Built(), builder.names, builder.data) && |builder.names| == i)
  }

  lemma {:induction false} FullExactly(nodes: seq<Node>, i: nat, keys: map<NodeKey, nat>, names: seq<NodeKey>,
                                       edges: nat)
    requires i < |nodes| && Holds(nodes, i, names, edges) && Numbered(keys, names)
    ensures FullAt(nodes, i) <==> |names| > MAX_VERTEX || (nodes[i].key !in keys && edges > MAX_EDGE)
  {
    assert nodes[i].key in keys <==> nodes[i].key in names;
  }

  lemma {:induction false} FreshKey(stream: seq<Evaluation>, g: Graph, keys: map<NodeKey, nat>, names: seq<NodeKey>,
                                    data: seq<Node>, i: nat)
    requires Environment(stream) && i < |stream| && |names| == i && Numbered(keys, names)
    requires |Run(stream).nodes| == |stream| && Mirrors(stream, g, names, data)
    ensures Run(stream).nodes[i].key !in keys
  {
    NodesOfRun(stream, i);
    forall v | 0 <= v < |names| ensures names[v] != stream[i].key {
      assert names[v] == stream[v].key;
    }
    assert stream[i].key !in names;
  }

  /** One `process_node` call; a duplicate key is reported and skipped. */
  method PushNext(ghost stream: seq<Evaluation>, nodes: seq<Node>, i: nat, builder: GraphBuilder<NodeKey, Node>)
    returns (overflow: bool)
    requires |Run(stream).nodes| == |stream| && nodes == Run(stream).nodes && i < |nodes|
    requires Pushing(stream, nodes, i, builder)
    modifies builder
    ensures overflow <==> FullAt(nodes, i)
    ensures !overflow ==> Pushing(stream, nodes, i + 1, builder)
  {
    hide Run, Environment, Mirrors, Numbered, Holds, FullAt, Known, Graph.Valid, LaidOut, Graph.Edges;
    ghost var g, keys, names, data := builder.Built(), builder.keys, builder.names, builder.data;
    FullExactly(nodes, i, keys, names, |builder.edges|);
    var r := builder.Push(nodes[i].key, nodes[i].deps, nodes[i]);
    overflow := r.Overflow?;
    if r.DuplicateKey? {
      HoldsAfterDuplicate(nodes, i, keys, names, |g.edges|);
      if Environment(stream) {
        FreshKey(stream, g, keys, names, data, i);
        assert false;
      }
    } else if r.Pushed? {
      HoldsAfterPush(nodes, i, builder.keys, names, |g.edges|);
      if Environment(stream) {
        NodesOfRun(stream, i);
        MirrorsSnoc(stream, g, builder.Built(), builder.keys, names, data);
      }
    }
  }

  lemma {:induction false} NothingPushed(stream: seq<Evaluation>, g: Graph)
    requires |Run(stream).nodes| == |stream| && g.Valid() && g.vertices == []
    ensures Mirrors(stream, g, [], [])
  {
  }

  lemma {:induction false} StartPushing(stream: seq<Evaluation>, nodes: seq<Node>, builder: GraphBuilder<NodeKey, Node>)
    requires |Run(stream).nodes| == |stream| && builder.Valid() && builder.names == [] && builder.data == []
             && builder.edges == []
    ensures Pushing(stream, nodes, 0, builder)
  {
    assert nodes[..0] == [] && Holds(nodes, 0, [], 0);
    NothingPushed(stream, builder.Built());
    hide Run, Environment, Mirrors, Numbered, Holds, LaidOut;
  }

  /** The `process_node` calls of a run, one by one, up to the first that finds no room. */
  method PushAll(ghost stream: seq<Evaluation>, nodes: seq<Node>, builder: GraphBuilder<NodeKey, Node>)
    returns (overflow: bool)
    requires |Run(stream).nodes| == |stream| && nodes == Run(stream).nodes
    requires builder.Valid() && builder.names == [] && builder.data == [] && builder.edges == []
    modifies builder
    ensures overflow <==> Overflows(nodes)
    ensures !overflow ==> Pushing(stream, nodes, |nodes|, builder)
  {
    hide Run, Environment, Pushing, FullAt, GraphBuilder.Valid;
    StartPushing(stream, nodes, builder);
    for i := 0 to |nodes|
      invariant Pushing(stream, nodes, i, builder) && forall k :: 0 <= k < i ==> !FullAt(nodes, k)
    {
      var full := PushNext(stream, nodes, i, builder);
      if full {
        return true;
      }
    }
    overflow := false;
  }

  /** One optional extra dependency per vertex: its label, or else its discoverer. */
  ghost predicate Discovered(names: seq<NodeKey>, labels: seq<Option<nat>>, m: map<NodeKey, (NodeKey, nat)>,
                             add: seq<Option<nat>>) {
    && |add| == |labels| == |names|
    && (forall b :: 0 <= b < |names| && labels[b].Some? ==> add[b] == labels[b])
    && forall a: nat, b :: 0 <= b < |names| && labels[b].None? ==>
         (add[b] == Some(a) <==> a < |names| && names[b] in m && m[names[b]].0 == names[a])
  }

  /** The loop over discovery edges in `finish`: edges whose ends were not both evaluated are left out. */
  method DiscoveryEdges(keys: map<NodeKey, nat>, ghost names: seq<NodeKey>, labels: seq<Option<nat>>,
                        m: map<NodeKey, (NodeKey, nat)>)
    returns (add: seq<Option<nat>>)
    requires Numbered(keys, names) && |labels| == |names|
    ensures Discovered(names, labels, m, add)
  {
    ghost var n := |names|;
    add := labels;
    var left := m.Keys;
    while left != {}
      invariant left <= m.Keys && |add| == n
      invariant forall b :: 0 <= b < n && labels[b].Some? ==> add[b] == labels[b]
      invariant forall a: nat, b :: 0 <= b < n && labels[b].None? ==>
                  (add[b] == Some(a) <==> a < n && names[b] in m.Keys - left && m[names[b]].0 == names[a])
      decreases left
    {
      var anon :| anon in left;
      left := left - {anon};
      var discoverer := m[anon].0;
      if anon in keys && discoverer in keys {
        assert anon in names && discoverer in names;
        if add[keys[anon]].None? {
          add := add[keys[anon] := Some(keys[discoverer])];
        }
      }
    }
  }

  lemma {:induction false} FinishedGraph(stream: seq<Evaluation>, targets: TopLevelEdges.Targets, g: Graph,
                                         keys: map<NodeKey, nat>, names: seq<NodeKey>, data: seq<Node>,
                                         labels: seq<Option<nat>>, add: seq<Option<nat>>, r: Graph)
    requires |Run(stream).nodes| == |stream| == |names| && Mirrors(stream, g, names, data) && Numbered(keys, names)
    requires TopLevelEdges.Labelled(g, names, TopLevelEdges.Roots(keys, targets), labels)
    requires Discovered(names, labels, Run(stream).discoverers, add)
    requires r.Valid() && |r.vertices| == |g.vertices|
    requires forall v :: 0 <= v < |add| ==> r.Edges(v) == Extended(g, add, v)
    ensures Describes(stream, targets, r)
  {
    hide Run, Numbered, TopLevelEdges.Labelled, TopLevelEdges.Roots;
    assert names == KeysOf(stream);
    assert IsBase(stream, g);
    forall a: nat, b | 0 <= b < |stream|
      ensures r.Edge(a, b) <==> || DependsOn(stream, a, b) || labels[b] == Some(a)
                                || (labels[b].None? && a < |stream| && DiscoveredBy(stream, a, b))
    {
      assert r.Edges(b) == Extended(g, add, b);
      assert g.Edge(a, b) <==> DependsOn(stream, a, b);
      assert a in Extended(g, add, b) <==> a in g.Edges(b) || add[b] == Some(a);
    }
    assert Completes(stream, targets, g, keys, labels, r);
  }

  datatype BackendResult =
    | Overflowed
    | Solved(graph: Graph, weights: seq<nat>, potential: Potentials.Potential)

  function Durations(nodes: seq<Node>): (r: seq<nat>)
    ensures |r| == |nodes|
  {
    seq(|nodes|, v requires 0 <= v < |nodes| => nodes[v].span.duration)
  }

  lemma {:induction false} AddedInRange(g: Graph, keys: map<NodeKey, nat>, names: seq<NodeKey>,
                                        targets: TopLevelEdges.Targets, labels: seq<Option<nat>>,
                                        m: map<NodeKey, (NodeKey, nat)>, add: seq<Option<nat>>)
    requires g.Valid() && |names| == |g.vertices| && Numbered(keys, names)
    requires TopLevelEdges.Labelled(g, names, TopLevelEdges.Roots(keys, targets), labels)
             && Discovered(names, labels, m, add)
    ensures |add| == |names| && forall v :: 0 <= v < |add| && add[v].Some? ==> add[v].value < |names|
  {
    hide Numbered, TopLevelEdges.Labelled, TopLevelEdges.Roots;
    forall v | 0 <= v < |add| && add[v].Some? ensures add[v].value < |names| {
      if labels[v].Some? {
        LabelFacts(g, names, keys, targets, labels, v);
      } else {
        assert add[v] == Some(add[v].value);
      }
    }
  }

  lemma {:induction false} MirroredData(stream: seq<Evaluation>, g: Graph, names: seq<NodeKey>, data: seq<Node>)
    requires |Run(stream).nodes| == |stream| == |names| && Mirrors(stream, g, names, data)
    ensures data == Run(stream).nodes
  {
  }

  /**
   From the signals of a build to its critical path: the receiver's run, the graph, the edges to top-level analyses, the
   discovery edges and the potentials. If the stream meets the assumptions, no cycle is ever reported.
   */
  method CriticalPathOf(stream: seq<Evaluation>, targets: TopLevelEdges.Targets) returns (r: BackendResult)
    ensures r.Overflowed? <==> Overflows(Run(stream).nodes)
    ensures r.Solved? ==> r.graph.Valid() && |r.weights| == |r.graph.vertices|
    ensures r.Solved? && r.potential.Potential? ==> Potentials.Correct(r.graph, r.weights, r.potential)
    ensures r.Solved? && Environment(stream) ==>
              && |Run(stream).nodes| == |stream| && Describes(stream, targets, r.graph)
              && r.weights == Durations(Run(stream).nodes)
              && (AnalysesFirst(stream, targets) ==> r.potential.Potential?)
  {
    var receiver := new BuildSignalReceiver();
    receiver.RunAll(stream);
    RunLength(stream);
    var builder := new GraphBuilder<NodeKey, Node>();
    var overflow := PushAll(stream, receiver.nodes, builder);
    if overflow {
      return Overflowed;
    }
    hide Run, Environment, Mirrors, Numbered, Overflows, Holds, Describes, Potentials.Correct, Graph.Acyclic, LaidOut,
         Discovered, AnalysesFirst, TopLevelEdges.Labelled, TopLevelEdges.Roots;
    var keys, names, base := builder.keys, builder.names, builder.Built();
    forall k | k in keys ensures keys[k] < |names| { NumberOf(keys, names, k); }
    var labels := TopLevelEdges.LabelAll(base, names, keys, targets);
    TopLevelEdges.LabelsLength(base, names, TopLevelEdges.Roots(keys, targets), labels);
    var add := DiscoveryEdges(keys, names, labels, receiver.firstAnalysisForAnonTarget);
    AddedInRange(base, keys, names, targets, labels, receiver.firstAnalysisForAnonTarget, add);
    var graph := AddEdges(base, add);
    var weights := Durations(builder.data);
    var potential := Potentials.ComputePotentials(graph, weights);
    if Environment(stream) {
      FinishedGraph(stream, targets, base, keys, names, builder.data, labels, add, graph);
      MirroredData(stream, base, names, builder.data);
      if AnalysesFirst(stream, targets) {
        SignalGraphIsAcyclic(stream, targets, graph);
      }
    }
    r := Solved(graph, weights, potential);
  }

  // ----- Why analyses come first -----

  const ARTIFACT := ArtifactKey("build", "x")

  /** An analysis that is started only after an artifact was built for it. */
  const BUILT_FOR_ANALYSIS: seq<Evaluation> :=
    [Evaluation(ARTIFACT, Span(1, 1), [], None, None), Evaluation(AnalysisKey("t"), Span(2, 1), [ARTIFACT], None, None)]

  /** The same artifact is requested at top level for the analysed target. */
  const REQUESTED: TopLevelEdges.Targets := [TopLevelEdges.TopLevelTarget("t", [ARTIFACT])]

  lemma {:induction false} BuiltForAnalysisEnvironment()
    ensures Environment(BUILT_FOR_ANALYSIS)
  {
    var stream := BUILT_FOR_ANALYSIS;
    assert forall i, k :: !SplitAt(stream, i, k) && !DiscoversAt(stream, i, k);
  }

  lemma {:induction false} BuiltForAnalysisRun()
    ensures |Run(BUILT_FOR_ANALYSIS).nodes| == |BUILT_FOR_ANALYSIS|
    ensures DependsOn(BUILT_FOR_ANALYSIS, 0, 1)
  {
    var stream := BUILT_FOR_ANALYSIS;
    NodesOfRun(stream, 1);
    assert stream[..1] == [stream[0]] && stream[..1][..0] == [];
    assert Run([]) == EMPTY;
    assert Run(stream[..1]).finishKeys == map[];
    var deps := Run(stream).nodes[1].deps;
    assert deps[0] == RemapOne(map[], ARTIFACT) == ARTIFACT;
  }

  lemma {:induction false} BuiltForAnalysisRoots(keys: map<NodeKey, nat>)
    requires Numbered(keys, KeysOf(BUILT_FOR_ANALYSIS))
    ensures TopLevelEdges.Roots(keys, REQUESTED) == [(1, 0)]
  {
    var names, t := KeysOf(BUILT_FOR_ANALYSIS), REQUESTED[0];
    assert names == [ARTIFACT, AnalysisKey("t")];
    assert names[0] in keys && names[1] in keys && AnalysisFinishKey("t") !in names;
    assert TopLevelEdges.AnalysisOf(keys, "t") == Some(1);
    assert t.artifacts[..0] == [] && REQUESTED[..0] == [];
    assert TopLevelEdges.RootsFor(keys, 1, t.artifacts) == TopLevelEdges.RootsFor(keys, 1, t.artifacts[..0]) + [(1, 0)];
    assert TopLevelEdges.Roots(keys, REQUESTED[..0]) == [];
  }

  lemma {:induction false} BuiltForAnalysisLabel(base: Graph, keys: map<NodeKey, nat>, labels: seq<Option<nat>>)
    requires base.Valid() && |base.vertices| == 2 && Numbered(keys, KeysOf(BUILT_FOR_ANALYSIS))
    requires TopLevelEdges.Labelled(base, KeysOf(BUILT_FOR_ANALYSIS), TopLevelEdges.Roots(keys, REQUESTED), labels)
    ensures |labels| == 2 && labels[0] == Some(1)
  {
    var names := KeysOf(BUILT_FOR_ANALYSIS);
    BuiltForAnalysisRoots(keys);
    hide TopLevelEdges.Roots, Numbered;
    assert names[0] == ARTIFACT && TopLevelEdges.ArtifactPath(base, names, [0], 0, 0);
    assert TopLevelEdges.Takes(base, names, 0, [(1, 0)][0].1);
    assert TopLevelEdges.FirstTaker(base, names, [(1, 0)], 0, labels[0]);
  }

  /** Without `AnalysesFirst` there can be a cycle: here in every graph the stream is made into. */
  lemma {:induction false} AnalysesFirstIsNeeded(g: Graph)
    requires |Run(BUILT_FOR_ANALYSIS).nodes| == |BUILT_FOR_ANALYSIS| && Describes(BUILT_FOR_ANALYSIS, REQUESTED, g)
    ensures Environment(BUILT_FOR_ANALYSIS) && !g.Acyclic()
  {
    BuiltForAnalysisEnvironment();
    BuiltForAnalysisRun();
    hide Run, Environment, DependsOn, TopLevelEdges.Labelled, TopLevelEdges.Roots, Numbered, DiscoveredBy;
    var base, keys, labels :| Completes(BUILT_FOR_ANALYSIS, REQUESTED, base, keys, labels, g);
    BuiltForAnalysisLabel(base, keys, labels);
    assert g.Edge(0, 1) && g.Edge(1, 0);
    assert g.Cycle([0, 1, 0]);
  }
}
