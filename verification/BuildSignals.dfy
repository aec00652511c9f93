/**
 The rewriting of build signals into graph nodes: the sender's split of an analysis and the receiver's
 bookkeeping, from app/bz_build_signals_impl/src/lib.rs.
 */
module BuildSignals {
  import opened Collections

  /**
   Anonymous targets are identified by their display names; `ArtifactKey` stands for the three kinds of keys that
   produce artifacts: builds, transitive-set projections and projected artifacts.
   */
  datatype NodeKey =
    | AnalysisKey(target: string)
    | AnonTargetKey(name: string)
    | AnalysisFinishKey(target: string)
    | AnonTargetFinishKey(name: string)
    | InterpreterResultsKey(package: string)
    | PackageListingKey(package: string)
    | ArtifactKey(kind: string, id: string)
    | OtherKey(kind: string, id: string)

  predicate IsLoadPhase(k: NodeKey) { k.InterpreterResultsKey? || k.PackageListingKey? }

  predicate CanSplit(k: NodeKey) { k.AnalysisKey? || k.AnonTargetKey? }

  /** `make_finish_key`: the key of Part 2 of a split analysis. */
  function FinishKey(part1: NodeKey): (r: NodeKey)
    ensures CanSplit(part1) ==> !CanSplit(r) && !IsLoadPhase(r)
  {
    match part1
    case AnalysisKey(t) => AnalysisFinishKey(t)
    case AnonTargetKey(n) => AnonTargetFinishKey(n)
    case _ => part1
  }

  datatype Discovery = Discovery(analysis: NodeKey, analysisEnd: nat, anonTargets: seq<NodeKey>)

  /** When a node ended and how long it took. */
  datatype Span = Span(end: nat, duration: nat)

  /** `loadedDeps`: for a successful load, the packages its targets depend on. */
  datatype Evaluation = Evaluation(key: NodeKey, span: Span, deps: seq<NodeKey>,
                                   loadedDeps: Option<seq<string>>, discovery: Option<Discovery>)
  {
    function End(): nat { span.end }
  }

  /** A DICE activation; `split` holds the span of Part 2 when the analysis discovered anon targets. */
  datatype Activation = Activation(key: NodeKey, deps: seq<NodeKey>, span: Span,
                                   loadedDeps: Option<seq<string>>, split: Option<Span>)

  function AnonDeps(deps: seq<NodeKey>): (r: seq<NodeKey>) {
    if deps == [] then [] else (if deps[0].AnonTargetKey? then [deps[0]] else []) + AnonDeps(deps[1..])
  }

  function OtherDeps(deps: seq<NodeKey>): (r: seq<NodeKey>) {
    if deps == [] then [] else (if deps[0].AnonTargetKey? then [] else [deps[0]]) + OtherDeps(deps[1..])
  }

  /** `key_activated`: the evaluations sent for one activation. */
  function KeyActivated(a: Activation): (r: seq<Evaluation>) {
    match a.split
    case None => [Evaluation(a.key, a.span, a.deps, a.loadedDeps, None)]
    case Some(part2) =>
      var anon := AnonDeps(a.deps);
      [Evaluation(a.key, a.span, OtherDeps(a.deps), None, None),
       Evaluation(FinishKey(a.key), part2, [a.key] + anon, None, Some(Discovery(a.key, a.span.end, anon)))]
  }

  lemma {:induction false} PartitionOfDeps(deps: seq<NodeKey>)
    ensures multiset(OtherDeps(deps)) + multiset(AnonDeps(deps)) == multiset(deps)
    ensures forall k :: k in OtherDeps(deps) ==> !k.AnonTargetKey?
    ensures forall k :: k in AnonDeps(deps) ==> k.AnonTargetKey?
  {
    if deps != [] {
      PartitionOfDeps(deps[1..]);
      assert deps == [deps[0]] + deps[1..];
    }
  }

  /** A split sends every original dependency once: the anon targets to Part 2, the others to Part 1. */
  lemma {:induction false} SplitKeepsDeps(a: Activation)
    requires a.split.Some? && CanSplit(a.key) && a.key !in a.deps
    ensures |KeyActivated(a)| == 2
    ensures var part1, part2 := KeyActivated(a)[0], KeyActivated(a)[1];
            && multiset(part1.deps) + multiset(part2.deps) - multiset{part1.key} == multiset(a.deps)
            && part1.key == a.key && part1.key in part2.deps && part1.key !in part1.deps
            && part2.key !in part2.deps && part2.key != part1.key
            && (forall k :: k in part1.deps ==> !k.AnonTargetKey?)
            && (forall k :: k in part2.deps && k != part1.key ==> k.AnonTargetKey?)
            && part2.discovery == Some(Discovery(part1.key, part1.End(), part2.deps[1..]))
  {
    PartitionOfDeps(a.deps);
    var part1, part2 := KeyActivated(a)[0], KeyActivated(a)[1];
    assert part2.deps[1..] == AnonDeps(a.deps);
    assert part2.deps[0] == a.key;
    assert multiset(part2.deps) == multiset{a.key} + multiset(AnonDeps(a.deps));
    forall k | k in part1.deps ensures k in a.deps { assert k in multiset(a.deps); }
  }

  /** A call of `process_node`. */
  datatype Node = Node(key: NodeKey, span: Span, deps: seq<NodeKey>)

  /** The receiver's maps and the nodes it has passed on. */
  datatype State = State(firstEdge: map<string, string>, finishKeys: map<NodeKey, NodeKey>,
                         discoverers: map<NodeKey, (NodeKey, nat)>, nodes: seq<Node>)

  const EMPTY := State(map[], map[], map[], [])

  /** Each package not seen before is now known to be visible from `package`. */
  function AddLoadEdges(m: map<string, string>, package: string, deps: seq<string>): (r: map<string, string>) {
    if deps == [] then m
    else
      var m' := AddLoadEdges(m, package, deps[..|deps| - 1]);
      var d := deps[|deps| - 1];
      if d == package || d in m' then m' else m'[d := package]
  }

  function FirstEdgeAfter(m: map<string, string>, e: Evaluation): (r: map<string, string>) {
    if e.key.InterpreterResultsKey? && e.loadedDeps.Some?
    then AddLoadEdges(m, e.key.package, e.loadedDeps.value)
    else m
  }

  function LoadEdge(m: map<string, string>, e: Evaluation): (r: seq<NodeKey>) {
    if e.key.InterpreterResultsKey? && e.key.package in m then [InterpreterResultsKey(m[e.key.package])] else []
  }

  function RemapOne(m: map<NodeKey, NodeKey>, k: NodeKey): (r: NodeKey) {
    if k in m then m[k] else k
  }

  function Remap(m: map<NodeKey, NodeKey>, deps: seq<NodeKey>): (r: seq<NodeKey>)
    ensures |r| == |deps| && forall i :: 0 <= i < |deps| ==> r[i] == RemapOne(m, deps[i])
  {
    seq(|deps|, i requires 0 <= i < |deps| => RemapOne(m, deps[i]))
  }

  function AddDiscoveries(m: map<NodeKey, (NodeKey, nat)>, d: Discovery, anon: seq<NodeKey>)
    : (r: map<NodeKey, (NodeKey, nat)>)
  {
    if anon == [] then m
    else
      var m' := AddDiscoveries(m, d, anon[..|anon| - 1]);
      var a := anon[|anon| - 1];
      if a in m' && m'[a].1 <= d.analysisEnd then m' else m'[a := (d.analysis, d.analysisEnd)]
  }

  /** The effect of one evaluation. */
  function Step(s: State, e: Evaluation): (r: State) {
    var firstEdge := FirstEdgeAfter(s.firstEdge, e);
    var deps := Remap(s.finishKeys, e.deps + LoadEdge(firstEdge, e));
    State(firstEdge,
          if e.discovery.Some? then s.finishKeys[e.discovery.value.analysis := e.key] else s.finishKeys,
          if e.discovery.Some? then AddDiscoveries(s.discoverers, e.discovery.value, e.discovery.value.anonTargets)
          else s.discoverers,
          s.nodes + [Node(e.key, e.span, deps)])
  }

  /** The state after a whole stream of evaluations. */
  function Run(stream: seq<Evaluation>): (r: State) {
    if stream == [] then EMPTY else Step(Run(stream[..|stream| - 1]), stream[|stream| - 1])
  }

  /** `BuildSignalReceiver`, with the list of `process_node` calls standing for the backend. */
  class BuildSignalReceiver {
    var firstEdgeToLoad: map<string, string>
    var firstAnalysisForAnonTarget: map<NodeKey, (NodeKey, nat)>
    var splitAnalysisFinishKeys: map<NodeKey, NodeKey>
    var nodes: seq<Node>

    constructor ()
      ensures Abstract() == EMPTY
    {
      firstEdgeToLoad, firstAnalysisForAnonTarget := map[], map[];
      splitAnalysisFinishKeys, nodes := map[], [];
    }

    function Abstract(): State
      reads this
    {
      State(firstEdgeToLoad, splitAnalysisFinishKeys, firstAnalysisForAnonTarget, nodes)
    }

    /** `enrich_load`: records which packages became visible and returns the dependencies with the load edge added. */
    method EnrichLoad(e: Evaluation) returns (deps: seq<NodeKey>)
      modifies this`firstEdgeToLoad
      ensures firstEdgeToLoad == FirstEdgeAfter(old(firstEdgeToLoad), e)
      ensures deps == e.deps + LoadEdge(firstEdgeToLoad, e)
    {
      deps := e.deps;
      if !e.key.InterpreterResultsKey? {
        return;
      }
      var package := e.key.package;
      if e.loadedDeps.Some? {
        var visible := e.loadedDeps.value;
        for i := 0 to |visible|
          invariant firstEdgeToLoad == AddLoadEdges(old(firstEdgeToLoad), package, visible[..i])
        {
          assert visible[..i + 1][..i] == visible[..i];
          if visible[i] == package {
            continue;
          }
          if visible[i] !in firstEdgeToLoad {
            firstEdgeToLoad := firstEdgeToLoad[visible[i] := package];
          }
        }
        assert visible[..|visible|] == visible;
      }
      if package in firstEdgeToLoad {
        deps := deps + [InterpreterResultsKey(firstEdgeToLoad[package])];
      }
    }

    /** `process_evaluation`: load edges, then remapping, then recording of the split, in this order. */
    method ProcessEvaluation(e: Evaluation)
      modifies this
      ensures Abstract() == Step(old(Abstract()), e)
    {
      var deps := EnrichLoad(e);
      var original := deps;
      for i := 0 to |deps|
        invariant |deps| == |original|
        invariant forall k :: 0 <= k < i ==> deps[k] == RemapOne(splitAnalysisFinishKeys, original[k])
        invariant forall k :: i <= k < |deps| ==> deps[k] == original[k]
        invariant firstEdgeToLoad == FirstEdgeAfter(old(firstEdgeToLoad), e)
        invariant unchanged(`splitAnalysisFinishKeys) && unchanged(`firstAnalysisForAnonTarget) && unchanged(`nodes)
      {
        if deps[i] in splitAnalysisFinishKeys {
          deps := deps[i := splitAnalysisFinishKeys[deps[i]]];
        }
      }
      assert deps == Remap(splitAnalysisFinishKeys, original);
      if e.discovery.Some? {
        var d := e.discovery.value;
        splitAnalysisFinishKeys := splitAnalysisFinishKeys[d.analysis := e.key];
        for i := 0 to |d.anonTargets|
          invariant firstAnalysisForAnonTarget == AddDiscoveries(old(firstAnalysisForAnonTarget), d, d.anonTargets[..i])
          invariant firstEdgeToLoad == FirstEdgeAfter(old(firstEdgeToLoad), e)
          invariant splitAnalysisFinishKeys == old(splitAnalysisFinishKeys)[d.analysis := e.key]
          invariant unchanged(`nodes)
        {
          assert d.anonTargets[..i + 1][..i] == d.anonTargets[..i];
          var anon := d.anonTargets[i];
          if anon !in firstAnalysisForAnonTarget || d.analysisEnd < firstAnalysisForAnonTarget[anon].1 {
            firstAnalysisForAnonTarget := firstAnalysisForAnonTarget[anon := (d.analysis, d.analysisEnd)];
          }
        }
        assert d.anonTargets[..|d.anonTargets|] == d.anonTargets;
      }
      nodes := nodes + [Node(e.key, e.span, deps)];
    }

    /** `run_and_log` up to the end of the stream. */
    method RunAll(stream: seq<Evaluation>)
      requires Abstract() == EMPTY
      modifies this
      ensures Abstract() == Run(stream)
    {
      for i := 0 to |stream|
        invariant Abstract() == Run(stream[..i])
      {
        assert stream[..i + 1][..i] == stream[..i];
        ProcessEvaluation(stream[i]);
      }
      assert stream[..|stream|] == stream;
    }
  }

  // ----- What every run keeps -----

  /** Each evaluation becomes one node, with the dependencies rewritten by what was known before it. */
  lemma {:induction false} NodesOfRun(stream: seq<Evaluation>, i: nat)
    requires i < |stream|
    ensures |Run(stream).nodes| == |stream|
    ensures var before := Run(stream[..i]);
            Run(stream).nodes[i] ==
            Node(stream[i].key, stream[i].span,
                 Remap(before.finishKeys, stream[i].deps + LoadEdge(FirstEdgeAfter(before.firstEdge, stream[i]),
                   stream[i])))
  {
    var prefix := stream[..|stream| - 1];
    if i < |prefix| {
      NodesOfRun(prefix, i);
      assert prefix[..i] == stream[..i];
    } else if |prefix| > 0 {
      NodesOfRun(prefix, 0);
    }
  }

  /** Evaluation `i` is the Part 2 of the split of `k`. */
  ghost predicate SplitAt(stream: seq<Evaluation>, i: int, k: NodeKey) {
    0 <= i < |stream| && stream[i].discovery.Some? && stream[i].discovery.value.analysis == k
  }

  lemma {:induction false} FinishKeysStep(stream: seq<Evaluation>, k: NodeKey)
    requires stream != []
    ensures var n := |stream| - 1;
            var before, after := Run(stream[..n]).finishKeys, Run(stream).finishKeys;
            if SplitAt(stream, n, k) then k in after && after[k] == stream[n].key
            else (k in after <==> k in before) && (k in after ==> after[k] == before[k])
  {
  }

  /** A key is remapped exactly when the Part 2 of its split has been seen, to the latest such Part 2. */
  lemma {:induction false} FinishKeysOfRun(stream: seq<Evaluation>, k: NodeKey)
    ensures k in Run(stream).finishKeys <==> exists i :: SplitAt(stream, i, k)
    ensures k in Run(stream).finishKeys ==>
              exists i :: SplitAt(stream, i, k) && Run(stream).finishKeys[k] == stream[i].key
                          && forall j :: SplitAt(stream, j, k) ==> j <= i
  {
    if stream != [] {
      var n := |stream| - 1;
      var prefix := stream[..n];
      FinishKeysOfRun(prefix, k);
      FinishKeysStep(stream, k);
      hide Run;
      assert forall i :: 0 <= i < n ==> (SplitAt(stream, i, k) <==> SplitAt(prefix, i, k));
      if SplitAt(stream, n, k) {
        assert Run(stream).finishKeys[k] == stream[n].key;
      } else if k in Run(stream).finishKeys {
        var i :| SplitAt(prefix, i, k) && Run(prefix).finishKeys[k] == prefix[i].key
                 && forall j :: SplitAt(prefix, j, k) ==> j <= i;
        assert SplitAt(stream, i, k);
      }
    }
  }

  /** Evaluation `i` is a split that discovered the anon target `a`. */
  ghost predicate DiscoversAt(stream: seq<Evaluation>, i: int, a: NodeKey) {
    0 <= i < |stream| && stream[i].discovery.Some? && a in stream[i].discovery.value.anonTargets
  }

  lemma {:induction false} LoadEdgesAdded(m: map<string, string>, package: string, deps: seq<string>, p: string)
    ensures p in AddLoadEdges(m, package, deps) <==> p in m || (p in deps && p != package)
    ensures p in m ==> AddLoadEdges(m, package, deps)[p] == m[p]
    ensures p !in m && p in AddLoadEdges(m, package, deps) ==> AddLoadEdges(m, package, deps)[p] == package
  {
    if deps != [] {
      LoadEdgesAdded(m, package, deps[..|deps| - 1], p);
      assert deps == deps[..|deps| - 1] + [deps[|deps| - 1]];
    }
  }

  /** Evaluation `i` is the load of `q` and found that its targets depend on `p`. */
  ghost predicate MakesVisible(stream: seq<Evaluation>, i: int, p: string, q: string) {
    && 0 <= i < |stream| && stream[i].key == InterpreterResultsKey(q)
    && p != q && stream[i].loadedDeps.Some? && p in stream[i].loadedDeps.value
  }

  /** The recorded edge to a package is the first load that depends on it. */
  lemma {:induction false} FirstEdgeOfRun(stream: seq<Evaluation>, p: string)
    ensures p in Run(stream).firstEdge <==> exists i, q :: MakesVisible(stream, i, p, q)
    ensures p in Run(stream).firstEdge ==>
              exists i :: MakesVisible(stream, i, p, Run(stream).firstEdge[p])
                          && forall j, q :: MakesVisible(stream, j, p, q) ==> i <= j
  {
    if stream != [] {
      var n := |stream| - 1;
      var prefix, e := stream[..n], stream[n];
      FirstEdgeOfRun(prefix, p);
      assert forall i, q :: 0 <= i < n ==> (MakesVisible(stream, i, p, q) <==> MakesVisible(prefix, i, p, q));
      if e.key.InterpreterResultsKey? && e.loadedDeps.Some? {
        LoadEdgesAdded(Run(prefix).firstEdge, e.key.package, e.loadedDeps.value, p);
      }
      if p in Run(prefix).firstEdge {
        var i :| MakesVisible(prefix, i, p, Run(prefix).firstEdge[p])
                 && forall j, q :: MakesVisible(prefix, j, p, q) ==> i <= j;
        assert MakesVisible(stream, i, p, Run(stream).firstEdge[p]);
      } else if p in Run(stream).firstEdge {
        assert MakesVisible(stream, n, p, e.key.package);
      }
    }
  }

  /** The injected load edge of a package points to a different package that was processed strictly earlier. */
  lemma {:induction false} LoadEdgePointsBack(stream: seq<Evaluation>, i: nat, k: NodeKey)
    requires i < |stream|
    requires k in LoadEdge(FirstEdgeAfter(Run(stream[..i]).firstEdge, stream[i]), stream[i])
    ensures k.InterpreterResultsKey? && k != stream[i].key
    ensures exists j :: 0 <= j < i && stream[j].key == k && MakesVisible(stream, j, stream[i].key.package, k.package)
  {
    var before, e := stream[..i], stream[i];
    var package := e.key.package;
    if e.loadedDeps.Some? {
      LoadEdgesAdded(Run(before).firstEdge, package, e.loadedDeps.value, package);
    }
    FirstEdgeOfRun(before, package);
    var j :| MakesVisible(before, j, package, Run(before).firstEdge[package]);
    assert stream[j].key == k && MakesVisible(stream, j, package, k.package);
  }

  lemma {:induction false} DiscoveriesAdded(m: map<NodeKey, (NodeKey, nat)>, d: Discovery, anon: seq<NodeKey>,
                                            a: NodeKey)
    ensures a in AddDiscoveries(m, d, anon) <==> a in m || a in anon
    ensures a in AddDiscoveries(m, d, anon) ==>
              AddDiscoveries(m, d, anon)[a] ==
              if a in m && (a !in anon || m[a].1 <= d.analysisEnd) then m[a] else (d.analysis, d.analysisEnd)
  {
    if anon != [] {
      DiscoveriesAdded(m, d, anon[..|anon| - 1], a);
      assert anon == anon[..|anon| - 1] + [anon[|anon| - 1]];
    }
  }

  /** `i` discovered `a`, strictly earlier than every previous discovery and no later than every following one. */
  ghost predicate EarliestAt(stream: seq<Evaluation>, i: int, a: NodeKey) {
    && DiscoversAt(stream, i, a)
    && (forall j :: DiscoversAt(stream, j, a) && j < i ==>
          stream[i].discovery.value.analysisEnd < stream[j].discovery.value.analysisEnd)
    && (forall j :: DiscoversAt(stream, j, a) && j > i ==>
          stream[i].discovery.value.analysisEnd <= stream[j].discovery.value.analysisEnd)
  }

  lemma {:induction false} KeepEarliest(stream: seq<Evaluation>, i: int, a: NodeKey)
    requires stream != [] && EarliestAt(stream[..|stream| - 1], i, a)
    ensures var n := |stream| - 1;
            if DiscoversAt(stream, n, a)
               && stream[n].discovery.value.analysisEnd < stream[i].discovery.value.analysisEnd
            then EarliestAt(stream, n, a) else EarliestAt(stream, i, a)
  {
    var n := |stream| - 1;
    var prefix := stream[..n];
    assert forall k :: 0 <= k < n ==> stream[k] == prefix[k];
    assert forall j :: 0 <= j < n ==> (DiscoversAt(stream, j, a) <==> DiscoversAt(prefix, j, a));
  }

  /** The stored discoverer has the least Part 1 end among all discoveries; ties go to the first one processed. */
  lemma {:induction false} EarliestDiscoverer(stream: seq<Evaluation>, a: NodeKey)
    ensures a in Run(stream).discoverers <==> exists i :: DiscoversAt(stream, i, a)
    ensures a in Run(stream).discoverers ==>
              exists i :: EarliestAt(stream, i, a) && Run(stream).discoverers[a] ==
                          (stream[i].discovery.value.analysis, stream[i].discovery.value.analysisEnd)
  {
    if stream != [] {
      var n := |stream| - 1;
      var prefix, e := stream[..n], stream[n];
      EarliestDiscoverer(prefix, a);
      assert forall i :: 0 <= i < n ==> stream[i] == prefix[i];
      assert forall i :: 0 <= i < n ==> (DiscoversAt(stream, i, a) <==> DiscoversAt(prefix, i, a));
      if e.discovery.Some? {
        DiscoveriesAdded(Run(prefix).discoverers, e.discovery.value, e.discovery.value.anonTargets, a);
      }
      if a in Run(prefix).discoverers {
        var i :| EarliestAt(prefix, i, a) && Run(prefix).discoverers[a] ==
                 (prefix[i].discovery.value.analysis, prefix[i].discovery.value.analysisEnd);
        KeepEarliest(stream, i, a);
      } else if a in Run(stream).discoverers {
        assert EarliestAt(stream, n, a);
      }
    }
  }
}
