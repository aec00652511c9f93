# A model of bz's build core

bz is a build tool with a daemon. This project models the parts of it that decide something over a whole run:

- **Critical path** (`Paths`, `TopoSort`, `LongestPaths`, `GraphReverse`, `Replacement`, `Sweep`, `Potentials`). The graph
  library that sorts a build graph, finds its longest path, and says for each vertex on it how long the build would take
  if that vertex took no time. The main result is that the fast computation (two passes, a reversal, a marking from the
  critical path and a heap sweep) equals the plain definition: the longest path of the graph with that one weight set to
  zero.
- **Build signals** (`BuildSignals`, `TopLevelEdges`, `SignalGraph`, `Activations`). Analyses that discover anon targets are
  split in two, dependencies are rewritten to the finish key, load edges, edges to top-level analyses and discovery edges
  are added. The rewritten graph has no cycle, although discovery edges point forward in the stream, so the critical path
  is found unless the graph overflows, which happens exactly at its limits. What is assumed of the stream is derived for
  every interleaving of what the activations of a build send.
- **Real work** (`WorkPaths`). The graph contracted to the vertices that stand for work, where a vertex adds to a path only
  the time after its predecessor ended. The memoised search finds a chain of work that none exceeds, and reports a cycle
  exactly if the contraction has one.
- **Timeline** (`Timeline`, `CriticalPathReport`). The critical path becomes a list of entries that tiles the wall-clock time
  of the command; from the signals to that list, with what is assumed of the path derived for the computed one.
- **Lost remote outputs** (`LostRemote`, `Materialize`, `RewindMachine`, `MaterializeLoop`). The nested retry loops that rewind
  producers when remote blobs are gone, as a machine and as the methods that run it. Every run returns, whatever the
  outside does; before each retry exactly the digests lost in that step were recorded and exactly its producers
  invalidated, set to bypass the cache and rewound; a step returns an error exactly when the stated condition holds.
- **Build results** (`BuildResult`, `Interleaving`). The event fold with its streamed reports, and the select loop over all
  interleavings of sending, receiving and completion.
- **Argument files** (`Argfiles`), **pending streaming outputs** (`PendingStreaming`), **anon-target attributes and promises**
  (`AnonAttr`, `AnonPromises`) and **message framing** (`ProtobufSplitter`).
- **Config flags** (`SettingEntries`, `ConfigOverrides`, `ConfigReferences`, `RootConfig`), from the client's merging to what the
  daemon reads, with the references in config values replaced. The resolver finds the one solution of the references, or
  an error exactly if a name is malformed or the references have a cycle.

`Collections` holds what the modules share, among it a stable sort that stands for the standard library's; `Chains` holds
finite relations and their cycles. Check the project with `dafny verify dfyconfig.toml`.

How the source is rendered:

- Objects that change are classes: the receiver and the graph builder, the proto enhancer, the rewind graph builder, the
  per-transaction data of materialization, the build result builder, the argv builder, the pending outputs (shared
  heap objects), the promise traversal, the byte buffer, the settings map, the config resolver and the search for work
  paths. Loops are loops. Computations are functions.
- The outside is a parameter. Materialization asks a `World` whose answers may differ from call to call; the select loop
  runs over any list of sends and polls; clock readings come with the events; the file system is a map from path to lines.
- Times and durations are natural numbers of nanoseconds, path costs and lengths are natural numbers. Where the code
  saturates an offset to 64 bits the model does so too.
- Loss signatures are values of a datatype instead of formatted strings. The display names of anon targets are taken to
  be injective, as the finish keys need.
- An unstable sort is a method that promises a sorted permutation and no more, so nothing proved depends on tie order.
- `std::thread::scope` runs independent halves of a computation; the model runs them one after the other.

Three properties one might expect are false of the code. For each there is a lemma with a concrete input where it fails,
and an exact condition:

- the splitter cuts a frame in the right place only if its length is written canonically and the sum of length and width
  stays below 2^64 (`ProtobufSplitter.FrameIsWholeIff`, `ProtobufSplitter.NonCanonicalIsCut`, `ProtobufSplitter.WrappedIsCut`,
  `ProtobufSplitter.WrappedIsStuck`);
- settings survive the trip through one override only if every entry is one nonempty line (`SettingEntries.EncodeParse`,
  `SettingEntries.BrokenEntries`); an empty entry never arises, because every entry is formatted with two tabs or comes
  from a split at newlines, but a value that holds a newline does;
- all settings of a command line are collapsed into one override so that none replaces another, but a `--config` value for
  the root cell, one with blanks in front, or a config file can still set the same property later, and a setting that
  holds a reference to a config value is not read as it was given. The exact condition is
  `RootConfig.DaemonSeesAllIff`; where no other config value has a dollar sign it is one the caller can read off the command
  line, `RootConfig.PlainConfigIff`. The failing inputs are `RootConfig.SettingsReplaced`, `RootConfig.ReferenceReplaced` and
  `RootConfig.SelfReferenceFails`.

## Model

| member | source | states |
|---|---|---|
| `TopoSort.Sort` | app/bz_critical_path/src/graph.rs:93-153 | An order is returned exactly for acyclic graphs and puts every vertex once and before all its dependencies; otherwise the returned list, read backwards, is a closed chain of dependencies. |
| `TopoSort.ExtractCycle` | app/bz_critical_path/src/graph.rs:120-136 | The open vertices collected down the stack from a vertex met twice form a cycle of the graph. |
| `LongestPaths.BestDependency` | app/bz_critical_path/src/graph.rs:168-182 | The scan finds the first dependency of greatest cost. |
| `LongestPaths.FindLongestPaths` | app/bz_critical_path/src/graph.rs:157-202 | The cost of every vertex is the greatest cost over all paths ending there, and the predecessors form a tree that realises it. |
| `LongestPaths.PathFor` | app/bz_critical_path/src/critical_path_accessor.rs:39-57 | Following predecessors gives a path to the sink of exactly the recorded cost; the unwrap cannot fail. |
| `LongestPaths.GreatestIsLongest` | app/bz_critical_path/src/potential.rs:85-109 | A longest path to a vertex of greatest cost is a longest path of the whole graph. |
| `GraphReverse.CountEdges` | app/bz_critical_path/src/graph.rs:62-65 | Counts how often each vertex is a dependency. |
| `GraphReverse.LayOut` | app/bz_critical_path/src/graph.rs:67-72 | The slices follow each other, have the counted lengths and end at the number of edges. |
| `GraphReverse.Reversed` | app/bz_critical_path/src/graph.rs:56-89 | The edges of a vertex in the result are exactly its dependants, ascending, once per parallel edge. |
| `GraphReverse.TransposedEdge` | app/bz_critical_path/src/graph.rs:54-56 | Reversal turns every edge around and adds none. |
| `Replacement.ThroughIsToPlusFrom` | app/bz_critical_path/src/potential.rs:166-177 | Longest path to a vertex plus longest path from it, the vertex counted once, is the longest path through it. |
| `Replacement.AvoidingBound` | app/bz_critical_path/src/potential.rs:179-182 | A path that avoids a vertex of the critical path and visits only vertices leading to or reached from it costs no more than the critical path without that vertex. |
| `Replacement.ReplacementIsLongest` | app/bz_critical_path/src/potential.rs:25-30 | The larger of the critical path less one runtime and the best independent path is the longest path of the graph in which that vertex takes no time. |
| `Sweep.Peek` | app/bz_critical_path/src/potential.rs:259-259 | Finds a greatest heap item. |
| `Sweep.ComputeOne` | app/bz_critical_path/src/potential.rs:258-278 | Drops dead items only, and ends with the greatest of the old cost and all live candidates. |
| `Sweep.Run` | app/bz_critical_path/src/potential.rs:198-280 | For every index the result is the base cost or a live candidate's, never below the base, and no live candidate costs more. |
| `Potentials.GraphVisitor.Visit` | app/bz_critical_path/src/potential.rs:121-139 | Keeps all earlier marks; new marks carry the current index, lie on vertices reached from the root and are closed under edges. |
| `Potentials.MarkAll` | app/bz_critical_path/src/potential.rs:141-164 | The mark of a vertex is the first root, in visiting order, that reaches it, if any does. |
| `Potentials.FirstSuccessor` | app/bz_critical_path/src/potential.rs:116-117 | Forwards, the mark is at most `i` exactly if the vertex leads to the critical path at or before `i`. |
| `Potentials.LastPredecessor` | app/bz_critical_path/src/potential.rs:113-114 | Backwards over the reversed graph, the mark is at least `i` exactly if the vertex is reached from the critical path at or after `i`. |
| `Potentials.TransposedLongest` | app/bz_critical_path/src/potential.rs:59-74 | Longest paths to a vertex of the reversed graph are longest paths from it. |
| `Potentials.Sink` | app/bz_critical_path/src/potential.rs:87-103 | The last vertex of greatest cost. |
| `Potentials.Candidates` | app/bz_critical_path/src/potential.rs:166-219 | For each vertex the cost of a longest path through it and the indices at which it is independent of the critical path. |
| `Potentials.ComputePotentials` | app/bz_critical_path/src/potential.rs:31-288 | A critical path, its cost, longest costs for all vertices, and for each vertex of the path the longest path cost with that vertex free; a cycle exactly for cyclic graphs. |
| `Potentials.SavingIsBounded` | app/bz_critical_path/src/potential.rs:236-244 | The saving of a vertex never underflows and is at most its own runtime. |
| `BuildSignals.SplitKeepsDeps` | app/bz_build_signals_impl/src/lib.rs:515-565 | Part 1 and Part 2 together have exactly the original dependencies and Part 1; anon targets go to Part 2; no part depends on itself. |
| `BuildSignals.BuildSignalReceiver.EnrichLoad` | app/bz_build_signals_impl/src/lib.rs:823-857 | The packages that became visible are recorded, first load first, and the dependencies gain an edge to the load recorded for this package, if there is one. |
| `BuildSignals.BuildSignalReceiver.ProcessEvaluation` | app/bz_build_signals_impl/src/lib.rs:774-818 | One step of the run: load edges, then remapping, then recording of the split. |
| `BuildSignals.BuildSignalReceiver.RunAll` | app/bz_build_signals_impl/src/lib.rs:705-731 | The state after a stream is the fold of its evaluations. |
| `BuildSignals.NodesOfRun` | app/bz_build_signals_impl/src/lib.rs:774-793 | Each evaluation becomes one node whose dependencies are rewritten by what was known before it. |
| `BuildSignals.FinishKeysOfRun` | app/bz_build_signals_impl/src/lib.rs:777-793 | A key is remapped exactly once the Part 2 of its split has been seen, to the latest such Part 2. |
| `BuildSignals.FirstEdgeOfRun` | app/bz_build_signals_impl/src/lib.rs:823-857 | The recorded edge to a package is the first load that depends on it. |
| `BuildSignals.LoadEdgePointsBack` | app/bz_build_signals_impl/src/lib.rs:823-857 | An injected load edge points to a different package that was processed strictly earlier and made this one visible. |
| `BuildSignals.EarliestDiscoverer` | app/bz_build_signals_impl/src/lib.rs:795-807 | The stored discoverer has the least Part 1 end of all discoveries in the run; ties go to the first processed. |
| `TopLevelEdges.LabelFrom` | app/bz_build_signals_impl/src/backend/longest_path_graph.rs:177-198 | From one artifact: earlier labels stay, new ones carry the analysis and lie on nodes the artifact takes through artifact-producing nodes, and everything it takes is labelled. |
| `TopLevelEdges.LabelTarget` | app/bz_build_signals_impl/src/backend/longest_path_graph.rs:168-198 | The labels after all known artifacts of one target. |
| `TopLevelEdges.LabelAll` | app/bz_build_signals_impl/src/backend/longest_path_graph.rs:136-199 | Every node is labelled with the analysis of the first target that takes it, in the order of targets and artifacts, and with none if no target does. |
| `TopLevelEdges.RootsAreAnalyses` | app/bz_build_signals_impl/src/backend/longest_path_graph.rs:136-158 | Every label is the analysis of one of the targets, Part 2 if it was split. |
| `SignalGraph.SentShape` | app/bz_build_signals_impl/src/lib.rs:515-565 | Everything the sender sends has the shape the graph argument relies on. |
| `SignalGraph.NodeEdgePrecedes` | app/bz_build_signals_impl/src/lib.rs:774-793 | Every rewritten dependency precedes its dependant in the order by load phase, end time and position. |
| `SignalGraph.DiscoveryEdgePrecedes` | app/bz_build_signals_impl/src/lib.rs:733-738 | So does every discovery edge, even one that points forward in the stream. |
| `SignalGraph.OnlyPartTwoDependsOnPartOne` | app/bz_build_signals_impl/src/lib.rs:777-793 | Exactly the Part 2 of a split has an edge to its Part 1; every other dependant points to the finish key. |
| `SignalGraph.GraphBuilder.Push` | app/bz_critical_path/src/builder.rs:53-105 | A new vertex with edges to the known dependencies in order, all other vertices unchanged and as many edges more as dependencies are known; a duplicate key changes nothing; overflow is reported exactly at the limits. |
| `SignalGraph.AddEdges` | app/bz_critical_path/src/graph.rs:214-250 | Every vertex keeps its edges and gains its extra one at the end. |
| `SignalGraph.PushAll` | app/bz_build_signals_impl/src/backend/longest_path_graph.rs:73-110 | The loop overflows exactly if some node finds more vertices or edges than the limits allow; otherwise the builder holds the distinct keys in order, and under the assumptions its graph mirrors the run. |
| `SignalGraph.FitsWithinLimits` | app/bz_critical_path/src/builder.rs:57-76 | A run with no more nodes and dependencies than the limits never overflows. |
| `SignalGraph.DiscoveryEdges` | app/bz_build_signals_impl/src/backend/longest_path_graph.rs:201-216 | A labelled node keeps its label; every other gains an edge to its discoverer if both were evaluated. |
| `SignalGraph.EdgeComes` | app/bz_build_signals_impl/src/backend/longest_path_graph.rs:130-223 | Every edge of the finished graph agrees with one order: what depends on artifacts last, then the order by load phase, end time and position. |
| `SignalGraph.SignalGraphIsAcyclic` | app/bz_build_signals_impl/src/backend/longest_path_graph.rs:130-223 | For every stream that meets the assumptions, dependencies, edges to top-level analyses and discovery edges together have no cycle. |
| `SignalGraph.AnalysesFirstIsNeeded` | app/bz_build_signals_impl/src/backend/longest_path_graph.rs:130-223 | A stream that meets all other assumptions, where an artifact is built for the sake of a top-level analysis that also labels it: its graph has a cycle. |
| `SignalGraph.CriticalPathOf` | app/bz_build_signals_impl/src/backend/longest_path_graph.rs:123-238 | From a stream and the top-level targets to correct potentials of exactly their graph; it overflows exactly where the run does; under the assumptions no cycle is ever reported. |
| `Activations.SameSender` | app/bz_build_signals_impl/src/lib.rs:515-565 | In every interleaving a key belongs to one activation, one part and one position. |
| `Activations.DependencySent` | app/bz_build_signals_impl/src/lib.rs:515-565 | All parts of what an evaluation depends on are sent before it and end no later, loads aside. |
| `Activations.BuildsMeetEnvironment` | app/bz_build_signals_impl/src/lib.rs:515-565 | Every interleaving that keeps Part 1 before Part 2 of what the activations of a build send meets the assumptions on streams. |
| `WorkPaths.CollectReachable` | app/bz_build_signals_impl/src/backend/longest_path_graph.rs:416-443 | The work seen from the roots with no work in between, all of it and each once. |
| `WorkPaths.WorkDeps` | app/bz_build_signals_impl/src/backend/longest_path_graph.rs:298-311 | A work vertex depends on the other work among its named inputs and on the work seen from its dependencies, each once. |
| `WorkPaths.BestStep` | app/bz_build_signals_impl/src/backend/longest_path_graph.rs:463-486 | The best of the dependencies' best times, each with what the vertex adds beyond it, is the best time of the vertex. |
| `WorkPaths.Search.ComputeState` | app/bz_build_signals_impl/src/backend/longest_path_graph.rs:445-491 | The state of a vertex holds the greatest time over all chains of work that end there and a predecessor that attains it; an error only if the dependencies have a cycle. |
| `WorkPaths.PathTo` | app/bz_build_signals_impl/src/backend/longest_path_graph.rs:504-545 | Following predecessors gives a chain of work whose times add up to the cost of its last vertex; the cycle error never arises. |
| `WorkPaths.RealWorkPath` | app/bz_build_signals_impl/src/backend/longest_path_graph.rs:278-327 | Nothing exactly without work, an error exactly if the contracted graph has a cycle; otherwise a chain of work whose reported times add up to its time, and no chain of work takes longer. |
| `WorkPaths.TargetTime` | app/bz_build_signals_impl/src/backend/longest_path_graph.rs:329-352 | The time of a target is that of the longest chain that ends in work seen from one of its artifacts, none exactly if no work is seen. |
| `WorkPaths.NeverCyclic` | app/bz_build_signals_impl/src/backend/longest_path_graph.rs:278-311 | If the graph has no cycle and named inputs are also behind the vertex in it, the contraction has no cycle. |
| `WorkPaths.WithinWallClock` | app/bz_build_signals_impl/src/backend/longest_path_graph.rs:493-502 | Where ends are in order, the time of a chain and the gaps in it add up to the time from its first start to its last end: no overlap is counted twice. |
| `Timeline.StartKeepsOrder` | app/bz_build_signals/src/env.rs:110-124 | Category starts stay in order exactly if each is no earlier than the one before it; none is dropped. |
| `Timeline.IterSpans` | app/bz_build_signals/src/env.rs:77-106 | The spans between consecutive category starts, saturating where a start comes late. |
| `Timeline.PhaseInWindow` | app/bz_build_signals/src/env.rs:77-106 | Each span meets the window in exactly the stretch between its clamped boundaries. |
| `Timeline.SpansCoverWindow` | app/bz_build_signals_impl/src/enhancement.rs:81-115 | For any nondecreasing starts the spans cut to the window add up to its length. |
| `Timeline.CriticalPathProtoEnhancer.AddEntryImpl` | app/bz_build_signals_impl/src/enhancement.rs:187-239 | The entry is added after a filler if a millisecond or more is missing, and the end moves to the end of the span. |
| `Timeline.CriticalPathProtoEnhancer.AddSimpleEntry` | app/bz_build_signals_impl/src/enhancement.rs:159-176 | The same for an entry without a node. |
| `Timeline.CriticalPathProtoEnhancer.AddEntry` | app/bz_build_signals_impl/src/enhancement.rs:45-148 | A node's waits, each cut to the window, then its work with the part before its dependencies clipped off. |
| `Timeline.AddEarlyTimings` | app/bz_build_signals_impl/src/lib.rs:993-1024 | The early spans of the command in order, the last one ending where the early phase ends. |
| `Timeline.IntoCriticalPathProto` | app/bz_build_signals_impl/src/lib.rs:1026-1049 | Early timings, path entries and the final computation, in this order. |
| `Timeline.SeamlessEarly` | app/bz_build_signals_impl/src/lib.rs:993-1024 | Early timings tile the time without any condition. |
| `Timeline.SeamlessPathEntry` | app/bz_build_signals_impl/src/enhancement.rs:45-148 | An entry in order keeps the tiling, ends where its span ends and adds its node once. |
| `Timeline.OutputTilesWallClock` | app/bz_build_signals_impl/src/lib.rs:1026-1049 | The whole output is ordered, disjoint and gap-free from the command start, but for at most one gap under a millisecond before the final entry; all durations add up to the elapsed time less that gap; the nodes appear once and in order. |
| `CriticalPathReport.LatestEnd` | app/bz_build_signals_impl/src/backend/longest_path_graph.rs:605-608 | The greatest end among the dependencies, none exactly without dependencies. |
| `CriticalPathReport.StartsAtSource` | app/bz_critical_path/src/potential.rs:85-109 | A longest path starts at a vertex without dependencies. |
| `CriticalPathReport.LoadEdgeFollows` | app/bz_build_signals_impl/src/lib.rs:823-857 | An edge from a load is a dependency that was named or the injected load edge. |
| `CriticalPathReport.DetailedInOrder` | app/bz_build_signals_impl/src/backend/longest_path_graph.rs:598-620 | Along a path of a graph whose ends are in order every entry is in order, and the report ends with the last vertex. |
| `CriticalPathReport.CriticalPathInOrder` | app/bz_build_signals_impl/src/backend/longest_path_graph.rs:598-620 | For the critical path of a build nothing is left to assume of the order of its entries. |
| `CriticalPathReport.WeightsAreLengths` | app/bz_build_signals_impl/src/backend/longest_path_graph.rs:228-234 | The weights of the graph are the lengths of the reported spans. |
| `CriticalPathReport.Report` | app/bz_build_signals_impl/src/lib.rs:705-766 | From signals to entries: none exactly on overflow; otherwise the work entries are a longest path of the build's graph, weighted with the lengths of their own spans, and all entries tile the wall clock up to one gap under a millisecond. |
| `LostRemote.LostRemoteRewindGraphBuilder.AddActionKey` | app/bz_build_api/src/lost_remote.rs:91-95 | The key is in the graph once. |
| `LostRemote.LostRemoteRewindGraphBuilder.AddArtifact` | app/bz_build_api/src/lost_remote.rs:97-107 | The artifact, and its projection if it is one, are in the graph once. |
| `LostRemote.LostRemoteRewindGraphBuilder.AddArtifactGroup` | app/bz_build_api/src/lost_remote.rs:109-120 | The group's keys are in the graph once; a promise adds nothing. |
| `LostRemote.LostRemoteRewindGraphBuilder.AddActionInputSet` | app/bz_build_api/src/lost_remote.rs:122-126 | The input set is in the graph once. |
| `LostRemote.GraphGrows` | app/bz_build_api/src/lost_remote.rs:90-126 | Additions keep the graph free of duplicates, keep what was there and cover what was added. |
| `Materialize.Classify` | app/bz_build_api/src/materialize.rs:527-546 | A failure is a loss exactly if a blob of remote origin was not found. |
| `MaterializeLoop.Transaction.RequestOne` | app/bz_build_api/src/materialize.rs:329-365 | The artifact stays in the tracker only if its request succeeds. |
| `MaterializeLoop.PlanProducers` | app/bz_build_api/src/materialize.rs:226-241 | One producer for each action that lost an output, in the order of the losses. |
| `MaterializeLoop.RewindGraphOf` | app/bz_build_api/src/materialize.rs:303-311 | The graph over the artifacts, with the requested group. |
| `MaterializeLoop.UploadKeys` | app/bz_build_api/src/materialize.rs:704-731 | The actions of the build artifacts, each once. |
| `MaterializeLoop.Transaction.MaterializeValues` | app/bz_build_api/src/materialize.rs:314-374 | One pass: requests in order, the tracker, the losses collected, and the stop at the first error. |
| `Materialize.PassAddsSucceeded` | app/bz_build_api/src/materialize.rs:329-365 | A pass adds to the queue tracker exactly the artifacts whose request succeeded in it. |
| `Materialize.CleanPassTracksAll` | app/bz_build_api/src/materialize.rs:329-373 | After a pass that loses nothing every build artifact of the values is in the tracker. |
| `Materialize.EveryLossHasAProducer` | app/bz_build_api/src/materialize.rs:226-241 | Each lost output's action is among the producers, and no action twice. |
| `Materialize.KeysOfProducers` | app/bz_build_api/src/materialize.rs:226-241 | The producers are exactly the actions that lost an output. |
| `Materialize.SignaturesExact` | app/bz_build_api/src/materialize.rs:243-265 | The signatures counted are exactly those of the lost outputs: action, path and digest for each missing digest, or one without a digest. |
| `Materialize.DigestsExact` | app/bz_build_api/src/materialize.rs:556-559 | The digests recorded as missing are exactly those of the lost outputs. |
| `Materialize.UploadDigestsExact` | app/bz_build_api/src/materialize.rs:682-684 | The same for lost uploads. |
| `MaterializeLoop.Transaction.RecordAttempt` | app/bz_build_api/src/actions/calculation.rs:129-155 | Signatures are counted in turn up to the first that exceeds its cap. |
| `Materialize.RecordingUsesBudget` | app/bz_build_api/src/actions/calculation.rs:129-155 | Recording never adds to the remaining budget, and recording anything without hitting a cap uses some of it. |
| `Materialize.RecordingRespectsCap` | app/bz_build_api/src/actions/calculation.rs:119-142 | As long as recording succeeds no signature is counted beyond its cap. |
| `Materialize.BudgetIsFinite` | app/bz_build_api/src/actions/calculation.rs:119-142 | The whole budget is at most the cap times the number of signatures. |
| `Materialize.LossesAreBounded` | app/bz_build_api/src/materialize.rs:243-265 | The signatures of the losses of any pass lie in the assumed finite set. |
| `MaterializeLoop.Transaction.PreparePlan` | app/bz_build_api/src/materialize.rs:548-566 | Missing digests are recorded even if the cap is hit; on success the plan holds the losses and their producers. |
| `MaterializeLoop.Transaction.InvalidateOutputs` | app/bz_build_api/src/materialize.rs:589-615 | The actions are looked up in turn up to the first unknown one, then all their outputs are invalidated in one call, if there are any. |
| `MaterializeLoop.Transaction.PurgeMetadata` | app/bz_build_api/src/materialize.rs:109-121 | Metadata is purged where there is something to purge it, and the purge succeeds otherwise. |
| `MaterializeLoop.Transaction.Rewind` | app/bz_build_api/src/materialize.rs:568-615 | Invalidation, purge, bypass and rewind, each only if the one before it succeeded. |
| `RewindMachine.RewindFacts` | app/bz_build_api/src/materialize.rs:568-615 | A rewind succeeds exactly if the outside refuses none of its calls; then every output of every action is invalidated, metadata purged, the actions bypass the cache and the graph is rewound. |
| `RewindMachine.GraphOverExact` | app/bz_build_api/src/materialize.rs:303-311 | The rewind graph has no duplicates, its actions are exactly the build producers in order, and it covers every build artifact. |
| `RewindMachine.RecoverFacts` | app/bz_build_api/src/materialize.rs:172-188 | A recovery succeeds exactly unless the cap is hit, there is no producer or the outside refuses; then exactly the digests are recorded, exactly the producers invalidated, bypassed and rewound once, with the group. |
| `MaterializeLoop.Transaction.RecoverOutputs` | app/bz_build_api/src/materialize.rs:172-188 | The recovery of the machine, for the given losses. |
| `MaterializeLoop.Transaction.MaterializeOnce` | app/bz_build_api/src/materialize.rs:157-193 | One round of the machine: the values, the pass over them, and the recovery from what it lost. |
| `MaterializeLoop.Transaction.MaterializeGroup` | app/bz_build_api/src/materialize.rs:151-195 | The loop ends for every world, in the state and with the result the machine reaches. |
| `MaterializeLoop.Transaction.RewindUpload` | app/bz_build_api/src/materialize.rs:676-761 | The recovery of an upload, for the reported losses and all build producers of the values; an error if there is none. |
| `MaterializeLoop.Transaction.UploadOnce` | app/bz_build_api/src/materialize.rs:134-145 | One upload step of the machine. |
| `RewindMachine.EveryStep` | app/bz_build_api/src/materialize.rs:123-195 | Every step returns an error exactly under the stated condition, goes round again only after exactly what it lost was recovered from, takes nothing back, and rewinds exactly if it goes round again. |
| `RewindMachine.EveryRetryIsRecovered` | app/bz_build_api/src/materialize.rs:123-195 | Before every retry of every run exactly the digests lost in the step before it were recorded, and exactly its producers invalidated, bypassed and rewound. |
| `RewindMachine.RunKeeps` | app/bz_build_api/src/materialize.rs:123-195 | Nothing recorded, tracked, invalidated, purged or rewound is taken back in a run. |
| `RewindMachine.RunIsSound` | app/bz_build_api/src/materialize.rs:123-195 | In every state of every run the values in hand were ensured in this run and are tracked, and a run that uploads returns values only after an upload that succeeded. |
| `RewindMachine.EveryRunReturns` | app/bz_build_api/src/materialize.rs:137-140 | Every run returns, within two steps for each attempt left and two. |
| `RewindMachine.RetriesAreBounded` | app/bz_build_api/src/actions/calculation.rs:119-142 | Any run makes at most the cap times the number of signatures retries. |
| `MaterializeLoop.Transaction.MaterializeAndUpload` | app/bz_build_api/src/materialize.rs:123-149 | The outer loop ends for every world, in the state and with the result of a whole run of the machine; on success the values come from this run, are tracked and, if asked for, were uploaded last. |
| `BuildResult.FirstEventFixesShape` | app/bz_build_api/src/build.rs:211-324 | Whether a label is skipped or built is decided by the first event that inserts it, for all time. |
| `BuildResult.AcceptedIffLegal` | app/bz_build_api/src/build.rs:211-324 | A run is accepted exactly if execution, graph-property and timeout events come only after their label was built, and error events never after it was skipped. |
| `BuildResult.FailedIffFailingEvent` | app/bz_build_api/src/build.rs:211-324 | The build has failed exactly if an other-error, a failed execution or validation, a timeout or an error event occurred. |
| `BuildResult.ResultOfRun` | app/bz_build_api/src/build.rs:247-321 | A label holds its own outputs and errors, each once and in order, and none of other labels. |
| `BuildResult.BuildTargetResultBuilder.Handle` | app/bz_build_api/src/build.rs:211-324 | One step of the fold, a breakpoint exactly for failed executions and error events; the reports streamed so far are exactly reports of the states this run passed through. |
| `BuildResult.BuildTargetResultBuilder.HandleResult` | app/bz_build_api/src/build.rs:247-301 | The events that need a result; one report is streamed per output, of the state with that output added and before the failure is marked. |
| `BuildResult.SortUnstable` | app/bz_build_api/src/build.rs:362-362 | A permutation sorted by index. |
| `BuildResult.Dedup` | app/bz_build_api/src/build.rs:354-376 | One output per index seen, by increasing index, with the least elapsed time of that index. |
| `BuildResult.IndicesAreExact` | app/bz_build_api/src/build.rs:354-376 | The indices reported are exactly those seen. |
| `BuildResult.BuildTargetResultBuilder.Build` | app/bz_build_api/src/build.rs:326-408 | The report of the current state, label by label. |
| `BuildResult.StepGrows` | app/bz_build_api/src/build.rs:211-324 | No event takes back a label, an output, an error or a failure, or changes a shape. |
| `BuildResult.ReportsImprove` | app/bz_build_api/src/build.rs:268-272 | Between reports of two states, one grown from the other, the index sets only grow and no reported elapsed time gets later. |
| `BuildResult.RunGrows` | app/bz_build_api/src/build.rs:211-324 | The state of a run has grown from that of each of its prefixes. |
| `BuildResult.ReportsOfRunImprove` | app/bz_build_api/src/build.rs:268-272 | Between reports of any two prefixes of an accepted run nothing is taken back and no elapsed time gets later. |
| `BuildResult.ReportedBetween` | app/bz_build_api/src/build.rs:247-301 | What an event reports lies between the states before and after it and does not show its failure. |
| `BuildResult.ReportedStatesGrow` | app/bz_build_api/src/build.rs:268-272 | The states reported in a run grow, each into the next and all into the last state. |
| `BuildResult.StreamedReportsImprove` | app/bz_build_api/src/build.rs:268-272 | Between any two streamed reports of a run, and between any of them and the last report, nothing is taken back and no elapsed time gets later. |
| `Interleaving.WaitFor` | app/bz_build_api/src/build.rs:140-179 | For every interleaving the result is the fold of a prefix of the sent events: up to the first breakpoint received if fail-fast ends the loop, everything sent otherwise; internal errors and the future's error exactly when they apply. |
| `Interleaving.Drain` | app/bz_build_api/src/build.rs:165-178 | After completion everything still queued is handled, breakpoints or not. |
| `Interleaving.DrainQueue` | app/bz_build_api/src/build.rs:165-171 | The whole queue is handled, or refused exactly if the run is. |
| `Interleaving.ReceiveNext` | app/bz_build_api/src/build.rs:149-157 | The next event received is the next one sent, and a breakpoint received under fail-fast ends the loop right after it. |
| `Argfiles.Expand` | app/bz_client_ctx/src/argfiles.rs:111-152 | The expansion is the flattened include tree, with the file chain of each argument, up to the first path or file that is missing, which is an error. |
| `Argfiles.ExpandFile` | app/bz_client_ctx/src/argfiles.rs:160-172 | One level further in; the current file is restored afterwards. |
| `Argfiles.EvalIsStable` | app/bz_client_ctx/src/argfiles.rs:111-152 | Once enough levels are allowed, more change nothing. |
| `Argfiles.ExpansionIsSettled` | app/bz_client_ctx/src/argfiles.rs:119-149 | In every expansion a special argument that is left comes after a `--`. |
| `Argfiles.ExpansionIsIdempotent` | app/bz_client_ctx/src/argfiles.rs:111-152 | Expanding an expansion again, with any files, returns it unchanged and includes nothing. |
| `Argfiles.EndsIff` | app/bz_client_ctx/src/argfiles.rs:135-143 | Expansion ends exactly if it does not come to open a file from within itself, where files after a missing one are never opened. |
| `Argfiles.MissingComesFirst` | app/bz_client_ctx/src/argfiles.rs:135-143 | A missing file is an error whatever follows it, an include loop among it. |
| `Argfiles.ExpandArgv` | app/bz_client_ctx/src/argfiles.rs:94-101 | Wherever expansion ends it ends with the tree, or with the error. |
| `Argfiles.ExpandedArgvBuilder.Push` | app/bz_common/src/argv.rs:124-130 | The argument with the current file. |
| `PendingStreaming.Streaming.constructor` | app/bz_bxl/src/command.rs:602-622 | Every output is listed under each artifact it waits on, in order. |
| `PendingStreaming.Streaming.NextOutputs` | app/bz_bxl/src/command.rs:624-636 | Emits exactly what the completion releases, though outputs are shared between lists; nothing the second time. |
| `PendingStreaming.EmittedPositions` | app/bz_bxl/src/command.rs:624-636 | A completion emits the outputs it releases, each once and in order. |
| `PendingStreaming.ReleasedByLastAwaited` | app/bz_bxl/src/command.rs:627-633 | An output is released exactly by the completion that makes its wait set complete. |
| `PendingStreaming.ReleasedAtMostOnce` | app/bz_bxl/src/command.rs:624-636 | No output is emitted twice, repeated completions included. |
| `PendingStreaming.ReleasedIffComplete` | app/bz_bxl/src/command.rs:624-636 | An output with something to wait for is emitted in a run exactly if the run completes all of it. |
| `PendingStreaming.RunAll` | app/bz_bxl/src/command.rs:601-637 | What every step of any sequence of completions emits. |
| `AnonAttr.AnyRoundTrip` | app/bz_anon_target/src/anon_target_attr_coerce.rs:242-283 | Coercion to `any` succeeds exactly for nested none, bool, 64-bit int, string, list, tuple and dict values, mentions no promise, and resolves to the value it came from; for other types the soft error is an error, as `error_on_oss` makes it. |
| `AnonAttr.EntriesComeBack` | app/bz_anon_target/src/anon_target_attr_resolve.rs:112-121 | Inserting resolved dict entries one by one rebuilds the dict in order. |
| `AnonAttr.PromiseTraversal.Traverse` | app/bz_anon_target/src/anon_target_attr.rs:198-236 | Pushes exactly the promises of the attribute, in order. |
| `AnonAttr.GetDependents` | app/bz_anon_target/src/anon_target_attr_resolve.rs:233-243 | The promises of all attributes. |
| `AnonAttr.GetAnalysisResults` | app/bz_anon_target/src/anon_target_attr_resolve.rs:245-282 | Every collected promise with its artifact, an error exactly if one is unknown. |
| `AnonAttr.ResolveValues` | app/bz_anon_target/src/anon_target_attr_resolve.rs:98-111 | The values in order, or the first error. |
| `AnonAttr.ResolveTarget` | app/bz_anon_target/src/anon_target_attr_resolve.rs:86-135 | After collection and lookup every promise met in resolution is in the map, so the unwrap cannot fail. |
| `AnonPromises.Promises.PushOne` | app/bz_anon_target/src/anon_promises.rs:40-46 | Adds one entry with a single key, and keeps all entries single. |
| `AnonPromises.Promises.RunPromises` | app/bz_anon_target/src/anon_promises.rs:51-104 | Everything is bound, a key does not resolve, or an index is out of range, as the entries say; with entries as they are made, each promise is bound to the value of its own key. |
| `AnonPromises.Shape` | app/bz_anon_target/src/anon_promises.rs:60-73 | The keys of all entries in one list, and for each entry a place that counts entries. |
| `AnonPromises.Bind` | app/bz_anon_target/src/anon_promises.rs:85-104 | The bindings in order, or an index out of range. |
| `AnonPromises.AlignedGetOwn` | app/bz_anon_target/src/anon_promises.rs:60-73 | Entries each of which follows as many keys as entries are bound to the values of their own keys. |
| `AnonPromises.BoundToOwnIff` | app/bz_anon_target/src/anon_promises.rs:60-73 | For keys whose values differ, every promise is bound to the values of its own keys exactly if each entry with keys follows as many keys as entries. |
| `AnonPromises.SinglesGetOwn` | app/bz_anon_target/src/anon_promises.rs:64-67 | Entries of one key each, which is all that is made today, are bound to their own values. |
| `ProtobufSplitter.VarintRoundTrip` | app/bz_cli_proto/src/protobuf_util.rs:27-30 | A canonical length is read back whatever follows it and takes at most ten bytes. |
| `ProtobufSplitter.WholeFrame` | app/bz_cli_proto/src/protobuf_util.rs:39-45 | A complete frame at the front is split off exactly. |
| `ProtobufSplitter.PartialFrame` | app/bz_cli_proto/src/protobuf_util.rs:29-42 | An incomplete frame asks for more and is never taken for corruption. |
| `ProtobufSplitter.Buffer.TakeFrame` | app/bz_cli_proto/src/protobuf_util.rs:24-46 | One call: a frame taken off, more needed, or corruption, the buffer otherwise unchanged; the sum of length and width is taken modulo 2^64. |
| `ProtobufSplitter.Feed` | app/bz_cli_proto/src/protobuf_util.rs:20-47 | For any messages and any chunking of any prefix of their bytes, the frames of all complete messages come out in order, no byte is lost and corruption is never reported. |
| `ProtobufSplitter.CanonicalIsShortest` | app/bz_cli_proto/src/protobuf_util.rs:39-39 | The canonical length is the shortest encoding of its value and the only one of its width. |
| `ProtobufSplitter.FrameIsWholeIff` | app/bz_cli_proto/src/protobuf_util.rs:39-43 | A frame ends where its message ends exactly if its length was canonical and the sum of length and width is below 2^64. |
| `ProtobufSplitter.WrapsIff` | app/bz_cli_proto/src/protobuf_util.rs:39-39 | The sum of a canonical length and its width wraps exactly for the ten greatest lengths. |
| `ProtobufSplitter.WrappedIsCut` | app/bz_cli_proto/src/protobuf_util.rs:39-43 | For those lengths a part of the length itself is returned as the frame. |
| `ProtobufSplitter.WrappedIsStuck` | app/bz_cli_proto/src/protobuf_util.rs:39-45 | For the length 2^64 - 10 an empty frame is returned and nothing is taken off. |
| `ProtobufSplitter.EmptyFrameIff` | app/bz_cli_proto/src/protobuf_util.rs:39-45 | An empty frame is returned for that length only. |
| `ProtobufSplitter.NonCanonicalIsCut` | app/bz_cli_proto/src/protobuf_util.rs:39-43 | A length of zero in two bytes is cut in half. |
| `SettingEntries.EncodeParse` | app/bz_client_ctx/src/common.rs:627-633 | Encoding settings and parsing them is the identity exactly on lists of nonempty lines. |
| `SettingEntries.BrokenEntries` | app/bz_client_ctx/src/common.rs:971-980 | A string setting whose value holds a newline becomes two lines, and the daemon refuses the second. |
| `SettingEntries.FieldsOfEntry` | app/bz_client_ctx/src/common.rs:623-625 | The daemon reads back kind, key and value of an entry, tabs in the value included. |
| `ConfigOverrides.ReadValues` | app/bz_client_ctx/src/common.rs:1016-1054 | Config values without a cell that hold settings or a compilation mode become contributions, all others overrides, in order. |
| `ConfigOverrides.MergeOverrides` | app/bz_client_ctx/src/common.rs:1332-1366 | The stable merge by argv index, all settings collapsed into one override. |
| `ConfigOverrides.CombinedIsLast` | app/bz_client_ctx/src/common.rs:1336-1349 | The collapsed override takes the greatest index of its contributions. |
| `ConfigOverrides.LaterByPosition` | app/bz_client_ctx/src/common.rs:1350-1366 | The overrides after the collapsed one are the plain ones positioned after it and the other ones positioned at or after it. |
| `ConfigReferences.ReferenceSplits` | app/bz_common/src/legacy_configs/parser/resolver.rs:150-153 | A text with a reference is what is before it, the reference with its name, and what is after it. |
| `ConfigReferences.NoReference` | app/bz_common/src/legacy_configs/parser/resolver.rs:133-137 | A text without a reference stands for itself. |
| `ConfigReferences.OneSolution` | app/bz_common/src/legacy_configs/parser/resolver.rs:183-215 | References without a cycle have at most one solution: values each of which is its text with every reference replaced by the value of what it names, empty if that is not set. |
| `ConfigReferences.Resolved` | app/bz_common/src/legacy_configs/parser/resolver.rs:117-148 | That solution, which exists exactly if all names are well formed and the references have no cycle. |
| `ConfigReferences.ClosesCycle` | app/bz_common/src/legacy_configs/parser/resolver.rs:38-57 | A key met while it is being resolved is on a cycle of references. |
| `ConfigReferences.ConfigResolver.ResolveItem` | app/bz_common/src/legacy_configs/parser/resolver.rs:155-181 | The value of a key in the solution, with everything known before kept; an error only if there is none. |
| `ConfigReferences.ConfigResolver.DoResolve` | app/bz_common/src/legacy_configs/parser/resolver.rs:183-215 | The text with all references replaced by values of the solution; an error only if there is none. |
| `ConfigReferences.ConfigResolver.ResolveAll` | app/bz_common/src/legacy_configs/parser/resolver.rs:127-148 | All values of the solution, or an error exactly if there is none. |
| `RootConfig.SettingsCollapse` | app/bz_common/src/legacy_configs/configs.rs:750-787 | What the daemon finds is what the last override after the collapsed one sets, or else all settings of the command line joined, with references replaced; nothing if the references of the config cannot be resolved. |
| `RootConfig.ResolveProperty` | app/bz_common/src/legacy_configs/args.rs:62-83 | The property is parsed from its text with any blanks in front; an empty value unsets it. |
| `RootConfig.PlainSetter` | app/bz_client_ctx/src/common.rs:1029-1053 | A plain `--config` value sets the property only if it names the root cell or has blanks in front. |
| `RootConfig.PropertyAfter` | app/bz_common/src/legacy_configs/configs.rs:765-784 | In the whole config after all overrides the property has the value that the overrides of the property alone give it. |
| `RootConfig.FinishParse` | app/bz_common/src/legacy_configs/configs.rs:750-787 | The config after all overrides with all references replaced, or an error. |
| `RootConfig.RefusedIff` | app/bz_common/src/legacy_configs/parser.rs:134-160 | The overrides are refused exactly if one of them is malformed or names a banned section. |
| `ConfigOverrides.SortAround` | app/bz_client_ctx/src/common.rs:1350-1366 | The stable sort puts what has a position between the rest, in the order it was gathered. |
| `RootConfig.DaemonSeesAllIff` | app/bz_configured/src/bazel/command_line_options.rs:111-121 | The daemon reads exactly the settings given, in command-line order, if and only if the references of the config can be resolved and, where nothing later sets the property and the settings hold no reference, each setting is one nonempty line; otherwise the value that the references resolve to must have the settings as its lines. |
| `RootConfig.ReferenceIsLost` | app/bz_common/src/legacy_configs/parser/resolver.rs:183-215 | Where no other value has a dollar sign, settings with a reference are never read as given. |
| `RootConfig.PlainConfigIff` | app/bz_configured/src/bazel/command_line_options.rs:111-121 | Where no other config value has a dollar sign and nothing later sets the property, the daemon reads exactly the settings given if and only if each is one nonempty line and the joined settings hold no reference; where something later sets it, if and only if that says the same. |
| `RootConfig.SettingsReplaced` | app/bz_common/src/legacy_configs/parser.rs:147-158 | A later value for the root cell, or one with a blank in front, replaces the settings given first. |
| `RootConfig.ReferenceReplaced` | app/bz_common/src/legacy_configs/parser/resolver.rs:191-213 | A string setting whose value refers to a config value that is not set is read with an empty value, although it is one nonempty line and nothing is set later. |
| `RootConfig.SelfReferenceFails` | app/bz_common/src/legacy_configs/parser/resolver.rs:38-78 | A setting that refers to the property itself makes the config an error. |
| `RootConfig.DaemonSeesAll` | app/bz_configured/src/bazel/command_line_options.rs:111-121 | If no override positioned after the settings sets the property, each setting is one nonempty line, the joined settings hold no reference and the config can be resolved, the daemon reads all of them, in command-line order. |
| `SettingEntries.BuildSettings.PushSetting` | app/bz_configured/src/bazel/command_line_options.rs:50-68 | Lists grow, everything else is replaced. |
| `SettingEntries.ReadSettings` | app/bz_configured/src/bazel/command_line_options.rs:130-170 | The settings of all entries under their resolved keys, or an error if an entry is malformed or its key is no label. |
| `RootConfig.DaemonSettings` | app/bz_configured/src/bazel/command_line_options.rs:111-170 | From the overrides sent to the daemon's map of settings, references replaced, or an error. |
| `SettingEntries.SettingIsLast` | app/bz_configured/src/bazel/command_line_options.rs:50-68 | A scalar has the value of its last entry, a list every item since the last scalar, in order. |
| `ConfigOverrides.LatestMentionWins` | app/bz_client_ctx/src/common.rs:1336-1345 | The last word on a key belongs to the last contribution that mentions it. |
| `RootConfig.LatestFlagWins` | app/bz_client_ctx/src/common.rs:986-989 | From flags to the daemon's map: a scalar is what the contribution of greatest index that mentions it says, a list holds every item since the last scalar, unless something later sets the property, a setting is no single line or the settings hold a reference. |

## Left out

- MaterializeLoop.Transaction.MaterializeAndUpload: does not say that the files are on disk at return, because a rewind invalidates every output of a producer while outputs already in the queue tracker are not requested again (app/bz_build_api/src/materialize.rs:334); it assumes that a rewind tracker is installed, that passes run one after the other, and that a reported upload loss names something.
- SignalGraph.CriticalPathOf: leaves out test nodes and the conversion of durations to saturated microseconds; a final materialization counts as an evaluation with one dependency.
- SignalGraph.SignalGraphIsAcyclic: assumes what the environment promises of a stream (`SignalGraph.Environment`, derived from activations in `Activations`) and that nothing is built for the sake of a top-level analysis (`SignalGraph.AnalysesFirst`).
- Activations.BuildsMeetEnvironment: assumes that a key is activated once and after everything it depends on was sent, that dependencies end no later, loads aside, and that an anon target ends after the Part 1 of some analysis that discovered it.
- CriticalPathReport.Report: assumes that loads and the analyses of top-level targets end no later than what follows them, that no node ends before the early phase or after the computation starts, and that waiting phases start in order.
- Potentials.ComputePotentials: costs are unbounded numbers, so the wrap-around of 64-bit runtimes and 32-bit lengths is not modelled; the graph is one whose edge slices follow each other, as the builder makes them.
- Timeline.OutputTilesWallClock: the saturation of protobuf durations is not modelled.
- BuildResult.BuildTargetResultBuilder.Handle: an error event for a skipped label makes the source panic, so its absence is required.
- Argfiles.ExpandArgv: says nothing where expansion comes to open a file from within itself, because there the source does not end (`Argfiles.EndsIff`); path resolution, standard input, Python argfiles and the override of the first argument are not modelled.
- AnonAttr.AnyRoundTrip: deps, macro arguments and coercion to types other than `any` are not modelled; dict keys are taken to be distinct and hashable, as Starlark keeps them.
- ProtobufSplitter.Feed: takes every message with its length to be shorter than 2^64 bytes, as anything in memory is.
- RootConfig.DaemonSeesAllIff: takes cell aliases as resolved and each config file by the values it sets; files that do not parse are not modelled.
- SettingEntries.ReadSettings: takes the parsing of target labels as a map from text to label.
- WorkPaths.RealWorkPath: takes which vertices stand for work and which inputs an action names as given; times are unbounded, so the saturation of their sum is not modelled; the time at which all dependencies of an entry had finished is left out.
- The slowest path and the per-target critical paths of the build graph: the same longest-path pass with other weights or from other vertices.
- DICE, the materializer, the remote execution client and the rewinding of keys: answered by the world of `Materialize`.
- Rewinding of lost action inputs during action execution: a second user of the same tracker and builder.
- Relative paths of the bundled cells' build script, CLI option structs, event dispatch, tracing and proto copying: they would add easy members only.
