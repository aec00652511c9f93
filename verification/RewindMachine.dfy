/**
 What the retry loops of app/bz_build_api/src/materialize.rs do, as a state machine: one step is one round of
 materialization or one upload, with the recovery it leads to. Runs of any length are runs of this machine.
 */
module RewindMachine {
  import opened Collections
  import opened LostRemote
  import opened Materialize

  /** The per-transaction data, and how many calls have been made to the outside. */
  datatype State = State(clock: nat, tracker: set<BuildArtifact>, knownMissing: set<Digest>,
    attempts: map<Signature, nat>,
                         bypass: set<ActionKey>, invalidated: set<Path>, purges: nat, rewinds: seq<RewindGraph>)

  /** The state after an operation, and whether it succeeded. */
  datatype Outcome = Outcome(state: State, ok: bool)

  // ----- The parts of a recovery -----

  /** Recording digests happens even if the attempt is refused. */
  function Record(s: State, digests: set<Digest>, signatures: seq<Signature>): Outcome {
    var (attempts, ok) := Recorded(s.attempts, signatures);
    Outcome(s.(knownMissing := s.knownMissing + digests, attempts := attempts), ok)
  }

  /** How many of `n` actions can be looked up, one call each, before one cannot. */
  function KnownCount(w: World, clock: nat, n: nat): (r: nat)
    ensures r <= n && (forall i :: clock <= i < clock + r ==> w.Known(i)) && (r < n ==> !w.Known(clock + r))
  {
    if n == 0 then 0
    else
      var r := KnownCount(w, clock, n - 1);
      if r == n - 1 && w.Known(clock + r) then n else r
  }

  function AllOutputs(w: World, keys: seq<ActionKey>): seq<Path> {
    if keys == [] then [] else AllOutputs(w, keys[..|keys| - 1]) + w.Outputs(keys[|keys| - 1])
  }

  /** `invalidate_lost_remote_output_producer_paths`. */
  function Invalidate(w: World, s: State, keys: seq<ActionKey>): Outcome {
    var known, paths, t := KnownCount(w, s.clock, |keys|), AllOutputs(w, keys), s.clock + |keys|;
    if known < |keys| then Outcome(s.(clock := s.clock + known + 1), false)
    else if paths == [] then Outcome(s.(clock := t), true)
    else if !w.Invalidates(t) then Outcome(s.(clock := t + 1), false)
    else Outcome(s.(clock := t + 1, invalidated := s.invalidated + SetOf(paths)), true)
  }

  /** `purge_remote_cache_metadata`: nothing happens where nothing is installed that can purge. */
  function Purge(w: World, s: State): Outcome {
    if !w.canPurge then Outcome(s, true)
    else if w.Purges(s.clock) then Outcome(s.(clock := s.clock + 1, purges := s.purges + 1), true)
    else Outcome(s.(clock := s.clock + 1), false)
  }

  /** Invalidation, purge, bypass and rewind, in this order. */
  function Rewind(w: World, s: State, keys: seq<ActionKey>, graph: RewindGraph): Outcome {
    var invalidated := Invalidate(w, s, keys);
    if !invalidated.ok then invalidated
    else
      var purged := Purge(w, invalidated.state);
      if !purged.ok then purged
      else
        var t := purged.state;
        Outcome(t.(bypass := t.bypass + SetOf(keys), rewinds := t.rewinds + [graph]), true)
  }

  /** The keys of the build artifacts, each once. */
  function KeysInOrder(artifacts: seq<Artifact>): (r: seq<ActionKey>)
    ensures NoDuplicates(r)
  {
    if artifacts == [] then []
    else
      var n := |artifacts| - 1;
      var before := KeysInOrder(artifacts[..n]);
      if artifacts[n].Built? then Once(before, artifacts[n].build.key) else before
  }

  /** The rewind graph of the build artifacts among the given ones. */
  function GraphOver(artifacts: seq<Artifact>): RewindGraph {
    if artifacts == [] then EMPTY_GRAPH
    else
      var n := |artifacts| - 1;
      var before, a := GraphOver(artifacts[..n]), artifacts[n];
      if a.Built? then before.WithAction(a.build.key).WithArtifact(a).WithGroup(SingleArtifact(a)) else before
  }

  /** The rewind graph is free of duplicates, rewinds exactly the build producers and covers their artifacts. */
  lemma {:induction false} GraphOverExact(artifacts: seq<Artifact>)
    ensures GraphOver(artifacts).Distinct() && GraphOver(artifacts).actionKeys == KeysInOrder(artifacts)
    ensures SetOf(KeysInOrder(artifacts)) == BuildKeys(artifacts)
    ensures forall i :: 0 <= i < |artifacts| && artifacts[i].Built? ==>
            GraphOver(artifacts).Covers(SingleArtifact(artifacts[i]))
  {
    if artifacts != [] {
      var n := |artifacts| - 1;
      GraphOverExact(artifacts[..n]);
      BuildKeysSnoc(artifacts, n);
      assert artifacts[..n + 1] == artifacts;
      forall i | 0 <= i < n ensures artifacts[..n][i] == artifacts[i] { }
    }
  }

  /** The producers of a plan as the artifacts its rewind graph is built from. */
  function ProducerArtifacts(producers: seq<BuildArtifact>): (r: seq<Artifact>)
    ensures |r| == |producers| && forall i :: 0 <= i < |r| ==> r[i] == Built(producers[i], None)
  {
    seq(|producers|, i requires 0 <= i < |producers| => Built(producers[i], None))
  }

  /** Recovery from a loss that rewinds the build artifacts among `artifacts`, together with the group. */
  function Recover(w: World, s: State, group: ArtifactGroup, digests: set<Digest>, signatures: seq<Signature>,
                   artifacts: seq<Artifact>): Outcome
  {
    var recorded := Record(s, digests, signatures);
    if !recorded.ok || KeysInOrder(artifacts) == [] then Outcome(recorded.state, false)
    else Rewind(w, recorded.state, KeysInOrder(artifacts), GraphOver(artifacts).WithGroup(group))
  }

  // ----- Rounds -----

  datatype Round = Again | Finished(values: seq<Artifact>) | Broken

  datatype RoundResult = RoundResult(round: Round, state: State)

  function AfterRecovery(o: Outcome): RoundResult {
    RoundResult(if o.ok then Again else Broken, o.state)
  }

  /** The pass made over values that were ensured when the clock showed `t`. */
  function PassAt(w: World, tracker: set<BuildArtifact>, t: nat): Pass
    requires w.Values(t).Some?
  {
    PassOver(w, t + 1, tracker, w.Values(t).value)
  }

  function RecoverOutputs(w: World, s: State, group: ArtifactGroup, lost: seq<LostOutput>): Outcome {
    Recover(w, s, group, DigestsOf(lost), AllOutputSignatures(lost), ProducerArtifacts(ProducersOf(lost)))
  }

  function RecoverUpload(w: World, s: State, group: ArtifactGroup, values: seq<Artifact>,
                         lost: seq<LostUpload>): Outcome {
    Recover(w, s, group, UploadDigestsOf(lost), AllUploadSignatures(lost), values)
  }

  /** One round of the loop in `materialize_artifact_group`. */
  function MaterializeRound(w: World, s: State, group: ArtifactGroup, materialize: bool): RoundResult {
    var ensured := s.(clock := s.clock + 1, bypass := s.bypass - w.Taken(s.clock));
    if w.Values(s.clock).None? then RoundResult(Broken, ensured)
    else if !materialize then RoundResult(Finished(w.Values(s.clock).value), ensured)
    else
      var p := PassAt(w, s.tracker, s.clock);
      var passed := ensured.(clock := ensured.clock + |p.requests|, tracker := p.tracker);
      match PassResult(p)
      case Ok => RoundResult(Finished(w.Values(s.clock).value), passed)
      case Error => RoundResult(Broken, passed)
      case Lost(lost) => AfterRecovery(RecoverOutputs(w, passed, group, lost))
  }

  /** One upload in the loop of `materialize_and_upload_artifact_group`. */
  function UploadRound(w: World, s: State, group: ArtifactGroup, values: seq<Artifact>): RoundResult {
    var uploaded := s.(clock := s.clock + 1);
    match w.Upload(s.clock)
    case Uploaded => RoundResult(Finished(values), uploaded)
    case UploadFailed => RoundResult(Broken, uploaded)
    case UploadLost(lost) => AfterRecovery(RecoverUpload(w, uploaded, group, values, lost))
  }

  // ----- The machine -----

  datatype Params = Params(group: ArtifactGroup, materialize: bool, upload: bool)

  datatype Phase = Materializing | Uploading(values: seq<Artifact>) | Returned(result: Option<seq<Artifact>>)

  datatype Machine = Machine(phase: Phase, state: State)

  /** Where a round of materialization that does not go round again leads to. */
  function AfterMaterializing(p: Params, result: Option<seq<Artifact>>): Phase {
    if result.Some? && p.upload then Uploading(result.value) else Returned(result)
  }

  function Step(w: World, p: Params, m: Machine): Machine {
    match m.phase
    case Materializing =>
      var r := MaterializeRound(w, m.state, p.group, p.materialize);
      Machine(match r.round
              case Again => Materializing
              case Finished(values) => AfterMaterializing(p, Some(values))
              case Broken => Returned(None), r.state)
    case Uploading(values) =>
      var r := UploadRound(w, m.state, p.group, values);
      Machine(match r.round
              case Again => Materializing
              case Finished(_) => Returned(Some(values))
              case Broken => Returned(None), r.state)
    case Returned(_) => m
  }

  function Steps(w: World, p: Params, m: Machine, n: nat): Machine {
    if n == 0 then m else Step(w, p, Steps(w, p, m, n - 1))
  }

  function Start(s: State): Machine { Machine(Materializing, s) }

  // ----- What a recovery does -----

  /** The outside refuses one of the calls a rewind of the given actions makes when the clock shows `t`. */
  ghost predicate Refused(w: World, t: nat, keys: seq<ActionKey>) {
    var invalidations := if AllOutputs(w, keys) == [] then 0 else 1;
    || (exists i :: t <= i < t + |keys| && !w.Known(i))
    || (invalidations == 1 && !w.Invalidates(t + |keys|))
    || (w.canPurge && !w.Purges(t + |keys| + invalidations))
  }

  /** A path is an output of one of the actions. */
  ghost predicate MadeBy(w: World, keys: set<ActionKey>, p: Path) {
    exists k :: k in keys && p in w.Outputs(k)
  }

  /** Exactly the outputs of the actions were invalidated. */
  ghost predicate Invalidated(w: World, keys: set<ActionKey>, before: set<Path>, after: set<Path>) {
    forall p :: p in after <==> p in before || MadeBy(w, keys, p)
  }

  /**
   From one state to the next: exactly the given digests were recorded; exactly the producers have all their outputs
   invalidated, newly bypass the action cache and are rewound; metadata was purged once where it can be;
   nothing is rewound twice, and the requested group is rewound as well.
   */
  ghost predicate Recovered(w: World, group: ArtifactGroup, digests: set<Digest>, producers: set<ActionKey>,
                            before: State, after: State)
  {
    && after.knownMissing == before.knownMissing + digests
    && Invalidated(w, producers, before.invalidated, after.invalidated)
    && producers <= after.bypass <= before.bypass + producers
    && after.purges == before.purges + (if w.canPurge then 1 else 0)
    && |after.rewinds| == |before.rewinds| + 1 && after.rewinds[..|before.rewinds|] == before.rewinds
    && var graph := after.rewinds[|before.rewinds|];
    && graph.Distinct() && graph.Covers(group) && SetOf(graph.actionKeys) == producers
  }

  lemma {:induction false} OutputsExact(w: World, keys: seq<ActionKey>, p: Path)
    ensures p in AllOutputs(w, keys) <==> MadeBy(w, SetOf(keys), p)
  {
    if keys != [] {
      var n := |keys| - 1;
      assert keys == keys[..n] + [keys[n]];
      OutputsExact(w, keys[..n], p);
      assert SetOf(keys) == SetOf(keys[..n]) + {keys[n]};
      if p in w.Outputs(keys[n]) { assert keys[n] in SetOf(keys); }
    }
  }

  lemma {:induction false} InvalidateFacts(w: World, s: State, keys: seq<ActionKey>)
    ensures var o, invalidations := Invalidate(w, s, keys), if AllOutputs(w, keys) == [] then 0 else 1;
            && (o.ok <==> (forall i :: s.clock <= i < s.clock + |keys| ==> w.Known(i))
                          && (invalidations == 1 ==> w.Invalidates(s.clock + |keys|)))
            && o.state == s.(clock := o.state.clock, invalidated := o.state.invalidated)
            && s.invalidated <= o.state.invalidated && s.clock <= o.state.clock
            && (o.ok ==> o.state.clock == s.clock + |keys| + invalidations)
            && (o.ok ==> Invalidated(w, SetOf(keys), s.invalidated, o.state.invalidated))
  {
    var known := KnownCount(w, s.clock, |keys|);
    if known < |keys| { assert !w.Known(s.clock + known); }
    forall p ensures p in AllOutputs(w, keys) <==> MadeBy(w, SetOf(keys), p) {
      OutputsExact(w, keys, p);
    }
    hide MadeBy;
    var o := Invalidate(w, s, keys);
    assert o.ok ==> forall p :: p in o.state.invalidated <==> p in s.invalidated || p in AllOutputs(w, keys);
  }

  /** A rewind succeeds exactly if the outside refuses nothing. */
  lemma {:induction false} RewindFacts(w: World, s: State, keys: seq<ActionKey>, graph: RewindGraph)
    ensures Rewind(w, s, keys, graph).ok <==> !Refused(w, s.clock, keys)
    ensures Rewind(w, s, keys, graph).ok ==>
              var t := Rewind(w, s, keys, graph).state;
              && t.knownMissing == s.knownMissing && Invalidated(w, SetOf(keys), s.invalidated, t.invalidated)
              && t.bypass == s.bypass + SetOf(keys) && t.purges == s.purges + (if w.canPurge then 1 else 0)
              && t.rewinds == s.rewinds + [graph]
  {
    InvalidateFacts(w, s, keys);
    hide Invalidate, AllOutputs;
  }

  /** What never changes for the worse, whether a recovery succeeds or not. */
  ghost predicate Kept(a: State, b: State) {
    && a.clock <= b.clock && a.tracker <= b.tracker && a.knownMissing <= b.knownMissing
      && a.invalidated <= b.invalidated
    && a.purges <= b.purges && |a.rewinds| <= |b.rewinds| && b.rewinds[..|a.rewinds|] == a.rewinds
  }

  lemma {:induction false} RewindKeeps(w: World, s: State, keys: seq<ActionKey>, graph: RewindGraph)
    ensures var o := Rewind(w, s, keys, graph);
            && Kept(s, o.state) && o.state.attempts == s.attempts && o.state.tracker == s.tracker
            && |o.state.rewinds| == |s.rewinds| + (if o.ok then 1 else 0)
  {
    InvalidateFacts(w, s, keys);
    hide Invalidate, AllOutputs;
  }

  /** The tracker's verdict on the attempt, a producer to rewind and the outside decide whether a recovery succeeds. */
  ghost predicate RecoveryFails(w: World, s: State, signatures: seq<Signature>, artifacts: seq<Artifact>) {
    || !Recorded(s.attempts, signatures).1
    || BuildKeys(artifacts) == {}
    || Refused(w, s.clock, KeysInOrder(artifacts))
  }

  lemma {:induction false} RewoundGraph(artifacts: seq<Artifact>, group: ArtifactGroup)
    ensures var keys, graph := KeysInOrder(artifacts), GraphOver(artifacts).WithGroup(group);
            && graph.Distinct() && graph.Covers(group) && graph.actionKeys == keys
            && SetOf(keys) == BuildKeys(artifacts) && (keys == [] <==> BuildKeys(artifacts) == {})
            && forall k :: k in BuildKeys(artifacts) <==> k in keys
  {
    GraphOverExact(artifacts);
    GraphGrows(GraphOver(artifacts), group, "");
    hide GraphOver, KeysInOrder, RewindGraph.Distinct, RewindGraph.Covers;
    var keys := KeysInOrder(artifacts);
    if keys != [] { assert keys[0] in SetOf(keys); }
    assert forall k :: k in SetOf(keys) <==> k in keys;
  }

  lemma {:induction false} RecoverFacts(w: World, s: State, group: ArtifactGroup, digests: set<Digest>,
                                        signatures: seq<Signature>, artifacts: seq<Artifact>)
    ensures var o := Recover(w, s, group, digests, signatures, artifacts);
            && (o.ok <==> !RecoveryFails(w, s, signatures, artifacts))
            && (o.ok ==> Recovered(w, group, digests, BuildKeys(artifacts), s, o.state))
            && Kept(s, o.state) && o.state.tracker == s.tracker
              && o.state.attempts == Recorded(s.attempts, signatures).0
            && |o.state.rewinds| == |s.rewinds| + (if o.ok then 1 else 0)
  {
    hide Rewind, Refused, Recorded, GraphOver, KeysInOrder, RewindGraph.WithGroup, RewindGraph.Distinct,
         RewindGraph.Covers;
    var keys, graph, recorded := KeysInOrder(artifacts), GraphOver(artifacts).WithGroup(group),
        Record(s, digests, signatures).state;
    RewoundGraph(artifacts, group);
    RewindFacts(w, recorded, keys, graph);
    RewindKeeps(w, recorded, keys, graph);
  }

  // ----- What a step does -----

  /** The values of the running round, where there are any. */
  function LostInRound(w: World, s: State): seq<LostOutput> {
    if w.Values(s.clock).None? then [] else LostIn(PassAt(w, s.tracker, s.clock).requests)
  }

  function LostInUpload(w: World, s: State): seq<LostUpload> {
    if w.Upload(s.clock).UploadLost? then w.Upload(s.clock).lost else []
  }

  /** The digests and the producers of what a step finds lost. */
  function DigestsLost(w: World, m: Machine): set<Digest> {
    match m.phase
    case Materializing => DigestsOf(LostInRound(w, m.state))
    case Uploading(_) => UploadDigestsOf(LostInUpload(w, m.state))
    case Returned(_) => {}
  }

  function ProducersLost(w: World, m: Machine): set<ActionKey> {
    match m.phase
    case Materializing => KeysOf(LostInRound(w, m.state))
    case Uploading(values) => BuildKeys(values)
    case Returned(_) => {}
  }

  lemma {:induction false} BuildKeysOfProducers(lost: seq<LostOutput>)
    ensures BuildKeys(ProducerArtifacts(ProducersOf(lost))) == KeysOf(lost)
  {
    KeysOfProducers(lost);
    var producers := ProducersOf(lost);
    var artifacts, keys := ProducerArtifacts(producers), Keys(producers);
    forall k | k in SetOf(keys) ensures k in BuildKeys(artifacts) {
      var i :| 0 <= i < |keys| && keys[i] == k;
      assert artifacts[i].Built? && artifacts[i].build.key == k;
    }
    forall k | k in BuildKeys(artifacts) ensures k in SetOf(keys) {
      var i :| 0 <= i < |artifacts| && artifacts[i].Built? && artifacts[i].build.key == k;
      assert keys[i] == k;
    }
  }

  /** The state in which a round of materialization recovers or returns. */
  function Passed(w: World, s: State): State
    requires w.Values(s.clock).Some?
  {
    var p := PassAt(w, s.tracker, s.clock);
    s.(clock := s.clock + 1 + |p.requests|, bypass := s.bypass - w.Taken(s.clock), tracker := p.tracker)
  }

  lemma {:induction false} PassedKeeps(w: World, s: State)
    requires w.Values(s.clock).Some?
    ensures Kept(s, Passed(w, s)) && Passed(w, s).attempts == s.attempts && Passed(w, s).rewinds == s.rewinds
  {
    PassKeepsTracker(w, s.clock + 1, s.tracker, w.Values(s.clock).value);
    hide PassOver;
  }

  /** When a step returns an error. */
  ghost predicate Fails(w: World, p: Params, m: Machine) {
    match m.phase
    case Materializing =>
      || w.Values(m.state.clock).None?
      || (p.materialize && PassResult(PassAt(w, m.state.tracker, m.state.clock)).Error?)
      || (p.materialize && PassResult(PassAt(w, m.state.tracker, m.state.clock)).Lost?
          && var lost := LostInRound(w, m.state);
             RecoveryFails(w, Passed(w, m.state), AllOutputSignatures(lost), ProducerArtifacts(ProducersOf(lost))))
    case Uploading(values) =>
      || w.Upload(m.state.clock).UploadFailed?
      || (w.Upload(m.state.clock).UploadLost?
          && RecoveryFails(w, m.state.(clock := m.state.clock + 1), AllUploadSignatures(LostInUpload(w, m.state)),
            values))
    case Returned(result) => result.None?
  }

  /** A step goes round again only after exactly what was lost in it has been recovered from. */
  ghost predicate StepFacts(w: World, p: Params, m: Machine) {
    var next := Step(w, p, m);
    && (next.phase == Returned(None) <==> Fails(w, p, m))
    && (next.phase.Materializing? ==>
          Recovered(w, p.group, DigestsLost(w, m), ProducersLost(w, m), m.state, next.state))
    && Kept(m.state, next.state)
    && |next.state.rewinds| == |m.state.rewinds| + (if next.phase.Materializing? then 1 else 0)
  }

  /** A pass touches nothing a recovery adds to. */
  lemma {:induction false} PassedIsNeutral(w: World, s: State, group: ArtifactGroup, digests: set<Digest>,
                                           producers: set<ActionKey>, after: State)
    requires w.Values(s.clock).Some? && Kept(Passed(w, s), after)
    ensures Kept(s, after)
    ensures Recovered(w, group, digests, producers, Passed(w, s), after) ==>
            Recovered(w, group, digests, producers, s, after)
  {
    PassedKeeps(w, s);
    hide PassAt;
  }

  lemma {:induction false} LostRound(w: World, p: Params, s: State)
    requires p.materialize && w.Values(s.clock).Some? && PassResult(PassAt(w, s.tracker, s.clock)).Lost?
    ensures var o := RecoverOutputs(w, Passed(w, s), p.group, LostInRound(w, s));
            Step(w, p, Start(s)) == Machine(if o.ok then Materializing else Returned(None), o.state)
  {
    hide Recover, PassAt, LostIn;
  }

  lemma {:induction false} QuietRound(w: World, p: Params, s: State)
    requires w.Values(s.clock).None? || !p.materialize || !PassResult(PassAt(w, s.tracker, s.clock)).Lost?
    ensures StepFacts(w, p, Start(s)) && !Step(w, p, Start(s)).phase.Materializing?
    ensures Step(w, p, Start(s)).state.attempts == s.attempts
  {
    if w.Values(s.clock).Some? { PassedKeeps(w, s); }
    hide PassAt, LostIn, RecoveryFails, Recovered;
  }

  lemma {:induction false} LostStep(w: World, p: Params, s: State)
    requires p.materialize && w.Values(s.clock).Some? && PassResult(PassAt(w, s.tracker, s.clock)).Lost?
    ensures StepFacts(w, p, Start(s))
  {
    hide Step, Recover, RecoveryFails, Recovered, Kept, PassAt, LostInRound, DigestsOf, KeysOf, AllOutputSignatures,
         BuildKeys;
    var passed, lost := Passed(w, s), LostInRound(w, s);
    LostRound(w, p, s);
    RecoverFacts(w, passed, p.group, DigestsOf(lost), AllOutputSignatures(lost), ProducerArtifacts(ProducersOf(lost)));
    BuildKeysOfProducers(lost);
    PassedKeeps(w, s);
    PassedIsNeutral(w, s, p.group, DigestsOf(lost), KeysOf(lost), Step(w, p, Start(s)).state);
  }

  lemma {:induction false} MaterializeStep(w: World, p: Params, s: State)
    ensures StepFacts(w, p, Start(s))
  {
    hide StepFacts, PassAt;
    if p.materialize && w.Values(s.clock).Some? && PassResult(PassAt(w, s.tracker, s.clock)).Lost? {
      LostStep(w, p, s);
    } else {
      QuietRound(w, p, s);
    }
  }

  lemma {:induction false} LostUploadRound(w: World, p: Params, s: State, values: seq<Artifact>)
    requires w.Upload(s.clock).UploadLost?
    ensures var o := RecoverUpload(w, s.(clock := s.clock + 1), p.group, values, LostInUpload(w, s));
            Step(w, p, Machine(Uploading(values), s)) == Machine(if o.ok then Materializing
              else Returned(None), o.state)
  {
    hide Recover;
  }

  lemma {:induction false} QuietUpload(w: World, p: Params, s: State, values: seq<Artifact>)
    requires !w.Upload(s.clock).UploadLost?
    ensures StepFacts(w, p, Machine(Uploading(values), s))
            && !Step(w, p, Machine(Uploading(values), s)).phase.Materializing?
    ensures Step(w, p, Machine(Uploading(values), s)).state == s.(clock := s.clock + 1)
  {
    hide RecoveryFails, Recovered;
  }

  /** Another call to the outside touches nothing a recovery adds to. */
  lemma {:induction false} CallIsNeutral(w: World, s: State, group: ArtifactGroup, digests: set<Digest>,
                                         producers: set<ActionKey>, after: State)
    requires Kept(s.(clock := s.clock + 1), after)
    ensures Kept(s, after)
    ensures Recovered(w, group, digests, producers, s.(clock := s.clock + 1), after) ==>
              Recovered(w, group, digests, producers, s, after)
  {
  }

  lemma {:induction false} LostUploadStep(w: World, p: Params, s: State, values: seq<Artifact>)
    requires w.Upload(s.clock).UploadLost?
    ensures StepFacts(w, p, Machine(Uploading(values), s))
  {
    hide Step, Recover, RecoveryFails, Recovered, Kept, UploadDigestsOf, AllUploadSignatures, BuildKeys;
    var lost, uploaded := LostInUpload(w, s), s.(clock := s.clock + 1);
    LostUploadRound(w, p, s, values);
    RecoverFacts(w, uploaded, p.group, UploadDigestsOf(lost), AllUploadSignatures(lost), values);
    CallIsNeutral(w, s, p.group, UploadDigestsOf(lost), BuildKeys(values),
      Step(w, p, Machine(Uploading(values), s)).state);
  }

  lemma {:induction false} UploadStep(w: World, p: Params, s: State, values: seq<Artifact>)
    ensures StepFacts(w, p, Machine(Uploading(values), s))
  {
    hide StepFacts;
    if w.Upload(s.clock).UploadLost? { LostUploadStep(w, p, s, values); } else { QuietUpload(w, p, s, values); }
  }

  /** Every step, of every run. */
  lemma {:induction false} EveryStep(w: World, p: Params, m: Machine)
    requires !m.phase.Returned?
    ensures StepFacts(w, p, m)
  {
    hide StepFacts;
    match m.phase
    case Materializing => MaterializeStep(w, p, m.state);
    case Uploading(values) => UploadStep(w, p, m.state, values);
  }

  // ----- Runs -----

  lemma {:induction false} StepsAdd(w: World, p: Params, m: Machine, a: nat, b: nat)
    ensures Steps(w, p, Steps(w, p, m, a), b) == Steps(w, p, m, a + b)
  {
    hide Step;
    if b > 0 { StepsAdd(w, p, m, a, b - 1); }
  }

  lemma {:induction false} ReturnedStep(w: World, p: Params, m: Machine)
    requires m.phase.Returned?
    ensures Step(w, p, m) == m
  {
    hide MaterializeRound, UploadRound;
  }

  /** Once a run has returned, it stays returned. */
  lemma {:induction false} ReturnedStays(w: World, p: Params, m: Machine, n: nat)
    requires m.phase.Returned?
    ensures Steps(w, p, m, n) == m
  {
    ReturnedStep(w, p, m);
    hide Step;
    if n > 0 { ReturnedStays(w, p, m, n - 1); }
  }

  /** Before every retry of a run, exactly what was lost in the step before it has been recovered from. */
  lemma {:induction false} EveryRetryIsRecovered(w: World, p: Params, s: State, i: nat)
    requires Steps(w, p, Start(s), i + 1).phase.Materializing?
    ensures var m, next := Steps(w, p, Start(s), i), Steps(w, p, Start(s), i + 1);
            && !m.phase.Returned?
            && Recovered(w, p.group, DigestsLost(w, m), ProducersLost(w, m), m.state, next.state)
  {
    var m := Steps(w, p, Start(s), i);
    assert Steps(w, p, Start(s), i + 1) == Step(w, p, m);
    assert !m.phase.Returned?;
    EveryStep(w, p, m);
    hide Step, Steps, Recovered, Fails;
  }

  lemma {:induction false} KeptTrans(a: State, b: State, c: State)
    requires Kept(a, b) && Kept(b, c)
    ensures Kept(a, c)
  {
    assert c.rewinds[..|a.rewinds|] == c.rewinds[..|b.rewinds|][..|a.rewinds|];
  }

  /** Nothing recorded, tracked, invalidated, purged or rewound is taken back in a run. */
  lemma {:induction false} RunKeeps(w: World, p: Params, m: Machine, n: nat)
    ensures Kept(m.state, Steps(w, p, m, n).state)
  {
    if n > 0 {
      RunKeeps(w, p, m, n - 1);
      var before := Steps(w, p, m, n - 1);
      if !before.phase.Returned? {
        EveryStep(w, p, before);
        KeptTrans(m.state, before.state, Step(w, p, before).state);
      }
    }
  }

  /** The values a machine holds, if it holds any. */
  function ValuesHeld(m: Machine): Option<seq<Artifact>> {
    match m.phase
    case Materializing => None
    case Uploading(values) => Some(values)
    case Returned(result) => result
  }

  ghost predicate EnsuredSince(w: World, start: nat, now: nat, values: seq<Artifact>) {
    exists t :: start <= t < now && w.Values(t) == Some(values)
  }

  /**
   What holds of the values in hand: they were ensured in this run, if they had to be materialized all their build
   artifacts are tracked, and if they had to be uploaded and the run is over, the last call was an upload that
   succeeded.
   */
  ghost predicate Sound(w: World, p: Params, start: nat, m: Machine) {
    && start <= m.state.clock
    && (m.phase.Uploading? ==> p.upload)
    && (ValuesHeld(m).Some? ==> EnsuredSince(w, start, m.state.clock, ValuesHeld(m).value))
    && (ValuesHeld(m).Some? && p.materialize ==> AllTracked(ValuesHeld(m).value, m.state.tracker))
    && (m.phase.Returned? && m.phase.result.Some? && p.upload ==>
          m.state.clock > start && w.Upload(m.state.clock - 1).Uploaded?)
  }

  /** The values in hand after a round are those ensured in it, tracked if they had to be materialized. */
  ghost predicate HeldFromRound(w: World, p: Params, s: State, next: Machine) {
    && (next.phase.Uploading? ==> p.upload)
    && (ValuesHeld(next).Some? ==>
          && w.Values(s.clock) == ValuesHeld(next) && s.clock < next.state.clock
          && (p.materialize ==> AllTracked(ValuesHeld(next).value, next.state.tracker))
          && (next.phase.Returned? ==> !p.upload))
  }

  lemma {:induction false} CleanRound(w: World, p: Params, s: State)
    requires w.Values(s.clock).None? || !p.materialize || !PassResult(PassAt(w, s.tracker, s.clock)).Lost?
    ensures HeldFromRound(w, p, s, Step(w, p, Start(s)))
  {
    if w.Values(s.clock).Some? && p.materialize && PassResult(PassAt(w, s.tracker, s.clock)).Ok? {
      CleanPassTracksAll(w, s.clock + 1, s.tracker, w.Values(s.clock).value);
    }
    hide PassOver, LostIn, AllTracked;
  }

  lemma {:induction false} RoundHolds(w: World, p: Params, s: State)
    ensures HeldFromRound(w, p, s, Step(w, p, Start(s)))
  {
    hide Step, PassAt, Recover, AllTracked;
    if p.materialize && w.Values(s.clock).Some? && PassResult(PassAt(w, s.tracker, s.clock)).Lost? {
      LostRound(w, p, s);
    } else {
      CleanRound(w, p, s);
    }
  }

  lemma {:induction false} MaterializingStaysSound(w: World, p: Params, start: nat, s: State)
    requires start <= s.clock
    ensures Sound(w, p, start, Step(w, p, Start(s)))
  {
    hide Step, Fails, Recovered, AllTracked;
    MaterializeStep(w, p, s);
    RoundHolds(w, p, s);
  }

  lemma {:induction false} UploadingStaysSound(w: World, p: Params, start: nat, m: Machine)
    requires Sound(w, p, start, m) && m.phase.Uploading?
    ensures Sound(w, p, start, Step(w, p, m))
  {
    UploadStep(w, p, m.state, m.phase.values);
    if w.Upload(m.state.clock).UploadLost? {
      LostUploadRound(w, p, m.state, m.phase.values);
      hide Step, Recover, Recovered, Fails, AllTracked, EnsuredSince;
    } else {
      QuietUpload(w, p, m.state, m.phase.values);
      var t :| start <= t < m.state.clock && w.Values(t) == Some(m.phase.values);
      assert EnsuredSince(w, start, m.state.clock + 1, m.phase.values);
      hide Recover, Recovered, Fails, AllTracked;
    }
  }

  /** Every state of every run is sound. */
  lemma {:induction false} RunIsSound(w: World, p: Params, s: State, n: nat)
    ensures Sound(w, p, s.clock, Steps(w, p, Start(s), n))
  {
    if n > 0 {
      RunIsSound(w, p, s, n - 1);
      RunKeeps(w, p, Start(s), n - 1);
      var m := Steps(w, p, Start(s), n - 1);
      match m.phase
      case Materializing => MaterializingStaysSound(w, p, s.clock, m.state);
      case Uploading(_) => UploadingStaysSound(w, p, s.clock, m);
      case Returned(_) =>
    }
  }

  // ----- Every run ends -----

  function Left(universe: set<Signature>, m: Machine): nat {
    |Remaining(universe, m.state.attempts)|
  }

  /** Recovery never adds to the budget, and uses some of it whenever it succeeds. */
  lemma {:induction false} RecoveryUsesBudget(w: World, universe: set<Signature>, s: State, group: ArtifactGroup,
                                              digests: set<Digest>, signatures: seq<Signature>,
                                              artifacts: seq<Artifact>)
    requires signatures != [] && AllIn(signatures, universe)
    ensures var o := Recover(w, s, group, digests, signatures, artifacts);
            && |Remaining(universe, o.state.attempts)| <= |Remaining(universe, s.attempts)|
            && (o.ok ==> |Remaining(universe, o.state.attempts)| < |Remaining(universe, s.attempts)|)
  {
    hide Recover, Refused, Recovered, Kept, Recorded, Remaining, AllIn, KeysInOrder, BuildKeys;
    RecoverFacts(w, s, group, digests, signatures, artifacts);
    RecordingShrinksBudget(universe, s.attempts, signatures);
  }

  lemma {:induction false} LossesOfRound(w: World, universe: set<Signature>, s: State)
    requires Bounded(w, universe) && w.Values(s.clock).Some? && PassResult(PassAt(w, s.tracker, s.clock)).Lost?
    ensures AllOutputSignatures(LostInRound(w, s)) != [] && AllIn(AllOutputSignatures(LostInRound(w, s)), universe)
  {
    var values := w.Values(s.clock).value;
    LossesAreBounded(w, universe, s.clock + 1, s.tracker, values, |values|);
    assert values[..|values|] == values;
    hide Bounded, PassOver, LostIn, AllIn;
  }

  lemma {:induction false} StepUsesBudget(w: World, p: Params, universe: set<Signature>, m: Machine)
    requires Bounded(w, universe) && !m.phase.Returned?
    ensures Left(universe, Step(w, p, m)) <= Left(universe, m)
    ensures Step(w, p, m).phase.Materializing? ==> Left(universe, Step(w, p, m)) < Left(universe, m)
  {
    var s := m.state;
    match m.phase
    case Materializing =>
      if p.materialize && w.Values(s.clock).Some? && PassResult(PassAt(w, s.tracker, s.clock)).Lost? {
        var lost := LostInRound(w, s);
        LostRound(w, p, s);
        LossesOfRound(w, universe, s);
        RecoveryUsesBudget(w, universe, Passed(w, s), p.group, DigestsOf(lost), AllOutputSignatures(lost),
                           ProducerArtifacts(ProducersOf(lost)));
        hide Step, Recover, PassAt, LostInRound, AllOutputSignatures, Bounded, Remaining;
      } else {
        QuietRound(w, p, s);
        hide Step, PassAt, StepFacts, Bounded, Remaining;
      }
    case Uploading(values) =>
      if w.Upload(s.clock).UploadLost? {
        var lost := LostInUpload(w, s);
        LostUploadRound(w, p, s, values);
        RecoveryUsesBudget(w, universe, s.(clock := s.clock + 1), p.group, UploadDigestsOf(lost),
          AllUploadSignatures(lost), values);
        hide Step, Recover, AllUploadSignatures, Remaining;
      } else {
        QuietUpload(w, p, s, values);
        hide Step, StepFacts, Bounded, Remaining;
      }
  }

  /** How many more steps a machine can take: two for each attempt left, and those of the round it is in. */
  function StepsLeft(universe: set<Signature>, m: Machine): nat {
    2 * Left(universe, m) + match m.phase case Materializing => 2 case Uploading(_) => 1 case Returned(_) => 0
  }

  lemma {:induction false} FirstSteps(w: World, p: Params, m: Machine)
    ensures Steps(w, p, m, 0) == m && Steps(w, p, m, 1) == Step(w, p, m)
  {
    hide Step;
    assert Steps(w, p, m, 1) == Step(w, p, Steps(w, p, m, 0));
  }

  lemma {:induction false} StepMovesOn(w: World, p: Params, m: Machine)
    requires m.phase.Uploading?
    ensures !Step(w, p, m).phase.Uploading?
  {
  }

  lemma {:induction false} StepsLeftShrinks(w: World, p: Params, universe: set<Signature>, m: Machine)
    requires Bounded(w, universe) && !m.phase.Returned?
    ensures StepsLeft(universe, Step(w, p, m)) < StepsLeft(universe, m)
  {
    hide Bounded, Step, Left;
    StepUsesBudget(w, p, universe, m);
    if m.phase.Uploading? { StepMovesOn(w, p, m); }
  }

  /** Every run returns, within twice as many steps as there are attempts left, and two. */
  lemma {:induction false} EveryRunReturns(w: World, p: Params, universe: set<Signature>, m: Machine) returns (n: nat)
    requires Bounded(w, universe)
    ensures n <= StepsLeft(universe, m) && Steps(w, p, m, n).phase.Returned?
    decreases StepsLeft(universe, m)
  {
    hide *;
    FirstSteps(w, p, m);
    if m.phase.Returned? {
      n := 0;
    } else {
      StepsLeftShrinks(w, p, universe, m);
      var k := EveryRunReturns(w, p, universe, Step(w, p, m));
      StepsAdd(w, p, m, 1, k);
      n := 1 + k;
    }
  }

  lemma {:induction false} StepsNeverGrow(w: World, p: Params, universe: set<Signature>, m: Machine, n: nat)
    requires Bounded(w, universe)
    ensures StepsLeft(universe, Steps(w, p, m, n)) <= StepsLeft(universe, m)
  {
    hide Bounded, StepsLeft;
    if n > 0 {
      StepsNeverGrow(w, p, universe, m, n - 1);
      var before := Steps(w, p, m, n - 1);
      if !before.phase.Returned? { StepsLeftShrinks(w, p, universe, before); }
    }
  }

  lemma {:induction false} LeftIsFinite(universe: set<Signature>, m: Machine)
    ensures Left(universe, m) <= MAX_REPEATED_LOST_REMOTE_REWINDS * |universe|
  {
    BudgetIsFinite(universe, m.state.attempts);
  }

  /**
   The retries of a run never exceed the attempts left at its start, and so the cap times the number of signatures.
   */
  lemma {:induction false} RetriesAreBounded(w: World, p: Params, universe: set<Signature>, m: Machine, n: nat)
    requires Bounded(w, universe)
    ensures var last := Steps(w, p, m, n);
            && |last.state.rewinds| + Left(universe, last) <= |m.state.rewinds| + Left(universe, m)
            && |last.state.rewinds| <= |m.state.rewinds| + MAX_REPEATED_LOST_REMOTE_REWINDS * |universe|
  {
    hide Bounded, Left;
    if n > 0 {
      RetriesAreBounded(w, p, universe, m, n - 1);
      var before := Steps(w, p, m, n - 1);
      if !before.phase.Returned? {
        EveryStep(w, p, before);
        StepUsesBudget(w, p, universe, before);
      }
    }
    LeftIsFinite(universe, m);
  }
}
