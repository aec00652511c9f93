/**
 The retry loops of app/bz_build_api/src/materialize.rs as they run, with the per-transaction data they update. Every
 operation is proved to do what its counterpart in the machine does, and the nested loops to be runs of the machine.
 */
module MaterializeLoop {
  import opened Collections
  import opened LostRemote
  import opened Materialize
  import RM = RewindMachine

  /** `LostRemoteOutputRewindPlan::new`. */
  method PlanProducers(lost: seq<LostOutput>) returns (producers: seq<BuildArtifact>)
    ensures producers == ProducersOf(lost)
  {
    producers := [];
    for i := 0 to |lost|
      invariant producers == ProducersOf(lost[..i])
    {
      assert lost[..i + 1][..i] == lost[..i];
      if !HasProducer(producers, lost[i].artifact.key) {
        producers := producers + [lost[i].artifact];
      }
    }
    assert lost[..|lost|] == lost;
  }

  /** `rewind_graph_builder` and the loop of `rewind_lost_remote_upload`, then the requested group. */
  method RewindGraphOf(artifacts: seq<Artifact>, group: ArtifactGroup) returns (graph: RewindGraph)
    ensures graph == RM.GraphOver(artifacts).WithGroup(group)
  {
    var builder := new LostRemoteRewindGraphBuilder();
    for i := 0 to |artifacts|
      invariant fresh(builder) && builder.Graph() == RM.GraphOver(artifacts[..i])
    {
      assert artifacts[..i + 1][..i] == artifacts[..i];
      if artifacts[i].Built? {
        builder.AddActionKey(artifacts[i].build.key);
        builder.AddArtifact(artifacts[i]);
        builder.AddArtifactGroup(SingleArtifact(artifacts[i]));
      }
    }
    assert artifacts[..|artifacts|] == artifacts;
    builder.AddArtifactGroup(group);
    graph := builder.Graph();
  }

  /** The actions of the build artifacts, each looked up once. */
  method UploadKeys(values: seq<Artifact>) returns (keys: seq<ActionKey>)
    ensures keys == RM.KeysInOrder(values)
  {
    keys := [];
    for i := 0 to |values|
      invariant keys == RM.KeysInOrder(values[..i])
    {
      assert values[..i + 1][..i] == values[..i];
      if values[i].Built? && values[i].build.key !in keys {
        keys := keys + [values[i].build.key];
      }
    }
    assert values[..|values|] == values;
  }

  lemma {:induction false} UnknownStops(w: World, clock: nat, i: nat, n: nat)
    requires i < n && RM.KnownCount(w, clock, i) == i && !w.Known(clock + i)
    ensures RM.KnownCount(w, clock, n) == i
  {
    if n > i + 1 { UnknownStops(w, clock, i, n - 1); }
  }

  lemma {:induction false} DistinctKeysInOrder(producers: seq<BuildArtifact>)
    requires forall i, j :: 0 <= i < j < |producers| ==> producers[i].key != producers[j].key
    ensures RM.KeysInOrder(RM.ProducerArtifacts(producers)) == Keys(producers)
  {
    if producers != [] {
      var n := |producers| - 1;
      DistinctKeysInOrder(producers[..n]);
      assert RM.ProducerArtifacts(producers)[..n] == RM.ProducerArtifacts(producers[..n]);
      assert Keys(producers) == Keys(producers[..n]) + [producers[n].key];
      assert producers[n].key !in Keys(producers[..n]);
    }
  }

  /** The producers of a plan, one for each action, are looked up in the order they were found. */
  lemma {:induction false} PlanKeys(lost: seq<LostOutput>)
    ensures RM.KeysInOrder(RM.ProducerArtifacts(ProducersOf(lost))) == Keys(ProducersOf(lost))
    ensures lost != [] ==> ProducersOf(lost) != []
  {
    EveryLossHasAProducer(lost);
    DistinctKeysInOrder(ProducersOf(lost));
    if lost != [] { assert HasProducer(ProducersOf(lost), lost[0].artifact.key); }
  }

  /** The per-transaction data and the calls made to the outside. */
  class Transaction {
    const world: World
    var clock: nat
    var queueTracker: set<BuildArtifact>
    var knownMissing: set<Digest>
    var attempts: map<Signature, nat>
    var bypass: set<ActionKey>
    var invalidated: set<Path>
    var purges: nat
    var rewinds: seq<RewindGraph>

    constructor (world: World)
      ensures this.world == world && Now() == RM.State(0, {}, {}, map[], {}, {}, 0, [])
    {
      this.world := world;
      clock, purges, queueTracker, knownMissing, attempts, bypass, invalidated := 0, 0, {}, {}, map[], {}, {};
      rewinds := [];
    }

    ghost function Now(): RM.State
      reads this
    {
      RM.State(clock, queueTracker, knownMissing, attempts, bypass, invalidated, purges, rewinds)
    }

    /** `ensure_artifact_group`: actions that run again stop bypassing the action cache. */
    method Ensure() returns (values: Option<seq<Artifact>>)
      modifies this`clock, this`bypass
      ensures clock == old(clock) + 1 && values == world.Values(old(clock))
      ensures bypass == old(bypass) - world.Taken(old(clock))
    {
      values := world.Values(clock);
      bypass := bypass - world.Taken(clock);
      clock := clock + 1;
    }

    /** One request; the artifact stays in the tracker only if it succeeds. */
    method RequestOne(artifact: BuildArtifact) returns (r: Attempt)
      requires artifact !in queueTracker
      modifies this`clock, this`queueTracker
      ensures clock == old(clock) + 1 && r == Classify(artifact, world.Answer(old(clock), artifact))
      ensures queueTracker == old(queueTracker) + (if r.Ok? then {artifact} else {})
    {
      queueTracker := queueTracker + {artifact};
      r := Classify(artifact, world.Answer(clock, artifact));
      clock := clock + 1;
      if !r.Ok? {
        queueTracker := queueTracker - {artifact};
      }
    }

    /** `materialize_artifact_group_values`. */
    method MaterializeValues(values: seq<Artifact>) returns (r: Attempt)
      modifies this`clock, this`queueTracker
      ensures var p := PassOver(world, old(clock), old(queueTracker), values);
              queueTracker == p.tracker && clock == old(clock) + |p.requests| && r == PassResult(p)
    {
      var lost: seq<LostOutput> := [];
      ghost var start, tracker := clock, queueTracker;
      assert values[..0] == [] && values[..|values|] == values;
      PassStart(world, start, tracker);
      hide PassOver, LostIn, Classify;
      for i := 0 to |values|
        invariant var p := PassOver(world, start, tracker, values[..i]);
                  !p.failed && queueTracker == p.tracker && clock == start + |p.requests| && lost == LostIn(p.requests)
      {
        PassSnoc(world, start, tracker, values, i);
        if !values[i].Built? || values[i].build in queueTracker {
          continue;
        }
        var result := RequestOne(values[i].build);
        match result {
          case Ok =>
          case Lost(outputs) =>
            lost := lost + outputs;
          case Error =>
            FailedPass(world, start, tracker, values, i + 1);
            return Error;
        }
      }
      r := if lost != [] then Lost(lost) else Ok;
    }

    /** `record_attempt`. */
    method RecordAttempt(signatures: seq<Signature>) returns (ok: bool)
      modifies this`attempts
      ensures (attempts, ok) == Recorded(old(attempts), signatures)
    {
      for i := 0 to |signatures|
        invariant Recorded(attempts, signatures[i..]) == Recorded(old(attempts), signatures)
      {
        assert signatures[i..][1..] == signatures[i + 1..];
        var count := Count(attempts, signatures[i]) + 1;
        attempts := attempts[signatures[i] := count];
        if count > MAX_REPEATED_LOST_REMOTE_REWINDS {
          return false;
        }
      }
      ok := true;
    }

    /** `prepare_lost_remote_output_rewind_plan`: the digests are recorded even if the attempt is one too many. */
    method PreparePlan(lost: seq<LostOutput>) returns (plan: Option<Plan>)
      modifies this`attempts, this`knownMissing
      ensures RM.Outcome(Now(), plan.Some?) == RM.Record(old(Now()), DigestsOf(lost), AllOutputSignatures(lost))
      ensures plan.Some? ==> plan.value == Plan(lost, ProducersOf(lost))
    {
      hide AllOutputSignatures;
      var producers := PlanProducers(lost);
      assert lost[..|lost|] == lost;
      for i := 0 to |lost|
        invariant knownMissing == old(knownMissing) + DigestsOf(lost[..i])
        invariant attempts == old(attempts)
      {
        assert lost[..i + 1][..i] == lost[..i];
        knownMissing := knownMissing + SetOf(lost[i].digests);
      }
      var ok := RecordAttempt(AllOutputSignatures(lost));
      plan := if ok then Some(Plan(lost, producers)) else None;
    }

    /** Looks up the actions in turn, and collects their outputs if none is unknown. */
    method LookUpOutputs(keys: seq<ActionKey>) returns (paths: Option<seq<Path>>)
      modifies this`clock
      ensures var known := RM.KnownCount(world, old(clock), |keys|);
              if known == |keys| then paths == Some(RM.AllOutputs(world, keys)) && clock == old(clock) + |keys|
              else paths == None && clock == old(clock) + known + 1
    {
      var found: seq<Path> := [];
      ghost var start := clock;
      for i := 0 to |keys|
        invariant clock == start + i
        invariant RM.KnownCount(world, start, i) == i && found == RM.AllOutputs(world, keys[..i])
      {
        assert keys[..i + 1][..i] == keys[..i];
        clock := clock + 1;
        if !world.Known(clock - 1) {
          UnknownStops(world, start, i, |keys|);
          return None;
        }
        found := found + world.Outputs(keys[i]);
      }
      assert keys[..|keys|] == keys;
      paths := Some(found);
    }

    /** `invalidate_lost_remote_output_producer_paths`. */
    method InvalidateOutputs(keys: seq<ActionKey>) returns (ok: bool)
      modifies this`clock, this`invalidated
      ensures RM.Outcome(Now(), ok) == RM.Invalidate(world, old(Now()), keys)
    {
      hide RM.KnownCount, RM.AllOutputs;
      var paths := LookUpOutputs(keys);
      if paths.None? {
        return false;
      }
      if paths.value != [] {
        clock := clock + 1;
        if !world.Invalidates(clock - 1) {
          return false;
        }
        invalidated := invalidated + SetOf(paths.value);
      }
      ok := true;
    }

    /** `purge_remote_cache_metadata`. */
    method PurgeMetadata() returns (ok: bool)
      modifies this`clock, this`purges
      ensures RM.Outcome(Now(), ok) == RM.Purge(world, old(Now()))
    {
      if !world.canPurge {
        return true;
      }
      clock := clock + 1;
      if !world.Purges(clock - 1) {
        return false;
      }
      purges := purges + 1;
      ok := true;
    }

    /** Invalidation, purge, `record_lost_remote_action_cache_bypass`, then the rewind of the graph. */
    method Rewind(keys: seq<ActionKey>, graph: RewindGraph) returns (ok: bool)
      modifies this
      ensures RM.Outcome(Now(), ok) == RM.Rewind(world, old(Now()), keys, graph)
    {
      hide RM.Invalidate, RM.Purge;
      ok := InvalidateOutputs(keys);
      if !ok {
        return;
      }
      ok := PurgeMetadata();
      if !ok {
        return;
      }
      bypass := bypass + SetOf(keys);
      rewinds := rewinds + [graph];
    }

    /** The recovery of `materialize_artifact_group` from lost outputs, up to the retry. */
    method RecoverOutputs(group: ArtifactGroup, lost: seq<LostOutput>) returns (ok: bool)
      requires lost != []
      modifies this
      ensures RM.Outcome(Now(), ok) == RM.RecoverOutputs(world, old(Now()), group, lost)
    {
      hide RM.Rewind, RM.Record, RM.GraphOver, RM.KeysInOrder, DigestsOf, AllOutputSignatures, ProducersOf;
      var plan := PreparePlan(lost);
      PlanKeys(lost);
      if plan.None? {
        return false;
      }
      var keys := Keys(plan.value.producers);
      var graph := RewindGraphOf(RM.ProducerArtifacts(plan.value.producers), group);
      ok := Rewind(keys, graph);
    }

    /** One round of the loop of `materialize_artifact_group`. */
    method MaterializeOnce(group: ArtifactGroup, materialize: bool) returns (r: RM.Round)
      modifies this
      ensures RM.RoundResult(r, Now()) == RM.MaterializeRound(world, old(Now()), group, materialize)
    {
      hide PassOver, LostIn, RM.Recover;
      var values := Ensure();
      if values.None? {
        return RM.Broken;
      }
      if !materialize {
        return RM.Finished(values.value);
      }
      var attempt := MaterializeValues(values.value);
      match attempt {
        case Ok =>
          return RM.Finished(values.value);
        case Error =>
          return RM.Broken;
        case Lost(outputs) =>
          var ok := RecoverOutputs(group, outputs);
          r := if ok then RM.Again else RM.Broken;
      }
    }

    /** `materialize_artifact_group`: `n` steps of the machine, up to where it uploads or returns. */
    method MaterializeGroup(p: RM.Params, ghost universe: set<Signature>)
      returns (r: Option<seq<Artifact>>, ghost n: nat)
      requires Bounded(world, universe)
      modifies this
      ensures RM.Steps(world, p, RM.Start(old(Now())), n) == RM.Machine(RM.AfterMaterializing(p, r), Now())
    {
      hide Bounded, RM.MaterializeRound, RM.StepsLeft;
      n := 0;
      while true
        invariant RM.Steps(world, p, RM.Start(old(Now())), n) == RM.Start(Now())
        decreases RM.StepsLeft(universe, RM.Start(Now()))
      {
        RM.StepsLeftShrinks(world, p, universe, RM.Start(Now()));
        var round := MaterializeOnce(p.group, p.materialize);
        n := n + 1;
        match round {
          case Again =>
          case Finished(values) =>
            r := Some(values);
            return;
          case Broken =>
            r := None;
            return;
        }
      }
    }

    /** `rewind_lost_remote_upload`. */
    method RewindUpload(group: ArtifactGroup, values: seq<Artifact>, lost: seq<LostUpload>) returns (ok: bool)
      modifies this
      ensures RM.Outcome(Now(), ok) == RM.RecoverUpload(world, old(Now()), group, values, lost)
    {
      hide RM.Rewind, RM.GraphOver, RM.KeysInOrder, Recorded, UploadDigestsOf, AllUploadSignatures;
      knownMissing := knownMissing + UploadDigestsOf(lost);
      ok := RecordAttempt(AllUploadSignatures(lost));
      if !ok {
        return;
      }
      var keys := UploadKeys(values);
      if keys == [] {
        return false;
      }
      var graph := RewindGraphOf(values, group);
      ok := Rewind(keys, graph);
    }

    /** `ensure_uploaded` and the recovery from what it reports lost. */
    method UploadOnce(group: ArtifactGroup, values: seq<Artifact>) returns (r: RM.Round)
      modifies this
      ensures RM.RoundResult(r, Now()) == RM.UploadRound(world, old(Now()), group, values)
    {
      hide RM.Recover;
      clock := clock + 1;
      match world.Upload(clock - 1) {
        case Uploaded =>
          return RM.Finished(values);
        case UploadFailed =>
          return RM.Broken;
        case UploadLost(lost) =>
          var ok := RewindUpload(group, values, lost);
          r := if ok then RM.Again else RM.Broken;
      }
    }

    /** `materialize_and_upload_artifact_group`: a whole run of the machine. */
    method MaterializeAndUpload(p: RM.Params, ghost universe: set<Signature>)
      returns (r: Option<seq<Artifact>>, ghost n: nat)
      requires Bounded(world, universe)
      modifies this
      ensures RM.Steps(world, p, RM.Start(old(Now())), n) == RM.Machine(RM.Returned(r), Now())
      ensures RM.Sound(world, p, old(clock), RM.Machine(RM.Returned(r), Now()))
    {
      r, n := RunToReturn(p, universe);
      RM.RunIsSound(world, p, old(Now()), n);
      hide RM.Steps, RM.Sound;
    }

    /** The loop of `materialize_and_upload_artifact_group`. */
    method RunToReturn(p: RM.Params, ghost universe: set<Signature>) returns (r: Option<seq<Artifact>>, ghost n: nat)
      requires Bounded(world, universe)
      modifies this
      ensures RM.Steps(world, p, RM.Start(old(Now())), n) == RM.Machine(RM.Returned(r), Now())
    {
      hide Bounded, RM.UploadRound, RM.StepsLeft, RM.Steps;
      RM.FirstSteps(world, p, RM.Start(Now()));
      n := 0;
      while true
        invariant RM.Steps(world, p, RM.Start(old(Now())), n) == RM.Start(Now())
        decreases RM.StepsLeft(universe, RM.Start(Now()))
      {
        ghost var before := RM.Start(Now());
        ghost var k;
        r, k := MaterializeGroup(p, universe);
        RM.StepsAdd(world, p, RM.Start(old(Now())), n, k);
        RM.StepsNeverGrow(world, p, universe, before, k);
        n := n + k;
        if r.None? || !p.upload {
          return;
        }
        ghost var uploading := RM.Machine(RM.Uploading(r.value), Now());
        RM.StepsLeftShrinks(world, p, universe, uploading);
        RM.FirstSteps(world, p, uploading);
        RM.StepsAdd(world, p, RM.Start(old(Now())), n, 1);
        var round := UploadOnce(p.group, r.value);
        n := n + 1;
        match round {
          case Again =>
          case Finished(_) =>
            return;
          case Broken =>
            r := None;
            return;
        }
      }
    }
  }
}
