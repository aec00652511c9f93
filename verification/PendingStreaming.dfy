/**
 Streaming outputs that wait for artifacts: `PendingStreaming` in app/bz_bxl/src/command.rs and
 `PendingStreamingOutput` in app/bz_build_api/src/bxl/result.rs. One output is listed under every artifact it waits on.
 */
module PendingStreaming {
  import opened Collections

  type Group = string

  datatype Pending = Pending(waitsOn: set<Group>, output: string)

  class PendingStreamingOutput {
    var waitsOn: set<Group>
    const output: string

    constructor (waitsOn: set<Group>, output: string)
      ensures this.waitsOn == waitsOn && this.output == output
    {
      this.waitsOn, this.output := waitsOn, output;
    }

    method RemoveWaitOn(artifact: Group)
      modifies this
      ensures waitsOn == old(waitsOn) - {artifact}
    {
      waitsOn := waitsOn - {artifact};
    }

    predicate IsPending()
      reads this
    {
      waitsOn != {}
    }
  }

  ghost predicate InRange(ks: seq<nat>, n: nat) {
    forall j :: 0 <= j < |ks| ==> ks[j] < n
  }

  ghost predicate Increasing(ks: seq<nat>) {
    forall i, j :: 0 <= i < j < |ks| ==> ks[i] < ks[j]
  }

  /** The positions of the outputs that wait on an artifact, in order. */
  function WaitingOn(pending: seq<Pending>, g: Group): (ks: seq<nat>)
    ensures InRange(ks, |pending|)
  {
    if pending == [] then []
    else
      var n := |pending| - 1;
      WaitingOn(pending[..n], g) + if g in pending[n].waitsOn then [n] else []
  }

  lemma {:induction false} WaitingExact(pending: seq<Pending>, g: Group)
    ensures Increasing(WaitingOn(pending, g))
    ensures forall k :: k in WaitingOn(pending, g) <==> 0 <= k < |pending| && g in pending[k].waitsOn
  {
    if pending != [] {
      WaitingExact(pending[..|pending| - 1], g);
    }
  }

  /** The outputs among the given positions that are complete once the artifacts in `done` are there. */
  function Released(pending: seq<Pending>, ks: seq<nat>, done: set<Group>): seq<string>
    requires InRange(ks, |pending|)
  {
    if ks == [] then []
    else
      var k := ks[|ks| - 1];
      Released(pending, ks[..|ks| - 1], done) + if pending[k].waitsOn <= done then [pending[k].output] else []
  }

  /** What completing `artifact` releases when `done` was complete before: nothing the second time. */
  function Emitted(pending: seq<Pending>, done: set<Group>, artifact: Group): seq<string> {
    if artifact in done then [] else Released(pending, WaitingOn(pending, artifact), done + {artifact})
  }

  // ----- Whole runs -----

  /** The output at `k` is released by the completion at `t`. */
  ghost predicate EmittedAt(pending: seq<Pending>, completions: seq<Group>, k: nat, t: nat)
    requires k < |pending| && t < |completions|
  {
    var done := SetOf(completions[..t]);
    completions[t] !in done && completions[t] in pending[k].waitsOn && pending[k].waitsOn <= done + {completions[t]}
  }

  function OutputsAt(pending: seq<Pending>, ks: seq<nat>): seq<string>
    requires InRange(ks, |pending|)
  {
    seq(|ks|, j requires 0 <= j < |ks| => pending[ks[j]].output)
  }

  lemma {:induction false} LastIncreases(ks: seq<nat>, before: seq<nat>)
    requires ks != [] && Increasing(ks) && Increasing(before) && forall k :: k in before ==> k in ks[..|ks| - 1]
    ensures Increasing(before + [ks[|ks| - 1]])
  {
    forall i | 0 <= i < |before| ensures before[i] < ks[|ks| - 1] {
      assert before[i] in before;
      var j :| 0 <= j < |ks| - 1 && ks[..|ks| - 1][j] == before[i];
      assert ks[j] == before[i];
    }
  }

  lemma {:induction false} OutputsSnoc(pending: seq<Pending>, before: seq<nat>, k: nat)
    requires InRange(before, |pending|) && k < |pending|
    ensures InRange(before + [k], |pending|)
            && OutputsAt(pending, before + [k]) == OutputsAt(pending, before) + [pending[k].output]
  {
  }

  lemma {:induction false} ReleasedSnoc(pending: seq<Pending>, ks: seq<nat>, done: set<Group>)
    requires ks != [] && InRange(ks, |pending|)
    ensures var n := |ks| - 1;
            Released(pending, ks, done) ==
            Released(pending, ks[..n], done) + if pending[ks[n]].waitsOn <= done then [pending[ks[n]].output] else []
  {
  }

  lemma {:induction false} PositionsSnoc(pending: seq<Pending>, ks: seq<nat>, before: seq<nat>, done: set<Group>)
    requires ks != [] && InRange(ks, |pending|) && Increasing(ks) && InRange(before, |pending|) && Increasing(before)
    requires var n := |ks| - 1;
             && OutputsAt(pending, before) == Released(pending, ks[..n], done)
             && forall k :: k in before <==> k in ks[..n] && pending[k].waitsOn <= done
    ensures var r := if pending[ks[|ks| - 1]].waitsOn <= done then before + [ks[|ks| - 1]] else before;
            && InRange(r, |pending|) && Increasing(r) && OutputsAt(pending, r) == Released(pending, ks, done)
            && forall k :: k in r <==> k in ks && pending[k].waitsOn <= done
  {
    var n := |ks| - 1;
    var k := ks[n];
    ReleasedSnoc(pending, ks, done);
    assert ks == ks[..n] + [k];
    if pending[k].waitsOn <= done {
      LastIncreases(ks, before);
      OutputsSnoc(pending, before, k);
    }
    hide Released, OutputsAt, Increasing, InRange;
    assert Released(pending, ks[..n], done) + [] == Released(pending, ks[..n], done);
  }

  lemma {:induction false} ReleasedPositions(pending: seq<Pending>, ks: seq<nat>, done: set<Group>)
    returns (r: seq<nat>)
    requires InRange(ks, |pending|) && Increasing(ks)
    ensures InRange(r, |pending|) && Increasing(r) && OutputsAt(pending, r) == Released(pending, ks, done)
    ensures forall k :: k in r <==> k in ks && pending[k].waitsOn <= done
  {
    if ks == [] {
      r := [];
    } else {
      var n := |ks| - 1;
      var before := ReleasedPositions(pending, ks[..n], done);
      r := if pending[ks[n]].waitsOn <= done then before + [ks[n]] else before;
      PositionsSnoc(pending, ks, before, done);
    }
  }

  /** Each completion emits the outputs it releases, each once and in the order they were given. */
  lemma {:induction false} EmittedPositions(pending: seq<Pending>, completions: seq<Group>, t: nat)
    returns (r: seq<nat>)
    requires t < |completions|
    ensures InRange(r, |pending|) && Increasing(r)
    ensures OutputsAt(pending, r) == Emitted(pending, SetOf(completions[..t]), completions[t])
    ensures forall k :: k in r <==> 0 <= k < |pending| && EmittedAt(pending, completions, k, t)
  {
    var done, a := SetOf(completions[..t]), completions[t];
    if a in done {
      r := [];
    } else {
      WaitingExact(pending, a);
      r := ReleasedPositions(pending, WaitingOn(pending, a), done + {a});
    }
  }

  lemma {:induction false} SetOfSnoc(s: seq<Group>, t: nat)
    requires t < |s|
    ensures SetOf(s[..t + 1]) == SetOf(s[..t]) + {s[t]}
  {
    assert s[..t + 1] == s[..t] + [s[t]];
  }

  /** An output is released exactly by the completion that makes its wait set complete. */
  lemma {:induction false} ReleasedByLastAwaited(pending: seq<Pending>, completions: seq<Group>, k: nat, t: nat)
    requires k < |pending| && t < |completions|
    ensures EmittedAt(pending, completions, k, t) <==>
              pending[k].waitsOn <= SetOf(completions[..t + 1]) && !(pending[k].waitsOn <= SetOf(completions[..t]))
  {
    SetOfSnoc(completions, t);
    var waits, done, a := pending[k].waitsOn, SetOf(completions[..t]), completions[t];
    if waits <= done + {a} && !(waits <= done) {
      var g :| g in waits && g !in done;
      assert g == a;
    }
  }

  lemma {:induction false} DoneGrows(completions: seq<Group>, s: nat, t: nat)
    requires s <= t <= |completions|
    ensures SetOf(completions[..s]) <= SetOf(completions[..t])
  {
    assert completions[..s] == completions[..t][..s];
  }

  /** No output is released twice, however often artifacts are completed. */
  lemma {:induction false} ReleasedAtMostOnce(pending: seq<Pending>, completions: seq<Group>, k: nat, s: nat, t: nat)
    requires k < |pending| && s < t < |completions| && EmittedAt(pending, completions, k, s)
    ensures !EmittedAt(pending, completions, k, t)
  {
    ReleasedByLastAwaited(pending, completions, k, s);
    ReleasedByLastAwaited(pending, completions, k, t);
    DoneGrows(completions, s + 1, t);
  }

  lemma {:induction false} LastAwaited(pending: seq<Pending>, completions: seq<Group>, k: nat, n: nat) returns (t: nat)
    requires k < |pending| && pending[k].waitsOn != {} && n <= |completions|
    requires pending[k].waitsOn <= SetOf(completions[..n])
    ensures t < |completions| && EmittedAt(pending, completions, k, t)
  {
    assert completions[..0] == [] && n > 0;
    ReleasedByLastAwaited(pending, completions, k, n - 1);
    if pending[k].waitsOn <= SetOf(completions[..n - 1]) {
      t := LastAwaited(pending, completions, k, n - 1);
    } else {
      t := n - 1;
    }
  }

  /** An output with something to wait for is released in a run exactly if the run completes all of it. */
  lemma {:induction false} ReleasedIffComplete(pending: seq<Pending>, completions: seq<Group>, k: nat)
    requires k < |pending| && pending[k].waitsOn != {}
    ensures pending[k].waitsOn <= SetOf(completions) <==>
              exists t :: 0 <= t < |completions| && EmittedAt(pending, completions, k, t)
  {
    assert completions[..|completions|] == completions;
    if pending[k].waitsOn <= SetOf(completions) {
      var t := LastAwaited(pending, completions, k, |completions|);
      assert EmittedAt(pending, completions, k, t);
    }
    forall t | 0 <= t < |completions| && EmittedAt(pending, completions, k, t)
      ensures pending[k].waitsOn <= SetOf(completions)
    {
      ReleasedByLastAwaited(pending, completions, k, t);
      DoneGrows(completions, t + 1, |completions|);
    }
  }

  // ----- The index -----

  ghost predicate Listed(list: seq<PendingStreamingOutput>, all: seq<PendingStreamingOutput>, ks: seq<nat>) {
    |list| == |ks| && forall j :: 0 <= j < |ks| ==> ks[j] < |all| && list[j] == all[ks[j]]
  }

  /** The artifact lists the outputs that wait on it, in order, if there are any and it is not excluded. */
  ghost predicate Entry(indexes: map<Group, seq<PendingStreamingOutput>>, all: seq<PendingStreamingOutput>,
                        pending: seq<Pending>, excluded: set<Group>, g: Group)
  {
    && (g in indexes <==> g !in excluded && WaitingOn(pending, g) != [])
    && (g in indexes ==> Listed(indexes[g], all, WaitingOn(pending, g)))
  }

  ghost predicate Indexes(indexes: map<Group, seq<PendingStreamingOutput>>, all: seq<PendingStreamingOutput>,
                          pending: seq<Pending>, excluded: set<Group>)
  {
    forall g :: Entry(indexes, all, pending, excluded, g)
  }

  lemma {:induction false} IndexRemoved(indexes: map<Group, seq<PendingStreamingOutput>>,
                                        all: seq<PendingStreamingOutput>, pending: seq<Pending>, done: set<Group>,
                                        artifact: Group)
    requires Indexes(indexes, all, pending, done)
    ensures Indexes(indexes - {artifact}, all, pending, done + {artifact})
    ensures artifact !in indexes ==> indexes - {artifact} == indexes
  {
    forall g ensures Entry(indexes - {artifact}, all, pending, done + {artifact}, g) {
      assert Entry(indexes, all, pending, done, g);
    }
  }

  lemma {:induction false} WaitingSnoc(before: seq<Pending>, last: Pending, g: Group)
    ensures WaitingOn(before + [last], g) == WaitingOn(before, g) + if g in last.waitsOn then [|before|] else []
  {
    assert (before + [last])[..|before|] == before;
  }

  lemma {:induction false} StartListing(lists: map<Group, seq<PendingStreamingOutput>>,
                                        objects: seq<PendingStreamingOutput>, before: seq<Pending>)
    requires |objects| == |before| + 1 && Indexes(lists, objects[..|before|], before, {})
    ensures Indexes(lists, objects, before + [Pending({}, "")], {})
  {
    hide WaitingOn;
    forall g ensures Entry(lists, objects, before + [Pending({}, "")], {}, g) {
      assert Entry(lists, objects[..|before|], before, {}, g);
      WaitingSnoc(before, Pending({}, ""), g);
    }
  }

  lemma {:induction false} ListOne(lists: map<Group, seq<PendingStreamingOutput>>, objects: seq<PendingStreamingOutput>,
                                   before: seq<Pending>, waits: set<Group>, g: Group)
    requires |objects| == |before| + 1 && g !in waits && Indexes(lists, objects, before + [Pending(waits, "")], {})
    ensures Indexes(lists[g := (if g in lists then lists[g] else []) + [objects[|before|]]], objects,
                    before + [Pending(waits + {g}, "")], {})
  {
    hide WaitingOn;
    var longer := lists[g := (if g in lists then lists[g] else []) + [objects[|before|]]];
    forall h ensures Entry(longer, objects, before + [Pending(waits + {g}, "")], {}, h) {
      assert Entry(lists, objects, before + [Pending(waits, "")], {}, h);
      WaitingSnoc(before, Pending(waits, ""), h);
      WaitingSnoc(before, Pending(waits + {g}, ""), h);
    }
  }

  /** The outputs themselves play no part in the index. */
  lemma {:induction false} IndexIgnoresOutput(lists: map<Group, seq<PendingStreamingOutput>>,
                                              objects: seq<PendingStreamingOutput>, before: seq<Pending>,
                                              waits: set<Group>, output: string)
    requires Indexes(lists, objects, before + [Pending(waits, "")], {})
    ensures Indexes(lists, objects, before + [Pending(waits, output)], {})
  {
    hide WaitingOn;
    forall h ensures Entry(lists, objects, before + [Pending(waits, output)], {}, h) {
      assert Entry(lists, objects, before + [Pending(waits, "")], {}, h);
      WaitingSnoc(before, Pending(waits, ""), h);
      WaitingSnoc(before, Pending(waits, output), h);
    }
  }

  /** Adds an output to the list of each artifact it waits on. */
  method ListUnder(lists: map<Group, seq<PendingStreamingOutput>>, p: PendingStreamingOutput, waits: set<Group>,
                   ghost objects: seq<PendingStreamingOutput>, ghost before: seq<Pending>)
    returns (r: map<Group, seq<PendingStreamingOutput>>)
    requires |objects| == |before| + 1 && objects[|before|] == p && Indexes(lists, objects[..|before|], before, {})
    ensures Indexes(r, objects, before + [Pending(waits, p.output)], {})
  {
    r := lists;
    var left := waits;
    StartListing(lists, objects, before);
    assert waits - left == {};
    hide Indexes;
    while left != {}
      invariant left <= waits && Indexes(r, objects, before + [Pending(waits - left, "")], {})
      decreases |left|
    {
      var g :| g in left;
      ListOne(r, objects, before, waits - left, g);
      assert waits - left + {g} == waits - (left - {g});
      r := r[g := (if g in r then r[g] else []) + [p]];
      left := left - {g};
    }
    assert waits - left == waits;
    IndexIgnoresOutput(r, objects, before, waits, p.output);
  }

  class Streaming {
    var indexes: map<Group, seq<PendingStreamingOutput>>
    ghost const pending: seq<Pending>
    ghost const all: seq<PendingStreamingOutput>
    ghost var done: set<Group>

    /** `new`: lists every output under each artifact it waits on. */
    constructor (outputs: seq<Pending>)
      ensures Valid() && pending == outputs && done == {} && fresh(all)
    {
      pending, done, indexes := outputs, {}, map[];
      var objects: seq<PendingStreamingOutput> := [];
      var lists: map<Group, seq<PendingStreamingOutput>> := map[];
      for i := 0 to |outputs|
        invariant |objects| == i && NoDuplicates(objects)
        invariant forall k :: 0 <= k < i ==> fresh(objects[k]) && objects[k].output == outputs[k].output
                                             && objects[k].waitsOn == outputs[k].waitsOn
        invariant Indexes(lists, objects, outputs[..i], {})
      {
        var p := new PendingStreamingOutput(outputs[i].waitsOn, outputs[i].output);
        objects := objects + [p];
        lists := ListUnder(lists, p, outputs[i].waitsOn, objects, outputs[..i]);
        assert outputs[..i + 1] == outputs[..i] + [Pending(outputs[i].waitsOn, outputs[i].output)];
      }
      assert outputs[..|outputs|] == outputs;
      all, indexes := objects, lists;
    }

    ghost predicate Objects()
      reads all
    {
      |all| == |pending| && NoDuplicates(all) && forall k :: 0 <= k < |all| ==> all[k].output == pending[k].output
    }

    /** The outputs at the given positions have lost `artifact` as well, the others only what is done. */
    ghost predicate Waits(done: set<Group>, artifact: Group, ks: seq<nat>)
      requires |all| == |pending|
      reads all
    {
      forall k :: 0 <= k < |all| ==>
                    all[k].waitsOn == pending[k].waitsOn - done - (if k in ks then {artifact} else {})
    }

    /** Every output still waits for exactly what has not been completed. */
    ghost predicate Valid()
      reads this, all
    {
      Objects() && Waits(done, "", []) && Indexes(indexes, all, pending, done)
    }

    /** Takes the artifact off one output; `k` is its position. */
    method ReleaseOne(p: PendingStreamingOutput, artifact: Group, ghost done: set<Group>, ghost ks: seq<nat>,
                      ghost k: nat)
      returns (output: seq<string>)
      requires Objects() && Waits(done, artifact, ks) && k < |all| && p == all[k]
      modifies p
      ensures Objects() && Waits(done, artifact, ks + [k])
      ensures output == if pending[k].waitsOn <= done + {artifact} then [p.output] else []
    {
      p.RemoveWaitOn(artifact);
      output := if p.IsPending() then [] else [p.output];
      assert forall i :: i in ks + [k] <==> i in ks || i == k;
    }

    method ReleaseAll(pendings: seq<PendingStreamingOutput>, artifact: Group, ghost done: set<Group>,
                      ghost ks: seq<nat>)
      returns (outputs: seq<string>)
      requires Objects() && Waits(done, artifact, []) && Listed(pendings, all, ks) && InRange(ks, |pending|)
      modifies all
      ensures Objects() && Waits(done, artifact, ks)
      ensures outputs == Released(pending, ks, done + {artifact})
    {
      outputs := [];
      hide Waits;
      for j := 0 to |pendings|
        invariant Objects() && Waits(done, artifact, ks[..j])
        invariant outputs == Released(pending, ks[..j], done + {artifact})
      {
        assert ks[..j + 1] == ks[..j] + [ks[j]] && pendings[j] == all[ks[j]];
        var output := ReleaseOne(pendings[j], artifact, done, ks[..j], ks[j]);
        outputs := outputs + output;
      }
      assert ks[..|pendings|] == ks;
    }

    lemma {:induction false} WaitsNoMore(done: set<Group>, artifact: Group, ks: seq<nat>)
      requires |all| == |pending| && Waits(done, artifact, ks)
      requires ks == WaitingOn(pending, artifact) || artifact in done
      ensures Waits(done + {artifact}, "", [])
    {
      WaitingExact(pending, artifact);
      hide WaitingOn;
    }

    /** `next_outputs`. */
    method NextOutputs(artifact: Group) returns (outputs: seq<string>)
      requires Valid()
      modifies this, all
      ensures Valid() && done == old(done) + {artifact}
      ensures outputs == Emitted(pending, old(done), artifact)
    {
      outputs := [];
      ghost var ks := WaitingOn(pending, artifact);
      assert Waits(done, artifact, []);
      assert Entry(indexes, all, pending, done, artifact);
      IndexRemoved(indexes, all, pending, done, artifact);
      hide Waits, Indexes, WaitingOn;
      if artifact in indexes {
        var pendings := indexes[artifact];
        indexes := indexes - {artifact};
        outputs := ReleaseAll(pendings, artifact, done, ks);
        WaitsNoMore(done, artifact, ks);
      } else {
        WaitsNoMore(done, artifact, []);
      }
      done := done + {artifact};
    }
  }

  /** A whole run: what each completion emits. */
  method RunAll(outputs: seq<Pending>, completions: seq<Group>) returns (emitted: seq<seq<string>>)
    ensures |emitted| == |completions|
    ensures forall t :: 0 <= t < |completions| ==>
                          emitted[t] == Emitted(outputs, SetOf(completions[..t]), completions[t])
  {
    var streaming := new Streaming(outputs);
    emitted := [];
    hide Emitted;
    assert completions[..0] == [];
    for t := 0 to |completions|
      invariant fresh(streaming) && fresh(streaming.all) && streaming.Valid() && streaming.pending == outputs
      invariant streaming.done == SetOf(completions[..t]) && |emitted| == t
      invariant forall i :: 0 <= i < t ==> emitted[i] == Emitted(outputs, SetOf(completions[..i]), completions[i])
    {
      SetOfSnoc(completions, t);
      var next := streaming.NextOutputs(completions[t]);
      emitted := emitted + [next];
    }
  }
}
