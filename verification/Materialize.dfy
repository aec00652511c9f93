/**
 Materialization and upload with in-place recovery from lost remote outputs: app/bz_build_api/src/materialize.rs,
 with the attempt tracker of app/bz_build_api/src/actions/calculation.rs. Calls to the outside are answered by a
 world that may answer every call differently.
 */
module Materialize {
  import opened Collections
  import opened LostRemote

  type Digest = string

  /** What was missing, and where; an unknown digest is still a signature. */
  datatype Signature =
    | TopLevelOutput(key: ActionKey, path: Path, digest: Option<Digest>)
    | UploadLoss(path: Path, digest: Option<Digest>)

  const MAX_REPEATED_LOST_REMOTE_REWINDS: nat := 20

  /** The answer to one materialization request. `remoteOrigin`: the artifact came from the remote cache. */
  datatype RequestOutcome =
    | Done
    | NotFound(path: Path, digests: seq<Digest>, remoteOrigin: bool)
    | Failed

  datatype LostUpload = LostUpload(path: Path, digests: seq<Digest>)

  datatype UploadOutcome = Uploaded | UploadLost(lost: seq<LostUpload>) | UploadFailed

  /**
   The outside. The answer to the n-th call may depend on n: group values, action cache bypasses taken by re-run
   actions, requests, uploads, whether an action can be looked up, outputs invalidated or metadata purged. An action's
   outputs are fixed, and so is whether there is anything installed that can purge.
   */
  datatype World = World(
    ensure: nat -> Option<seq<Artifact>>,
    taken: nat -> set<ActionKey>,
    request: (nat, BuildArtifact) -> RequestOutcome,
    upload: nat -> UploadOutcome,
    lookup: nat -> bool,
    outputs: ActionKey -> seq<Path>,
    invalidate: nat -> bool,
    purge: nat -> bool,
    canPurge: bool)
  {
    function Values(t: nat): Option<seq<Artifact>> { ensure(t) }
    function Taken(t: nat): set<ActionKey> { taken(t) }
    function Answer(t: nat, b: BuildArtifact): RequestOutcome { request(t, b) }
    function Upload(t: nat): UploadOutcome { upload(t) }
    function Known(t: nat): bool { lookup(t) }
    function Outputs(k: ActionKey): seq<Path> { outputs(k) }
    function Invalidates(t: nat): bool { invalidate(t) }
    function Purges(t: nat): bool { purge(t) }
  }

  datatype LostOutput = LostOutput(artifact: BuildArtifact, path: Path, digests: seq<Digest>)

  /** `MaterializationAttemptError`, or success. */
  datatype Attempt = Ok | Lost(outputs: seq<LostOutput>) | Error

  /** `classify_materialization_error`. */
  function Classify(artifact: BuildArtifact, outcome: RequestOutcome): (r: Attempt)
    ensures r.Lost? <==> outcome.NotFound? && outcome.remoteOrigin
    ensures r.Ok? <==> outcome.Done?
  {
    match outcome
    case Done => Ok
    case NotFound(path, digests, true) => Lost([LostOutput(artifact, path, digests)])
    case NotFound(_, _, false) => Error
    case Failed => Error
  }

  // ----- One pass over the values -----

  datatype Request = Request(artifact: BuildArtifact, outcome: RequestOutcome)

  /** The state of a pass: the shared tracker, the requests made so far, and whether it has failed. */
  datatype Pass = Pass(tracker: set<BuildArtifact>, requests: seq<Request>, failed: bool)

  function PassStep(w: World, clock: nat, p: Pass, a: Artifact): (r: Pass) {
    if p.failed || !a.Built? || a.build in p.tracker then p
    else
      var outcome := w.Answer(clock + |p.requests|, a.build);
      Pass(if outcome.Done? then p.tracker + {a.build} else p.tracker, p.requests + [Request(a.build, outcome)],
           Classify(a.build, outcome).Error?)
  }

  function PassOver(w: World, clock: nat, tracker: set<BuildArtifact>, values: seq<Artifact>): (r: Pass) {
    if values == [] then Pass(tracker, [], false)
    else PassStep(w, clock, PassOver(w, clock, tracker, values[..|values| - 1]), values[|values| - 1])
  }

  function LostIn(requests: seq<Request>): (r: seq<LostOutput>) {
    if requests == [] then []
    else
      var last := requests[|requests| - 1];
      var c := Classify(last.artifact, last.outcome);
      LostIn(requests[..|requests| - 1]) + if c.Lost? then c.outputs else []
  }

  function PassResult(p: Pass): (r: Attempt) {
    if p.failed then Error else if LostIn(p.requests) != [] then Lost(LostIn(p.requests)) else Ok
  }

  function Succeeded(requests: seq<Request>): set<BuildArtifact> {
    set i | 0 <= i < |requests| && requests[i].outcome.Done? :: requests[i].artifact
  }

  lemma {:induction false} SucceededSnoc(requests: seq<Request>, r: Request)
    ensures Succeeded(requests + [r]) == Succeeded(requests) + (if r.outcome.Done? then {r.artifact} else {})
  {
    var all := requests + [r];
    forall b | b in Succeeded(requests) ensures b in Succeeded(all) {
      var i :| 0 <= i < |requests| && requests[i].outcome.Done? && requests[i].artifact == b;
      assert all[i] == requests[i];
    }
    if r.outcome.Done? { assert all[|requests|] == r; }
  }

  /** A pass adds to the tracker exactly the artifacts whose request succeeded in it. */
  lemma {:induction false} PassAddsSucceeded(w: World, clock: nat, tracker: set<BuildArtifact>, values: seq<Artifact>)
    ensures var p := PassOver(w, clock, tracker, values);
            p.tracker == tracker + Succeeded(p.requests)
  {
    if values != [] {
      PassAddsSucceeded(w, clock, tracker, values[..|values| - 1]);
      var q := PassOver(w, clock, tracker, values[..|values| - 1]);
      var p := PassOver(w, clock, tracker, values);
      if p != q {
        assert p.requests[..|q.requests|] == q.requests;
        SucceededSnoc(q.requests, p.requests[|q.requests|]);
      }
    }
  }

  ghost predicate AllTracked(values: seq<Artifact>, tracker: set<BuildArtifact>) {
    forall i :: 0 <= i < |values| && values[i].Built? ==> values[i].build in tracker
  }

  lemma {:induction false} LostInSnoc(requests: seq<Request>, r: Request)
    ensures LostIn(requests + [r]) ==
            LostIn(requests) + if Classify(r.artifact, r.outcome).Lost? then Classify(r.artifact, r.outcome).outputs
              else []
  {
    assert (requests + [r])[..|requests + [r]| - 1] == requests;
  }

  /** When a pass loses nothing and does not fail, every build artifact of the values is in the tracker. */
  lemma {:induction false} CleanPassTracksAll(w: World, clock: nat, tracker: set<BuildArtifact>, values: seq<Artifact>)
    requires PassResult(PassOver(w, clock, tracker, values)).Ok?
    ensures AllTracked(values, PassOver(w, clock, tracker, values).tracker)
  {
    if values != [] {
      var prefix := values[..|values| - 1];
      var q, p := PassOver(w, clock, tracker, prefix), PassOver(w, clock, tracker, values);
      if p != q { LostInSnoc(q.requests, p.requests[|q.requests|]); }
      CleanPassTracksAll(w, clock, tracker, prefix);
      forall i | 0 <= i < |values| && values[i].Built? ensures values[i].build in p.tracker {
        if i < |prefix| { assert prefix[i] == values[i]; }
      }
    }
  }

  lemma {:induction false} PassKeepsTracker(w: World, clock: nat, tracker: set<BuildArtifact>, values: seq<Artifact>)
    ensures tracker <= PassOver(w, clock, tracker, values).tracker
  {
    PassAddsSucceeded(w, clock, tracker, values);
  }

  lemma {:induction false} PassStart(w: World, clock: nat, tracker: set<BuildArtifact>)
    ensures var p := PassOver(w, clock, tracker, []); p == Pass(tracker, [], false) && LostIn(p.requests) == []
  {
  }

  /** What one more value does to a pass. */
  lemma {:induction false} PassSnoc(w: World, clock: nat, tracker: set<BuildArtifact>, values: seq<Artifact>, i: nat)
    requires i < |values|
    ensures var p, q, a := PassOver(w, clock, tracker, values[..i]), PassOver(w, clock, tracker, values[..i + 1]),
            values[i];
            if p.failed || !a.Built? || a.build in p.tracker then q == p
            else
              var c := Classify(a.build, w.Answer(clock + |p.requests|, a.build));
              && q.tracker == p.tracker + (if c.Ok? then {a.build} else {})
              && |q.requests| == |p.requests| + 1 && q.failed == c.Error?
              && LostIn(q.requests) == LostIn(p.requests) + if c.Lost? then c.outputs else []
  {
    assert values[..i + 1][..i] == values[..i];
    var p, a := PassOver(w, clock, tracker, values[..i]), values[i];
    if !p.failed && a.Built? && a.build !in p.tracker {
      LostInSnoc(p.requests, Request(a.build, w.Answer(clock + |p.requests|, a.build)));
    }
  }

  lemma {:induction false} FailedPass(w: World, clock: nat, tracker: set<BuildArtifact>, values: seq<Artifact>, i: nat)
    requires i <= |values| && PassOver(w, clock, tracker, values[..i]).failed
    ensures PassOver(w, clock, tracker, values) == PassOver(w, clock, tracker, values[..i])
    decreases |values| - i
  {
    if i == |values| {
      assert values[..i] == values;
    } else {
      assert values[..i + 1][..i] == values[..i];
      FailedPass(w, clock, tracker, values, i + 1);
    }
  }

  // ----- The rewind plan -----

  datatype Plan = Plan(records: seq<LostOutput>, producers: seq<BuildArtifact>)

  predicate HasProducer(producers: seq<BuildArtifact>, key: ActionKey) {
    exists i :: 0 <= i < |producers| && producers[i].key == key
  }

  /** One producer per action, the first lost output of that action. */
  function ProducersOf(lost: seq<LostOutput>): (r: seq<BuildArtifact>) {
    if lost == [] then []
    else
      var producers := ProducersOf(lost[..|lost| - 1]);
      var a := lost[|lost| - 1].artifact;
      if HasProducer(producers, a.key) then producers else producers + [a]
  }

  lemma {:induction false} EveryLossHasAProducer(lost: seq<LostOutput>)
    ensures forall i :: 0 <= i < |lost| ==> HasProducer(ProducersOf(lost), lost[i].artifact.key)
    ensures forall i, j :: 0 <= i < j < |ProducersOf(lost)| ==> ProducersOf(lost)[i].key != ProducersOf(lost)[j].key
  {
    if lost != [] {
      var prefix := lost[..|lost| - 1];
      EveryLossHasAProducer(prefix);
      var producers := ProducersOf(prefix);
      var a := lost[|lost| - 1].artifact;
      forall i | 0 <= i < |lost| ensures HasProducer(ProducersOf(lost), lost[i].artifact.key) {
        if i < |prefix| {
          assert prefix[i] == lost[i];
          var k :| 0 <= k < |producers| && producers[k].key == lost[i].artifact.key;
          assert ProducersOf(lost)[k].key == lost[i].artifact.key;
        } else if !HasProducer(producers, a.key) {
          assert ProducersOf(lost)[|producers|].key == a.key;
        }
      }
    }
  }

  /** At least one signature per lost output. */
  function OutputSignatures(r: LostOutput): (s: seq<Signature>)
    ensures |s| > 0
  {
    if r.digests == [] then [TopLevelOutput(r.artifact.key, r.path, None)]
    else seq(|r.digests|, i requires 0 <= i < |r.digests| =>
               TopLevelOutput(r.artifact.key, r.path, Some(r.digests[i])))
  }

  function UploadSignatures(l: LostUpload): (s: seq<Signature>)
    ensures |s| > 0
  {
    if l.digests == [] then [UploadLoss(l.path, None)]
    else seq(|l.digests|, i requires 0 <= i < |l.digests| => UploadLoss(l.path, Some(l.digests[i])))
  }

  function AllOutputSignatures(lost: seq<LostOutput>): (s: seq<Signature>)
    ensures lost != [] ==> s != []
  {
    if lost == [] then [] else AllOutputSignatures(lost[..|lost| - 1]) + OutputSignatures(lost[|lost| - 1])
  }

  function AllUploadSignatures(lost: seq<LostUpload>): (s: seq<Signature>)
    ensures lost != [] ==> s != []
  {
    if lost == [] then [] else AllUploadSignatures(lost[..|lost| - 1]) + UploadSignatures(lost[|lost| - 1])
  }

  /** What a signature of a lost output says. */
  predicate Describes(s: Signature, l: LostOutput) {
    && s.TopLevelOutput? && s.key == l.artifact.key && s.path == l.path
    && if l.digests == [] then s.digest == None else s.digest.Some? && s.digest.value in l.digests
  }

  lemma {:induction false} SignaturesOfOne(l: LostOutput, s: Signature)
    ensures s in OutputSignatures(l) <==> Describes(s, l)
  {
    if l.digests != [] && Describes(s, l) {
      var i :| 0 <= i < |l.digests| && l.digests[i] == s.digest.value;
      assert OutputSignatures(l)[i] == s;
    }
  }

  /** The signatures counted are exactly those of the lost outputs: one for each digest, or one without. */
  lemma {:induction false} SignaturesExact(lost: seq<LostOutput>, s: Signature)
    ensures s in AllOutputSignatures(lost) <==> exists i :: 0 <= i < |lost| && Describes(s, lost[i])
  {
    hide Describes, OutputSignatures;
    if lost != [] {
      var n := |lost| - 1;
      SignaturesExact(lost[..n], s);
      SignaturesOfOne(lost[n], s);
      assert forall i :: 0 <= i < n ==> lost[..n][i] == lost[i];
      if s in AllOutputSignatures(lost[..n]) {
        var i :| 0 <= i < n && Describes(s, lost[..n][i]);
        assert Describes(s, lost[i]);
      }
    }
  }

  // ----- The budget -----

  function Count(attempts: map<Signature, nat>, s: Signature): nat {
    if s in attempts then attempts[s] else 0
  }

  /** The attempts that are still allowed, one pair for each. */
  function Remaining(signatures: set<Signature>, attempts: map<Signature, nat>): set<(Signature, nat)> {
    set s, n | s in signatures && Count(attempts, s) < n <= MAX_REPEATED_LOST_REMOTE_REWINDS :: (s, n)
  }

  /** Counting one more attempt at `s` uses up one pair, if there is one left. */
  lemma {:induction false} BudgetShrinks(signatures: set<Signature>, attempts: map<Signature, nat>, s: Signature)
    ensures Remaining(signatures, attempts[s := Count(attempts, s) + 1]) <= Remaining(signatures, attempts)
    ensures s in signatures && Count(attempts, s) + 1 <= MAX_REPEATED_LOST_REMOTE_REWINDS ==>
              Remaining(signatures, attempts[s := Count(attempts, s) + 1]) < Remaining(signatures, attempts)
  {
    var after := Remaining(signatures, attempts[s := Count(attempts, s) + 1]);
    var used := (s, Count(attempts, s) + 1);
    assert used !in after;
    if s in signatures && Count(attempts, s) + 1 <= MAX_REPEATED_LOST_REMOTE_REWINDS {
      assert used in Remaining(signatures, attempts);
    }
  }

  ghost predicate AllIn(signatures: seq<Signature>, universe: set<Signature>) {
    forall s :: s in signatures ==> s in universe
  }

  /**
   All signatures the world can ever produce lie in the given finite set, and a reported upload loss names something.
   */
  ghost predicate Bounded(w: World, signatures: set<Signature>) {
    && (forall t: nat, b: BuildArtifact :: w.Answer(t, b).NotFound? ==>
          AllIn(OutputSignatures(LostOutput(b, w.Answer(t, b).path, w.Answer(t, b).digests)), signatures))
    && (forall t: nat :: w.Upload(t).UploadLost? ==> w.Upload(t).lost != [])
    && (forall t: nat :: w.Upload(t).UploadLost? ==>
          AllIn(AllUploadSignatures(w.Upload(t).lost), signatures))
  }

  lemma {:induction false} OneLossIsBounded(w: World, universe: set<Signature>, t: nat, b: BuildArtifact)
    requires Bounded(w, universe)
    ensures var c := Classify(b, w.Answer(t, b)); c.Lost? ==>
            AllIn(OutputSignatures(c.outputs[0]), universe) && |c.outputs| == 1
  {
  }

  lemma {:induction false} NoSignatures(universe: set<Signature>)
    ensures AllIn(AllOutputSignatures([]), universe)
  {
  }

  lemma {:induction false} AllInConcat(a: seq<Signature>, b: seq<Signature>, universe: set<Signature>)
    requires AllIn(a, universe) && AllIn(b, universe)
    ensures AllIn(a + b, universe)
  {
  }

  lemma {:induction false} SignaturesSnoc(lost: seq<LostOutput>, l: LostOutput)
    ensures AllOutputSignatures(lost + [l]) == AllOutputSignatures(lost) + OutputSignatures(l)
  {
    assert (lost + [l])[..|lost|] == lost;
  }

  /** The losses of any pass stay within the bound. */
  lemma {:induction false} LossesAreBounded(w: World, universe: set<Signature>, clock: nat, tracker: set<BuildArtifact>,
                                            values: seq<Artifact>, n: nat)
    requires Bounded(w, universe) && n <= |values|
    ensures AllIn(AllOutputSignatures(LostIn(PassOver(w, clock, tracker, values[..n]).requests)), universe)
  {
    hide *;
    if n == 0 {
      PassStart(w, clock, tracker);
      NoSignatures(universe);
      assert values[..0] == [];
    } else {
      LossesAreBounded(w, universe, clock, tracker, values, n - 1);
      PassSnoc(w, clock, tracker, values, n - 1);
      var a, q := values[n - 1], PassOver(w, clock, tracker, values[..n - 1]);
      if a.Built? {
        OneLossIsBounded(w, universe, clock + |q.requests|, a.build);
        var c := Classify(a.build, w.Answer(clock + |q.requests|, a.build));
        if c.Lost? {
          assert c.outputs == [c.outputs[0]];
          SignaturesSnoc(LostIn(q.requests), c.outputs[0]);
          AllInConcat(AllOutputSignatures(LostIn(q.requests)), OutputSignatures(c.outputs[0]), universe);
        } else {
          assert LostIn(q.requests) + [] == LostIn(q.requests);
        }
      }
    }
  }

  // ----- Recording attempts -----

  /** Counts the signatures in turn and stops at the first one that exceeds its cap. */
  function Recorded(attempts: map<Signature, nat>, signatures: seq<Signature>): (r: (map<Signature, nat>, bool))
    decreases |signatures|
  {
    if signatures == [] then (attempts, true)
    else
      var next := attempts[signatures[0] := Count(attempts, signatures[0]) + 1];
      if next[signatures[0]] > MAX_REPEATED_LOST_REMOTE_REWINDS then (next, false) else Recorded(next, signatures[1..])
  }

  /** Recording never adds to the budget; recording something without hitting a cap uses some of it. */
  lemma {:induction false} RecordingUsesBudget(universe: set<Signature>, attempts: map<Signature, nat>,
                                               signatures: seq<Signature>)
    ensures Remaining(universe, Recorded(attempts, signatures).0) <= Remaining(universe, attempts)
    ensures Recorded(attempts, signatures).1 && signatures != [] && signatures[0] in universe ==>
              Remaining(universe, Recorded(attempts, signatures).0) < Remaining(universe, attempts)
    decreases |signatures|
  {
    if signatures != [] {
      BudgetShrinks(universe, attempts, signatures[0]);
      var next := attempts[signatures[0] := Count(attempts, signatures[0]) + 1];
      RecordingUsesBudget(universe, next, signatures[1..]);
    }
  }

  lemma {:induction false} ProperSubsetIsSmaller<T>(a: set<T>, b: set<T>)
    requires a <= b
    ensures |a| <= |b| && (a < b ==> |a| < |b|)
  {
    assert b == a + (b - a) && |b| == |a| + |b - a|;
    if a < b { assert b - a != {}; }
  }

  lemma {:induction false} RecordingShrinksBudget(universe: set<Signature>, attempts: map<Signature, nat>,
                                                  signatures: seq<Signature>)
    requires signatures != [] && AllIn(signatures, universe)
    ensures var (after, ok) := Recorded(attempts, signatures);
            && |Remaining(universe, after)| <= |Remaining(universe, attempts)|
            && (ok ==> |Remaining(universe, after)| < |Remaining(universe, attempts)|)
  {
    assert signatures[0] in signatures;
    RecordingUsesBudget(universe, attempts, signatures);
    ProperSubsetIsSmaller(Remaining(universe, Recorded(attempts, signatures).0), Remaining(universe, attempts));
  }

  lemma {:induction false} PairsWith(s: Signature, k: nat)
    ensures |set n: nat | 0 < n <= k :: (s, n)| == k
  {
    if k > 0 {
      PairsWith(s, k - 1);
      assert (set n: nat | 0 < n <= k :: (s, n)) == (set n: nat | 0 < n <= k - 1 :: (s, n)) + {(s, k)};
    }
  }

  /** The whole budget: each signature may be retried as often as its cap says. */
  lemma {:induction false} BudgetIsFinite(universe: set<Signature>, attempts: map<Signature, nat>)
    ensures |Remaining(universe, attempts)| <= MAX_REPEATED_LOST_REMOTE_REWINDS * |universe|
  {
    if universe == {} {
      assert Remaining(universe, attempts) == {};
    } else {
      var s :| s in universe;
      var rest := universe - {s};
      BudgetIsFinite(rest, attempts);
      var own := set n: nat | 0 < n <= MAX_REPEATED_LOST_REMOTE_REWINDS :: (s, n);
      PairsWith(s, MAX_REPEATED_LOST_REMOTE_REWINDS);
      ProperSubsetIsSmaller(Remaining(universe, attempts), Remaining(rest, attempts) + own);
    }
  }

  /** As long as recording succeeds no signature has been counted beyond its cap. */
  lemma {:induction false} RecordingRespectsCap(attempts: map<Signature, nat>, signatures: seq<Signature>)
    requires forall s :: s in attempts ==> attempts[s] <= MAX_REPEATED_LOST_REMOTE_REWINDS
    ensures Recorded(attempts, signatures).1 ==>
              forall s :: s in Recorded(attempts, signatures).0 ==>
                Recorded(attempts, signatures).0[s] <= MAX_REPEATED_LOST_REMOTE_REWINDS
    decreases |signatures|
  {
    if signatures != [] {
      var next := attempts[signatures[0] := Count(attempts, signatures[0]) + 1];
      if next[signatures[0]] <= MAX_REPEATED_LOST_REMOTE_REWINDS {
        RecordingRespectsCap(next, signatures[1..]);
      }
    }
  }

  // ----- What was lost -----

  function DigestsOf(lost: seq<LostOutput>): set<Digest> {
    if lost == [] then {} else DigestsOf(lost[..|lost| - 1]) + SetOf(lost[|lost| - 1].digests)
  }

  function UploadDigestsOf(lost: seq<LostUpload>): set<Digest> {
    if lost == [] then {} else UploadDigestsOf(lost[..|lost| - 1]) + SetOf(lost[|lost| - 1].digests)
  }

  /** Exactly the digests of the lost outputs, and of the lost uploads. */
  lemma {:induction false} DigestsExact(lost: seq<LostOutput>, d: Digest)
    ensures d in DigestsOf(lost) <==> exists i :: 0 <= i < |lost| && d in lost[i].digests
  {
    if lost != [] {
      var n := |lost| - 1;
      DigestsExact(lost[..n], d);
      assert forall i :: 0 <= i < n ==> lost[..n][i] == lost[i];
      if d in DigestsOf(lost[..n]) {
        var i :| 0 <= i < n && d in lost[..n][i].digests;
        assert d in lost[i].digests;
      }
    }
  }

  lemma {:induction false} UploadDigestsExact(lost: seq<LostUpload>, d: Digest)
    ensures d in UploadDigestsOf(lost) <==> exists i :: 0 <= i < |lost| && d in lost[i].digests
  {
    if lost != [] {
      var n := |lost| - 1;
      UploadDigestsExact(lost[..n], d);
      assert forall i :: 0 <= i < n ==> lost[..n][i] == lost[i];
      if d in UploadDigestsOf(lost[..n]) {
        var i :| 0 <= i < n && d in lost[..n][i].digests;
        assert d in lost[i].digests;
      }
    }
  }

  function KeysOf(lost: seq<LostOutput>): set<ActionKey> {
    set i | 0 <= i < |lost| :: lost[i].artifact.key
  }

  function BuildKeys(values: seq<Artifact>): set<ActionKey> {
    set i | 0 <= i < |values| && values[i].Built? :: values[i].build.key
  }

  lemma {:induction false} BuildKeysSnoc(values: seq<Artifact>, i: nat)
    requires i < |values|
    ensures BuildKeys(values[..i + 1]) == BuildKeys(values[..i]) + if values[i].Built? then {values[i].build.key}
            else {}
  {
    var all, prefix := values[..i + 1], values[..i];
    forall k | k in BuildKeys(prefix) ensures k in BuildKeys(all) {
      var j :| 0 <= j < |prefix| && prefix[j].Built? && prefix[j].build.key == k;
      assert all[j] == prefix[j];
    }
    forall k | k in BuildKeys(all) ensures k in BuildKeys(prefix) || (values[i].Built? && k == values[i].build.key) {
      var j :| 0 <= j < |all| && all[j].Built? && all[j].build.key == k;
      if j < i { assert prefix[j] == all[j]; }
    }
    if values[i].Built? { assert all[i].build.key in BuildKeys(all); }
  }

  function Keys(producers: seq<BuildArtifact>): (r: seq<ActionKey>)
    ensures |r| == |producers| && forall i :: 0 <= i < |r| ==> r[i] == producers[i].key
  {
    seq(|producers|, i requires 0 <= i < |producers| => producers[i].key)
  }

  lemma {:induction false} ProducerIsLost(lost: seq<LostOutput>, j: nat)
    requires j < |ProducersOf(lost)|
    ensures exists i :: 0 <= i < |lost| && lost[i].artifact == ProducersOf(lost)[j]
  {
    var prefix := lost[..|lost| - 1];
    if j < |ProducersOf(prefix)| {
      ProducerIsLost(prefix, j);
      var i :| 0 <= i < |prefix| && prefix[i].artifact == ProducersOf(prefix)[j];
      assert lost[i].artifact == ProducersOf(lost)[j];
    } else {
      assert lost[|lost| - 1].artifact == ProducersOf(lost)[j];
    }
  }

  /** The producers of a plan are exactly the actions that lost an output. */
  lemma {:induction false} KeysOfProducers(lost: seq<LostOutput>)
    ensures SetOf(Keys(ProducersOf(lost))) == KeysOf(lost)
  {
    EveryLossHasAProducer(lost);
    var producers := ProducersOf(lost);
    var keys := Keys(producers);
    forall k | k in KeysOf(lost) ensures k in keys {
      var i :| 0 <= i < |lost| && lost[i].artifact.key == k;
      assert HasProducer(producers, lost[i].artifact.key);
      var j :| 0 <= j < |producers| && producers[j].key == k;
      assert keys[j] == k;
    }
    forall j | 0 <= j < |producers| ensures producers[j].key in KeysOf(lost) {
      ProducerIsLost(lost, j);
    }
  }
}
