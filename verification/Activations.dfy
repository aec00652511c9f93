/**
 What reaches the receiver when many activations signal at once: the sends of `key_activated`
 (app/bz_build_signals_impl/src/lib.rs), interleaved in any way that keeps Part 1 of a split before its Part 2.
 Main result: whatever the interleaving, a build that activates keys after their dependencies produces a stream for
 which the critical path is computed.
 */
module Activations {
  import opened Collections
  import opened BuildSignals
  import opened SignalGraph

  /** The evaluation at `i` is the Part 1 of activation `a`, or its only one; or, if `last`, its Part 2. */
  ghost predicate SentAt(acts: seq<Activation>, first: seq<nat>, second: seq<nat>, i: nat, a: nat, last: bool) {
    && a < |acts| == |first| == |second|
    && if last then acts[a].split.Some? && second[a] == i else first[a] == i
  }

  ghost predicate Sent(acts: seq<Activation>, first: seq<nat>, second: seq<nat>, i: nat) {
    exists a, last :: SentAt(acts, first, second, i, a, last)
  }

  /** The stream holds what every activation sends, at positions `first` and `second`, and nothing else. */
  ghost predicate Sends(acts: seq<Activation>, first: seq<nat>, second: seq<nat>, stream: seq<Evaluation>) {
    && |first| == |second| == |acts|
    && (forall a :: 0 <= a < |acts| ==> first[a] < |stream| && stream[first[a]] == KeyActivated(acts[a])[0])
    && (forall a :: 0 <= a < |acts| && acts[a].split.Some? ==>
          first[a] < second[a] < |stream| && stream[second[a]] == KeyActivated(acts[a])[1])
    && (forall a :: 0 <= a < |acts| && acts[a].split.None? ==> second[a] == first[a])
    && (forall i :: 0 <= i < |stream| ==> Sent(acts, first, second, i))
  }

  predicate IsFinish(k: NodeKey) { k.AnalysisFinishKey? || k.AnonTargetFinishKey? }

  /** When an activation is over. */
  function LastEnd(a: Activation): nat { if a.split.Some? then a.split.value.end else a.span.end }

  /** The end of the part that dependency `k` is sent with. */
  function EndFor(a: Activation, k: NodeKey): nat {
    if a.split.Some? && k.AnonTargetKey? then a.split.value.end else a.span.end
  }

  /** Finish keys exist only in the signals; an analysis or anon target that was split ends with its Part 2. */
  ghost predicate WellFormed(a: Activation) {
    && !IsFinish(a.key) && (forall k :: k in a.deps ==> !IsFinish(k))
    && (a.split.Some? ==> CanSplit(a.key) && a.span.end <= a.split.value.end)
    && (IsLoadPhase(a.key) ==> LoadOnly(a.deps))
  }

  /** `b` was over, and all of it was sent, before anything of `a` was sent; loads need not end in order. */
  ghost predicate Completed(acts: seq<Activation>, first: seq<nat>, second: seq<nat>, b: nat, a: nat)
    requires a < |acts| == |first| == |second| && b < |acts|
  {
    second[b] < first[a] && (IsLoadPhase(acts[b].key) || LastEnd(acts[b]) <= EndFor(acts[a], acts[b].key))
  }

  /** `m` is split and discovered `k`. */
  ghost predicate Discoverer(acts: seq<Activation>, m: nat, k: NodeKey) {
    m < |acts| && acts[m].split.Some? && k.AnonTargetKey? && k in acts[m].deps
  }

  /**
   A key is activated once, after what it depends on; a discovered anon target ends after the Part 1 of a discoverer.
   */
  ghost predicate Orderly(acts: seq<Activation>, first: seq<nat>, second: seq<nat>)
    requires |first| == |second| == |acts|
  {
    && (forall a, b :: 0 <= a < b < |acts| ==> acts[a].key != acts[b].key)
    && (forall a :: 0 <= a < |acts| ==> WellFormed(acts[a]))
    && (forall a, b :: 0 <= a < |acts| && 0 <= b < |acts| && acts[b].key in acts[a].deps ==>
          Completed(acts, first, second, b, a))
    && (forall a: nat, b :: 0 <= b < |acts| && Discoverer(acts, a, acts[b].key) ==>
          exists m: nat :: Discoverer(acts, m, acts[b].key) && acts[m].span.end < acts[b].span.end)
  }

  ghost predicate Build(acts: seq<Activation>, first: seq<nat>, second: seq<nat>, stream: seq<Evaluation>) {
    Sends(acts, first, second, stream) && Orderly(acts, first, second)
  }

  // ----- What is sent -----

  lemma {:induction false} KindsOfDeps(deps: seq<NodeKey>, k: NodeKey)
    ensures k in OtherDeps(deps) <==> k in deps && !k.AnonTargetKey?
    ensures k in AnonDeps(deps) <==> k in deps && k.AnonTargetKey?
  {
    if deps != [] {
      KindsOfDeps(deps[1..], k);
      assert deps == [deps[0]] + deps[1..];
    }
  }

  /** The evaluation sent for a part: its key, its end, and the dependencies of the activation it carries. */
  lemma {:induction false} Part(acts: seq<Activation>, first: seq<nat>, second: seq<nat>, stream: seq<Evaluation>,
                                i: nat, a: nat, last: bool, k: NodeKey)
    requires Build(acts, first, second, stream) && i < |stream| && SentAt(acts, first, second, i, a, last)
    ensures stream[i].key == if last then FinishKey(acts[a].key) else acts[a].key
    ensures stream[i].End() == if last then acts[a].split.value.end else acts[a].span.end
    ensures IsFinish(stream[i].key) <==> last
    ensures PartTwoShape(stream[i]) && (stream[i].discovery.Some? <==> last)
    ensures last ==> stream[i].discovery.value.analysis == acts[a].key
    ensures last ==> stream[i].discovery.value.analysisEnd == acts[a].span.end
    ensures last && k in stream[i].discovery.value.anonTargets ==> k.AnonTargetKey? && k in acts[a].deps
    ensures last && k.AnonTargetKey? && k in acts[a].deps ==> k in stream[i].discovery.value.anonTargets
    ensures k in stream[i].deps ==> !IsFinish(k)
    ensures k in stream[i].deps ==>
              (last && k == acts[a].key) || (k in acts[a].deps && stream[i].End() == EndFor(acts[a], k))
  {
    assert WellFormed(acts[a]);
    KindsOfDeps(acts[a].deps, k);
    SentShape(acts[a], if last then 1 else 0);
    hide PartTwoShape;
    if last {
      assert stream[i] == KeyActivated(acts[a])[1];
    } else {
      assert stream[i] == KeyActivated(acts[a])[0];
    }
  }

  lemma {:induction false} SenderOf(acts: seq<Activation>, first: seq<nat>, second: seq<nat>, stream: seq<Evaluation>,
                                    i: nat)
    returns (a: nat, last: bool)
    requires Build(acts, first, second, stream) && i < |stream|
    ensures SentAt(acts, first, second, i, a, last)
  {
    assert Sent(acts, first, second, i);
    a, last :| SentAt(acts, first, second, i, a, last);
  }

  /** A key names its evaluation: the same key means the same activation, the same part and the same position. */
  lemma {:induction false} SameSender(acts: seq<Activation>, first: seq<nat>, second: seq<nat>, stream: seq<Evaluation>,
                                      i: nat, a: nat, last: bool, j: nat, b: nat, last': bool)
    requires Build(acts, first, second, stream) && i < |stream| && j < |stream| && stream[i].key == stream[j].key
    requires SentAt(acts, first, second, i, a, last) && SentAt(acts, first, second, j, b, last')
    ensures a == b && last == last' && i == j
  {
    Part(acts, first, second, stream, i, a, last, stream[i].key);
    Part(acts, first, second, stream, j, b, last', stream[i].key);
    hide Sends, PartTwoShape;
    assert WellFormed(acts[a]) && WellFormed(acts[b]);
  }

  // ----- The environment -----

  lemma {:induction false} DistinctKeys(acts: seq<Activation>, first: seq<nat>, second: seq<nat>,
                                        stream: seq<Evaluation>, i: nat, j: nat)
    requires Build(acts, first, second, stream) && i < j < |stream|
    ensures stream[i].key != stream[j].key
  {
    var a, last := SenderOf(acts, first, second, stream, i);
    var b, last' := SenderOf(acts, first, second, stream, j);
    if stream[i].key == stream[j].key {
      SameSender(acts, first, second, stream, i, a, last, j, b, last');
    }
  }

  lemma {:induction false} Shape(acts: seq<Activation>, first: seq<nat>, second: seq<nat>, stream: seq<Evaluation>,
                                 i: nat)
    requires Build(acts, first, second, stream) && i < |stream|
    ensures PartTwoShape(stream[i]) && (IsLoadPhase(stream[i].key) ==> LoadOnly(stream[i].deps))
  {
    var a, last := SenderOf(acts, first, second, stream, i);
    Part(acts, first, second, stream, i, a, last, acts[a].key);
    assert WellFormed(acts[a]);
    hide Build, PartTwoShape;
    if IsLoadPhase(stream[i].key) {
      assert !last;
      forall k | k in stream[i].deps ensures IsLoadPhase(k) {
        Part(acts, first, second, stream, i, a, last, k);
      }
    }
  }

  /** What an evaluation depends on, and all of what was sent for it, was sent before and ended no later. */
  lemma {:induction false} DependencySent(acts: seq<Activation>, first: seq<nat>, second: seq<nat>,
                                          stream: seq<Evaluation>, i: nat, a: nat, last: bool, j: nat, b: nat,
                                          last': bool)
    requires Build(acts, first, second, stream) && i < |stream| && j < |stream| && i != j
    requires SentAt(acts, first, second, i, a, last) && SentAt(acts, first, second, j, b, last')
    requires acts[b].key in stream[i].deps
    ensures j < i && (IsLoadPhase(acts[b].key) || stream[j].End() <= stream[i].End())
  {
    Part(acts, first, second, stream, i, a, last, acts[b].key);
    Part(acts, first, second, stream, j, b, last', acts[b].key);
    hide PartTwoShape;
    assert WellFormed(acts[a]) && WellFormed(acts[b]);
    assert first[a] <= second[a] && first[b] <= second[b];
    if acts[b].key in acts[a].deps && stream[i].End() == EndFor(acts[a], acts[b].key) {
      assert Completed(acts, first, second, b, a);
    } else {
      assert a == b;
    }
  }

  lemma {:induction false} NoSelfDependency(acts: seq<Activation>, first: seq<nat>, second: seq<nat>,
                                            stream: seq<Evaluation>, i: nat, a: nat, last: bool)
    requires Build(acts, first, second, stream) && i < |stream| && SentAt(acts, first, second, i, a, last)
    ensures stream[i].key !in stream[i].deps
  {
    Part(acts, first, second, stream, i, a, last, stream[i].key);
    if acts[a].key in acts[a].deps {
      assert false;
    }
  }

  lemma {:induction false} DepsBefore(acts: seq<Activation>, first: seq<nat>, second: seq<nat>, stream: seq<Evaluation>,
                                      i: nat, j: nat)
    requires Build(acts, first, second, stream) && i < |stream| && j < |stream| && stream[j].key in stream[i].deps
    ensures j < i && (IsLoadPhase(stream[j].key) || stream[j].End() <= stream[i].End())
  {
    var a, last := SenderOf(acts, first, second, stream, i);
    var b, last' := SenderOf(acts, first, second, stream, j);
    Part(acts, first, second, stream, i, a, last, stream[j].key);
    Part(acts, first, second, stream, j, b, last', stream[j].key);
    if i == j {
      NoSelfDependency(acts, first, second, stream, i, a, last);
    }
    hide Build;
    DependencySent(acts, first, second, stream, i, a, last, j, b, last');
  }

  lemma {:induction false} SplitsBefore(acts: seq<Activation>, first: seq<nat>, second: seq<nat>,
                                        stream: seq<Evaluation>, i: nat, j: nat, k: NodeKey)
    requires Build(acts, first, second, stream) && i < |stream| && i != j && SplitAt(stream, j, k)
             && k in stream[i].deps
    ensures j < i && stream[j].End() <= stream[i].End()
  {
    var a, last := SenderOf(acts, first, second, stream, i);
    var b, last' := SenderOf(acts, first, second, stream, j);
    Part(acts, first, second, stream, j, b, last', k);
    DependencySent(acts, first, second, stream, i, a, last, j, b, last');
    assert WellFormed(acts[b]);
  }

  lemma {:induction false} PartsAgree(acts: seq<Activation>, first: seq<nat>, second: seq<nat>, stream: seq<Evaluation>,
                                      i: nat, j: nat)
    requires Build(acts, first, second, stream) && j < |stream| && SplitAt(stream, i, stream[j].key)
    ensures stream[j].End() == stream[i].discovery.value.analysisEnd
  {
    var a, last := SenderOf(acts, first, second, stream, i);
    var b, last' := SenderOf(acts, first, second, stream, j);
    Part(acts, first, second, stream, i, a, last, stream[j].key);
    Part(acts, first, second, stream, j, b, last', stream[j].key);
    assert WellFormed(acts[a]);
  }

  lemma {:induction false} DiscoveredLater(acts: seq<Activation>, first: seq<nat>, second: seq<nat>,
                                           stream: seq<Evaluation>, i: nat, j: nat)
    requires Build(acts, first, second, stream) && j < |stream| && DiscoversAt(stream, i, stream[j].key)
    ensures exists m :: DiscoversAt(stream, m, stream[j].key) && stream[m].discovery.value.analysisEnd < stream[j].End()
  {
    var a, last := SenderOf(acts, first, second, stream, i);
    var b, last' := SenderOf(acts, first, second, stream, j);
    Part(acts, first, second, stream, i, a, last, stream[j].key);
    Part(acts, first, second, stream, j, b, last', stream[j].key);
    hide PartTwoShape;
    assert Discoverer(acts, a, acts[b].key);
    var m: nat :| Discoverer(acts, m, acts[b].key) && acts[m].span.end < acts[b].span.end;
    Part(acts, first, second, stream, second[m], m, true, stream[j].key);
    assert DiscoversAt(stream, second[m], stream[j].key);
  }

  /** The part of the assumptions that is about splits. */
  ghost predicate SplitsInOrder(stream: seq<Evaluation>) {
    && (forall i, j, k :: 0 <= i < |stream| && i != j && SplitAt(stream, j, k) && k in stream[i].deps ==>
          j < i && stream[j].End() <= stream[i].End())
    && (forall i, j :: 0 <= i < |stream| && 0 <= j < |stream| && SplitAt(stream, i, stream[j].key) ==>
          stream[j].End() == stream[i].discovery.value.analysisEnd)
    && (forall j, i :: 0 <= j < |stream| && DiscoversAt(stream, i, stream[j].key) ==>
          exists m :: DiscoversAt(stream, m, stream[j].key) && stream[m].discovery.value.analysisEnd < stream[j].End())
  }

  lemma {:induction false} BuildsMeetSplits(acts: seq<Activation>, first: seq<nat>, second: seq<nat>,
                                            stream: seq<Evaluation>)
    requires Build(acts, first, second, stream)
    ensures SplitsInOrder(stream)
  {
    hide Build;
    forall i, j, k | 0 <= i < |stream| && i != j && SplitAt(stream, j, k) && k in stream[i].deps
      ensures j < i && stream[j].End() <= stream[i].End()
    {
      SplitsBefore(acts, first, second, stream, i, j, k);
    }
    forall i, j | 0 <= i < |stream| && 0 <= j < |stream| && SplitAt(stream, i, stream[j].key)
      ensures stream[j].End() == stream[i].discovery.value.analysisEnd
    {
      PartsAgree(acts, first, second, stream, i, j);
    }
    forall j, i | 0 <= j < |stream| && DiscoversAt(stream, i, stream[j].key)
      ensures exists m ::
              DiscoversAt(stream, m, stream[j].key) && stream[m].discovery.value.analysisEnd < stream[j].End()
    {
      DiscoveredLater(acts, first, second, stream, i, j);
    }
  }

  /** Every interleaving of what the activations of a build send meets the assumptions on streams. */
  lemma {:induction false} BuildsMeetEnvironment(acts: seq<Activation>, first: seq<nat>, second: seq<nat>,
                                                 stream: seq<Evaluation>)
    requires Build(acts, first, second, stream)
    ensures Environment(stream)
  {
    hide Build, PartTwoShape, LoadOnly, SplitAt, DiscoversAt;
    forall i, j | 0 <= i < j < |stream| ensures stream[i].key != stream[j].key {
      DistinctKeys(acts, first, second, stream, i, j);
    }
    forall i | 0 <= i < |stream|
      ensures PartTwoShape(stream[i]) && (IsLoadPhase(stream[i].key) ==> LoadOnly(stream[i].deps))
    {
      Shape(acts, first, second, stream, i);
    }
    forall i, j | 0 <= i < |stream| && 0 <= j < |stream| && stream[j].key in stream[i].deps
      ensures j < i && (IsLoadPhase(stream[j].key) || stream[j].End() <= stream[i].End())
    {
      DepsBefore(acts, first, second, stream, i, j);
    }
    BuildsMeetSplits(acts, first, second, stream);
  }
}
