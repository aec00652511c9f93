/**
 The build result accumulator: `BuildTargetResultBuilder` and `AsyncBuildTargetResultBuilder` in
 app/bz_build_api/src/build.rs. An event carries the elapsed time the clock shows when the event is handled.
 */
module BuildResult {
  import opened Collections

  datatype Label = Label(target: string, providers: string)

  datatype Output = Artifacts(paths: string) | OutputError(error: string)

  datatype TimedOutput = TimedOutput(output: Output, elapsed: nat)

  datatype TimedError = TimedError(error: string, elapsed: nat)

  /** A timed output with its index among the outputs of the target. */
  datatype Indexed = Indexed(index: nat, output: Output, elapsed: nat)

  datatype TargetResult<T> = TargetResult(outputs: seq<T>, providers: Option<string>, rule: Option<string>,
                                          properties: Option<string>, errors: seq<TimedError>)

  datatype Variant =
    | SkippedIncompatible
    | MapModifiers(modifiers: string)
    | Prepared(providers: Option<string>, rule: string)
    | Validation(failure: Option<string>)
    | BuildOutput(index: nat, output: Output)
    | GraphProperties(properties: string)
    | Timeout
    | TargetError(error: string)

  datatype Event =
    | Configured(owner: Label, variant: Variant)
    | OtherError(target: Option<string>, error: string)

  datatype TimedEvent = TimedEvent(event: Event, at: nat)

  datatype FailFastState = Continue | Breakpoint

  const DEADLINE_EXPIRED := "build deadline expired"

  type Slot = Option<TargetResult<Indexed>>

  datatype State = State(res: map<Label, Slot>, modifiers: map<Label, seq<string>>,
                         otherErrors: map<Option<string>, seq<string>>, failed: bool, incompatible: set<string>)
  {
    function Lookup(l: Label): Option<Slot> { if l in res then Some(res[l]) else None }

    predicate Built(l: Label) { l in res && res[l].Some? }

    predicate Skipped(l: Label) { l in res && res[l].None? }
  }

  const START := State(map[], map[], map[], false, {})

  const NO_RESULT: TargetResult<Indexed> := TargetResult([], None, None, None, [])

  /** An error event for a skipped label would panic. */
  predicate Panics(s: State, e: Event) {
    e.Configured? && e.variant.TargetError? && s.Skipped(e.owner)
  }

  predicate NeedsResult(v: Variant) {
    v.Validation? || v.BuildOutput? || v.GraphProperties? || v.Timeout?
  }

  predicate Breaks(e: Event) {
    e.Configured? && match e.variant
                     case Validation(failure) => failure.Some?
                     case BuildOutput(_, output) => output.OutputError?
                     case TargetError(_) => true
                     case _ => false
  }

  predicate Fails(e: Event) {
    e.OtherError? || Breaks(e) || e.variant.Timeout?
  }

  function AddError<T>(r: TargetResult<T>, error: string, at: nat): TargetResult<T> {
    r.(errors := r.errors + [TimedError(error, at)])
  }

  /** What a variant adds to the result of a label that has one. */
  function Update(r: TargetResult<Indexed>, v: Variant, at: nat): TargetResult<Indexed> {
    match v
    case Validation(Some(error)) => AddError(r, error, at)
    case BuildOutput(index, output) => r.(outputs := r.outputs + [Indexed(index, output, at)])
    case GraphProperties(p) => r.(properties := Some(p))
    case Timeout => AddError(r, DEADLINE_EXPIRED, at)
    case TargetError(error) => AddError(r, error, at)
    case _ => r
  }

  /** What a configured event does to the slot of its label. */
  function StepSlot(slot: Option<Slot>, v: Variant, at: nat): Option<Option<Slot>>
    requires !(slot == Some(None) && v.TargetError?)
  {
    if NeedsResult(v) then
      if slot.Some? && slot.value.Some? then Some(Some(Some(Update(slot.value.value, v, at)))) else None
    else
      match v
      case SkippedIncompatible => Some(if slot.Some? then slot else Some(None))
      case Prepared(providers, rule) =>
        Some(if slot.Some? then slot else Some(Some(TargetResult([], providers, Some(rule), None, []))))
      case TargetError(_) => Some(Some(Some(Update(if slot.Some? then slot.value.value else NO_RESULT, v, at))))
      case _ => Some(slot)
  }

  function Append<K, V>(m: map<K, seq<V>>, k: K, v: V): map<K, seq<V>> {
    m[k := (if k in m then m[k] else []) + [v]]
  }

  function StepConfigured(s: State, l: Label, v: Variant, at: nat): Option<State>
    requires !(s.Skipped(l) && v.TargetError?)
  {
    var slot := StepSlot(s.Lookup(l), v, at);
    if slot.None? then None
    else
      Some(State(if slot.value.Some? then s.res[l := slot.value.value] else s.res,
                 if v.MapModifiers? then Append(s.modifiers, l, v.modifiers) else s.modifiers,
                 s.otherErrors, s.failed || Fails(Configured(l, v)),
                 if v.SkippedIncompatible? then s.incompatible + {l.target} else s.incompatible))
  }

  /** The handling of one event; `None` is an internal error. */
  function Step(s: State, e: TimedEvent): Option<State>
    requires !Panics(s, e.event)
  {
    match e.event
    case OtherError(target, error) =>
      Some(s.(otherErrors := Append(s.otherErrors, target, error), failed := true))
    case Configured(l, v) => StepConfigured(s, l, v, e.at)
  }

  lemma {:induction false} StepOther(s: State, e: TimedEvent, l: Label)
    requires !Panics(s, e.event) && Step(s, e).Some? && !(e.event.Configured? && e.event.owner == l)
    ensures Step(s, e).value.Lookup(l) == s.Lookup(l)
  {
  }

  lemma {:induction false} StepOwn(s: State, e: TimedEvent)
    requires !Panics(s, e.event) && Step(s, e).Some? && e.event.Configured?
    ensures Some(Step(s, e).value.Lookup(e.event.owner)) == StepSlot(s.Lookup(e.event.owner), e.event.variant, e.at)
  {
  }

  // ----- Runs -----

  /** The fold of the events, as long as no event panics; a panic ends the run like an error. */
  function Run(events: seq<TimedEvent>): (r: Option<State>) {
    if events == [] then Some(START)
    else
      var s := Run(events[..|events| - 1]);
      var e := events[|events| - 1];
      if s.None? || Panics(s.value, e.event) then None else Step(s.value, e)
  }

  predicate Accepted(events: seq<TimedEvent>) {
    Run(events).Some?
  }

  datatype Shape = Absent | SkippedShape | BuiltShape

  /** What an event makes of a label nothing is known about yet. */
  function Inserts(e: Event, l: Label): Shape {
    if !e.Configured? || e.owner != l then Absent
    else match e.variant
         case SkippedIncompatible => SkippedShape
         case Prepared(_, _) => BuiltShape
         case TargetError(_) => BuiltShape
         case _ => Absent
  }

  /** The shape given by the first event that inserts the label. */
  function ShapeOf(events: seq<TimedEvent>, l: Label): Shape {
    if events == [] then Absent
    else if Inserts(events[0].event, l) != Absent then Inserts(events[0].event, l)
    else ShapeOf(events[1..], l)
  }

  lemma {:induction false} ShapeSnoc(events: seq<TimedEvent>, e: TimedEvent, l: Label)
    ensures ShapeOf(events + [e], l) == if ShapeOf(events, l) != Absent then ShapeOf(events, l) else Inserts(e.event, l)
  {
    if events == [] {
      assert ([] + [e])[1..] == [];
    } else {
      assert (events + [e])[1..] == events[1..] + [e];
      ShapeSnoc(events[1..], e, l);
    }
  }

  function SlotShape(slot: Option<Slot>): Shape {
    if slot.None? then Absent else if slot.value.None? then SkippedShape else BuiltShape
  }

  lemma {:induction false} StepShape(s: State, e: TimedEvent, l: Label)
    requires !Panics(s, e.event) && Step(s, e).Some?
    ensures SlotShape(Step(s, e).value.Lookup(l)) ==
            if SlotShape(s.Lookup(l)) != Absent then SlotShape(s.Lookup(l)) else Inserts(e.event, l)
  {
    hide Step, Update;
    if e.event.Configured? && e.event.owner == l { StepOwn(s, e); } else { StepOther(s, e, l); }
  }

  /** A label's shape is fixed by the first event that inserts it. */
  lemma {:induction false} FirstEventFixesShape(events: seq<TimedEvent>, l: Label)
    requires Accepted(events)
    ensures SlotShape(Run(events).value.Lookup(l)) == ShapeOf(events, l)
  {
    if events != [] {
      var prefix, e := events[..|events| - 1], events[|events| - 1];
      FirstEventFixesShape(prefix, l);
      assert events == prefix + [e];
      ShapeSnoc(prefix, e, l);
      StepShape(Run(prefix).value, e, l);
    }
  }

  /** What the builder's caller has to respect: results only for built labels, errors only for labels not skipped. */
  predicate Legal(before: seq<TimedEvent>, e: Event) {
    e.Configured? ==>
      && (NeedsResult(e.variant) ==> ShapeOf(before, e.owner) == BuiltShape)
      && (e.variant.TargetError? ==> ShapeOf(before, e.owner) != SkippedShape)
  }

  /** A run is accepted exactly when every event is legal after the ones before it. */
  lemma {:induction false} AcceptedIffLegal(events: seq<TimedEvent>)
    ensures Accepted(events) <==> forall i :: 0 <= i < |events| ==> Legal(events[..i], events[i].event)
  {
    if events != [] {
      var n := |events| - 1;
      var prefix := events[..n];
      AcceptedIffLegal(prefix);
      assert forall i :: 0 <= i < n ==> prefix[..i] == events[..i] && prefix[i] == events[i];
      if Accepted(prefix) && events[n].event.Configured? {
        FirstEventFixesShape(prefix, events[n].event.owner);
      }
    }
  }

  lemma {:induction false} StepFails(s: State, e: TimedEvent)
    requires !Panics(s, e.event) && Step(s, e).Some?
    ensures Step(s, e).value.failed == (s.failed || Fails(e.event))
  {
  }

  /** The build has failed exactly when one of the failing events occurred. */
  lemma {:induction false} FailedIffFailingEvent(events: seq<TimedEvent>)
    requires Accepted(events)
    ensures Run(events).value.failed <==> exists i :: 0 <= i < |events| && Fails(events[i].event)
  {
    hide Step, Fails;
    if events != [] {
      var n := |events| - 1;
      var prefix := events[..n];
      FailedIffFailingEvent(prefix);
      StepFails(Run(prefix).value, events[n]);
      if Run(prefix).value.failed {
        var i :| 0 <= i < n && Fails(prefix[i].event);
        assert Fails(events[i].event);
      } else {
        assert forall i :: 0 <= i < n ==> prefix[i] == events[i];
      }
    }
  }

  function ErrorIn(v: Variant): Option<string> {
    match v
    case Validation(failure) => failure
    case Timeout => Some(DEADLINE_EXPIRED)
    case TargetError(error) => Some(error)
    case _ => None
  }

  /** The output and the error an event reports for a label. */
  function OutputOf(e: TimedEvent, l: Label): seq<Indexed> {
    if e.event.Configured? && e.event.owner == l && e.event.variant.BuildOutput?
    then [Indexed(e.event.variant.index, e.event.variant.output, e.at)] else []
  }

  function ErrorOf(e: TimedEvent, l: Label): seq<TimedError> {
    if e.event.Configured? && e.event.owner == l && ErrorIn(e.event.variant).Some?
    then [TimedError(ErrorIn(e.event.variant).value, e.at)] else []
  }

  /** The outputs and errors reported for a label, in the order they were handled. */
  function OutputsFor(events: seq<TimedEvent>, l: Label): seq<Indexed> {
    if events == [] then [] else OutputsFor(events[..|events| - 1], l) + OutputOf(events[|events| - 1], l)
  }

  function ErrorsFor(events: seq<TimedEvent>, l: Label): seq<TimedError> {
    if events == [] then [] else ErrorsFor(events[..|events| - 1], l) + ErrorOf(events[|events| - 1], l)
  }

  function OutputsIn(slot: Option<Slot>): seq<Indexed> {
    if slot.Some? && slot.value.Some? then slot.value.value.outputs else []
  }

  function ErrorsIn(slot: Option<Slot>): seq<TimedError> {
    if slot.Some? && slot.value.Some? then slot.value.value.errors else []
  }

  lemma {:induction false} StepContents(s: State, e: TimedEvent, l: Label)
    requires !Panics(s, e.event) && Step(s, e).Some?
    ensures OutputsIn(Step(s, e).value.Lookup(l)) == OutputsIn(s.Lookup(l)) + OutputOf(e, l)
    ensures ErrorsIn(Step(s, e).value.Lookup(l)) == ErrorsIn(s.Lookup(l)) + ErrorOf(e, l)
  {
    hide Step;
    if e.event.Configured? && e.event.owner == l { StepOwn(s, e); } else { StepOther(s, e, l); }
  }

  lemma {:induction false} EmptyStart(l: Label)
    ensures OutputsIn(START.Lookup(l)) == [] && ErrorsIn(START.Lookup(l)) == []
  {
  }

  /** A built label holds its own outputs and errors, each once and in order, and nothing of other labels. */
  lemma {:induction false} ResultOfRun(events: seq<TimedEvent>, l: Label)
    requires Accepted(events)
    ensures OutputsIn(Run(events).value.Lookup(l)) == OutputsFor(events, l)
    ensures ErrorsIn(Run(events).value.Lookup(l)) == ErrorsFor(events, l)
  {
    hide Step, OutputsIn, ErrorsIn, OutputOf, ErrorOf;
    if events == [] {
      EmptyStart(l);
    } else {
      ResultOfRun(events[..|events| - 1], l);
      StepContents(Run(events[..|events| - 1]).value, events[|events| - 1], l);
    }
  }

  // ----- Snapshots -----

  /** `t` is an output of the given index, and no output of that index is earlier. */
  ghost predicate Best(outputs: seq<Indexed>, index: nat, t: TimedOutput) {
    && Indexed(index, t.output, t.elapsed) in outputs
    && forall x :: x in outputs && x.index == index ==> t.elapsed <= x.elapsed
  }

  ghost predicate Ascending(indices: seq<nat>) {
    forall i, j :: 0 <= i < j < |indices| ==> indices[i] < indices[j]
  }

  /** `r` holds one output per index seen, by increasing index, with the least elapsed time of that index. */
  ghost predicate DedupedAt(outputs: seq<Indexed>, indices: seq<nat>, r: seq<TimedOutput>) {
    && |r| == |indices| && Ascending(indices)
    && (forall x :: x in outputs ==> x.index in indices)
    && (forall k :: 0 <= k < |r| ==> Best(outputs, indices[k], r[k]))
  }

  ghost predicate Deduped(outputs: seq<Indexed>, r: seq<TimedOutput>) {
    exists indices :: DedupedAt(outputs, indices, r)
  }

  ghost predicate Permutation(a: seq<Indexed>, b: seq<Indexed>) {
    multiset(a) == multiset(b)
  }

  ghost predicate SortedByIndex(outputs: seq<Indexed>) {
    forall i, j :: 0 <= i && j == i + 1 && j < |outputs| ==> outputs[i].index <= outputs[j].index
  }

  /** An unstable sort: nothing is promised about the order within one index. */
  method SortUnstable(outputs: seq<Indexed>) returns (r: seq<Indexed>)
    ensures Permutation(r, outputs) && SortedByIndex(r)
  {
    var key := (x: Indexed) => x.index;
    SortByCorrect(outputs, key);
    r := SortBy(outputs, key);
  }

  /** The index of each chunk of equal indices, and the earliest output of the chunk. */
  function ChunkIndices(sorted: seq<Indexed>): seq<nat> {
    if sorted == [] then []
    else
      var n := |sorted| - 1;
      var before := ChunkIndices(sorted[..n]);
      if n > 0 && sorted[n].index == sorted[n - 1].index then before else before + [sorted[n].index]
  }

  function ChunkMinima(sorted: seq<Indexed>): (r: seq<TimedOutput>)
    ensures sorted != [] ==> r != []
  {
    if sorted == [] then []
    else
      var n := |sorted| - 1;
      var before, x := ChunkMinima(sorted[..n]), sorted[n];
      if n > 0 && x.index == sorted[n - 1].index then
        if x.elapsed < before[|before| - 1].elapsed then before[|before| - 1 := TimedOutput(x.output, x.elapsed)]
          else before
      else before + [TimedOutput(x.output, x.elapsed)]
  }

  lemma {:induction false} SortedPrefix(sorted: seq<Indexed>)
    requires SortedByIndex(sorted) && sorted != []
    ensures var n := |sorted| - 1;
            SortedByIndex(sorted[..n]) && (n > 0 ==> sorted[n - 1].index <= sorted[n].index)
  {
  }

  lemma {:induction false} ChunkSnoc(sorted: seq<Indexed>)
    requires sorted != []
    ensures var n := |sorted| - 1;
            var x, indices, minima := sorted[n], ChunkIndices(sorted[..n]), ChunkMinima(sorted[..n]);
            if n > 0 && x.index == sorted[n - 1].index then
              && minima != [] && ChunkIndices(sorted) == indices
              && ChunkMinima(sorted) == if x.elapsed < minima[|minima| - 1].elapsed
                                        then minima[|minima| - 1 := TimedOutput(x.output, x.elapsed)] else minima
            else
              && ChunkIndices(sorted) == indices + [x.index]
              && ChunkMinima(sorted) == minima + [TimedOutput(x.output, x.elapsed)]
  {
  }

  lemma {:induction false} NothingDeduped()
    ensures ChunkIndices([]) == [] && ChunkMinima([]) == [] && DedupedAt([], [], [])
  {
  }

  lemma {:induction false} BestElsewhere(outputs: seq<Indexed>, x: Indexed, index: nat, t: TimedOutput)
    requires Best(outputs, index, t) && (x.index == index ==> t.elapsed <= x.elapsed)
    ensures Best(outputs + [x], index, t)
  {
  }

  lemma {:induction false} BestNow(outputs: seq<Indexed>, x: Indexed)
    requires forall y :: y in outputs && y.index == x.index ==> x.elapsed <= y.elapsed
    ensures Best(outputs + [x], x.index, TimedOutput(x.output, x.elapsed))
  {
    assert (outputs + [x])[|outputs|] == x;
  }

  lemma {:induction false} DedupSame(outputs: seq<Indexed>, x: Indexed, indices: seq<nat>, r: seq<TimedOutput>)
    requires DedupedAt(outputs, indices, r) && r != [] && x.index == indices[|indices| - 1]
    ensures var kept := if x.elapsed < r[|r| - 1].elapsed then r[|r| - 1 := TimedOutput(x.output, x.elapsed)] else r;
            DedupedAt(outputs + [x], indices, kept)
  {
    var n := |r| - 1;
    var kept := if x.elapsed < r[n].elapsed then r[n := TimedOutput(x.output, x.elapsed)] else r;
    assert Best(outputs, indices[n], r[n]);
    if x.elapsed < r[n].elapsed { BestNow(outputs, x); } else { BestElsewhere(outputs, x, indices[n], r[n]); }
    hide Best;
    forall k | 0 <= k < |kept| ensures Best(outputs + [x], indices[k], kept[k]) {
      if k < n { BestElsewhere(outputs, x, indices[k], r[k]); }
    }
  }

  lemma {:induction false} DedupNext(outputs: seq<Indexed>, x: Indexed, indices: seq<nat>, r: seq<TimedOutput>)
    requires DedupedAt(outputs, indices, r) && (indices == [] || indices[|indices| - 1] < x.index)
    ensures DedupedAt(outputs + [x], indices + [x.index], r + [TimedOutput(x.output, x.elapsed)])
  {
    var ix, rs := indices + [x.index], r + [TimedOutput(x.output, x.elapsed)];
    assert ix[|indices|] == x.index;
    forall i | 0 <= i < |indices| ensures indices[i] != x.index { }
    BestNow(outputs, x);
    hide Best;
    forall k | 0 <= k < |rs| ensures Best(outputs + [x], ix[k], rs[k]) {
      if k < |r| { BestElsewhere(outputs, x, indices[k], r[k]); }
    }
  }

  lemma {:induction false} ChunksAreDeduped(sorted: seq<Indexed>)
    requires SortedByIndex(sorted)
    ensures var indices := ChunkIndices(sorted);
            && DedupedAt(sorted, indices, ChunkMinima(sorted)) && |indices| == |ChunkMinima(sorted)|
            && (sorted != [] ==> indices != [] && indices[|indices| - 1] == sorted[|sorted| - 1].index)
  {
    hide DedupedAt, SortedByIndex, ChunkIndices, ChunkMinima;
    if sorted == [] {
      NothingDeduped();
    } else {
      SortedPrefix(sorted);
      ChunkSnoc(sorted);
      var n := |sorted| - 1;
      var prefix, x := sorted[..n], sorted[n];
      ChunksAreDeduped(prefix);
      NothingDeduped();
      assert sorted == prefix + [x];
      if n > 0 && x.index == sorted[n - 1].index {
        DedupSame(prefix, x, ChunkIndices(prefix), ChunkMinima(prefix));
      } else {
        DedupNext(prefix, x, ChunkIndices(prefix), ChunkMinima(prefix));
      }
    }
  }

  lemma {:induction false} DedupedOfSame(a: seq<Indexed>, b: seq<Indexed>, indices: seq<nat>, r: seq<TimedOutput>)
    requires DedupedAt(a, indices, r) && Permutation(a, b)
    ensures DedupedAt(b, indices, r)
  {
    forall x ensures x in a <==> x in b {
      assert x in a <==> x in multiset(a);
    }
  }

  /** Sorts by index, splits into chunks of one index, and keeps the earliest output of each chunk. */
  method Dedup(outputs: seq<Indexed>) returns (r: seq<TimedOutput>)
    ensures Deduped(outputs, r)
  {
    var sorted := SortUnstable(outputs);
    ChunksAreDeduped(sorted);
    DedupedOfSame(sorted, outputs, ChunkIndices(sorted), ChunkMinima(sorted));
    r := ChunkMinima(sorted);
  }

  /** The indices of a snapshot are determined by the outputs it was made from. */
  lemma {:induction false} IndicesAreExact(outputs: seq<Indexed>, indices: seq<nat>, r: seq<TimedOutput>)
    requires DedupedAt(outputs, indices, r)
    ensures forall i :: i in indices <==> exists x :: x in outputs && x.index == i
  {
    forall i | i in indices ensures exists x :: x in outputs && x.index == i {
      var k :| 0 <= k < |indices| && indices[k] == i;
      assert Best(outputs, indices[k], r[k]);
      assert Indexed(indices[k], r[k].output, r[k].elapsed) in outputs;
    }
  }

  /** More outputs keep every index and never make the elapsed time of an index later. */
  lemma {:induction false} SnapshotsImprove(a: seq<Indexed>, ia: seq<nat>, ra: seq<TimedOutput>, b: seq<Indexed>,
                                            ib: seq<nat>, rb: seq<TimedOutput>, k: nat) returns (m: nat)
    requires DedupedAt(a, ia, ra) && DedupedAt(b, ib, rb) && a <= b && k < |ia|
    ensures m < |ib| && ib[m] == ia[k] && rb[m].elapsed <= ra[k].elapsed
  {
    assert Best(a, ia[k], ra[k]);
    var x := Indexed(ia[k], ra[k].output, ra[k].elapsed);
    assert x in b;
    m :| 0 <= m < |ib| && ib[m] == ia[k];
    assert Best(b, ib[m], rb[m]);
  }

  datatype Snapshot = Snapshot(configured: map<Label, Option<TargetResult<TimedOutput>>>,
    modifiers: map<Label, set<string>>,
                               otherErrors: map<Option<string>, seq<string>>, failed: bool)

  ghost predicate SlotReported(slot: Slot, r: Option<TargetResult<TimedOutput>>) {
    && (slot.Some? <==> r.Some?)
    && (slot.Some? ==>
          && Deduped(slot.value.outputs, r.value.outputs)
          && r.value.providers == slot.value.providers && r.value.rule == slot.value.rule
          && r.value.properties == slot.value.properties && r.value.errors == slot.value.errors)
  }

  /** What a report of the given state looks like, up to ties between equally early outputs of one index. */
  ghost predicate Reports(s: State, x: Snapshot) {
    && x.configured.Keys == s.res.Keys && (forall l :: l in s.res ==> SlotReported(s.res[l], x.configured[l]))
    && x.modifiers == (map l | l in s.modifiers :: SetOf(s.modifiers[l]))
    && x.otherErrors == s.otherErrors && x.failed == s.failed
  }

  ghost predicate SlotGrows(a: Slot, b: Slot) {
    && (a.Some? <==> b.Some?)
    && (a.Some? ==> a.value.outputs <= b.value.outputs && a.value.errors <= b.value.errors)
  }

  /** The later state has at least the labels, outputs, errors and failures of the earlier one, shapes unchanged. */
  ghost predicate Grows(a: State, b: State) {
    && (a.failed ==> b.failed)
    && (forall l :: l in a.res ==> l in b.res && SlotGrows(a.res[l], b.res[l]))
  }

  lemma {:induction false} GrowsTrans(a: State, b: State, c: State)
    requires Grows(a, b) && Grows(b, c)
    ensures Grows(a, c)
  {
  }

  lemma {:induction false} StepGrows(s: State, e: TimedEvent)
    requires !Panics(s, e.event) && Step(s, e).Some?
    ensures Grows(s, Step(s, e).value)
  {
    StepFails(s, e);
    forall l | l in s.res ensures l in Step(s, e).value.res && SlotGrows(s.res[l], Step(s, e).value.res[l]) {
      hide Step;
      if e.event.Configured? && e.event.owner == l { StepOwn(s, e); } else { StepOther(s, e, l); }
    }
  }

  /** Some report of the index is no later than `elapsed`. */
  ghost predicate KnownBy(y: seq<TimedOutput>, iy: seq<nat>, index: nat, elapsed: nat)
    requires |iy| == |y|
  {
    exists m :: 0 <= m < |y| && iy[m] == index && y[m].elapsed <= elapsed
  }

  /** The later report `y` knows every index of the earlier report `x`, with an elapsed time that is no later. */
  ghost predicate Improves(a: seq<Indexed>, x: seq<TimedOutput>, b: seq<Indexed>, y: seq<TimedOutput>) {
    exists ix, iy :: DedupedAt(a, ix, x) && DedupedAt(b, iy, y)
                     && forall k :: 0 <= k < |x| ==> KnownBy(y, iy, ix[k], x[k].elapsed)
  }

  lemma {:induction false} MoreOutputsImprove(a: seq<Indexed>, x: seq<TimedOutput>, b: seq<Indexed>,
                                              y: seq<TimedOutput>)
    requires Deduped(a, x) && Deduped(b, y) && a <= b
    ensures Improves(a, x, b, y)
  {
    var ix :| DedupedAt(a, ix, x);
    var iy :| DedupedAt(b, iy, y);
    forall k | 0 <= k < |x| ensures KnownBy(y, iy, ix[k], x[k].elapsed) {
      var m := SnapshotsImprove(a, ix, x, b, iy, y, k);
      assert iy[m] == ix[k] && y[m].elapsed <= x[k].elapsed;
    }
  }

  /** Between two reports of a run nothing reported is taken back and no elapsed time gets later. */
  lemma {:induction false} ReportsImprove(a: State, x: Snapshot, b: State, y: Snapshot, l: Label)
    requires Reports(a, x) && Reports(b, y) && Grows(a, b) && l in x.configured
    ensures l in y.configured && (x.configured[l].Some? <==> y.configured[l].Some?) && (x.failed ==> y.failed)
    ensures x.configured[l].Some? ==>
              && x.configured[l].value.errors <= y.configured[l].value.errors
              && Improves(a.res[l].value.outputs, x.configured[l].value.outputs,
                          b.res[l].value.outputs, y.configured[l].value.outputs)
  {
    hide Deduped, Improves;
    assert SlotReported(a.res[l], x.configured[l]) && SlotReported(b.res[l], y.configured[l]);
    assert SlotGrows(a.res[l], b.res[l]);
    if x.configured[l].Some? {
      MoreOutputsImprove(a.res[l].value.outputs, x.configured[l].value.outputs,
                         b.res[l].value.outputs, y.configured[l].value.outputs);
    }
  }

  lemma {:induction false} GrowsRefl(s: State)
    ensures Grows(s, s)
  {
  }

  /** A run only grows, from any of its prefixes on. */
  lemma {:induction false} RunGrows(events: seq<TimedEvent>, k: nat)
    requires Accepted(events) && k <= |events|
    ensures Accepted(events[..k]) && Grows(Run(events[..k]).value, Run(events).value)
    decreases |events| - k
  {
    hide Grows, Step;
    if k == |events| {
      assert events[..k] == events;
      GrowsRefl(Run(events).value);
    } else {
      var n := |events| - 1;
      assert events[..n][..k] == events[..k];
      RunGrows(events[..n], k);
      StepGrows(Run(events[..n]).value, events[n]);
      GrowsTrans(Run(events[..k]).value, Run(events[..n]).value, Run(events).value);
    }
  }

  /** Reports of any two prefixes of a run: nothing is taken back and no elapsed time gets later. */
  lemma {:induction false} ReportsOfRunImprove(events: seq<TimedEvent>, j: nat, k: nat, x: Snapshot, y: Snapshot,
                                               l: Label)
    requires Accepted(events) && j <= k <= |events| && Accepted(events[..j]) && Accepted(events[..k])
    requires Reports(Run(events[..j]).value, x) && Reports(Run(events[..k]).value, y) && l in x.configured
    ensures l in y.configured && (x.configured[l].Some? <==> y.configured[l].Some?) && (x.failed ==> y.failed)
    ensures x.configured[l].Some? ==>
              && x.configured[l].value.errors <= y.configured[l].value.errors
              && l in Run(events[..j]).value.res && l in Run(events[..k]).value.res
              && Run(events[..j]).value.res[l].Some? && Run(events[..k]).value.res[l].Some?
              && Improves(Run(events[..j]).value.res[l].value.outputs, x.configured[l].value.outputs,
                          Run(events[..k]).value.res[l].value.outputs, y.configured[l].value.outputs)
  {
    assert events[..k][..j] == events[..j];
    RunGrows(events[..k], j);
    ReportsImprove(Run(events[..j]).value, x, Run(events[..k]).value, y, l);
    hide Run, Improves, Grows;
  }

  // ----- Streamed reports -----

  /** The state with an output added and the failure it may mean not yet marked. */
  function WithOutput(s: State, l: Label, v: Variant, at: nat): State
    requires s.Built(l)
  {
    s.(res := s.res[l := Some(Update(s.res[l].value, v, at))])
  }

  lemma {:induction false} ResultNeeded(s: State, e: TimedEvent)
    requires e.event.Configured? && NeedsResult(e.event.variant)
    ensures Step(s, e).Some? <==> s.Built(e.event.owner)
  {
  }

  /** Adding to a result, then marking the failure, is the whole step; each half only adds. */
  lemma {:induction false} ResultStep(s: State, l: Label, v: Variant, at: nat)
    requires s.Built(l) && NeedsResult(v)
    ensures var e, added := TimedEvent(Configured(l, v), at), WithOutput(s, l, v, at);
            && Step(s, e) == Some(added.(failed := s.failed || Fails(e.event)))
            && Grows(s, added) && Grows(added, added.(failed := s.failed || Fails(e.event)))
  {
  }

  /** The state that is reported when an event is handled, if one is: an output reports itself. */
  function ReportedAt(s: State, e: TimedEvent): (r: seq<State>)
    ensures |r| <= 1
  {
    if e.event.Configured? && e.event.variant.BuildOutput? && s.Built(e.event.owner)
    then [WithOutput(s, e.event.owner, e.event.variant, e.at)] else []
  }

  /** The states reported in a run, in order. */
  function ReportedIn(events: seq<TimedEvent>): seq<State> {
    if events == [] then []
    else
      var n := |events| - 1;
      ReportedIn(events[..n]) + if Accepted(events[..n]) then ReportedAt(Run(events[..n]).value, events[n]) else []
  }

  /** What is reported lies between the state before the event and the state after it. */
  lemma {:induction false} ReportedBetween(s: State, e: TimedEvent)
    requires !Panics(s, e.event) && Step(s, e).Some? && ReportedAt(s, e) != []
    ensures Grows(s, ReportedAt(s, e)[0]) && Grows(ReportedAt(s, e)[0], Step(s, e).value)
    ensures ReportedAt(s, e)[0].failed == s.failed
  {
    ResultStep(s, e.event.owner, e.event.variant, e.at);
  }

  ghost predicate Chain(states: seq<State>, last: State) {
    && (forall i :: 0 <= i < |states| ==> Grows(states[i], last))
    && (forall i, j :: 0 <= i < j < |states| ==> Grows(states[i], states[j]))
  }

  lemma {:induction false} ChainAdvances(states: seq<State>, now: State, next: State)
    requires Chain(states, now) && Grows(now, next)
    ensures Chain(states, next) && Chain(states + [next], next)
  {
    hide Grows;
    GrowsRefl(next);
    forall i | 0 <= i < |states| ensures Grows(states[i], next) {
      GrowsTrans(states[i], now, next);
    }
  }

  lemma {:induction false} EmptyChain(s: State)
    ensures Chain([], s)
  {
  }

  /** The states reported in a run only grow, each into the next and all into the last state of the run. */
  lemma {:induction false} ReportedStatesGrow(events: seq<TimedEvent>)
    requires Accepted(events)
    ensures Chain(ReportedIn(events), Run(events).value)
  {
    hide Grows, Chain, Step, ReportedAt;
    if events == [] {
      EmptyChain(Run(events).value);
    } else {
      var n := |events| - 1;
      var before, e := Run(events[..n]).value, events[n];
      ReportedStatesGrow(events[..n]);
      var reported := ReportedAt(before, e);
      if reported == [] {
        StepGrows(before, e);
        ChainAdvances(ReportedIn(events[..n]), before, Run(events).value);
        assert ReportedIn(events[..n]) + [] == ReportedIn(events[..n]);
      } else {
        ReportedBetween(before, e);
        assert reported == [reported[0]];
        ChainAdvances(ReportedIn(events[..n]), before, reported[0]);
        ChainAdvances(ReportedIn(events), reported[0], Run(events).value);
      }
    }
  }

  /** One streamed report for each reported state, and of that state, if anyone listens. */
  ghost predicate Streams(streaming: bool, streamed: seq<Snapshot>, states: seq<State>) {
    if streaming then |streamed| == |states| && forall i :: 0 <= i < |states| ==> Reports(states[i], streamed[i])
    else streamed == []
  }

  /** From one report to a later one: nothing is taken back and no elapsed time of an output gets later. */
  ghost predicate Improved(a: State, x: Snapshot, b: State, y: Snapshot, l: Label) {
    && l in x.configured && l in y.configured && (x.configured[l].Some? <==> y.configured[l].Some?)
      && (x.failed ==> y.failed)
    && (x.configured[l].Some? ==>
          && x.configured[l].value.errors <= y.configured[l].value.errors
          && l in a.res && a.res[l].Some? && l in b.res && b.res[l].Some?
          && Improves(a.res[l].value.outputs, x.configured[l].value.outputs,
                      b.res[l].value.outputs, y.configured[l].value.outputs))
  }

  /** Any two streamed reports of a run, and any of them and the report of its last state. */
  lemma {:induction false} StreamedReportsImprove(events: seq<TimedEvent>, streamed: seq<Snapshot>, last: Snapshot,
                                                  i: nat, j: nat, l: Label)
    requires Accepted(events) && Streams(true, streamed, ReportedIn(events)) && Reports(Run(events).value, last)
    requires i < j < |streamed| && l in streamed[i].configured
    ensures Improved(ReportedIn(events)[i], streamed[i], ReportedIn(events)[j], streamed[j], l)
    ensures Improved(ReportedIn(events)[i], streamed[i], Run(events).value, last, l)
  {
    ReportedStatesGrow(events);
    ReportsImprove(ReportedIn(events)[i], streamed[i], ReportedIn(events)[j], streamed[j], l);
    ReportsImprove(ReportedIn(events)[i], streamed[i], Run(events).value, last, l);
    hide Run, ReportedIn, Improves, Grows;
  }

  lemma {:induction false} StreamsSnoc(streaming: bool, streamed: seq<Snapshot>, states: seq<State>, state: State,
                                       report: Snapshot)
    requires Streams(streaming, streamed, states) && (streaming ==> Reports(state, report))
    ensures Streams(streaming, if streaming then streamed + [report] else streamed, states + [state])
  {
    hide Reports;
  }

  // ----- The builder -----

  lemma {:induction false} HandledSnoc(events: seq<TimedEvent>, e: TimedEvent, now: State)
    requires Run(events) == Some(now) && !Panics(now, e.event)
    ensures Run(events + [e]) == Step(now, e) && ReportedIn(events + [e]) == ReportedIn(events) + ReportedAt(now, e)
    ensures !(e.event.Configured? && NeedsResult(e.event.variant)) ==>
              ReportedIn(events + [e]) == ReportedIn(events) && Step(now, e).Some?
    ensures Step(now, e).None? ==> ReportedAt(now, e) == []
    ensures ReportedIn(events) + [] == ReportedIn(events)
  {
    assert (events + [e])[..|events|] == events;
    hide Update, Append, Run, ReportedIn;
    assert Run(events + [e]) == Step(now, e);
  }

  method ReportSlot(slot: Slot) returns (r: Option<TargetResult<TimedOutput>>)
    ensures SlotReported(slot, r)
  {
    match slot {
      case None => r := None;
      case Some(result) =>
        var outputs := Dedup(result.outputs);
        r := Some(TargetResult(outputs, result.providers, result.rule, result.properties, result.errors));
    }
  }

  class BuildTargetResultBuilder {
    var res: map<Label, Slot>
    var modifiers: map<Label, seq<string>>
    var otherErrors: map<Option<string>, seq<string>>
    var failed: bool
    var incompatible: set<string>
    const streaming: bool
    var streamed: seq<Snapshot>
    /** The events handled so far. */
    ghost var handled: seq<TimedEvent>

    constructor (streaming: bool)
      ensures this.streaming == streaming && Valid() && handled == []
    {
      this.streaming := streaming;
      res, modifiers, otherErrors, failed, incompatible, streamed, handled := map[], map[], map[], false, {}, [], [];
    }

    ghost function Now(): State
      reads `res, `modifiers, `otherErrors, `failed, `incompatible
    {
      State(res, modifiers, otherErrors, failed, incompatible)
    }

    /** The fold of the events handled, and the reports of exactly the states it passes through at each output. */
    ghost predicate Valid()
      reads this
    {
      Run(handled) == Some(Now()) && Streams(streaming, streamed, ReportedIn(handled))
    }

    /** `build`. */
    method Build() returns (r: Snapshot)
      ensures Reports(Now(), r)
    {
      var configured: map<Label, Option<TargetResult<TimedOutput>>> := map[];
      var left := res.Keys;
      while left != {}
        invariant left <= res.Keys && configured.Keys == res.Keys - left
        invariant forall l :: l in configured ==> SlotReported(res[l], configured[l])
        decreases |left|
      {
        var l :| l in left;
        var report := ReportSlot(res[l]);
        configured := configured[l := report];
        left := left - {l};
      }
      r := Snapshot(configured, map l | l in modifiers :: SetOf(modifiers[l]), otherErrors, failed);
    }

    /** Sends the current report, if anyone listens. */
    method Stream(ghost states: seq<State>)
      requires Streams(streaming, streamed, states)
      modifies this`streamed
      ensures Streams(streaming, streamed, states + [Now()])
    {
      if streaming {
        var report := Build();
        StreamsSnoc(streaming, streamed, states, Now(), report);
        hide Streams;
        streamed := streamed + [report];
      } else {
        assert streamed == [];
      }
    }

    /** The events that need a result to add to; an output is streamed before a failure is marked. */
    method HandleResult(l: Label, v: Variant, at: nat, ghost states: seq<State>) returns (r: Option<FailFastState>)
      requires NeedsResult(v) && Streams(streaming, streamed, states)
      modifies `res, `failed, `streamed
      ensures Streams(streaming, streamed, states + ReportedAt(old(Now()), TimedEvent(Configured(l, v), at)))
      ensures if r.Some? then Step(old(Now()), TimedEvent(Configured(l, v), at)) == Some(Now())
              else !old(Now()).Built(l) && Now() == old(Now())
      ensures r.Some? ==> r.value == if Breaks(Configured(l, v)) then Breakpoint else Continue
    {
      assert states + [] == states;
      if l !in res || res[l].None? {
        return None;
      }
      ResultStep(Now(), l, v, at);
      hide Streams, Step, Update, Fails, Breaks, Grows;
      res := res[l := Some(Update(res[l].value, v, at))];
      if v.BuildOutput? {
        Stream(states);
      }
      var event := Configured(l, v);
      failed := failed || Fails(event);
      r := Some(if Breaks(event) then Breakpoint else Continue);
    }

    /** The events that are accepted for every label. */
    method HandleLabel(l: Label, v: Variant, at: nat)
      requires !NeedsResult(v) && !Panics(Now(), Configured(l, v))
      modifies this`res, this`modifiers, this`failed, this`incompatible
      ensures Step(old(Now()), TimedEvent(Configured(l, v), at)) == Some(Now())
    {
      hide Update;
      assert l in res ==> res[l := res[l]] == res;
      match v {
        case SkippedIncompatible =>
          incompatible := incompatible + {l.target};
          if l !in res {
            res := res[l := None];
          }
        case MapModifiers(m) =>
          modifiers := Append(modifiers, l, m);
        case Prepared(providers, rule) =>
          if l !in res {
            res := res[l := Some(TargetResult([], providers, Some(rule), None, []))];
          }
        case TargetError(_) =>
          failed := true;
          var result := if l in res then res[l].value else NO_RESULT;
          res := res[l := Some(Update(result, v, at))];
      }
    }

    /** `event`. */
    method Handle(e: TimedEvent) returns (r: Option<FailFastState>)
      requires Valid() && !Panics(Now(), e.event)
      modifies this
      ensures Valid()
      ensures match Step(old(Now()), e)
              case None => r == None && handled == old(handled)
              case Some(next) =>
                r == Some(if Breaks(e.event) then Breakpoint else Continue) && handled == old(handled) + [e]
    {
      HandledSnoc(handled, e, Now());
      if e.event.Configured? && NeedsResult(e.event.variant) {
        ResultNeeded(Now(), e);
        hide Step, Streams, Breaks, Run, ReportedIn;
        r := HandleResult(e.event.owner, e.event.variant, e.at, ReportedIn(handled));
        if r.None? {
          return;
        }
      } else {
        hide Streams, Run, ReportedIn;
        if e.event.OtherError? {
          otherErrors, failed := Append(otherErrors, e.event.target, e.event.error), true;
        } else {
          HandleLabel(e.event.owner, e.event.variant, e.at);
        }
        r := Some(if Breaks(e.event) then Breakpoint else Continue);
      }
      handled := handled + [e];
    }
  }
}
