/**
 The select loop of `AsyncBuildTargetResultBuilder::wait_for` in app/bz_build_api/src/build.rs, for every interleaving
 of events being sent, events being received, and the future completing.
 */
module Interleaving {
  import opened Collections
  import opened BuildResult

  /** Until the future completes: an event is sent, or the loop polls the channel (which may be empty or closed). */
  datatype Poll = Send(event: TimedEvent) | Receive

  datatype WaitResult = Report(report: Snapshot) | FutureError | InternalError

  /** The events sent, in order. */
  function SentIn(polls: seq<Poll>): (r: seq<TimedEvent>) {
    if polls == [] then []
    else
      var last := polls[|polls| - 1];
      SentIn(polls[..|polls| - 1]) + if last.Send? then [last.event] else []
  }

  /** How many of them the select loop receives if it never breaks. */
  function Received(polls: seq<Poll>): (r: nat)
    ensures r <= |SentIn(polls)|
  {
    if polls == [] then 0
    else
      var before := polls[..|polls| - 1];
      Received(before) + if polls[|polls| - 1].Receive? && Received(before) < |SentIn(before)| then 1 else 0
  }

  /** The position of the first breakpoint event, or the number of events. */
  function FirstBreak(events: seq<TimedEvent>): (r: nat)
    ensures r <= |events| && (r < |events| ==> Breaks(events[r].event))
    ensures forall i :: 0 <= i < r ==> !Breaks(events[i].event)
  {
    if events == [] || Breaks(events[0].event) then 0 else 1 + FirstBreak(events[1..])
  }

  lemma {:induction false} FirstBreakUnique(events: seq<TimedEvent>, k: nat)
    requires k <= |events| && (k < |events| ==> Breaks(events[k].event))
    requires forall i :: 0 <= i < k ==> !Breaks(events[i].event)
    ensures FirstBreak(events) == k
  {
  }

  /** With fail-fast, the loop ends at a breakpoint event received before the future completes. */
  ghost predicate EndsEarly(failFast: bool, polls: seq<Poll>) {
    failFast && FirstBreak(SentIn(polls)[..Received(polls)]) < Received(polls)
  }

  /** The events that make up the result: up to the breakpoint, or everything that was sent. */
  ghost function Handled(failFast: bool, polls: seq<Poll>): (r: seq<TimedEvent>)
    ensures r <= SentIn(polls)
  {
    if EndsEarly(failFast, polls) then SentIn(polls)[..FirstBreak(SentIn(polls)[..Received(polls)]) + 1]
      else SentIn(polls)
  }

  ghost predicate NeverPanics(events: seq<TimedEvent>) {
    forall i :: 0 <= i < |events| && Accepted(events[..i]) ==> !Panics(Run(events[..i]).value, events[i].event)
  }

  lemma {:induction false} PollSnoc(polls: seq<Poll>, i: nat)
    requires i < |polls|
    ensures SentIn(polls[..i + 1]) == SentIn(polls[..i]) + if polls[i].Send? then [polls[i].event] else []
    ensures Received(polls[..i + 1]) ==
            Received(polls[..i]) + if polls[i].Receive? && Received(polls[..i]) < |SentIn(polls[..i])| then 1 else 0
  {
    assert polls[..i + 1][..i] == polls[..i];
  }

  lemma {:induction false} PollsGrow(polls: seq<Poll>, i: nat)
    requires i <= |polls|
    ensures SentIn(polls[..i]) <= SentIn(polls) && Received(polls[..i]) <= Received(polls)
    decreases |polls| - i
  {
    if i == |polls| {
      assert polls[..i] == polls;
    } else {
      PollSnoc(polls, i);
      PollsGrow(polls, i + 1);
    }
  }

  lemma {:induction false} RunSnoc(events: seq<TimedEvent>, k: nat)
    requires k < |events|
    ensures Run(events[..k + 1]) ==
            var s := Run(events[..k]);
            if s.None? || Panics(s.value, events[k].event) then None else Step(s.value, events[k])
  {
    assert events[..k + 1][..k] == events[..k];
  }

  /** Once an event was refused the run stays refused. */
  lemma {:induction false} RefusedStays(events: seq<TimedEvent>, k: nat)
    requires k <= |events| && !Accepted(events[..k])
    ensures !Accepted(events)
    decreases |events| - k
  {
    if k == |events| {
      assert events[..k] == events;
    } else {
      RunSnoc(events, k);
      RefusedStays(events, k + 1);
    }
  }

  /** Where the loop stands after `i` polls, when it has not ended yet. */
  ghost predicate Standing(failFast: bool, polls: seq<Poll>, i: nat, queue: seq<TimedEvent>, handled: seq<TimedEvent>)
    requires i <= |polls|
  {
    var sent, k := SentIn(polls[..i]), Received(polls[..i]);
    && queue == sent[k..] && handled == sent[..k] && Accepted(handled)
    && (failFast ==> forall j :: 0 <= j < k ==> !Breaks(sent[j].event))
  }

  ghost predicate NoBreakBefore(events: seq<TimedEvent>, k: nat)
    requires k <= |events|
  {
    forall j :: 0 <= j < k ==> !Breaks(events[j].event)
  }

  /** The next event to be received is the next one that was sent. */
  lemma {:induction false} NextInLine(failFast: bool, polls: seq<Poll>, i: nat, queue: seq<TimedEvent>,
                                      handled: seq<TimedEvent>)
    requires i < |polls| && Standing(failFast, polls, i, queue, handled) && polls[i].Receive? && queue != []
    ensures var all, k := SentIn(polls), Received(polls[..i]);
            && k < Received(polls) && all[k] == queue[0] && all[..k] == handled
            && Received(polls[..i + 1]) == k + 1 && SentIn(polls[..i + 1])[..k + 1] == all[..k + 1]
            && SentIn(polls[..i + 1])[k + 1..] == queue[1..]
            && (failFast ==> NoBreakBefore(all, k))
  {
    PollSnoc(polls, i);
    PollsGrow(polls, i);
    PollsGrow(polls, i + 1);
    hide SentIn, Received, Run;
    var all, sent, k := SentIn(polls), SentIn(polls[..i]), Received(polls[..i]);
    assert all[..k] == sent[..k];
  }

  /** Nothing before the first breakpoint is left out of the result. */
  lemma {:induction false} HandledReaches(failFast: bool, polls: seq<Poll>, k: nat)
    requires k < Received(polls) && (failFast ==> NoBreakBefore(SentIn(polls), k))
    ensures var all := SentIn(polls);
            && all[..k + 1] <= Handled(failFast, polls)
            && (failFast && Breaks(all[k].event) ==>
              EndsEarly(failFast, polls) && Handled(failFast, polls) == all[..k + 1])
  {
    hide SentIn, Received, Breaks;
    var all := SentIn(polls);
    var received := all[..Received(polls)];
    if failFast && Breaks(all[k].event) {
      FirstBreakUnique(received, k);
    } else if failFast {
      assert forall j :: 0 <= j < k ==> received[j] == all[j];
    }
  }

  lemma {:induction false} StandsNext(failFast: bool, polls: seq<Poll>, i: nat, queue: seq<TimedEvent>,
                                      handled: seq<TimedEvent>, k: nat)
    requires i < |polls| && queue != [] && Received(polls[..i + 1]) == k + 1 && Accepted(handled + [queue[0]])
    requires SentIn(polls[..i + 1])[..k + 1] == handled + [queue[0]] && SentIn(polls[..i + 1])[k + 1..] == queue[1..]
    requires failFast ==> NoBreakBefore(SentIn(polls[..i + 1]), k + 1)
    ensures Standing(failFast, polls, i + 1, queue[1..], handled + [queue[0]])
  {
    hide SentIn, Received, Run, Breaks;
  }

  lemma {:induction false} RefusedPrefix(events: seq<TimedEvent>, more: seq<TimedEvent>)
    requires events <= more && !Accepted(events)
    ensures !Accepted(more)
  {
    assert more[..|events|] == events;
    hide Run;
    RefusedStays(more, |events|);
  }

  lemma {:induction false} BreakSnoc(failFast: bool, polls: seq<Poll>, i: nat, k: nat)
    requires i < |polls| && k < |SentIn(polls)| && k < |SentIn(polls[..i + 1])|
    requires SentIn(polls[..i + 1])[..k + 1] == SentIn(polls)[..k + 1]
    requires failFast ==> NoBreakBefore(SentIn(polls), k) && !Breaks(SentIn(polls)[k].event)
    ensures failFast ==> NoBreakBefore(SentIn(polls[..i + 1]), k + 1)
  {
    hide SentIn, Breaks;
    var all, sent := SentIn(polls), SentIn(polls[..i + 1]);
    assert forall j :: 0 <= j <= k ==> sent[j] == sent[..k + 1][j] == all[..k + 1][j] == all[j];
  }

  lemma {:induction false} DrainNext(events: seq<TimedEvent>, k: nat)
    requires NeverPanics(events) && k < |events| && Accepted(events[..k])
    ensures !Panics(Run(events[..k]).value, events[k].event)
    ensures Run(events[..k + 1]) == Step(Run(events[..k]).value, events[k])
            && events[..k + 1] == events[..k] + [events[k]]
  {
    RunSnoc(events, k);
  }

  /** Receiving the next event: what it is, and where the loop stands afterwards. */
  lemma {:induction false} ReceiveNext(failFast: bool, polls: seq<Poll>, i: nat, queue: seq<TimedEvent>,
                                       handled: seq<TimedEvent>)
    requires i < |polls| && Standing(failFast, polls, i, queue, handled) && polls[i].Receive? && queue != []
    requires NeverPanics(SentIn(polls))
    ensures Accepted(handled) && !Panics(Run(handled).value, queue[0].event)
    ensures if Step(Run(handled).value, queue[0]).None? then !Accepted(Handled(failFast, polls))
            else if failFast && Breaks(queue[0].event)
            then EndsEarly(failFast, polls) && Handled(failFast, polls) == handled + [queue[0]]
              && Accepted(handled + [queue[0]])
            else Standing(failFast, polls, i + 1, queue[1..], handled + [queue[0]])
  {
    hide Handled, EndsEarly, NeverPanics, SentIn, Received, Run, Step, Breaks, Panics, NoBreakBefore;
    var all, k := SentIn(polls), Received(polls[..i]);
    NextInLine(failFast, polls, i, queue, handled);
    HandledReaches(failFast, polls, k);
    DrainNext(all, k);
    if Step(Run(handled).value, queue[0]).None? {
      RefusedPrefix(all[..k + 1], Handled(failFast, polls));
    } else if !(failFast && Breaks(queue[0].event)) {
      BreakSnoc(failFast, polls, i, k);
      StandsNext(failFast, polls, i, queue, handled, k);
    }
  }

  lemma {:induction false} SendNext(failFast: bool, polls: seq<Poll>, i: nat, queue: seq<TimedEvent>,
                                    handled: seq<TimedEvent>)
    requires i < |polls| && Standing(failFast, polls, i, queue, handled) && polls[i].Send?
    ensures Standing(failFast, polls, i + 1, queue + [polls[i].event], handled)
  {
    PollSnoc(polls, i);
    hide SentIn, Received, Run, Breaks;
    var sent, k := SentIn(polls[..i]), Received(polls[..i]);
    assert (sent + [polls[i].event])[..k] == sent[..k];
  }

  lemma {:induction false} ReceiveNothing(failFast: bool, polls: seq<Poll>, i: nat, handled: seq<TimedEvent>)
    requires i < |polls| && Standing(failFast, polls, i, [], handled) && polls[i].Receive?
    ensures Standing(failFast, polls, i + 1, [], handled)
  {
    PollSnoc(polls, i);
    hide SentIn, Received, Run, Breaks;
    assert SentIn(polls[..i]) + [] == SentIn(polls[..i]);
  }

  /** If no breakpoint was received, everything sent is handled. */
  lemma {:induction false} NotEarly(failFast: bool, polls: seq<Poll>, queue: seq<TimedEvent>, handled: seq<TimedEvent>)
    requires Standing(failFast, polls, |polls|, queue, handled)
    ensures var all, k := SentIn(polls), Received(polls);
            !EndsEarly(failFast, polls) && Handled(failFast, polls) == all && queue == all[k..] && handled == all[..k]
  {
    assert polls[..|polls|] == polls;
  }

  /** Handles the rest of the events, up to the first that is refused. */
  method DrainQueue(builder: BuildTargetResultBuilder, queue: seq<TimedEvent>, ghost all: seq<TimedEvent>, ghost k: nat)
    returns (ok: bool)
    requires builder.Valid() && NeverPanics(all) && k <= |all| && queue == all[k..] && builder.handled == all[..k]
    modifies builder
    ensures builder.Valid() && (ok <==> Accepted(all)) && (ok ==> builder.handled == all)
  {
    hide NeverPanics, Run, Step, Breaks, Panics, Reports, Streams, ReportedIn;
    for i := 0 to |queue|
      invariant builder.Valid() && builder.handled == all[..k + i]
    {
      DrainNext(all, k + i);
      var state := builder.Handle(queue[i]);
      if state.None? {
        RefusedStays(all, k + i + 1);
        return false;
      }
    }
    assert all[..k + |queue|] == all;
    ok := true;
  }

  /** The future is done: handle what is still queued. */
  method Drain(builder: BuildTargetResultBuilder, failFast: bool, polls: seq<Poll>, queue: seq<TimedEvent>,
               futureOk: bool)
    returns (r: WaitResult)
    requires builder.Valid() && NeverPanics(SentIn(polls)) && Standing(failFast, polls, |polls|, queue, builder.handled)
    modifies builder
    ensures builder.Valid()
    ensures r.InternalError? <==> !Accepted(Handled(failFast, polls))
    ensures r.FutureError? <==> Accepted(Handled(failFast, polls)) && !futureOk && !EndsEarly(failFast, polls)
    ensures r.Report? ==> builder.handled == Handled(failFast, polls) && Reports(builder.Now(), r.report)
  {
    hide *;
    NotEarly(failFast, polls, queue, builder.handled);
    ghost var all, k := SentIn(polls), Received(polls);
    var ok := DrainQueue(builder, queue, all, k);
    if !ok {
      return InternalError;
    }
    if !futureOk {
      return FutureError;
    }
    var report := builder.Build();
    r := Report(report);
  }

  /** `wait_for`: the result is the fold of exactly the handled events, an internal error, or the future's error. */
  method WaitFor(builder: BuildTargetResultBuilder, failFast: bool, polls: seq<Poll>, futureOk: bool)
    returns (r: WaitResult)
    requires builder.Valid() && builder.handled == [] && NeverPanics(SentIn(polls))
    modifies builder
    ensures builder.Valid()
    ensures r.InternalError? <==> !Accepted(Handled(failFast, polls))
    ensures r.FutureError? <==> Accepted(Handled(failFast, polls)) && !futureOk && !EndsEarly(failFast, polls)
    ensures r.Report? ==> builder.handled == Handled(failFast, polls) && Reports(builder.Now(), r.report)
  {
    assert polls[..0] == [] && polls[..|polls|] == polls;
    assert Standing(failFast, polls, 0, [], []);
    var queue: seq<TimedEvent> := [];
    for i := 0 to |polls|
      invariant builder.Valid() && Standing(failFast, polls, i, queue, builder.handled)
    {
      hide Standing, Handled, EndsEarly, NeverPanics, Run, Step, Breaks, Panics, Reports, Streams, ReportedIn;
      if polls[i].Send? {
        SendNext(failFast, polls, i, queue, builder.handled);
        queue := queue + [polls[i].event];
      } else if queue == [] {
        ReceiveNothing(failFast, polls, i, builder.handled);
      } else {
        ReceiveNext(failFast, polls, i, queue, builder.handled);
        var state := builder.Handle(queue[0]);
        queue := queue[1..];
        if state.None? {
          return InternalError;
        }
        if state.value.Breakpoint? && failFast {
          var report := builder.Build();
          return Report(report);
        }
      }
    }
    hide Handled, EndsEarly, NeverPanics, Run, Step, Breaks, Panics, Reports, Streams, ReportedIn;
    r := Drain(builder, failFast, polls, queue, futureOk);
  }
}
