/**
 The critical path timeline: `TimeSpan` (app/bz_util/src/time_span.rs), `WaitingData` and the early command timing
 (app/bz_build_signals/src/env.rs), `CriticalPathProtoEnhancer` (app/bz_build_signals_impl/src/enhancement.rs) and
 `into_critical_path_proto` (app/bz_build_signals_impl/src/lib.rs). Instants are nanoseconds since some fixed start.
 */
module Timeline {
  import opened Collections

  type Instant = nat

  function Max(a: nat, b: nat): nat { if a < b then b else a }
  function Min(a: nat, b: nat): nat { if a < b then a else b }

  /** Spans are built so that they never end before they start. */
  datatype TimeSpanRaw = TimeSpan(start: Instant, end: Instant) {
    /** How long `other` and this overlap, where they do. */
    function Intersection(other: TimeSpanRaw): Option<TimeSpanRaw> {
      var s, e := Max(start, other.start), Min(end, other.end);
      if s <= e then Some(TimeSpan(s, e)) else None
    }
  }
  type TimeSpan = t: TimeSpanRaw | t.start <= t.end witness TimeSpanRaw.TimeSpan(0, 0)

  function Saturating(start: Instant, end: Instant): TimeSpan { TimeSpanRaw.TimeSpan(start, Max(start, end)) }
  function Duration(t: TimeSpan): nat { t.end - t.start }

  datatype WaitingCategory =
    | Ready | PreparingAction | CheckingCaches | MaterializingInputs | ClaimingOutputs | PreparingExecution
    | LocalQueued | LocalExecuting | RemoteUploading | RemoteExecuting | RemoteDownloading | DynamicExecuting
    | MaterializerPrepare | MaterializerStage2

  /** The start of each waiting phase; absent until the first one is recorded. */
  type WaitingData = Option<seq<(Instant, WaitingCategory)>>

  // ----- Waiting spans -----

  /** The phases that were recorded, if any. */
  function Phases(data: WaitingData): seq<(Instant, WaitingCategory)> {
    if data.Some? then data.value else []
  }

  function PhaseEnd(phases: seq<(Instant, WaitingCategory)>, i: nat, end: Instant): Instant
    requires i < |phases|
  {
    if i + 1 < |phases| then phases[i + 1].0 else end
  }

  /** The spans of the first `n` phases, after the time before the first one. */
  function PhaseSpans(phases: seq<(Instant, WaitingCategory)>, start: Instant, end: Instant, n: nat)
    : (r: seq<(TimeSpan, WaitingCategory)>)
    requires n <= |phases|
  {
    if n == 0 then [(Saturating(start, if phases == [] then end else phases[0].0), Ready)]
    else PhaseSpans(phases, start, end, n - 1) +
         [(Saturating(phases[n - 1].0, PhaseEnd(phases, n - 1, end)), phases[n - 1].1)]
  }

  /** `iter_spans`. */
  method IterSpans(data: WaitingData, start: Instant, end: Instant) returns (spans: seq<(TimeSpan, WaitingCategory)>)
    ensures spans == PhaseSpans(Phases(data), start, end, |Phases(data)|)
  {
    if data.Some? && data.value != [] {
      var phases := data.value;
      spans := [(Saturating(start, phases[0].0), Ready)];
      for i := 0 to |phases|
        invariant spans == PhaseSpans(phases, start, end, i)
      {
        var phaseEnd := if i + 1 < |phases| then phases[i + 1].0 else end;
        spans := spans + [(Saturating(phases[i].0, phaseEnd), phases[i].1)];
      }
    } else {
      spans := [(Saturating(start, end), Ready)];
    }
  }

  /** `start_waiting_category_at`. */
  function StartCategory(data: WaitingData, category: WaitingCategory, at: Instant): (r: WaitingData) {
    Some(Phases(data) + [(at, category)])
  }

  predicate Nondecreasing(phases: seq<(Instant, WaitingCategory)>) {
    forall i, j :: 0 <= i < j < |phases| ==> phases[i].0 <= phases[j].0
  }

  /** Category starts stay in order exactly if each is no earlier than the one before it. */
  lemma {:induction false} StartKeepsOrder(data: WaitingData, category: WaitingCategory, at: Instant)
    ensures var before, after := Phases(data), Phases(StartCategory(data, category, at));
            && before <= after && |after| == |before| + 1
            && (Nondecreasing(after) <==> Nondecreasing(before) && (before == [] || before[|before| - 1].0 <= at))
  {
    var before, after := Phases(data), Phases(StartCategory(data, category, at));
    assert after == before + [(at, category)];
    assert forall i :: 0 <= i < |before| ==> after[i] == before[i];
    if before != [] { assert after[|before| - 1] == before[|before| - 1] && after[|before|] == (at, category); }
  }

  /** Where an instant lies in a window, or the nearest end of the window. */
  function Clamp(t: Instant, start: Instant, end: Instant): (r: Instant)
    requires start <= end
    ensures start <= r <= end
  {
    Max(start, Min(t, end))
  }

  /** The boundary at which the first `n` spans end. */
  function Boundary(phases: seq<(Instant, WaitingCategory)>, start: Instant, end: Instant, n: nat): Instant
    requires n <= |phases| + 1
  {
    if n == 0 then start else if n <= |phases| then phases[n - 1].0 else end
  }

  lemma {:induction false} SpanAt(phases: seq<(Instant, WaitingCategory)>, start: Instant, end: Instant, m: nat, n: nat)
    requires n <= m <= |phases|
    ensures |PhaseSpans(phases, start, end, m)| == m + 1
    ensures PhaseSpans(phases, start, end, m)[n].0 ==
            Saturating(Boundary(phases, start, end, n), Boundary(phases, start, end, n + 1))
  {
    if n < m {
      SpanAt(phases, start, end, m - 1, n);
    } else if m > 0 {
      SpanAt(phases, start, end, m - 1, 0);
    }
  }

  /** A span between consecutive boundaries meets the window in exactly the stretch between their clamped positions. */
  lemma {:induction false} PhaseInWindow(phases: seq<(Instant, WaitingCategory)>, start: Instant, end: Instant, n: nat)
    requires Nondecreasing(phases) && start <= end && n <= |phases|
    ensures |PhaseSpans(phases, start, end, |phases|)| == |phases| + 1
    ensures var lo := Clamp(Boundary(phases, start, end, n), start, end);
            var hi := Clamp(Boundary(phases, start, end, n + 1), start, end);
            && lo <= hi
            && var cut := PhaseSpans(phases, start, end, |phases|)[n].0.Intersection(TimeSpanRaw.TimeSpan(start, end));
            if cut.None? then lo == hi else cut.value.end - cut.value.start == hi - lo
                                            && (lo < hi ==> cut.value == TimeSpanRaw.TimeSpan(lo, hi))
  {
    SpanAt(phases, start, end, |phases|, n);
  }

  /** Total length of the parts of the first `n` spans that lie in the window. */
  function LengthInWindow(spans: seq<(TimeSpan, WaitingCategory)>, window: TimeSpan, n: nat): nat
    requires n <= |spans|
  {
    if n == 0 then 0
    else
      var cut := spans[n - 1].0.Intersection(window);
      LengthInWindow(spans, window, n - 1) + if cut.Some? then cut.value.end - cut.value.start else 0
  }

  /** Whatever the phases, in order, before, inside or after the window: their spans cover it exactly. */
  lemma {:induction false} SpansCoverWindow(phases: seq<(Instant, WaitingCategory)>, start: Instant, end: Instant,
                                            n: nat)
    requires Nondecreasing(phases) && start <= end && n <= |phases| + 1
    ensures |PhaseSpans(phases, start, end, |phases|)| == |phases| + 1
    ensures LengthInWindow(PhaseSpans(phases, start, end, |phases|), TimeSpanRaw.TimeSpan(start, end), n)
            == Clamp(Boundary(phases, start, end, n), start, end) - start
    ensures n == |phases| + 1 ==>
              LengthInWindow(PhaseSpans(phases, start, end, |phases|), TimeSpanRaw.TimeSpan(start, end), n) ==
                end - start
  {
    SpanAt(phases, start, end, |phases|, 0);
    if n > 0 {
      SpansCoverWindow(phases, start, end, n - 1);
      PhaseInWindow(phases, start, end, n - 1);
    }
  }

  // ----- Entries -----

  datatype WaitLabel = Overhead | ForDeps | Scheduling(node: nat) | During(category: WaitingCategory) | FinalWork

  datatype EntryKind = Waiting(reason: WaitLabel) | GenericEntry(kind: string) | Work(node: nat) | ComputeCriticalPath

  /** The timing fields of a `CriticalPathEntry2`. */
  datatype Entry = Entry(kind: EntryKind, startOffset: nat, duration: nat, total: nat, nonCritical: Option<nat>) {
    /** The wall-clock time an entry stands for. */
    function Length(): nat { total + if nonCritical.Some? then nonCritical.value else 0 }
  }

  const U64_MAX: nat := 0xFFFF_FFFF_FFFF_FFFF
  const MILLISECOND: nat := 1_000_000

  function Since(t: Instant, earlier: Instant): nat { if t < earlier then 0 else t - earlier }

  function Offset(t: Instant, commandStart: Instant): nat { Min(Since(t, commandStart), U64_MAX) }

  /** A node of the computed path. */
  datatype PathEntry = PathEntry(node: nat, total: TimeSpan, waiting: WaitingData, depsFinished: Option<Instant>,
                                 criticalPathDuration: Option<nat>)

  datatype Enhanced = Enhanced(commandStart: Instant, lastEntryEnd: Instant, entries: seq<Entry>)

  /** `create_simple_entry`. */
  function SimpleEntry(commandStart: Instant, kind: EntryKind, start: Instant, duration: nat, nonCritical: nat): Entry {
    Entry(kind, Offset(start, commandStart), duration, duration, Some(nonCritical))
  }

  /** `add_entry_impl`: fills a gap of a millisecond or more. */
  function WithEntry(s: Enhanced, reason: Option<WaitLabel>, span: TimeSpan, entry: Entry): (r: Enhanced) {
    var missing := Since(span.start, s.lastEntryEnd);
    var filled := if missing / MILLISECOND > 0
                  then [SimpleEntry(s.commandStart, Waiting(if reason.Some? then reason.value else Overhead),
                                    s.lastEntryEnd, 0, missing)]
                  else [];
    Enhanced(s.commandStart, span.end, s.entries + filled + [entry])
  }

  /** `add_simple_entry`. */
  function WithSimple(s: Enhanced, reason: Option<WaitLabel>, kind: EntryKind, span: TimeSpan,
                      critical: bool): (r: Enhanced) {
    WithEntry(s, reason, span,
              SimpleEntry(s.commandStart, kind, span.start,
                          if critical then Duration(span) else 0, if critical then 0 else Duration(span)))
  }

  function WaitKind(node: nat, category: WaitingCategory): EntryKind {
    Waiting(if category == Ready then Scheduling(node) else During(category))
  }

  /** The first `n` waiting spans, as far as they lie in the window. */
  function WithWaits(s: Enhanced, node: nat, spans: seq<(TimeSpan, WaitingCategory)>, window: TimeSpan,
                     n: nat): (r: Enhanced)
    requires n <= |spans|
  {
    if n == 0 then s
    else
      var s' := WithWaits(s, node, spans, window, n - 1);
      var cut := spans[n - 1].0.Intersection(window);
      if cut.Some? && cut.value.end > cut.value.start
      then WithSimple(s', Some(Overhead), WaitKind(node, spans[n - 1].1), cut.value, false)
      else s'
  }

  /** When the node's dependencies were finished, or the end of the last entry if that is not known. */
  function DepsEnd(last: Instant, p: PathEntry): Instant {
    if p.depsFinished.Some? then p.depsFinished.value else last
  }

  /** The node's span without the part before its dependencies finished. */
  function Clipped(last: Instant, p: PathEntry): TimeSpan {
    var ready := DepsEnd(last, p);
    if ready > p.total.start then Saturating(ready, p.total.end) else p.total
  }

  function WorkEntry(commandStart: Instant, p: PathEntry, span: TimeSpan): Entry {
    Entry(Work(p.node), Offset(span.start, commandStart),
          if p.criticalPathDuration.Some? then p.criticalPathDuration.value else Duration(span), Duration(span), None)
  }

  /** `add_entry`. */
  function WithPathEntry(s: Enhanced, p: PathEntry): (r: Enhanced) {
    var ready := DepsEnd(s.lastEntryEnd, p);
    var s1 := if Since(ready, s.lastEntryEnd) != 0
              then WithSimple(s, Some(Overhead), Waiting(ForDeps), Saturating(s.lastEntryEnd, ready), false)
              else s;
    var span := Clipped(s.lastEntryEnd, p);
    var spans := PhaseSpans(Phases(p.waiting), ready, span.start, |Phases(p.waiting)|);
    var s2 := WithWaits(s1, p.node, spans, Saturating(ready, span.start), |spans|);
    WithEntry(s2, Some(Overhead), span, WorkEntry(s.commandStart, p, span))
  }

  function WithPath(s: Enhanced, path: seq<PathEntry>): (r: Enhanced)
    decreases |path|
  {
    if path == [] then s else WithPath(WithPathEntry(s, path[0]), path[1..])
  }

  datatype EarlyTiming = EarlyTiming(commandStart: Instant, spans: seq<(Instant, string)>, end: Instant)

  /** Start and kind of the span that is open after the first `n` early spans. */
  function OpenSpan(t: EarlyTiming, n: nat): (r: (Instant, string))
    requires n <= |t.spans|
  {
    if n == 0 then (t.commandStart, "buckd_command_init")
    else (Max(t.spans[n - 1].0, OpenSpan(t, n - 1).0), t.spans[n - 1].1)
  }

  function WithEarly(s: Enhanced, t: EarlyTiming, n: nat): (r: Enhanced)
    requires n <= |t.spans|
  {
    if n == 0 then s
    else WithSimple(WithEarly(s, t, n - 1), None, GenericEntry(OpenSpan(t, n - 1).1),
                    Saturating(OpenSpan(t, n - 1).0, OpenSpan(t, n).0), true)
  }

  /** Everything before the final entry. */
  function BeforeFinal(t: EarlyTiming, path: seq<PathEntry>): (r: Enhanced) {
    var early := WithEarly(Enhanced(t.commandStart, t.commandStart, []), t, |t.spans|);
    var open := OpenSpan(t, |t.spans|);
    WithPath(WithSimple(early, None, GenericEntry(open.1), Saturating(open.0, t.end), true), path)
  }

  /** `into_critical_path_proto`, with the time read at its end as `now`. */
  function Assembled(t: EarlyTiming, path: seq<PathEntry>, computeStart: Instant, now: Instant): (r: Enhanced) {
    WithSimple(BeforeFinal(t, path), Some(FinalWork), ComputeCriticalPath, Saturating(computeStart, now), true)
  }

  class CriticalPathProtoEnhancer {
    const commandStart: Instant
    var lastEntryEnd: Instant
    var entries: seq<Entry>

    constructor (commandStart: Instant)
      ensures State() == Enhanced(commandStart, commandStart, [])
    {
      this.commandStart, lastEntryEnd, entries := commandStart, commandStart, [];
    }

    function State(): Enhanced
      reads this
    {
      Enhanced(commandStart, lastEntryEnd, entries)
    }

    method AddEntryImpl(reason: Option<WaitLabel>, span: TimeSpan, entry: Entry)
      modifies this
      ensures State() == WithEntry(old(State()), reason, span, entry)
    {
      var missing := Since(span.start, lastEntryEnd);
      if missing / MILLISECOND > 0 {
        entries := entries + [SimpleEntry(commandStart, Waiting(if reason.Some? then reason.value else Overhead),
                                          lastEntryEnd, 0, missing)];
      }
      entries := entries + [entry];
      lastEntryEnd := span.end;
    }

    method AddSimpleEntry(reason: Option<WaitLabel>, kind: EntryKind, span: TimeSpan, critical: bool)
      modifies this
      ensures State() == WithSimple(old(State()), reason, kind, span, critical)
    {
      var duration, nonCritical := Duration(span), 0;
      if !critical {
        duration, nonCritical := 0, Duration(span);
      }
      AddEntryImpl(reason, span, SimpleEntry(commandStart, kind, span.start, duration, nonCritical));
    }

    method AddEntry(p: PathEntry)
      modifies this
      ensures State() == WithPathEntry(old(State()), p)
    {
      var last := lastEntryEnd;
      var ready := if p.depsFinished.Some? then p.depsFinished.value else last;
      if Since(ready, last) != 0 {
        AddSimpleEntry(Some(Overhead), Waiting(ForDeps), Saturating(last, ready), false);
      }
      var total := p.total;
      if ready > total.start {
        total := Saturating(ready, total.end);
      }
      var window := Saturating(ready, total.start);
      var spans := IterSpans(p.waiting, ready, total.start);
      ghost var s1 := State();
      for i := 0 to |spans|
        invariant State() == WithWaits(s1, p.node, spans, window, i)
      {
        var cut := spans[i].0.Intersection(window);
        if cut.Some? && cut.value.end > cut.value.start {
          AddSimpleEntry(Some(Overhead), WaitKind(p.node, spans[i].1), cut.value, false);
        }
      }
      AddEntryImpl(Some(Overhead), total, WorkEntry(commandStart, p, total));
    }
  }

  /** `create_proto_entries_for_early_timings`. */
  method AddEarlyTimings(enhancer: CriticalPathProtoEnhancer, t: EarlyTiming)
    requires enhancer.State() == Enhanced(t.commandStart, t.commandStart, [])
    modifies enhancer
    ensures enhancer.State() == BeforeFinal(t, [])
  {
    ghost var s0 := enhancer.State();
    var kind, start := "buckd_command_init", t.commandStart;
    for i := 0 to |t.spans|
      invariant enhancer.State() == WithEarly(s0, t, i)
      invariant (start, kind) == OpenSpan(t, i)
    {
      var spanStart := Max(t.spans[i].0, start);
      enhancer.AddSimpleEntry(None, GenericEntry(kind), Saturating(start, spanStart), true);
      kind, start := t.spans[i].1, spanStart;
    }
    enhancer.AddSimpleEntry(None, GenericEntry(kind), Saturating(start, t.end), true);
  }

  /** `into_critical_path_proto`. */
  method IntoCriticalPathProto(t: EarlyTiming, path: seq<PathEntry>, computeStart: Instant, now: Instant)
    returns (entries: seq<Entry>)
    ensures entries == Assembled(t, path, computeStart, now).entries
  {
    var enhancer := new CriticalPathProtoEnhancer(t.commandStart);
    AddEarlyTimings(enhancer, t);
    ghost var s := enhancer.State();
    hide WithPathEntry;
    for i := 0 to |path|
      invariant WithPath(enhancer.State(), path[i..]) == WithPath(s, path)
    {
      assert path[i..][1..] == path[i + 1..];
      enhancer.AddEntry(path[i]);
    }
    enhancer.AddSimpleEntry(Some(FinalWork), ComputeCriticalPath, Saturating(computeStart, now), true);
    entries := enhancer.entries;
  }

  // ----- The tiling theorem -----

  function Elapsed(entries: seq<Entry>): nat {
    if entries == [] then 0 else Elapsed(entries[..|entries| - 1]) + entries[|entries| - 1].Length()
  }

  /** Each entry starts where the entries before it end. */
  ghost predicate Tiled(entries: seq<Entry>) {
    forall k :: 0 <= k < |entries| ==> entries[k].startOffset == Min(Elapsed(entries[..k]), U64_MAX)
  }

  /** The entries tile the time from the start of the command up to the end of the last one. */
  ghost predicate Seamless(s: Enhanced) {
    Tiled(s.entries) && s.lastEntryEnd == s.commandStart + Elapsed(s.entries)
  }

  lemma {:induction false} TiledSnoc(entries: seq<Entry>, e: Entry)
    requires Tiled(entries) && e.startOffset == Min(Elapsed(entries), U64_MAX)
    ensures Tiled(entries + [e]) && Elapsed(entries + [e]) == Elapsed(entries) + e.Length()
  {
    var r := entries + [e];
    assert r[..|r| - 1] == entries;
    forall k | 0 <= k < |r| ensures r[k].startOffset == Min(Elapsed(r[..k]), U64_MAX) {
      assert r[..k] == entries[..k];
      if k == |entries| { assert entries[..k] == entries; } else { assert r[k] == entries[k]; }
    }
  }

  /** An entry that starts where the last one ended, and is as long as its span, continues the tiling. */
  lemma {:induction false} SeamlessEntry(s: Enhanced, reason: Option<WaitLabel>, span: TimeSpan, entry: Entry)
    requires Seamless(s) && span.start == s.lastEntryEnd
    requires entry.startOffset == Offset(span.start, s.commandStart) && entry.Length() == Duration(span)
    ensures Seamless(WithEntry(s, reason, span, entry))
    ensures WithEntry(s, reason, span, entry) == Enhanced(s.commandStart, span.end, s.entries + [entry])
  {
    hide Tiled, Elapsed;
    assert Since(span.start, s.lastEntryEnd) == 0;
    assert s.entries + [] + [entry] == s.entries + [entry];
    TiledSnoc(s.entries, entry);
  }

  /** The nodes of the path, in the order they appear among the entries. */
  function WorkNodes(entries: seq<Entry>): seq<nat> {
    if entries == [] then []
    else WorkNodes(entries[..|entries| - 1]) +
         (if entries[|entries| - 1].kind.Work? then [entries[|entries| - 1].kind.node] else [])
  }

  lemma {:induction false} WorkNodesSnoc(entries: seq<Entry>, e: Entry)
    ensures WorkNodes(entries + [e]) == WorkNodes(entries) + (if e.kind.Work? then [e.kind.node] else [])
  {
    assert (entries + [e])[..|entries + [e]| - 1] == entries;
  }

  lemma {:induction false} SeamlessWaits(s: Enhanced, node: nat, phases: seq<(Instant, WaitingCategory)>,
                                         start: Instant, end: Instant, n: nat)
    requires Seamless(s) && s.lastEntryEnd == start && start <= end && Nondecreasing(phases) && n <= |phases| + 1
    ensures |PhaseSpans(phases, start, end, |phases|)| == |phases| + 1
    ensures var r := WithWaits(s, node, PhaseSpans(phases, start, end, |phases|), TimeSpanRaw.TimeSpan(start, end), n);
            && Seamless(r) && r.lastEntryEnd == Clamp(Boundary(phases, start, end, n), start, end)
            && r.commandStart == s.commandStart && WorkNodes(r.entries) == WorkNodes(s.entries)
  {
    SpanAt(phases, start, end, |phases|, 0);
    if n > 0 {
      SeamlessWaits(s, node, phases, start, end, n - 1);
      PhaseInWindow(phases, start, end, n - 1);
      var spans, window := PhaseSpans(phases, start, end, |phases|), TimeSpanRaw.TimeSpan(start, end);
      var s' := WithWaits(s, node, spans, window, n - 1);
      var cut := spans[n - 1].0.Intersection(window);
      if cut.Some? && cut.value.end > cut.value.start {
        var entry := SimpleEntry(s.commandStart, WaitKind(node, spans[n - 1].1), cut.value.start, 0,
            Duration(cut.value));
        SeamlessEntry(s', Some(Overhead), cut.value, entry);
        WorkNodesSnoc(s'.entries, entry);
      }
    }
  }

  /** What must hold of a path entry: its dependencies did not finish before the last entry, and it waited in order. */
  predicate InOrder(last: Instant, p: PathEntry) {
    (p.depsFinished.Some? ==> last <= p.depsFinished.value) && Nondecreasing(Phases(p.waiting))
  }

  /** A path entry in order keeps the tiling, ends where its clipped span ends and adds its node once. */
  lemma {:induction false} SeamlessPathEntry(s: Enhanced, p: PathEntry)
    requires Seamless(s) && InOrder(s.lastEntryEnd, p)
    ensures Seamless(WithPathEntry(s, p))
    ensures WithPathEntry(s, p).commandStart == s.commandStart
    ensures WithPathEntry(s, p).lastEntryEnd == Clipped(s.lastEntryEnd, p).end
    ensures WorkNodes(WithPathEntry(s, p).entries) == WorkNodes(s.entries) + [p.node]
  {
    hide Seamless, Tiled, PhaseSpans, WithWaits;
    var ready := DepsEnd(s.lastEntryEnd, p);
    var s1 := s;
    if Since(ready, s.lastEntryEnd) != 0 {
      var wait := Saturating(s.lastEntryEnd, ready);
      var entry := SimpleEntry(s.commandStart, Waiting(ForDeps), wait.start, 0, Duration(wait));
      SeamlessEntry(s, Some(Overhead), wait, entry);
      WorkNodesSnoc(s.entries, entry);
      s1 := WithSimple(s, Some(Overhead), Waiting(ForDeps), wait, false);
    }
    var span := Clipped(s.lastEntryEnd, p);
    var phases := Phases(p.waiting);
    SeamlessWaits(s1, p.node, phases, ready, span.start, |phases| + 1);
    var spans := PhaseSpans(phases, ready, span.start, |phases|);
    var s2 := WithWaits(s1, p.node, spans, Saturating(ready, span.start), |spans|);
    SeamlessEntry(s2, Some(Overhead), span, WorkEntry(s.commandStart, p, span));
    WorkNodesSnoc(s2.entries, WorkEntry(s.commandStart, p, span));
  }

  /** Every path entry is in order with respect to the end of the one before it. */
  predicate PathInOrder(s: Enhanced, path: seq<PathEntry>)
    decreases |path|
  {
    path == [] || (InOrder(s.lastEntryEnd, path[0]) && PathInOrder(WithPathEntry(s, path[0]), path[1..]))
  }

  function Nodes(path: seq<PathEntry>): seq<nat> {
    if path == [] then [] else [path[0].node] + Nodes(path[1..])
  }

  lemma {:induction false} SeamlessPath(s: Enhanced, path: seq<PathEntry>)
    requires Seamless(s) && PathInOrder(s, path)
    ensures Seamless(WithPath(s, path)) && WithPath(s, path).commandStart == s.commandStart
    ensures WorkNodes(WithPath(s, path).entries) == WorkNodes(s.entries) + Nodes(path)
    decreases |path|
  {
    hide WithPathEntry, Seamless, InOrder, WorkNodes;
    if path != [] {
      SeamlessPathEntry(s, path[0]);
      SeamlessPath(WithPathEntry(s, path[0]), path[1..]);
    }
  }

  /** A simple entry that starts where the last one ended continues the tiling. */
  lemma {:induction false} SeamlessSimple(s: Enhanced, name: string, span: TimeSpan)
    requires Seamless(s) && span.start == s.lastEntryEnd
    ensures var r := WithSimple(s, None, GenericEntry(name), span, true);
            && Seamless(r) && r.lastEntryEnd == span.end && r.commandStart == s.commandStart
            && WorkNodes(r.entries) == WorkNodes(s.entries)
  {
    var entry := SimpleEntry(s.commandStart, GenericEntry(name), span.start, Duration(span), 0);
    SeamlessEntry(s, None, span, entry);
    WorkNodesSnoc(s.entries, entry);
  }

  lemma {:induction false} EarlyStart(t: EarlyTiming)
    ensures var r := WithEarly(Enhanced(t.commandStart, t.commandStart, []), t, 0);
            && Seamless(r) && r.lastEntryEnd == OpenSpan(t, 0).0 && r.commandStart == t.commandStart
            && WorkNodes(r.entries) == []
  {
  }

  lemma {:induction false} EarlyStep(t: EarlyTiming, n: nat)
    requires n < |t.spans|
    ensures var s, from, to := Enhanced(t.commandStart, t.commandStart, []), OpenSpan(t, n), OpenSpan(t, n + 1);
            && WithEarly(s, t, n + 1) ==
              WithSimple(WithEarly(s, t, n), None, GenericEntry(from.1), Saturating(from.0, to.0), true)
            && Saturating(from.0, to.0).start == from.0 && Saturating(from.0, to.0).end == to.0
  {
  }

  /** The early command timings tile without any condition. */
  lemma {:induction false} SeamlessEarly(t: EarlyTiming, n: nat)
    requires n <= |t.spans|
    ensures var r := WithEarly(Enhanced(t.commandStart, t.commandStart, []), t, n);
            && Seamless(r) && r.lastEntryEnd == OpenSpan(t, n).0 && r.commandStart == t.commandStart
            && WorkNodes(r.entries) == []
  {
    hide *;
    if n == 0 {
      EarlyStart(t);
    } else {
      SeamlessEarly(t, n - 1);
      EarlyStep(t, n - 1);
      SeamlessSimple(WithEarly(Enhanced(t.commandStart, t.commandStart, []), t, n - 1), OpenSpan(t, n - 1).1,
                     Saturating(OpenSpan(t, n - 1).0, OpenSpan(t, n).0));
    }
  }

  lemma {:induction false} SeamlessBeforePath(t: EarlyTiming)
    ensures Seamless(BeforeFinal(t, [])) && BeforeFinal(t, []).commandStart == t.commandStart
    ensures WorkNodes(BeforeFinal(t, []).entries) == []
  {
    hide Seamless, WorkNodes, WithSimple, WithEarly;
    SeamlessEarly(t, |t.spans|);
    var open := OpenSpan(t, |t.spans|);
    SeamlessSimple(WithEarly(Enhanced(t.commandStart, t.commandStart, []), t, |t.spans|), open.1,
      Saturating(open.0, t.end));
  }

  /** The unfilled time before the final entry: what is missing, unless it is a millisecond or more and gets filled. */
  function FinalGap(last: Instant, computeStart: Instant): (r: nat)
    ensures r < MILLISECOND
  {
    var missing := Since(computeStart, last);
    if missing < MILLISECOND then missing else 0
  }

  /** All entries but the last tile the time; the last follows after `gap`; the total reaches `end` less the gap. */
  ghost predicate TiledUpTo(entries: seq<Entry>, gap: nat, elapsed: int) {
    && |entries| > 0
    && var before, final := entries[..|entries| - 1], entries[|entries| - 1];
    && Tiled(before)
    && final.startOffset == Min(Elapsed(before) + gap, U64_MAX)
    && Elapsed(entries) + gap == elapsed
  }

  lemma {:induction false} Stages(t: EarlyTiming, path: seq<PathEntry>, computeStart: Instant, now: Instant)
    ensures BeforeFinal(t, path) == WithPath(BeforeFinal(t, []), path)
    ensures Assembled(t, path, computeStart, now) ==
            WithSimple(BeforeFinal(t, path), Some(FinalWork), ComputeCriticalPath, Saturating(computeStart, now), true)
  {
    hide WithEarly, WithSimple, OpenSpan, WithPathEntry;
  }

  /** The final entry, and the filler before it if a millisecond or more is missing. */
  function FinalOne(s: Enhanced, computeStart: Instant, now: Instant): Entry {
    SimpleEntry(s.commandStart, ComputeCriticalPath, computeStart, Max(computeStart, now) - computeStart, 0)
  }

  function FinalFiller(s: Enhanced, computeStart: Instant): Entry
    requires s.lastEntryEnd <= computeStart
  {
    SimpleEntry(s.commandStart, Waiting(FinalWork), s.lastEntryEnd, 0, computeStart - s.lastEntryEnd)
  }

  lemma {:induction false} FinalForm(s: Enhanced, computeStart: Instant, now: Instant)
    requires s.lastEntryEnd <= computeStart
    ensures WithSimple(s, Some(FinalWork), ComputeCriticalPath, Saturating(computeStart, now), true).entries ==
            (if computeStart - s.lastEntryEnd < MILLISECOND then s.entries
              else s.entries + [FinalFiller(s, computeStart)])
            + [FinalOne(s, computeStart, now)]
  {
    assert s.entries + [] == s.entries;
  }

  lemma {:induction false} FillerTiles(s: Enhanced, computeStart: Instant)
    requires Seamless(s) && s.lastEntryEnd <= computeStart
    ensures var filled := s.entries + [FinalFiller(s, computeStart)];
            && Tiled(filled) && Elapsed(filled) == computeStart - s.commandStart
              && WorkNodes(filled) == WorkNodes(s.entries)
  {
    TiledSnoc(s.entries, FinalFiller(s, computeStart));
    WorkNodesSnoc(s.entries, FinalFiller(s, computeStart));
  }

  lemma {:induction false} FinalAppended(before: seq<Entry>, entry: Entry, gap: nat, elapsed: int)
    requires Tiled(before) && !entry.kind.Work? && entry.startOffset == Min(Elapsed(before) + gap, U64_MAX)
    requires Elapsed(before) + entry.Length() + gap == elapsed
    ensures TiledUpTo(before + [entry], gap, elapsed) && WorkNodes(before + [entry]) == WorkNodes(before)
  {
    var all := before + [entry];
    assert all[..|all| - 1] == before && all[|all| - 1] == entry;
  }

  lemma {:induction false} FinalEntry(s: Enhanced, computeStart: Instant, now: Instant)
    requires Seamless(s) && s.lastEntryEnd <= computeStart
    ensures var r := WithSimple(s, Some(FinalWork), ComputeCriticalPath, Saturating(computeStart, now), true);
            && TiledUpTo(r.entries, FinalGap(s.lastEntryEnd, computeStart), Max(computeStart, now) - s.commandStart)
            && WorkNodes(r.entries) == WorkNodes(s.entries)
  {
    hide WithSimple, WorkNodes, Tiled, Elapsed, TiledUpTo, FinalFiller;
    FinalForm(s, computeStart, now);
    var elapsed := Max(computeStart, now) - s.commandStart;
    if computeStart - s.lastEntryEnd < MILLISECOND {
      FinalAppended(s.entries, FinalOne(s, computeStart, now), computeStart - s.lastEntryEnd, elapsed);
    } else {
      FillerTiles(s, computeStart);
      FinalAppended(s.entries + [FinalFiller(s, computeStart)], FinalOne(s, computeStart, now), 0, elapsed);
    }
  }

  /**
   The whole output: the entries before the final one tile the time from the start of the command, the final one
   follows after a gap of less than a millisecond, all lengths add up to the elapsed time less that gap, and the
   nodes of the path appear once each and in order.
   */
  lemma {:induction false} OutputTilesWallClock(t: EarlyTiming, path: seq<PathEntry>, computeStart: Instant,
                                                now: Instant)
    requires PathInOrder(BeforeFinal(t, []), path)
    requires BeforeFinal(t, path).lastEntryEnd <= computeStart
    ensures var entries := Assembled(t, path, computeStart, now).entries;
            && TiledUpTo(entries, FinalGap(BeforeFinal(t, path).lastEntryEnd, computeStart),
                         Max(computeStart, now) - t.commandStart)
            && WorkNodes(entries) == Nodes(path)
  {
    hide *;
    var s0, s := BeforeFinal(t, []), BeforeFinal(t, path);
    SeamlessBeforePath(t);
    Stages(t, path, computeStart, now);
    SeamlessPath(s0, path);
    FinalEntry(s, computeStart, now);
    assert [] + Nodes(path) == Nodes(path);
  }
}
