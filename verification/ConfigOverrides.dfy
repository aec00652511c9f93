/**
 Merging command-line flags into config overrides: `config_overrides` and its helpers in
 app/bz_client_ctx/src/common.rs.
 */
module ConfigOverrides {
  import opened Collections
  import opened SettingEntries

  // ----- Merging -----

  datatype Override = Override(cell: Option<string>, text: string, isFile: bool)

  datatype Flag = Flag(index: nat, override: Override)

  /** Settings given at one position of the command line. */
  datatype Contribution = Contribution(index: nat, settings: seq<string>)

  /** A `--config` value, its cell alias resolved. */
  datatype ConfigValue = ConfigValue(index: nat, cell: Option<string>, raw: string)

  function FlagIndex(f: Flag): nat { f.index }

  function ContributionIndex(c: Contribution): nat { c.index }

  const COMPILATION_MODE := "//command_line_option:compilation_mode"

  /** The settings a config value stands for, if it is not an ordinary override. */
  function SettingsIn(v: ConfigValue): Option<seq<string>> {
    if v.cell.Some? then None
    else if Parse(v.raw).Some? then Parse(v.raw)
    else if v.raw == "fastbuild" || v.raw == "dbg" || v.raw == "opt"
      then Some([FormatEntry("string", COMPILATION_MODE, v.raw)])
    else None
  }

  function ContributionsOf(values: seq<ConfigValue>): seq<Contribution> {
    if values == [] then []
    else
      var v := values[|values| - 1];
      ContributionsOf(values[..|values| - 1])
      + if SettingsIn(v).Some? then [Contribution(v.index, SettingsIn(v).value)] else []
  }

  function PlainOf(values: seq<ConfigValue>): seq<Flag> {
    if values == [] then []
    else
      var v := values[|values| - 1];
      PlainOf(values[..|values| - 1]) + if SettingsIn(v).Some? then []
        else [Flag(v.index, Override(v.cell, v.raw, false))]
  }

  function AllSettings(contributions: seq<Contribution>): seq<string> {
    if contributions == [] then []
    else AllSettings(contributions[..|contributions| - 1]) + contributions[|contributions| - 1].settings
  }

  /** All settings, in the order of the command line, as one override at the last of their positions. */
  function Combined(contributions: seq<Contribution>): seq<Flag> {
    if contributions == [] then []
    else
      SortByCorrect(contributions, ContributionIndex);
      var sorted := SortBy(contributions, ContributionIndex);
      [Flag(sorted[|sorted| - 1].index, Override(None, Encode(AllSettings(sorted)), false))]
  }

  function Overrides(flags: seq<Flag>): (r: seq<Override>)
    ensures |r| == |flags| && forall i :: 0 <= i < |r| ==> r[i] == flags[i].override
  {
    seq(|flags|, i requires 0 <= i < |flags| => flags[i].override)
  }

  /** The flags of a command line: config files, config values, settings from other flags, and other overrides. */
  datatype CommandLine = CommandLine(files: seq<Flag>, values: seq<ConfigValue>, extra: seq<Contribution>,
    others: seq<Flag>) {
    function Contributions(): seq<Contribution> { ContributionsOf(values) + extra }

    /** The overrides gathered before the combined one. */
    function Plain(): seq<Flag> { files + PlainOf(values) }

    /** Everything that is merged, before sorting. */
    function Gathered(): seq<Flag> { Plain() + Combined(Contributions()) + others }

    function Merged(): seq<Flag> { SortBy(Gathered(), FlagIndex) }

    /** The contributions in command-line order. */
    function InOrder(): seq<Contribution> { SortBy(Contributions(), ContributionIndex) }

    /** The settings the command line gives, in order. */
    function Given(): seq<string> { AllSettings(InOrder()) }
  }

  /** The combined override takes the greatest position of any contribution. */
  lemma {:induction false} CombinedIsLast(contributions: seq<Contribution>)
    requires contributions != []
    ensures var index := Combined(contributions)[0].index;
            && (forall c :: c in contributions ==> c.index <= index)
              && exists c :: c in contributions && c.index == index
  {
    SortByCorrect(contributions, ContributionIndex);
    SortByMembers(contributions, ContributionIndex);
    var sorted := SortBy(contributions, ContributionIndex);
    assert sorted[|sorted| - 1] in sorted;
    forall c | c in contributions ensures c.index <= sorted[|sorted| - 1].index {
      assert c in sorted;
      var i :| 0 <= i < |sorted| && sorted[i] == c;
      assert ContributionIndex(sorted[i]) <= ContributionIndex(sorted[|sorted| - 1]);
    }
  }

  /** The loop over the config values. */
  method ReadValues(values: seq<ConfigValue>) returns (contributions: seq<Contribution>, plain: seq<Flag>)
    ensures contributions == ContributionsOf(values) && plain == PlainOf(values)
  {
    contributions, plain := [], [];
    for i := 0 to |values|
      invariant contributions == ContributionsOf(values[..i]) && plain == PlainOf(values[..i])
    {
      assert values[..i + 1][..i] == values[..i];
      var v := values[i];
      if v.cell.None? && Parse(v.raw).Some? {
        contributions := contributions + [Contribution(v.index, Parse(v.raw).value)];
      } else if v.cell.None? && (v.raw == "fastbuild" || v.raw == "dbg" || v.raw == "opt") {
        contributions := contributions + [Contribution(v.index, [FormatEntry("string", COMPILATION_MODE, v.raw)])];
      } else {
        plain := plain + [Flag(v.index, Override(v.cell, v.raw, false))];
      }
    }
    assert values[..|values|] == values;
  }

  /** `config_overrides`, given the contributions and overrides of the other flags. */
  method MergeOverrides(line: CommandLine) returns (r: seq<Override>)
    ensures r == Overrides(line.Merged())
  {
    var contributions, plain := ReadValues(line.values);
    contributions := contributions + line.extra;
    var merged := line.files + plain;
    if contributions != [] {
      SortByCorrect(contributions, ContributionIndex);
      var sorted := SortBy(contributions, ContributionIndex);
      merged := merged + [Flag(sorted[|sorted| - 1].index, Override(None, Encode(AllSettings(sorted)), false))];
    }
    assert merged == line.Plain() + Combined(contributions);
    merged := merged + line.others;
    r := Overrides(SortBy(merged, FlagIndex));
  }

  // ----- What comes after the settings -----

  datatype Side = Below | At | Above

  predicate On(side: Side, index: nat, c: nat) {
    match side
    case Below => index < c
    case At => index == c
    case Above => index > c
  }

  /** The flags positioned before, at or after `c`. */
  function Part(side: Side, flags: seq<Flag>, c: nat): seq<Flag> {
    if flags == [] then []
    else
      var f := flags[|flags| - 1];
      Part(side, flags[..|flags| - 1], c) + if On(side, f.index, c) then [f] else []
  }

  lemma {:induction false} PartMembers(side: Side, flags: seq<Flag>, c: nat, f: Flag)
    ensures f in Part(side, flags, c) <==> f in flags && On(side, f.index, c)
  {
    if flags != [] {
      PartMembers(side, flags[..|flags| - 1], c, f);
      assert flags == flags[..|flags| - 1] + [flags[|flags| - 1]];
    }
  }

  lemma {:induction false} PartConcat(side: Side, a: seq<Flag>, b: seq<Flag>, c: nat)
    ensures Part(side, a + b, c) == Part(side, a, c) + Part(side, b, c)
  {
    hide On;
    if b == [] {
      assert a + b == a;
    } else {
      var f := b[|b| - 1];
      assert (a + b)[..|a + b| - 1] == a + b[..|b| - 1];
      PartConcat(side, a, b[..|b| - 1], c);
      var own := if On(side, f.index, c) then [f] else [];
      assert Part(side, a, c) + (Part(side, b[..|b| - 1], c) + own) ==
          Part(side, a, c) + Part(side, b[..|b| - 1], c) + own;
    }
  }

  lemma {:induction false} InsertBefore(low: seq<Flag>, high: seq<Flag>, f: Flag)
    requires forall g :: g in high ==> f.index < g.index
    ensures InsertBy(low + high, f, FlagIndex) == InsertBy(low, f, FlagIndex) + high
  {
    var s := low + high;
    if low == [] {
      assert s == high;
      if high != [] { assert high[0] in high; }
    } else {
      assert s[0] == low[0] && s[1..] == low[1..] + high;
      InsertBefore(low[1..], high, f);
    }
  }

  lemma {:induction false} InsertAfter(low: seq<Flag>, high: seq<Flag>, f: Flag)
    requires forall g :: g in low ==> g.index <= f.index
    ensures InsertBy(low + high, f, FlagIndex) == low + InsertBy(high, f, FlagIndex)
  {
    var s := low + high;
    if low == [] {
      assert s == high;
    } else {
      assert low[0] in low && s[0] == low[0] && s[1..] == low[1..] + high;
      InsertAfter(low[1..], high, f);
      assert [low[0]] + (low[1..] + InsertBy(high, f, FlagIndex)) == low + InsertBy(high, f, FlagIndex);
    }
  }

  lemma {:induction false} InsertFirst(high: seq<Flag>, f: Flag)
    requires forall g :: g in high ==> f.index < g.index
    ensures InsertBy(high, f, FlagIndex) == [f] + high
  {
    if high != [] { assert high[0] in high; }
  }

  /** The flags on one side, sorted. */
  function Sorted(side: Side, flags: seq<Flag>, c: nat): seq<Flag> {
    SortBy(Part(side, flags, c), FlagIndex)
  }

  lemma {:induction false} SortedMembers(side: Side, flags: seq<Flag>, c: nat, f: Flag)
    ensures f in Sorted(side, flags, c) <==> f in flags && On(side, f.index, c)
  {
    SortByMembers(Part(side, flags, c), FlagIndex);
    PartMembers(side, flags, c, f);
  }

  lemma {:induction false} SortedNext(side: Side, flags: seq<Flag>, c: nat)
    requires flags != []
    ensures var prefix, f := flags[..|flags| - 1], flags[|flags| - 1];
            Sorted(side, flags, c) ==
            if On(side, f.index, c) then InsertBy(Sorted(side, prefix, c), f, FlagIndex) else Sorted(side, prefix, c)
  {
    var prefix, f := flags[..|flags| - 1], flags[|flags| - 1];
    var before := Part(side, prefix, c);
    assert (before + [f])[..|before|] == before && before + [] == before;
  }

  lemma {:induction false} InsertAround(prefix: seq<Flag>, f: Flag, c: nat)
    ensures var low, mid, high := Sorted(Below, prefix, c), Part(At, prefix, c), Sorted(Above, prefix, c);
            InsertBy(low + mid + high, f, FlagIndex) ==
            if f.index < c then InsertBy(low, f, FlagIndex) + mid + high
            else if f.index == c then low + (mid + [f]) + high
            else low + mid + InsertBy(high, f, FlagIndex)
  {
    var low, mid, high := Sorted(Below, prefix, c), Part(At, prefix, c), Sorted(Above, prefix, c);
    hide Sorted, Part, InsertBy;
    forall g ensures (g in low ==> g.index < c) && (g in mid ==> g.index == c) && (g in high ==> g.index > c) {
      SortedMembers(Below, prefix, c, g);
      PartMembers(At, prefix, c, g);
      SortedMembers(Above, prefix, c, g);
    }
    if f.index < c {
      assert low + mid + high == low + (mid + high);
      InsertBefore(low, mid + high, f);
    } else {
      InsertAfter(low + mid, high, f);
      if f.index == c { InsertFirst(high, f); }
    }
  }

  /** A stable sort puts what has position `c` between the rest, in the order it was given. */
  lemma {:induction false} SortAround(flags: seq<Flag>, c: nat)
    ensures SortBy(flags, FlagIndex) == Sorted(Below, flags, c) + Part(At, flags, c) + Sorted(Above, flags, c)
  {
    if flags != [] {
      var prefix, f := flags[..|flags| - 1], flags[|flags| - 1];
      assert SortBy(flags, FlagIndex) == InsertBy(SortBy(prefix, FlagIndex), f, FlagIndex);
      assert Part(At, flags, c) == Part(At, prefix, c) + if On(At, f.index, c) then [f] else [];
      hide SortBy, InsertBy, Part, Sorted;
      SortAround(prefix, c);
      SortedNext(Below, flags, c);
      SortedNext(Above, flags, c);
      InsertAround(prefix, f, c);
      assert Part(At, prefix, c) + [] == Part(At, prefix, c);
    }
  }

  /** Without settings on the command line everything counts; otherwise what follows the combined override. */
  function Later(line: CommandLine): seq<Flag> {
    var combined := Combined(line.Contributions());
    if combined == [] then SortBy(line.Plain() + line.others, FlagIndex)
    else
      var c := combined[0].index;
      Part(At, line.others, c) + Sorted(Above, line.Plain() + line.others, c)
  }

  /**
   What comes later, by position: the files and plain values after the last setting, and the other overrides at or
   after it.
   */
  lemma {:induction false} LaterByPosition(line: CommandLine, f: Flag)
    requires line.Contributions() != []
    ensures var c := Combined(line.Contributions())[0].index;
            f in Later(line) <==> (f in line.Plain() && f.index > c) || (f in line.others && f.index >= c)
  {
    var c := Combined(line.Contributions())[0].index;
    SortedMembers(Above, line.Plain() + line.others, c, f);
    PartMembers(At, line.others, c, f);
  }

  lemma {:induction false} OwnPart(f: Flag)
    ensures Part(At, [f], f.index) == [f] && Part(Above, [f], f.index) == []
  {
    assert [f][..0] == [];
  }

  lemma {:induction false} PartsMerged(plain: seq<Flag>, f: Flag, others: seq<Flag>)
    ensures Part(At, plain + [f] + others, f.index) == Part(At, plain, f.index) + [f] + Part(At, others, f.index)
    ensures Part(Above, plain + [f] + others, f.index) == Part(Above, plain + others, f.index)
  {
    OwnPart(f);
    hide Part;
    PartConcat(At, plain + [f], others, f.index);
    PartConcat(At, plain, [f], f.index);
    PartConcat(Above, plain + [f], others, f.index);
    PartConcat(Above, plain, [f], f.index);
    PartConcat(Above, plain, others, f.index);
    assert Part(Above, plain, f.index) + [] == Part(Above, plain, f.index);
  }

  lemma {:induction false} Regroup(a: seq<Flag>, b: seq<Flag>, c: seq<Flag>, d: seq<Flag>, e: seq<Flag>)
    ensures a + (b + c + d) + e == a + b + c + (d + e)
  {
  }

  /** The sorted overrides end with the combined one and what is later. */
  lemma {:induction false} MergedSplits(plain: seq<Flag>, f: Flag, others: seq<Flag>)
    ensures var c := f.index;
            SortBy(plain + [f] + others, FlagIndex) ==
            Sorted(Below, plain + [f] + others, c) + Part(At, plain, c) + [f]
            + (Part(At, others, c) + Sorted(Above, plain + others, c))
  {
    var c, all := f.index, plain + [f] + others;
    SortAround(all, c);
    PartsMerged(plain, f, others);
    hide Part, SortBy;
    assert Sorted(Above, all, c) == Sorted(Above, plain + others, c);
    hide Sorted;
    Regroup(Sorted(Below, all, c), Part(At, plain, c), [f], Part(At, others, c), Sorted(Above, plain + others, c));
  }

  /** The merged overrides are what comes before the combined one, that one, and what comes later. */
  lemma {:induction false} MergedParts(line: CommandLine) returns (front: seq<Flag>)
    requires line.Contributions() != []
    ensures line.Merged() == front + [Combined(line.Contributions())[0]] + Later(line)
  {
    var f := Combined(line.Contributions())[0];
    assert line.Gathered() == line.Plain() + [f] + line.others;
    MergedSplits(line.Plain(), f, line.others);
    front := Sorted(Below, line.Plain() + [f] + line.others, f.index) + Part(At, line.Plain(), f.index);
  }

  lemma {:induction false} MergedAlone(line: CommandLine)
    requires line.Contributions() == []
    ensures line.Merged() == Later(line)
  {
    hide SortBy, Sorted, Part, ContributionsOf, PlainOf;
    assert Combined([]) == [];
    assert line.Gathered() == line.Plain() + line.others;
  }

  // ----- The last word on a key -----

  ghost predicate Mentions(labels: Labels, c: Contribution, key: string) {
    LastFor(labels, c.settings, key).Some?
  }

  /** The contribution at `p` is the last one, in command-line order, that mentions the key. */
  ghost predicate LastMention(labels: Labels, sorted: seq<Contribution>, p: nat, key: string) {
    p < |sorted| && Mentions(labels, sorted[p], key)
      && forall q :: p < q < |sorted| ==> !Mentions(labels, sorted[q], key)
  }

  /** The last word on a key belongs to the last contribution, in command-line order, that mentions it. */
  lemma {:induction false} LatestMentionWins(labels: Labels, sorted: seq<Contribution>, p: nat, key: string)
    requires LastMention(labels, sorted, p, key)
    ensures LastFor(labels, AllSettings(sorted), key) == LastFor(labels, sorted[p].settings, key)
  {
    var n := |sorted| - 1;
    LastForConcat(labels, AllSettings(sorted[..n]), sorted[n].settings, key);
    if p < n {
      assert !Mentions(labels, sorted[n], key);
      LatestMentionWins(labels, sorted[..n], p, key);
    }
  }

  lemma {:induction false} LastMentionIsLatest(labels: Labels, contributions: seq<Contribution>, p: nat, key: string)
    requires LastMention(labels, SortBy(contributions, ContributionIndex), p, key)
    ensures var latest := SortBy(contributions, ContributionIndex)[p];
            forall c :: c in contributions && Mentions(labels, c, key) ==> c.index <= latest.index
  {
    hide Mentions;
    var sorted := SortBy(contributions, ContributionIndex);
    SortByMembers(contributions, ContributionIndex);
    forall c | c in contributions && Mentions(labels, c, key) ensures c.index <= sorted[p].index {
      assert c in sorted;
      var q :| 0 <= q < |sorted| && sorted[q] == c;
      assert q <= p && ContributionIndex(sorted[q]) <= ContributionIndex(sorted[p]);
    }
  }

  lemma {:induction false} SortOne(c: Contribution)
    ensures SortBy([c], ContributionIndex) == [c] && AllSettings([c]) == c.settings
  {
    assert [c][..0] == [] && [] + c.settings == c.settings;
  }

  lemma {:induction false} SortTwo(later: Flag, earlier: Flag)
    requires earlier.index < later.index
    ensures SortBy([later, earlier], FlagIndex) == [earlier, later]
  {
    assert [later, earlier][..1] == [later] && [later][..0] == [];
    assert SortBy([later], FlagIndex) == InsertBy([], later, FlagIndex) == [later];
  }
}
