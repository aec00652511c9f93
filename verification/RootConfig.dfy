/**
 What the daemon makes of the overrides, as far as the command-line build settings are concerned: parsing, application
 and reading of the root config, app/bz_common/src/legacy_configs (args.rs, configs.rs and parser.rs) and
 app/bz_configured/src/bazel/command_line_options.rs.
 */
module RootConfig {
  import opened Collections
  import opened SettingEntries
  import opened ConfigOverrides
  import opened ConfigReferences
  import Chains

  // ----- One override -----

  /** A parsed `section.key=value`; an empty value unsets the key. */
  datatype Assignment = Assignment(section: string, key: string, value: Option<string>)

  /** `resolve_config_flag_arg`. */
  function ResolveFlag(raw: string): Option<Assignment> {
    var parts := AtChar(raw, '=');
    if parts.None? then None
    else
      var name := SectionAndKey(parts.value.0);
      if name.None? then None
      else Some(Assignment(name.value.0, name.value.1, if parts.value.1 == "" then None else Some(parts.value.1)))
  }

  const SECTION := "bazel"
  const KEY := "command_line_build_settings"
  const PROPERTY: Name := (SECTION, KEY)

  /**
   What the root config is built from besides the overrides: its values before them, and those of each config file.
   */
  datatype Daemon = Daemon(root: string, config: Config, files: map<Override, Config>)

  function Find(c: Config): Option<string> { if PROPERTY in c then Some(c[PROPERTY]) else None }

  predicate IsBanned(section: string) { section == "repositories" || section == "cells" }

  /** `apply_config_arg`, and the reading of a config file; `None` is an error. */
  function Applied(d: Daemon, c: Config, o: Override): Option<Config> {
    if o.isFile then Some(if o in d.files then c + d.files[o] else c)
    else
      var a := ResolveFlag(o.text);
      if a.None? || IsBanned(a.value.section) then None
      else if o.cell.Some? && o.cell.value != d.root then Some(c)
      else
        var name := (a.value.section, a.value.key);
        Some(if a.value.value.Some? then c[name := a.value.value.value] else c - {name})
  }

  /** What an override does to the property. */
  datatype Effect = Leaves | Sets(value: Option<string>) | Fails

  function EffectOf(d: Daemon, o: Override): Effect {
    if o.isFile then if o in d.files && PROPERTY in d.files[o] then Sets(Some(d.files[o][PROPERTY])) else Leaves
    else
      var a := ResolveFlag(o.text);
      if a.None? || IsBanned(a.value.section) then Fails
      else if (o.cell.None? || o.cell.value == d.root) && (a.value.section, a.value.key) == PROPERTY
        then Sets(a.value.value)
      else Leaves
  }

  lemma {:induction false} EffectOnProperty(d: Daemon, c: Config, o: Override)
    ensures Applied(d, c, o).None? <==> EffectOf(d, o).Fails?
    ensures Applied(d, c, o).Some? ==>
              Find(Applied(d, c, o).value) == if EffectOf(d, o).Sets? then EffectOf(d, o).value else Find(c)
  {
    hide ResolveFlag;
  }

  lemma {:induction false} TrimBlanks(blanks: string, s: string)
    requires forall i :: 0 <= i < |blanks| ==> IsWhitespace(blanks[i])
    requires s == "" || !IsWhitespace(s[0])
    ensures TrimStart(blanks + s) == s
  {
    if blanks == "" {
      assert blanks + s == s;
    } else {
      assert (blanks + s)[0] == blanks[0] && (blanks + s)[1..] == blanks[1..] + s;
      TrimBlanks(blanks[1..], s);
    }
  }

  lemma {:induction false} PartsOfPrefix()
    ensures SETTINGS_PREFIX == SECTION + "." + KEY + "="
  {
  }

  lemma {:induction false} KeyHasNoBlanks()
    ensures !HasWhitespace(KEY)
  {
  }

  lemma {:induction false} NameOfProperty()
    ensures SETTINGS_PREFIX == SECTION + "." + KEY + "=" && '.' !in SECTION && '=' !in SECTION + "." + KEY
    ensures !HasWhitespace(SECTION) && !HasWhitespace(KEY)
  {
    PartsOfPrefix();
    KeyHasNoBlanks();
  }

  lemma {:induction false} FirstOfSection()
    ensures !IsWhitespace(SECTION[0])
  {
  }

  lemma {:induction false} NoneInBlanks(blanks: string, c: char)
    requires forall i :: 0 <= i < |blanks| ==> IsWhitespace(blanks[i])
    requires c == '=' || c == '.'
    ensures c !in blanks
  {
  }

  /** Blanks before the section do not matter. */
  lemma {:induction false} ResolveProperty(blanks: string, value: string)
    requires forall i :: 0 <= i < |blanks| ==> IsWhitespace(blanks[i])
    ensures ResolveFlag(blanks + SETTINGS_PREFIX + value) ==
            Some(Assignment(SECTION, KEY, if value == "" then None else Some(value)))
  {
    NameOfProperty();
    hide IsWhitespace, HasWhitespace, TrimStart;
    var name := blanks + SECTION + "." + KEY;
    assert blanks + SETTINGS_PREFIX + value == name + ['='] + value;
    NoneInBlanks(blanks, '=');
    NoneInBlanks(blanks, '.');
    assert name == blanks + (SECTION + "." + KEY);
    AtCharOf(name, '=', value);
    assert name == (blanks + SECTION) + ['.'] + KEY;
    AtCharOf(blanks + SECTION, '.', KEY);
    FirstOfSection();
    TrimBlanks(blanks, SECTION);
  }

  /** Apart from blanks before it, only the text that the client takes for build settings sets the property. */
  lemma {:induction false} SetterIsSettings(raw: string)
    requires ResolveFlag(raw).Some? && ResolveFlag(raw).value.section == SECTION && ResolveFlag(raw).value.key == KEY
    requires !IsWhitespace(raw[0])
    ensures SETTINGS_PREFIX <= raw
  {
    AtCharSplits(raw, '=');
    var name := AtChar(raw, '=').value.0;
    AtCharSplits(name, '.');
    var section := AtChar(name, '.').value.0;
    NameOfProperty();
    assert raw[0] == name[0] && (section != "" ==> name[0] == section[0]);
    assert TrimStart(section) == section;
    assert raw[..|SETTINGS_PREFIX|] == SETTINGS_PREFIX;
  }

  /** A plain `--config` value sets the property only if it names the root cell or has blanks in front. */
  lemma {:induction false} PlainSetter(d: Daemon, v: ConfigValue)
    requires SettingsIn(v).None? && EffectOf(d, Override(v.cell, v.raw, false)).Sets?
    ensures v.cell == Some(d.root) || (v.cell.None? && v.raw != "" && IsWhitespace(v.raw[0]))
  {
    if v.cell.None? && !IsWhitespace(v.raw[0]) {
      SetterIsSettings(v.raw);
      assert false;
    }
  }

  // ----- All overrides -----

  /** The values after the given overrides; `None` if one of them is refused. */
  function ConfigAfter(d: Daemon, flags: seq<Flag>): Option<Config> {
    if flags == [] then Some(d.config)
    else
      var before := ConfigAfter(d, flags[..|flags| - 1]);
      if before.None? then None else Applied(d, before.value, flags[|flags| - 1].override)
  }

  /** The property after the given overrides; `None` if one of them is refused. */
  function ValueAfter(d: Daemon, start: Option<string>, flags: seq<Flag>): Option<Option<string>> {
    if flags == [] then Some(start)
    else
      var before := ValueAfter(d, start, flags[..|flags| - 1]);
      if before.None? then None
      else
        match EffectOf(d, flags[|flags| - 1].override)
        case Leaves => before
        case Sets(v) => Some(v)
        case Fails => None
  }

  /** The property follows the overrides that set it, whatever happens to the other keys. */
  lemma {:induction false} PropertyAfter(d: Daemon, flags: seq<Flag>)
    ensures ConfigAfter(d, flags).Some? <==> ValueAfter(d, Find(d.config), flags).Some?
    ensures ConfigAfter(d, flags).Some? ==>
            Some(Find(ConfigAfter(d, flags).value)) == ValueAfter(d, Find(d.config), flags)
  {
    hide Applied, EffectOf, Find;
    if flags != [] {
      var n := |flags| - 1;
      PropertyAfter(d, flags[..n]);
      var before := ConfigAfter(d, flags[..n]);
      if before.Some? { EffectOnProperty(d, before.value, flags[n].override); }
    }
  }

  lemma {:induction false} RefusedStays(d: Daemon, flags: seq<Flag>, i: nat)
    requires i <= |flags| && ConfigAfter(d, flags[..i]).None?
    ensures ConfigAfter(d, flags).None?
    decreases |flags| - i
  {
    if i == |flags| {
      assert flags[..i] == flags;
    } else {
      assert flags[..i + 1][..i] == flags[..i];
      RefusedStays(d, flags, i + 1);
    }
  }

  /** The resolved values; `None` if an override is refused or references cannot be resolved. */
  ghost function AfterResolution(d: Daemon, flags: seq<Flag>): Option<Config> {
    var config := ConfigAfter(d, flags);
    if config.None? then None else Resolved(config.value)
  }

  /** The loop over the overrides, then `finish`. */
  method FinishParse(d: Daemon, ghost flags: seq<Flag>, overrides: seq<Override>) returns (r: Option<Config>)
    requires overrides == Overrides(flags)
    ensures r == AfterResolution(d, flags)
  {
    hide Applied, Resolved;
    var config := d.config;
    for i := 0 to |overrides|
      invariant ConfigAfter(d, flags[..i]) == Some(config)
    {
      assert flags[..i + 1][..i] == flags[..i];
      var next := Applied(d, config, overrides[i]);
      if next.None? {
        RefusedStays(d, flags, i + 1);
        return None;
      }
      config := next.value;
    }
    assert flags[..|flags|] == flags;
    var resolver := new ConfigResolver(config);
    r := resolver.ResolveAll();
  }

  /** `bazel_config_lines`. */
  function LinesOf(value: Option<string>): seq<string> {
    if value.None? then [] else NonEmpty(SplitLines(value.value))
  }

  ghost predicate NoneFail(d: Daemon, flags: seq<Flag>) {
    forall f :: f in flags ==> !EffectOf(d, f.override).Fails?
  }

  /** The overrides are refused exactly if one of them is. */
  lemma {:induction false} RefusedIff(d: Daemon, start: Option<string>, flags: seq<Flag>)
    ensures ValueAfter(d, start, flags).None? <==> !NoneFail(d, flags)
  {
    if flags != [] {
      var prefix, f := flags[..|flags| - 1], flags[|flags| - 1];
      RefusedIff(d, start, prefix);
      assert flags == prefix + [f];
      assert f in flags;
    }
  }

  lemma {:induction false} ValueAfterConcat(d: Daemon, start: Option<string>, a: seq<Flag>, b: seq<Flag>)
    requires ValueAfter(d, start, a).Some?
    ensures ValueAfter(d, start, a + b) == ValueAfter(d, ValueAfter(d, start, a).value, b)
  {
    hide EffectOf;
    if b == [] {
      assert a + b == a;
    } else {
      assert (a + b)[..|a + b| - 1] == a + b[..|b| - 1];
      ValueAfterConcat(d, start, a, b[..|b| - 1]);
    }
  }

  /** The value given by the last override that sets the property, if any does. */
  function LastSetter(d: Daemon, flags: seq<Flag>): Option<Option<string>> {
    if flags == [] then None
    else
      var e := EffectOf(d, flags[|flags| - 1].override);
      if e.Sets? then Some(e.value) else LastSetter(d, flags[..|flags| - 1])
  }

  lemma {:induction false} LastSetterDecides(d: Daemon, start: Option<string>, flags: seq<Flag>)
    requires NoneFail(d, flags)
    ensures ValueAfter(d, start, flags) == Some(if LastSetter(d, flags).Some? then LastSetter(d, flags).value
            else start)
  {
    if flags != [] {
      var prefix, f := flags[..|flags| - 1], flags[|flags| - 1];
      assert flags == prefix + [f] && f in flags;
      assert NoneFail(d, prefix);
      LastSetterDecides(d, start, prefix);
    }
  }

  lemma {:induction false} NoSetterIff(d: Daemon, flags: seq<Flag>)
    ensures LastSetter(d, flags).None? <==> forall f :: f in flags ==> !EffectOf(d, f.override).Sets?
  {
    if flags != [] {
      var prefix, f := flags[..|flags| - 1], flags[|flags| - 1];
      assert flags == prefix + [f] && f in flags;
      NoSetterIff(d, prefix);
    }
  }

  // ----- What the daemon sees -----

  /** The entries the daemon finds in the property. */
  ghost function Seen(d: Daemon, flags: seq<Flag>): Option<seq<string>> {
    var resolved := AfterResolution(d, flags);
    if resolved.None? then None else Some(LinesOf(Find(resolved.value)))
  }

  /** The daemon's map of settings, from the overrides it was sent. */
  method DaemonSettings(labels: Labels, d: Daemon, ghost flags: seq<Flag>, overrides: seq<Override>)
    returns (r: Option<Settings>)
    requires overrides == Overrides(flags)
    ensures r == if Seen(d, flags).None? then None else Apply(labels, Seen(d, flags).value)
  {
    var config := FinishParse(d, flags, overrides);
    if config.None? {
      return None;
    }
    r := ReadSettings(labels, LinesOf(Find(config.value)));
  }

  lemma {:induction false} CombinedSets(d: Daemon, settings: seq<string>)
    ensures var joined := JoinLines(settings);
            EffectOf(d, Override(None, Encode(settings), false)) == Sets(if joined == "" then None else Some(joined))
  {
    var joined := JoinLines(settings);
    ResolveProperty("", joined);
    assert "" + SETTINGS_PREFIX + joined == Encode(settings);
  }

  /** The entries of the combined override are the settings exactly if each is one nonempty line. */
  lemma {:induction false} CombinedLines(settings: seq<string>)
    ensures var joined := JoinLines(settings);
            LinesOf(if joined == "" then None else Some(joined)) == settings <==> AllLines(settings)
  {
    var joined := JoinLines(settings);
    EncodeParse(settings);
    assert Encode(settings)[|SETTINGS_PREFIX|..] == joined;
    if joined == "" { assert NonEmpty(SplitLines("")) == NonEmpty([""][1..]); }
  }

  /** What the settings of the command line put in the property, or what was there without any. */
  function Base(d: Daemon, contributions: seq<Contribution>): Option<string> {
    if contributions == [] then Find(d.config)
    else
      var joined := JoinLines(AllSettings(SortBy(contributions, ContributionIndex)));
      if joined == "" then None else Some(joined)
  }

  /** The text of the property once all overrides are applied, with its references. */
  function Text(d: Daemon, line: CommandLine): Option<string> {
    var later := LastSetter(d, Later(line));
    if later.Some? then later.value else Base(d, line.Contributions())
  }

  lemma {:induction false} DecidedAfter(d: Daemon, front: seq<Flag>, f: Flag, later: seq<Flag>, v: Option<string>)
    requires NoneFail(d, front + [f] + later) && EffectOf(d, f.override) == Sets(v)
    ensures ValueAfter(d, Find(d.config), front + [f] + later) ==
            Some(if LastSetter(d, later).Some? then LastSetter(d, later).value else v)
  {
    var start := Find(d.config);
    assert forall g :: g in front ==> g in front + [f] + later;
    assert forall g :: g in later ==> g in front + [f] + later;
    RefusedIff(d, start, front);
    assert (front + [f])[..|front|] == front;
    assert ValueAfter(d, start, front + [f]) == Some(v);
    ValueAfterConcat(d, start, front + [f], later);
    LastSetterDecides(d, v, later);
  }

  lemma {:induction false} TextIsLast(d: Daemon, line: CommandLine)
    requires NoneFail(d, line.Merged())
    ensures ValueAfter(d, Find(d.config), line.Merged()) == Some(Text(d, line))
  {
    var contributions := line.Contributions();
    if contributions == [] {
      MergedAlone(line);
      LastSetterDecides(d, Find(d.config), line.Merged());
    } else {
      CombinedSets(d, AllSettings(SortBy(contributions, ContributionIndex)));
      var front := MergedParts(line);
      hide CommandLine.Merged, Later, EffectOf, ValueAfter, LastSetter;
      DecidedAfter(d, front, Combined(contributions)[0], Later(line), Base(d, contributions));
    }
  }

  /** The values as they stand before references are resolved. */
  function Unresolved(d: Daemon, line: CommandLine): Config {
    var config := ConfigAfter(d, line.Merged());
    if config.None? then map[] else config.value
  }

  lemma {:induction false} NoLines()
    ensures LinesOf(None) == []
  {
  }

  /**
   All settings of the command line act as one: what the daemon reads is their text, or what is set later, with every
   reference replaced; nothing if some reference of the whole config cannot be.
   */
  lemma {:induction false} SettingsCollapse(d: Daemon, line: CommandLine)
    requires NoneFail(d, line.Merged())
    ensures var config := Unresolved(d, line);
            && ConfigAfter(d, line.Merged()) == Some(config) && Find(config) == Text(d, line)
            && Seen(d, line.Merged()) ==
               (if !Resolvable(config) then None
                else if Text(d, line).None? then Some([])
                else Some(LinesOf(Some(Substitute(Text(d, line).value, Resolved(config).value)))))
  {
    hide Resolvable, Substitute, EffectOf, Text, LinesOf;
    TextIsLast(d, line);
    PropertyAfter(d, line.Merged());
    NoLines();
  }

  /**
   The daemon sees exactly the settings given on the command line, in command-line order, if and only if all references
   can be resolved and: where nothing later sets the property and no setting holds a reference, each setting is one
   nonempty line; otherwise, what the text stands for has the same lines.
   */
  lemma {:induction false} DaemonSeesAllIff(d: Daemon, line: CommandLine)
    requires NoneFail(d, line.Merged()) && line.Contributions() != []
    ensures var given, config, later := line.Given(), Unresolved(d, line), LastSetter(d, Later(line));
            Seen(d, line.Merged()) == Some(given) <==>
            && Resolvable(config)
            && if later.None? && !HasReference(JoinLines(given)) then AllLines(given)
               else LinesOf(Find(Resolved(config).value)) == given
  {
    var given, config := line.Given(), Unresolved(d, line);
    SettingsCollapse(d, line);
    CombinedLines(given);
    if Resolvable(config) && LastSetter(d, Later(line)).None? && !HasReference(JoinLines(given)) {
      NoReference(JoinLines(given), Resolved(config).value);
    }
    NoLines();
    hide CommandLine.Merged, Later, LastSetter, ConfigAfter, NoneFail, LinesOf, AllLines, Resolvable, Substitute,
         JoinLines, HasReference;
  }

  /** No override positioned after the settings sets the property. */
  ghost predicate NothingLater(d: Daemon, line: CommandLine) {
    var c := Combined(line.Contributions());
    && (forall f :: c != [] && f in line.Plain() && f.index > c[0].index ==> !EffectOf(d, f.override).Sets?)
    && (forall f :: c != [] && f in line.others && f.index >= c[0].index ==> !EffectOf(d, f.override).Sets?)
  }

  lemma {:induction false} NoLaterSetter(d: Daemon, line: CommandLine)
    requires line.Contributions() != []
    ensures LastSetter(d, Later(line)).None? <==> NothingLater(d, line)
  {
    NoSetterIff(d, Later(line));
    hide Later, LastSetter, EffectOf;
    forall f ensures f in Later(line) <==>
                     var c := Combined(line.Contributions())[0].index;
                     (f in line.Plain() && f.index > c) || (f in line.others && f.index >= c)
    {
      LaterByPosition(line, f);
    }
  }

  /** Nothing is lost on the way to the daemon if nothing later sets the property and no setting holds a reference. */
  lemma {:induction false} DaemonSeesAll(d: Daemon, line: CommandLine)
    requires NoneFail(d, line.Merged()) && line.Contributions() != [] && Resolvable(Unresolved(d, line))
    requires NothingLater(d, line) && AllLines(line.Given()) && !HasReference(JoinLines(line.Given()))
    ensures Seen(d, line.Merged()) == Some(line.Given())
  {
    NoLaterSetter(d, line);
    DaemonSeesAllIff(d, line);
  }

  // ----- References -----

  function Dollars(s: string): nat { if s == "" then 0 else (if s[0] == '$' then 1 else 0) + Dollars(s[1..]) }

  function AllDollars(lines: seq<string>): nat {
    if lines == [] then 0 else Dollars(lines[0]) + AllDollars(lines[1..])
  }

  lemma {:induction false} DollarsConcat(a: string, b: string)
    ensures Dollars(a + b) == Dollars(a) + Dollars(b)
  {
    if a == "" {
      assert a + b == b;
    } else {
      assert (a + b)[0] == a[0] && (a + b)[1..] == a[1..] + b;
      DollarsConcat(a[1..], b);
    }
  }

  lemma {:induction false} NoDollars(s: string)
    requires '$' !in s
    ensures Dollars(s) == 0
  {
    if s != "" {
      assert s[0] in s && forall c :: c in s[1..] ==> c in s;
      NoDollars(s[1..]);
    }
  }

  lemma {:induction false} DollarsOfJoined(lines: seq<string>)
    ensures Dollars(JoinLines(lines)) == AllDollars(lines)
  {
    if |lines| == 1 {
      assert lines[1..] == [];
    } else if |lines| > 1 {
      DollarsOfJoined(lines[1..]);
      DollarsConcat(lines[0] + "\n", JoinLines(lines[1..]));
      DollarsConcat(lines[0], "\n");
      assert Dollars("\n") == Dollars("\n"[1..]) == 0;
    }
  }

  lemma {:induction false} DollarsOfSplit(s: string)
    ensures AllDollars(SplitLines(s)) == Dollars(s)
  {
    if s == "" {
      assert [""][1..] == [];
    } else {
      DollarsOfSplit(s[1..]);
      var rest, all := SplitLines(s[1..]), SplitLines(s);
      if s[0] == '\n' {
        assert all[1..] == rest;
      } else {
        assert all[1..] == rest[1..] && all[0][0] == s[0] && all[0][1..] == rest[0];
      }
    }
  }

  lemma {:induction false} DollarsOfNonEmpty(lines: seq<string>)
    ensures AllDollars(NonEmpty(lines)) == AllDollars(lines)
  {
    if lines != [] {
      DollarsOfNonEmpty(lines[1..]);
      if lines[0] == "" {
        assert NonEmpty(lines) == NonEmpty(lines[1..]) && Dollars("") == 0;
      } else {
        assert NonEmpty(lines)[1..] == NonEmpty(lines[1..]) && NonEmpty(lines)[0] == lines[0];
      }
    }
  }

  lemma {:induction false} DollarsOfLines(s: string)
    ensures AllDollars(NonEmpty(SplitLines(s))) == Dollars(s)
  {
    DollarsOfSplit(s);
    DollarsOfNonEmpty(SplitLines(s));
  }

  /** No value but that of the property has a dollar sign, so none holds a reference. */
  ghost predicate PlainElsewhere(c: Config) {
    forall k :: k in c && k != PROPERTY ==> '$' !in c[k]
  }

  lemma {:induction false} ReplacedSnoc(captures: seq<Capture>, env: Config)
    requires captures != []
    ensures var n := |captures| - 1;
            Replaced(captures, env) ==
              Replaced(captures[..n], env) + captures[n].before + ValueOf(env, captures[n].name)
  {
  }

  lemma {:induction false} ReplacedFront(first: Capture, rest: seq<Capture>, env: Config)
    ensures Replaced([first] + rest, env) == first.before + ValueOf(env, first.name) + Replaced(rest, env)
  {
    hide ValueOf;
    var all, head := [first] + rest, first.before + ValueOf(env, first.name);
    if rest == [] {
      assert all == [first] && all[..0] == [];
      assert "" + first.before + ValueOf(env, first.name) == head + "";
    } else {
      var n := |rest| - 1;
      ReplacedFront(first, rest[..n], env);
      assert all[..n + 1] == [first] + rest[..n] && all[n + 1] == rest[n];
      ReplacedSnoc(all, env);
      ReplacedSnoc(rest, env);
      hide Replaced;
      var before, v := rest[n].before, ValueOf(env, rest[n].name);
      assert head + Replaced(rest[..n], env) + before + v == head + (Replaced(rest[..n], env) + before + v);
    }
  }

  lemma {:induction false} SubstituteFront(s: string, env: Config)
    requires HasReference(s)
    ensures var (before, name, after) := FirstReference(s).value;
            Substitute(s, env) == before + ValueOf(env, name) + Substitute(after, env)
  {
    var (before, name, after) := FirstReference(s).value;
    ReplacedFront(Capture(before, name), Captures(after), env);
    hide Replaced, ValueOf;
    var v, r, t := before + ValueOf(env, name), Replaced(Captures(after), env), Tail(after);
    assert v + r + t == v + (r + t);
  }

  lemma {:induction false} ValueHasNoDollars(s: string, env: Config, first: Capture)
    requires Captures(s) != [] && Captures(s)[0] == first
    requires forall k :: k in env && Names(Captures(s), k) ==> '$' !in env[k]
    ensures Dollars(ValueOf(env, first.name)) == 0
  {
    hide Captures;
    var k := SectionAndKey(first.name);
    if k.Some? && k.value in env {
      assert Names(Captures(s), k.value);
      NoDollars(env[k.value]);
    }
  }

  lemma {:induction false} ReferenceCounts(s: string)
    requires HasReference(s)
    ensures var (before, _, after) := FirstReference(s).value;
            Dollars(before) + 1 + Dollars(after) <= Dollars(s)
  {
    var (before, name, after) := FirstReference(s).value;
    ReferenceSplits(s);
    assert s == before + (MARK + (name + ")" + after)) && MARK[0] == '$' && Dollars(MARK) >= 1;
    DollarsConcat(before, MARK + (name + ")" + after));
    DollarsConcat(MARK, name + ")" + after);
    DollarsConcat(name + ")", after);
  }

  /** Replacing a reference by a text without dollar signs takes one away. */
  lemma {:induction false} DollarsLost(s: string, env: Config)
    requires forall k :: k in env && Names(Captures(s), k) ==> '$' !in env[k]
    ensures Dollars(Substitute(s, env)) + |Captures(s)| <= Dollars(s)
    decreases |s|
  {
    if HasReference(s) {
      var (before, name, after) := FirstReference(s).value;
      var first, rest := Capture(before, name), Captures(after);
      assert Captures(s) == [first] + rest;
      forall k | k in env && Names(rest, k) ensures '$' !in env[k] {
        var i :| 0 <= i < |rest| && SectionAndKey(rest[i].name) == Some(k);
        assert Captures(s)[i + 1] == rest[i];
        assert Names(Captures(s), k);
      }
      DollarsLost(after, env);
      ReplacedFront(first, rest, env);
      ValueHasNoDollars(s, env, first);
      hide Captures, Replaced, ValueOf, Dollars;
      var v := ValueOf(env, name);
      SubstituteFront(s, env);
      DollarsConcat(before + v, Substitute(after, env));
      DollarsConcat(before, v);
      ReferenceCounts(s);
    } else {
      NoReference(s, env);
    }
  }

  /** All references of a text name keys, and none the property itself. */
  ghost predicate Replaceable(s: string) {
    WellNamed(Captures(s)) && !Names(Captures(s), PROPERTY)
  }

  /** Where no other value has a dollar sign, the config resolves exactly if the property names keys, and not itself. */
  lemma {:induction false} ResolvablePlain(c: Config)
    requires PlainElsewhere(c)
    ensures Resolvable(c) <==> (PROPERTY in c ==> Replaceable(c[PROPERTY]))
  {
    forall k | k in c && k != PROPERTY ensures Captures(c[k]) == [] {
      if HasReference(c[k]) { ReferenceHasDollar(c[k]); }
      SomeCapture(c[k]);
    }
    hide Captures;
    if PROPERTY in c && Names(Captures(c[PROPERTY]), PROPERTY) {
      assert (PROPERTY, PROPERTY) in References(c);
      assert Chains.Cycle(References(c), [PROPERTY, PROPERTY]);
    }
    if PROPERTY in c ==> !Names(Captures(c[PROPERTY]), PROPERTY) {
      Chains.OneSource(References(c), PROPERTY);
    }
  }

  /** There, one replacement by the values as written is all it takes. */
  lemma {:induction false} ResolvedPlain(c: Config)
    requires PlainElsewhere(c) && Resolvable(c) && PROPERTY in c
    ensures PROPERTY in Resolved(c).value && Resolved(c).value[PROPERTY] == Substitute(c[PROPERTY], c)
  {
    ResolvablePlain(c);
    var env := Resolved(c).value;
    forall j | j in c && Names(Captures(c[PROPERTY]), j) ensures env[j] == c[j] {
      if HasReference(c[j]) { ReferenceHasDollar(c[j]); }
      NoReference(c[j], env);
    }
    hide Captures, Replaced;
    SameReplacement(c, Captures(c[PROPERTY]), env, c);
  }

  /** What a text that is set last stands for has exactly the given lines. */
  ghost predicate SaysSame(c: Config, text: Option<string>, given: seq<string>) {
    match text
    case None => given == []
    case Some(t) => Replaceable(t) && LinesOf(Some(Substitute(t, c))) == given
  }

  /** Settings that hold a reference never come back as they were given. */
  lemma {:induction false} ReferenceIsLost(c: Config, given: seq<string>)
    requires PlainElsewhere(c) && HasReference(JoinLines(given)) && Replaceable(JoinLines(given))
    ensures LinesOf(Some(Substitute(JoinLines(given), c))) != given
  {
    var t := JoinLines(given);
    DollarsLost(t, c);
    SomeCapture(t);
    DollarsOfJoined(given);
    DollarsOfLines(Substitute(t, c));
    hide Substitute, Dollars, AllDollars, Captures;
  }

  lemma {:induction false} PlainIsReplaceable(s: string)
    requires !HasReference(s)
    ensures Replaceable(s)
  {
    SomeCapture(s);
  }

  lemma {:induction false} JoinedText(d: Daemon, line: CommandLine)
    requires line.Contributions() != [] && LastSetter(d, Later(line)).None?
    ensures Text(d, line) == if JoinLines(line.Given()) == "" then None else Some(JoinLines(line.Given()))
    ensures !HasReference("")
  {
    hide Later, LastSetter, JoinLines;
  }

  /**
   Where no other value has a dollar sign, the condition can be read off the command line: the daemon sees exactly the
   settings given if and only if each is one nonempty line, together they hold no reference and nothing later sets the
   property; or else what is set last stands for the same lines.
   */
  lemma {:induction false} PlainConfigIff(d: Daemon, line: CommandLine)
    requires NoneFail(d, line.Merged()) && line.Contributions() != [] && PlainElsewhere(Unresolved(d, line))
    ensures Seen(d, line.Merged()) == Some(line.Given()) <==>
            if NothingLater(d, line) then AllLines(line.Given()) && !HasReference(JoinLines(line.Given()))
            else SaysSame(Unresolved(d, line), Text(d, line), line.Given())
  {
    var given, config := line.Given(), Unresolved(d, line);
    SettingsCollapse(d, line);
    NoLaterSetter(d, line);
    DaemonSeesAllIff(d, line);
    ResolvablePlain(config);
    if PROPERTY in config && Resolvable(config) { ResolvedPlain(config); }
    if NothingLater(d, line) { JoinedText(d, line); }
    if NothingLater(d, line) && HasReference(JoinLines(given)) && Replaceable(JoinLines(given)) {
      ReferenceIsLost(config, given);
    }
    if !HasReference(JoinLines(given)) { PlainIsReplaceable(JoinLines(given)); }
    hide CommandLine.Merged, Later, LastSetter, ConfigAfter, NoneFail, LinesOf, AllLines, Resolvable, Substitute,
         JoinLines, HasReference, Replaceable, NothingLater, PlainElsewhere, EffectOf, Seen;
  }

  // ----- Where settings are lost -----

  lemma {:induction false} OneSetting(s: string)
    requires IsLine(s)
    ensures Parse(SETTINGS_PREFIX + s) == Some([s]) && Encode([s]) == SETTINGS_PREFIX + s
            && NonEmpty(SplitLines(s)) == [s]
  {
    EncodeParse([s]);
    assert (SETTINGS_PREFIX + s)[|SETTINGS_PREFIX|..] == s;
  }

  /** Settings `a`, then a plain value that sets them to `b`: for the root cell, or with blanks in front. */
  function Twice(cell: Option<string>, blanks: string): seq<ConfigValue> {
    [ConfigValue(1, None, SETTINGS_PREFIX + "a"), ConfigValue(2, cell, blanks + SETTINGS_PREFIX + "b")]
  }

  lemma {:induction false} TwiceIsPlain(d: Daemon, cell: Option<string>, blanks: string)
    requires (cell == Some(d.root) && blanks == "") || (cell == None && blanks == " ")
    ensures ContributionsOf(Twice(cell, blanks)) == [Contribution(1, ["a"])]
    ensures PlainOf(Twice(cell, blanks)) == [Flag(2, Override(cell, blanks + SETTINGS_PREFIX + "b", false))]
    ensures EffectOf(d, Override(cell, blanks + SETTINGS_PREFIX + "b", false)) == Sets(Some("b"))
  {
    var values := Twice(cell, blanks);
    OneSetting("a");
    ResolveProperty(blanks, "b");
    assert values[..1] == [values[0]] && values[..1][..0] == [];
    var raw := blanks + SETTINGS_PREFIX + "b";
    if cell.None? {
      assert raw[0] == ' ' && SETTINGS_PREFIX[0] == 'b';
      assert !(SETTINGS_PREFIX <= raw) && raw != "fastbuild" && raw != "dbg" && raw != "opt";
    }
    assert SettingsIn(values[1]).None?;
    assert SettingsIn(values[0]) == Some(["a"]);
    hide SettingsIn;
    var before := ContributionsOf(values[..1]);
    assert before == ContributionsOf([]) + [Contribution(1, ["a"])] && PlainOf(values[..1]) == PlainOf([]) + [];
  }

  lemma {:induction false} TwiceMerged(d: Daemon, cell: Option<string>, blanks: string)
    requires (cell == Some(d.root) && blanks == "") || (cell == None && blanks == " ")
    ensures var line := CommandLine([], Twice(cell, blanks), [], []);
            && line.Given() == ["a"]
            && line.Merged() == [Flag(1, Override(None, Encode(["a"]), false)),
                                 Flag(2, Override(cell, blanks + SETTINGS_PREFIX + "b", false))]
  {
    var line := CommandLine([], Twice(cell, blanks), [], []);
    var first, second := Contribution(1, ["a"]), Flag(2, Override(cell, blanks + SETTINGS_PREFIX + "b", false));
    TwiceIsPlain(d, cell, blanks);
    hide Twice, EffectOf, ContributionsOf, PlainOf, Encode;
    assert line.Contributions() == [first];
    SortOne(first);
    var combined := Flag(1, Override(None, Encode(["a"]), false));
    assert line.Gathered() == [second, combined];
    SortTwo(second, combined);
  }

  lemma {:induction false} LastOfTwo(d: Daemon, a: Flag, b: Flag, v: Option<string>)
    requires !EffectOf(d, a.override).Fails? && EffectOf(d, b.override) == Sets(v)
    ensures NoneFail(d, [a, b]) && ValueAfter(d, Find(d.config), [a, b]) == Some(v)
  {
    hide EffectOf;
    assert [a, b][..1] == [a] && [a][..0] == [];
    assert ValueAfter(d, Find(d.config), [a]).Some?;
  }

  /** A text without a reference is read as it is. */
  lemma {:induction false} SeenPlain(d: Daemon, flags: seq<Flag>, text: string)
    requires ConfigAfter(d, flags).Some? && Resolvable(ConfigAfter(d, flags).value)
    requires Find(ConfigAfter(d, flags).value) == Some(text) && !HasReference(text)
    ensures Seen(d, flags) == Some(LinesOf(Some(text)))
  {
    NoReference(text, Resolved(ConfigAfter(d, flags).value).value);
    hide Resolvable, HasReference, ConfigAfter, Substitute, LinesOf;
  }

  lemma {:induction false} LetterIsPlain()
    ensures !HasReference("b")
  {
    if HasReference("b") { ReferenceHasDollar("b"); }
  }

  /** With either, the settings given first never reach the daemon. */
  lemma {:induction false} SettingsReplaced(d: Daemon, cell: Option<string>, blanks: string)
    requires (cell == Some(d.root) && blanks == "") || (cell == None && blanks == " ")
    ensures var line := CommandLine([], Twice(cell, blanks), [], []);
            && line.Given() == ["a"] && NoneFail(d, line.Merged())
            && (Resolvable(Unresolved(d, line)) ==> Seen(d, line.Merged()) == Some(["b"]))
  {
    var line := CommandLine([], Twice(cell, blanks), [], []);
    var second := Flag(2, Override(cell, blanks + SETTINGS_PREFIX + "b", false));
    TwiceIsPlain(d, cell, blanks);
    TwiceMerged(d, cell, blanks);
    CombinedSets(d, ["a"]);
    hide CommandLine.Merged, CommandLine.Given, Twice, EffectOf, Resolvable, HasReference, ConfigAfter, ValueAfter,
         NoneFail, Seen, JoinLines, ContributionsOf, PlainOf, Encode;
    LastOfTwo(d, line.Merged()[0], second, Some("b"));
    PropertyAfter(d, line.Merged());
    LetterIsPlain();
    OneSetting("b");
    if Resolvable(Unresolved(d, line)) { SeenPlain(d, line.Merged(), "b"); }
  }

  /** A command line that gives one setting and nothing else. */
  function Giving(setting: string): CommandLine {
    CommandLine([], [ConfigValue(1, None, SETTINGS_PREFIX + setting)], [], [])
  }

  lemma {:induction false} GivingMerged(setting: string)
    requires IsLine(setting)
    ensures var line := Giving(setting);
            && line.Given() == [setting] && line.Contributions() == [Contribution(1, [setting])]
            && line.Plain() == [] && line.others == []
            && line.Merged() == [Flag(1, Override(None, Encode([setting]), false))]
  {
    var line := Giving(setting);
    var c := Contribution(1, [setting]);
    OneSetting(setting);
    hide Parse, Encode;
    assert line.values[..0] == [];
    assert ContributionsOf(line.values) == ContributionsOf(line.values[..0]) + [c];
    assert PlainOf(line.values) == PlainOf(line.values[..0]) + [];
    hide ContributionsOf, PlainOf;
    assert line.Contributions() == [c];
    SortOne(c);
    var f := Flag(1, Override(None, Encode([setting]), false));
    assert line.Gathered() == [f];
    assert [f][..0] == [];
    assert SortBy([f], FlagIndex) == InsertBy(SortBy([f][..0], FlagIndex), f, FlagIndex) == [f];
  }

  lemma {:induction false} OneApplied(d: Daemon, setting: string)
    requires setting != ""
    ensures var f := Flag(1, Override(None, Encode([setting]), false));
            && NoneFail(d, [f]) && ConfigAfter(d, [f]) == Some(d.config[PROPERTY := setting])
  {
    var f := Flag(1, Override(None, Encode([setting]), false));
    ResolveProperty("", setting);
    assert "" + SETTINGS_PREFIX + setting == f.override.text;
    hide ResolveFlag, Encode;
    assert [f][..0] == [];
    assert ConfigAfter(d, [f]) == Applied(d, d.config, f.override);
  }

  lemma {:induction false} OneGiven(d: Daemon, setting: string)
    requires IsLine(setting)
    ensures var line := Giving(setting);
            && line.Given() == [setting] && line.Contributions() != [] && NoneFail(d, line.Merged())
              && NothingLater(d, line)
            && Unresolved(d, line) == d.config[PROPERTY := setting] && Text(d, line) == Some(setting)
  {
    var line := Giving(setting);
    GivingMerged(setting);
    OneApplied(d, setting);
    hide Giving, CommandLine.Merged, CommandLine.Given, CommandLine.Contributions, CommandLine.Plain, ConfigAfter,
         EffectOf, NoneFail, Encode, Combined, Text;
    SettingsCollapse(d, line);
  }

  const EMPTY := Daemon("", map[], map[])

  /** The setting of a label to the value of another config key. */
  function Referring(name: string): string { FormatEntry("string", "//p:s", MARK + name + ")") }

  lemma {:induction false} ReferringSplits(name: string)
    requires '\n' !in name
    ensures Referring(name) == "string\t//p:s\t" + MARK + name + ")" + "" && IsLine(Referring(name))
    ensures '$' !in "string\t//p:s\t"
  {
  }

  lemma {:induction false} ReferringFacts(name: string)
    requires ')' !in name && '\n' !in name && SectionAndKey(name).Some?
    ensures IsLine(Referring(name)) && HasReference(Referring(name))
    ensures Captures(Referring(name)) == [Capture("string\t//p:s\t", name)] && Tail(Referring(name)) == ""
  {
    var before := "string\t//p:s\t";
    ReferringSplits(name);
    FirstReferenceOf(before, name, "");
    assert FirstReference("").None?;
    hide FirstReference, SectionAndKey, Referring;
    assert Captures("") == [] && Captures(Referring(name)) == [Capture(before, name)] + Captures("");
  }

  lemma {:induction false} EntryIsLine()
    ensures IsLine(FormatEntry("string", "//p:s", ""))
  {
  }

  lemma {:induction false} NameParses()
    ensures SectionAndKey("a.b") == Some(("a", "b")) && ')' !in "a.b" && '\n' !in "a.b"
  {
    assert "a.b" == "a" + ['.'] + "b";
    AtCharOf("a", '.', "b");
    TrimBlanks("", "a");
    assert "" + "a" == "a";
  }

  lemma {:induction false} ReferringText(env: Config)
    requires ("a", "b") !in env
    ensures Substitute(Referring("a.b"), env) == FormatEntry("string", "//p:s", "")
  {
    var first := Capture("string\t//p:s\t", "a.b");
    NameParses();
    ReferringFacts("a.b");
    ReplacedFront(first, [], env);
    hide Captures, SectionAndKey, Referring, HasReference;
    assert [first] + [] == [first];
    assert FormatEntry("string", "//p:s", "") == first.before;
  }

  lemma {:induction false} ReferringIsReplaceable()
    ensures Replaceable(Referring("a.b")) && PROPERTY != ("a", "b")
  {
    NameParses();
    ReferringFacts("a.b");
    hide Captures, SectionAndKey, Referring, HasReference;
    assert |"a"| != |SECTION|;
  }

  lemma {:induction false} ReferringResolves(config: Config)
    requires config == map[PROPERTY := Referring("a.b")]
    ensures PlainElsewhere(config) && Resolvable(config)
    ensures Substitute(Referring("a.b"), Resolved(config).value) == FormatEntry("string", "//p:s", "")
  {
    hide Resolvable, Referring, Replaceable, Substitute, FormatEntry;
    ReferringIsReplaceable();
    ResolvablePlain(config);
    assert config.Keys == {PROPERTY};
    ReferringText(Resolved(config).value);
  }

  /** A setting that holds a reference is one nonempty line with nothing after it, and comes out changed. */
  lemma {:induction false} ReferenceReplaced()
    ensures var line := Giving(Referring("a.b"));
            && line.Given() == [Referring("a.b")] && NoneFail(EMPTY, line.Merged()) && NothingLater(EMPTY, line)
            && AllLines(line.Given()) && PlainElsewhere(Unresolved(EMPTY, line))
            && Seen(EMPTY, line.Merged()) == Some([FormatEntry("string", "//p:s", "")])
  {
    var setting, line := Referring("a.b"), Giving(Referring("a.b"));
    NameParses();
    ReferringFacts("a.b");
    OneGiven(EMPTY, setting);
    var config := Unresolved(EMPTY, line);
    ReferringResolves(config);
    var text := FormatEntry("string", "//p:s", "");
    assert Captures("") == [] by { assert FirstReference("").None?; }
    hide Captures, Giving, Referring, Substitute, Seen, Resolvable, NoneFail, NothingLater, ConfigAfter, Text,
         CommandLine.Merged, CommandLine.Given, HasReference, FormatEntry, Parse, Encode;
    SettingsCollapse(EMPTY, line);
    EntryIsLine();
    OneSetting(text);
  }

  lemma {:induction false} PropertyParses()
    ensures SectionAndKey(SECTION + "." + KEY) == Some(PROPERTY) && ')' !in SECTION + "." + KEY
            && '\n' !in SECTION + "." + KEY
  {
    NameOfProperty();
    FirstOfSection();
    AtCharOf(SECTION, '.', KEY);
    assert SECTION + ['.'] + KEY == SECTION + "." + KEY && "" + SECTION == SECTION;
    TrimBlanks("", SECTION);
    hide HasWhitespace, TrimStart, IsWhitespace;
  }

  /** A setting that refers to the settings themselves makes the daemon refuse the whole config. */
  lemma {:induction false} SelfReferenceFails()
    ensures var line := Giving(Referring(SECTION + "." + KEY));
            && NoneFail(EMPTY, line.Merged()) && NothingLater(EMPTY, line) && AllLines(line.Given())
            && Seen(EMPTY, line.Merged()) == None
  {
    var name := SECTION + "." + KEY;
    var setting, line := Referring(name), Giving(Referring(name));
    PropertyParses();
    ReferringFacts(name);
    OneGiven(EMPTY, setting);
    var config := Unresolved(EMPTY, line);
    assert Captures(setting)[0].name == name && Names(Captures(setting), PROPERTY);
    ResolvablePlain(config);
    SettingsCollapse(EMPTY, line);
    hide Captures, Giving, Referring, Seen, Resolvable, NoneFail, NothingLater, ConfigAfter;
  }

  // ----- From flags to settings -----

  /**
   From the command line to the daemon's map: a scalar is what the last contribution mentioning it says, a list holds
   every item since the last scalar, and nothing is lost on the way as long as every entry is one nonempty line without
   a reference and nothing after the settings sets the property.
   */
  lemma {:induction false} LatestFlagWins(labels: Labels, d: Daemon, line: CommandLine, p: nat, key: string)
    requires NoneFail(d, line.Merged()) && NothingLater(d, line) && Resolvable(Unresolved(d, line))
    requires AllLines(line.Given()) && !HasReference(JoinLines(line.Given()))
    requires Apply(labels, line.Given()).Some? && LastMention(labels, line.InOrder(), p, key)
    ensures var latest := line.InOrder()[p];
            var word := LastFor(labels, latest.settings, key).value.value;
            var seen := Seen(d, line.Merged());
            && seen.Some? && Apply(labels, seen.value).Some? && key in Apply(labels, seen.value).value
            && Apply(labels, seen.value).value[key] ==
               (if word.ListSetting? then ListSetting(ItemsFor(labels, line.Given(), key)) else word)
            && forall c :: c in line.Contributions() && Mentions(labels, c, key) ==> c.index <= latest.index
  {
    var sorted := line.InOrder();
    assert line.Contributions() != [] by {
      SortByMembers(line.Contributions(), ContributionIndex);
      assert sorted[p] in sorted;
    }
    DaemonSeesAll(d, line);
    LatestMentionWins(labels, sorted, p, key);
    SettingIsLast(labels, line.Given(), key);
    LastMentionIsLatest(labels, line.Contributions(), p, key);
  }
}
