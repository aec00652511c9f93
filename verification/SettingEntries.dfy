/**
 The build settings of a command line as text: the client's encoding (app/bz_client_ctx/src/common.rs) and the daemon's
 reading of it (app/bz_configured/src/bazel/command_line_options.rs).
 */
module SettingEntries {
  import opened Collections

  // ----- Encoding a list of settings -----

  const SETTINGS_PREFIX := "bazel.command_line_build_settings="

  function JoinLines(lines: seq<string>): string {
    if lines == [] then ""
    else if |lines| == 1 then lines[0]
    else lines[0] + "\n" + JoinLines(lines[1..])
  }

  /** Splits at every newline; there is always at least one piece. */
  function SplitLines(s: string): (r: seq<string>)
    ensures |r| > 0
  {
    if s == "" then [""]
    else
      var rest := SplitLines(s[1..]);
      if s[0] == '\n' then [""] + rest else [[s[0]] + rest[0]] + rest[1..]
  }

  function NonEmpty(lines: seq<string>): seq<string> {
    if lines == [] then [] else (if lines[0] == "" then [] else [lines[0]]) + NonEmpty(lines[1..])
  }

  /** `bazel_command_line_build_settings_override`. */
  function Encode(settings: seq<string>): string {
    SETTINGS_PREFIX + JoinLines(settings)
  }

  /** `parse_bazel_command_line_build_settings_override`. */
  function Parse(raw: string): Option<seq<string>> {
    if SETTINGS_PREFIX <= raw then Some(NonEmpty(SplitLines(raw[|SETTINGS_PREFIX|..]))) else None
  }

  ghost predicate IsLine(s: string) {
    s != "" && '\n' !in s
  }

  ghost predicate AllLines(texts: seq<string>) {
    forall i :: 0 <= i < |texts| ==> IsLine(texts[i])
  }

  lemma {:induction false} SplitOneLine(s: string, rest: string)
    requires '\n' !in s
    ensures SplitLines(s + "\n" + rest) == [s] + SplitLines(rest) && SplitLines(s) == [s]
  {
    var whole := s + "\n" + rest;
    if s == "" {
      assert whole[1..] == rest;
    } else {
      assert whole[0] == s[0] && whole[1..] == s[1..] + "\n" + rest;
      assert s[0] in s && forall c :: c in s[1..] ==> c in s;
      SplitOneLine(s[1..], rest);
      assert [s[0]] + s[1..] == s;
    }
  }

  lemma {:induction false} SplitJoined(lines: seq<string>)
    requires AllLines(lines)
    ensures NonEmpty(SplitLines(JoinLines(lines))) == lines
  {
    if lines == [] {
      assert NonEmpty([""]) == NonEmpty([""][1..]);
    } else if |lines| == 1 {
      SplitOneLine(lines[0], "");
      assert NonEmpty(lines[1..]) == [];
    } else {
      SplitJoined(lines[1..]);
      SplitOneLine(lines[0], JoinLines(lines[1..]));
      var pieces := [lines[0]] + SplitLines(JoinLines(lines[1..]));
      assert pieces[1..] == SplitLines(JoinLines(lines[1..]));
    }
  }

  lemma {:induction false} PiecesHaveNoNewline(s: string)
    ensures forall i :: 0 <= i < |SplitLines(s)| ==> '\n' !in SplitLines(s)[i]
  {
    if s != "" { PiecesHaveNoNewline(s[1..]); }
  }

  lemma {:induction false} NonEmptyAreMembers(lines: seq<string>)
    ensures forall x :: x in NonEmpty(lines) ==> x in lines && x != ""
  {
    if lines != [] { NonEmptyAreMembers(lines[1..]); }
  }

  /** Encoding and parsing is the identity exactly on lists of nonempty lines. */
  lemma {:induction false} EncodeParse(settings: seq<string>)
    ensures Parse(Encode(settings)) == Some(settings) <==> AllLines(settings)
  {
    var joined := JoinLines(settings);
    assert Encode(settings)[|SETTINGS_PREFIX|..] == joined;
    if AllLines(settings) {
      SplitJoined(settings);
    }
    if Parse(Encode(settings)) == Some(settings) {
      PiecesHaveNoNewline(joined);
      NonEmptyAreMembers(SplitLines(joined));
      forall i | 0 <= i < |settings| ensures IsLine(settings[i]) {
        assert settings[i] in settings;
      }
    }
  }

  // ----- Entries -----

  datatype Setting = BoolSetting(b: bool) | StringSetting(s: string) | ListSetting(items: seq<string>)

  datatype Entry = Entry(key: string, value: Setting)

  /** `bazel_command_line_build_setting_entry`. */
  function FormatEntry(kind: string, key: string, value: string): string {
    kind + "\t" + key + "\t" + value
  }

  /** The text before and after the first `c`. */
  function AtChar(s: string, c: char): Option<(string, string)> {
    if s == "" then None
    else if s[0] == c then Some(("", s[1..]))
    else
      var rest := AtChar(s[1..], c);
      if rest.None? then None else Some(([s[0]] + rest.value.0, rest.value.1))
  }

  lemma {:induction false} AtCharOf(a: string, c: char, b: string)
    requires c !in a
    ensures AtChar(a + [c] + b, c) == Some((a, b))
  {
    var whole := a + [c] + b;
    if a == "" {
      assert whole[1..] == b;
    } else {
      assert whole[0] == a[0] && whole[1..] == a[1..] + [c] + b;
      assert a[0] in a && forall x :: x in a[1..] ==> x in a;
      AtCharOf(a[1..], c, b);
      assert [a[0]] + a[1..] == a;
    }
  }

  lemma {:induction false} AtCharSplits(s: string, c: char)
    requires AtChar(s, c).Some?
    ensures s == AtChar(s, c).value.0 + [c] + AtChar(s, c).value.1
  {
    if s[0] == c {
      assert s == "" + [c] + s[1..];
    } else {
      AtCharSplits(s[1..], c);
      var rest := AtChar(s[1..], c).value;
      assert s == [s[0]] + s[1..] && [s[0]] + rest.0 + [c] + rest.1 == [s[0]] + (rest.0 + [c] + rest.1);
    }
  }

  /** Kind, key and value of an entry; the value may hold further tabs. */
  function Fields(text: string): Option<(string, string, string)> {
    var first := AtChar(text, '\t');
    if first.None? then None
    else
      var second := AtChar(first.value.1, '\t');
      if second.None? then None else Some((first.value.0, second.value.0, second.value.1))
  }

  /** What Rust takes for white space: the characters with the Unicode property White_Space. */
  predicate IsWhitespace(c: char) {
    '\U{9}' <= c <= '\U{D}' || c == ' ' || c == '\U{85}' || c == '\U{A0}' || c == '\U{1680}'
      || '\U{2000}' <= c <= '\U{200A}'
    || c == '\U{2028}' || c == '\U{2029}' || c == '\U{202F}' || c == '\U{205F}' || c == '\U{3000}'
  }

  /** The text before and after the first double slash. */
  function AtSlashes(s: string): Option<(string, string)> {
    if |s| < 2 then None
    else if s[0] == '/' && s[1] == '/' then Some(("", s[2..]))
    else
      var rest := AtSlashes(s[1..]);
      if rest.None? then None else Some(([s[0]] + rest.value.0, rest.value.1))
  }

  /** `bazel_starlark_label_to_build_setting_key`. */
  function CanonicalKey(raw: string): Option<string> {
    if !("@@" <= raw) then None
    else
      var parts := AtSlashes(raw[2..]);
      if parts.None? then None
      else Some((if parts.value.0 == "" then "root" else parts.value.0) + "//" + parts.value.1)
  }

  predicate Contains(s: string, part: string) {
    exists i :: 0 <= i <= |s| - |part| && part <= s[i..]
  }

  /** `is_bazel_apparent_label_build_setting_key`. */
  predicate IsApparent(raw: string) {
    && !("@@" <= raw) && "@" <= raw
    && var parts := AtSlashes(raw[1..]);
    && parts.Some?
    && var (repo, target) := parts.value;
    && repo != "" && target != "" && target[|target| - 1] != ':' && !Contains(target, "...")
    && (forall c :: c in repo ==> c != '/' && c != ':' && c != '@' && !IsWhitespace(c))
    && (forall c :: c in target ==> c != '[' && c != ']' && c != '@' && !IsWhitespace(c))
  }

  /** The labels that the root cell can parse, each with the form it is stored under. */
  type Labels = map<string, string>

  const OPTION_PREFIX := "//command_line_option:"

  /** The key a setting is stored under; `None` if it is not a label. */
  function KeyOf(labels: Labels, raw: string): Option<string> {
    if OPTION_PREFIX <= raw then Some(raw)
    else if CanonicalKey(raw).Some? then CanonicalKey(raw)
    else if raw in labels then Some(labels[raw])
    else if IsApparent(raw) then Some(raw)
    else None
  }

  function ParseEntry(labels: Labels, text: string): Option<Entry> {
    var fields := Fields(text);
    if fields.None? then None
    else
      var (kind, raw, value) := fields.value;
      var key := KeyOf(labels, raw);
      if key.None? then None
      else if kind == "bool" then Some(Entry(key.value, BoolSetting(value == "true" || value == "True"
        || value == "1")))
      else if kind == "list" then Some(Entry(key.value, ListSetting([value])))
      else if kind == "string" then Some(Entry(key.value, StringSetting(value)))
      else None
  }

  /** The daemon reads back the entries the client writes. */
  lemma {:induction false} FieldsOfEntry(kind: string, key: string, value: string)
    requires '\t' !in kind && '\t' !in key
    ensures Fields(FormatEntry(kind, key, value)) == Some((kind, key, value))
  {
    assert FormatEntry(kind, key, value) == kind + "\t" + (key + "\t" + value);
    AtCharOf(kind, '\t', key + "\t" + value);
    AtCharOf(key, '\t', value);
  }

  // ----- Reading the merged settings -----

  type Settings = map<string, Setting>

  /** `push_bazel_build_setting`: lists grow, everything else is replaced. */
  function Push(settings: Settings, e: Entry): Settings {
    if e.value.ListSetting? && e.key in settings && settings[e.key].ListSetting?
    then settings[e.key := ListSetting(settings[e.key].items + e.value.items)]
    else settings[e.key := e.value]
  }

  /** The settings a list of entries makes; `None` if an entry is malformed. */
  function Apply(labels: Labels, texts: seq<string>): Option<Settings> {
    if texts == [] then Some(map[])
    else
      var before, e := Apply(labels, texts[..|texts| - 1]), ParseEntry(labels, texts[|texts| - 1]);
      if before.None? || e.None? then None else Some(Push(before.value, e.value))
  }

  /** The last entry for a key. */
  function LastFor(labels: Labels, texts: seq<string>, key: string): Option<Entry> {
    if texts == [] then None
    else
      var e := ParseEntry(labels, texts[|texts| - 1]);
      if e.Some? && e.value.key == key then e else LastFor(labels, texts[..|texts| - 1], key)
  }

  /** The list items for a key since anything else was said about it. */
  function ItemsFor(labels: Labels, texts: seq<string>, key: string): seq<string> {
    if texts == [] then []
    else
      var e, before := ParseEntry(labels, texts[|texts| - 1]), ItemsFor(labels, texts[..|texts| - 1], key);
      if e.None? || e.value.key != key then before
      else if e.value.value.ListSetting? then before + e.value.value.items else []
  }

  /** A scalar has the value of its last entry; a list holds every item since the last scalar, in order. */
  lemma {:induction false} SettingIsLast(labels: Labels, texts: seq<string>, key: string)
    requires Apply(labels, texts).Some?
    ensures match LastFor(labels, texts, key)
            case None => key !in Apply(labels, texts).value && ItemsFor(labels, texts, key) == []
            case Some(e) =>
              && key in Apply(labels, texts).value
              && Apply(labels, texts).value[key] == (if e.value.ListSetting?
                then ListSetting(ItemsFor(labels, texts, key)) else e.value)
              && (!e.value.ListSetting? ==> ItemsFor(labels, texts, key) == [])
  {
    if texts != [] { SettingIsLast(labels, texts[..|texts| - 1], key); }
  }

  lemma {:induction false} FormatIsLong(key: string)
    ensures FormatEntry("string", key, "a") != ""
  {
  }

  lemma {:induction false} BrokenLines(key: string)
    requires '\n' !in key
    ensures var first := FormatEntry("string", key, "a");
            NonEmpty(SplitLines(FormatEntry("string", key, "a\nb"))) == [first, "b"]
  {
    var entry, first := FormatEntry("string", key, "a\nb"), FormatEntry("string", key, "a");
    assert "a\nb" == "a" + "\n" + "b";
    assert entry == first + "\n" + "b" && '\n' !in first;
    SplitOneLine(first, "b");
    SplitOneLine("b", "");
    hide SplitLines, FormatEntry;
    assert [first] + ["b"] == [first, "b"] && [first, "b"][1..] == ["b"] && ["b"][1..] == [];
    assert first != "" by { FormatIsLong(key); }
  }

  /** A value with a newline: the daemon reads a shorter value and an entry that is none, and refuses the settings. */
  lemma {:induction false} BrokenEntries(labels: Labels, key: string)
    requires '\n' !in key
    ensures var first := FormatEntry("string", key, "a");
            && Parse(Encode([FormatEntry("string", key, "a\nb")])) == Some([first, "b"])
            && Apply(labels, [first, "b"]) == None
  {
    var entry, first := FormatEntry("string", key, "a\nb"), FormatEntry("string", key, "a");
    assert Encode([entry])[|SETTINGS_PREFIX|..] == entry;
    BrokenLines(key);
    assert [first, "b"][..1] == [first];
    assert "b"[1..] == "" && AtChar("b", '\t') == None;
    hide NonEmpty, SplitLines, FormatEntry;
  }

  lemma {:induction false} LastForConcat(labels: Labels, a: seq<string>, b: seq<string>, key: string)
    ensures LastFor(labels, a + b, key) ==
            if LastFor(labels, b, key).Some? then LastFor(labels, b, key) else LastFor(labels, a, key)
  {
    if b == [] {
      assert a + b == a;
    } else {
      assert (a + b)[..|a + b| - 1] == a + b[..|b| - 1];
      LastForConcat(labels, a, b[..|b| - 1], key);
    }
  }

  /** The map of build settings that entries are pushed into. */
  class BuildSettings {
    var settings: Settings

    constructor ()
      ensures settings == map[]
    {
      settings := map[];
    }

    /** `push_bazel_build_setting`. */
    method PushSetting(e: Entry)
      modifies this
      ensures settings == Push(old(settings), e)
    {
      match e.value {
        case ListSetting(items) =>
          if e.key in settings && settings[e.key].ListSetting? {
            settings := settings[e.key := ListSetting(settings[e.key].items + items)];
          } else {
            settings := settings[e.key := e.value];
          }
        case _ =>
          settings := settings[e.key := e.value];
      }
    }
  }

  lemma {:induction false} MalformedStays(labels: Labels, texts: seq<string>, i: nat)
    requires i <= |texts| && Apply(labels, texts[..i]).None?
    ensures Apply(labels, texts).None?
    decreases |texts| - i
  {
    if i == |texts| {
      assert texts[..i] == texts;
    } else {
      assert texts[..i + 1][..i] == texts[..i];
      MalformedStays(labels, texts, i + 1);
    }
  }

  /** `bazel_command_line_build_settings`, once the lines of the property are read. */
  method ReadSettings(labels: Labels, texts: seq<string>) returns (r: Option<Settings>)
    ensures r == Apply(labels, texts)
  {
    var settings := new BuildSettings();
    for i := 0 to |texts|
      invariant fresh(settings) && Apply(labels, texts[..i]) == Some(settings.settings)
    {
      assert texts[..i + 1][..i] == texts[..i];
      var e := ParseEntry(labels, texts[i]);
      if e.None? {
        MalformedStays(labels, texts, i + 1);
        return None;
      }
      settings.PushSetting(e.value);
    }
    assert texts[..|texts|] == texts;
    r := Some(settings.settings);
  }
}
