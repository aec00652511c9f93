/**
 References between config values: `$(config section.key)` in a value stands for the value of that key.
 `ConfigResolver` in app/bz_common/src/legacy_configs/parser/resolver.rs, and the names it parses with
 app/bz_common/src/legacy_configs/configs.rs.
 */
module ConfigReferences {
  import opened Collections
  import opened SettingEntries
  import Chains

  /** Section and key. */
  type Name = (string, string)
  type Config = map<Name, string>

  // ----- Names -----

  function TrimStart(s: string): string {
    if s != "" && IsWhitespace(s[0]) then TrimStart(s[1..]) else s
  }

  predicate HasWhitespace(s: string) {
    exists i :: 0 <= i < |s| && IsWhitespace(s[i])
  }

  /** `parse_config_section_and_key`. */
  function SectionAndKey(raw: string): Option<Name> {
    var parts := AtChar(raw, '.');
    if parts.None? then None
    else
      var section, key := TrimStart(parts.value.0), parts.value.1;
      if HasWhitespace(section) || HasWhitespace(key) || section == "" || key == "" then None else Some((section, key))
  }

  // ----- References in a text -----

  const MARK := "$(config "

  /**
   The text before the first reference, the name in it and the text after it; a name reaches to the next parenthesis.
   */
  function FirstReference(s: string): (r: Option<(string, string, string)>)
    ensures r.Some? ==> |r.value.2| < |s|
  {
    if s == "" then None
    else
      var name := if MARK <= s then AtChar(s[|MARK|..], ')') else None;
      if name.Some? then
        AtCharSplits(s[|MARK|..], ')');
        Some(("", name.value.0, name.value.1))
      else
        var rest := FirstReference(s[1..]);
        if rest.None? then None else Some(([s[0]] + rest.value.0, rest.value.1, rest.value.2))
  }

  predicate HasReference(s: string) { FirstReference(s).Some? }

  /** A reference and the text between the one before it and this one. */
  datatype Capture = Capture(before: string, name: string)

  function Captures(s: string): seq<Capture>
    decreases |s|
  {
    var first := FirstReference(s);
    if first.None? then [] else [Capture(first.value.0, first.value.1)] + Captures(first.value.2)
  }

  /** The text after the last reference. */
  function Tail(s: string): string
    decreases |s|
  {
    var first := FirstReference(s);
    if first.None? then s else Tail(first.value.2)
  }

  predicate WellNamed(captures: seq<Capture>) {
    forall i :: 0 <= i < |captures| ==> SectionAndKey(captures[i].name).Some?
  }

  /** One of the references names the key. */
  predicate Names(captures: seq<Capture>, k: Name) {
    exists i :: 0 <= i < |captures| && SectionAndKey(captures[i].name) == Some(k)
  }

  function Lookup(env: Config, k: Name): string { if k in env then env[k] else "" }

  function ValueOf(env: Config, name: string): string {
    var k := SectionAndKey(name);
    if k.None? then "" else Lookup(env, k.value)
  }

  /** The texts before the references, each followed by the value the reference stands for. */
  function Replaced(captures: seq<Capture>, env: Config): string {
    if captures == [] then ""
    else
      var last := captures[|captures| - 1];
      Replaced(captures[..|captures| - 1], env) + last.before + ValueOf(env, last.name)
  }

  /** Every reference replaced by the value of its key, or by nothing if there is none. */
  function Substitute(s: string, env: Config): string {
    Replaced(Captures(s), env) + Tail(s)
  }

  /** A text without a reference stands for itself. */
  lemma {:induction false} NoReference(s: string, env: Config)
    requires !HasReference(s)
    ensures Captures(s) == [] && Substitute(s, env) == s
  {
  }

  lemma {:induction false} SomeCapture(s: string)
    ensures HasReference(s) <==> Captures(s) != []
  {
  }

  lemma {:induction false} FirstReferenceOf(before: string, name: string, after: string)
    requires '$' !in before && ')' !in name
    ensures FirstReference(before + MARK + name + ")" + after) == Some((before, name, after))
  {
    var s := before + MARK + name + ")" + after;
    if before == "" {
      assert s == MARK + (name + ")" + after);
      assert s[|MARK|..] == name + [')'] + after;
      AtCharOf(name, ')', after);
    } else {
      assert s[0] == before[0] && s[0] in before && s[1..] == before[1..] + MARK + name + ")" + after;
      assert forall c :: c in before[1..] ==> c in before;
      assert !(MARK <= s) by { assert MARK[0] == '$'; }
      FirstReferenceOf(before[1..], name, after);
      assert [s[0]] + before[1..] == before;
    }
  }

  /** A reference with the text around it. */
  function Around(before: string, name: string, after: string): string { before + MARK + name + ")" + after }

  lemma {:induction false} AroundCons(c: char, before: string, name: string, after: string)
    ensures [c] + Around(before, name, after) == Around([c] + before, name, after)
  {
  }

  lemma {:induction false} ReferenceSplits(s: string)
    requires HasReference(s)
    ensures var (before, name, after) := FirstReference(s).value;
            s == Around(before, name, after)
  {
    if MARK <= s && AtChar(s[|MARK|..], ')').Some? {
      AtCharSplits(s[|MARK|..], ')');
      assert s == MARK + s[|MARK|..];
    } else {
      ReferenceSplits(s[1..]);
      var (before, name, after) := FirstReference(s[1..]).value;
      hide Around, AtChar;
      AroundCons(s[0], before, name, after);
      assert s == [s[0]] + s[1..];
    }
  }

  /** A reference takes a dollar sign. */
  lemma {:induction false} ReferenceHasDollar(s: string)
    requires HasReference(s)
    ensures '$' in s
  {
    if MARK <= s {
      assert s[0] == MARK[0];
    } else {
      ReferenceHasDollar(s[1..]);
      assert s == [s[0]] + s[1..];
    }
  }

  // ----- What resolution means -----

  /** The value of `k` refers to `j`, and both are set. */
  ghost function References(c: Config): set<(Name, Name)> {
    set k, j | k in c.Keys && j in c.Keys && Names(Captures(c[k]), j) :: (k, j)
  }

  ghost predicate Malformed(c: Config) {
    exists k :: k in c && !WellNamed(Captures(c[k]))
  }

  ghost predicate Resolvable(c: Config) {
    !Malformed(c) && !Chains.Cyclic(References(c))
  }

  /** Every value is its text with all references replaced by values. */
  ghost predicate Solves(c: Config, env: Config) {
    env.Keys == c.Keys && forall k :: k in c ==> env[k] == Substitute(c[k], env)
  }

  /** The value of `k` is known, and so is everything it refers to. */
  ghost predicate Settled(c: Config, env: Config, k: Name) {
    && k in c && k in env && WellNamed(Captures(c[k])) && env[k] == Substitute(c[k], env)
    && forall j :: (k, j) in References(c) ==> j in env
  }

  /** Values of some keys, with what they refer to and without a cycle among them. */
  ghost predicate Partial(c: Config, env: Config) {
    env.Keys <= c.Keys && (forall k :: k in env ==> Settled(c, env, k)) && Chains.AcyclicOn(References(c), env.Keys)
  }

  /** More values, and the same for the keys that had one. */
  ghost predicate Extends(env: Config, more: Config) {
    forall k :: k in env ==> k in more && more[k] == env[k]
  }

  /** Everything the references name that is set has a value. */
  ghost predicate Covered(c: Config, captures: seq<Capture>, env: Config) {
    forall j :: j in c && Names(captures, j) ==> j in env
  }

  lemma {:induction false} ReplacedStable(c: Config, captures: seq<Capture>, env: Config, more: Config)
    requires env.Keys <= c.Keys && more.Keys <= c.Keys && Extends(env, more) && Covered(c, captures, env)
    ensures Replaced(captures, env) == Replaced(captures, more)
  {
    if captures != [] {
      var n := |captures| - 1;
      forall j | j in c && Names(captures[..n], j) ensures j in env {
        var i :| 0 <= i < n && SectionAndKey(captures[..n][i].name) == Some(j);
        assert Names(captures, j) by { assert captures[i] == captures[..n][i]; }
      }
      ReplacedStable(c, captures[..n], env, more);
      var k := SectionAndKey(captures[n].name);
      if k.Some? && k.value in c { assert Names(captures, k.value); }
    }
  }

  lemma {:induction false} CoveredByReferences(c: Config, env: Config, k: Name)
    requires k in c && forall j :: (k, j) in References(c) ==> j in env
    ensures Covered(c, Captures(c[k]), env)
  {
    hide Captures;
    forall j | j in c && Names(Captures(c[k]), j) ensures j in env {
      assert (k, j) in References(c);
    }
  }

  lemma {:induction false} SettledStays(c: Config, env: Config, more: Config, k: Name)
    requires env.Keys <= c.Keys && more.Keys <= c.Keys && Extends(env, more) && Settled(c, env, k)
    ensures Settled(c, more, k)
  {
    hide Captures, Replaced, References;
    CoveredByReferences(c, env, k);
    ReplacedStable(c, Captures(c[k]), env, more);
  }

  lemma {:induction false} ClosedUnderReferences(c: Config, env: Config, k: Name)
    requires Partial(c, env) && k in c && Covered(c, Captures(c[k]), env)
    ensures forall e :: e in References(c) && (e.0 in env.Keys || e.0 == k) ==> e.1 in env.Keys
  {
    hide Captures, Chains.AcyclicOn;
    forall e | e in References(c) && (e.0 in env.Keys || e.0 == k) ensures e.1 in env.Keys {
      if e.0 in env.Keys {
        assert Settled(c, env, e.0) && (e.0, e.1) in References(c);
      } else {
        assert Names(Captures(c[k]), e.1);
      }
    }
  }

  /** A key all of whose references have values can be given its own. */
  lemma {:induction false} PartialAdd(c: Config, env: Config, k: Name)
    requires Partial(c, env) && k in c && k !in env && WellNamed(Captures(c[k])) && Covered(c, Captures(c[k]), env)
    ensures Partial(c, env[k := Substitute(c[k], env)])
  {
    hide Captures, Replaced, WellNamed;
    var more := env[k := Substitute(c[k], env)];
    ReplacedStable(c, Captures(c[k]), env, more);
    forall j | (k, j) in References(c) ensures j in more {}
    ClosedUnderReferences(c, env, k);
    Chains.AcyclicAdd(References(c), env.Keys, k);
    assert more.Keys == env.Keys + {k};
    hide References, Chains.AcyclicOn;
    assert Settled(c, more, k);
    forall x | x in env ensures Settled(c, more, x) {
      SettledStays(c, env, more, x);
    }
  }

  lemma {:induction false} LeafIsCovered(c: Config, env: Config, k: Name)
    requires k in c && !Chains.HasNext(References(c), c.Keys - env.Keys, k)
    ensures Covered(c, Captures(c[k]), env)
  {
    hide Captures;
    forall j | j in c && Names(Captures(c[k]), j) ensures j in env {
      assert (k, j) in References(c);
      assert j !in c.Keys - env.Keys;
    }
  }

  lemma {:induction false} Complete(c: Config, env: Config) returns (all: Config)
    requires Resolvable(c) && Partial(c, env)
    ensures Solves(c, all)
    decreases c.Keys - env.Keys
  {
    hide Captures, Replaced, Chains.Cyclic, References;
    var left := c.Keys - env.Keys;
    if left == {} {
      forall k | k in c ensures k in env { assert k !in left; }
      all := env;
    } else {
      var k := Chains.SomeLeaf(References(c), left);
      LeafIsCovered(c, env, k);
      PartialAdd(c, env, k);
      var next := env[k := Substitute(c[k], env)];
      assert c.Keys - next.Keys < left;
      all := Complete(c, next);
    }
  }

  lemma {:induction false} SameReplacement(c: Config, captures: seq<Capture>, a: Config, b: Config)
    requires a.Keys == b.Keys == c.Keys && forall j :: j in c && Names(captures, j) ==> a[j] == b[j]
    ensures Replaced(captures, a) == Replaced(captures, b)
  {
    if captures != [] {
      var n := |captures| - 1;
      forall j | j in c && Names(captures[..n], j) ensures a[j] == b[j] {
        var i :| 0 <= i < n && SectionAndKey(captures[..n][i].name) == Some(j);
        assert Names(captures, j) by { assert captures[i] == captures[..n][i]; }
      }
      SameReplacement(c, captures[..n], a, b);
      var k := SectionAndKey(captures[n].name);
      if k.Some? && k.value in c { assert Names(captures, k.value); }
    }
  }

  /** Without a cycle there is one solution only. */
  lemma {:induction false} OneSolution(c: Config, a: Config, b: Config)
    requires !Chains.Cyclic(References(c)) && Solves(c, a) && Solves(c, b)
    ensures a == b
  {
    hide Chains.Cyclic, Captures, Replaced;
    var differ := set k | k in c && a[k] != b[k];
    if differ != {} {
      var k := Chains.SomeLeaf(References(c), differ);
      forall j | j in c && Names(Captures(c[k]), j) ensures a[j] == b[j] {
        assert (k, j) in References(c);
        assert j !in differ;
      }
      SameReplacement(c, Captures(c[k]), a, b);
      assert false;
    }
    assert forall k :: k in c ==> k !in differ;
  }

  lemma {:induction false} SolutionExists(c: Config)
    requires Resolvable(c)
    ensures exists env :: Solves(c, env)
  {
    var none: Config := map[];
    Chains.NothingWithin(References(c));
    assert none.Keys == {};
    var env := Complete(c, none);
  }

  /** The values after resolution; `None` if a name is malformed or the references have a cycle. */
  ghost function Resolved(c: Config): (r: Option<Config>)
    ensures r.Some? <==> Resolvable(c)
    ensures r.Some? ==> Solves(c, r.value)
  {
    if Resolvable(c) then
      SolutionExists(c);
      var env :| Solves(c, env);
      Some(env)
    else None
  }

  // ----- The resolver -----

  datatype ResolveState = Resolving | Done(value: string)

  /** The values that are known: those settled before and those done since. */
  function Env(settled: Config, states: map<Name, ResolveState>): Config {
    settled + map k | k in states && states[k].Done? :: states[k].value
  }

  /**
   While items are resolved: what is known is right, every literal is settled, and the stack is a chain of references
   through the keys that are being resolved.
   */
  ghost predicate Ready(c: Config, settled: Config, states: map<Name, ResolveState>, stack: seq<Name>) {
    && Partial(c, Env(settled, states)) && states.Keys !! settled.Keys && states.Keys <= c.Keys
    && (forall k :: k in c && !HasReference(c[k]) ==> k in settled)
    && NoDuplicates(stack) && Chains.Chain(References(c), stack)
    && (forall k :: k in stack <==> k in states && states[k].Resolving?)
  }

  /** `k` is the next reference to follow. */
  ghost predicate Follows(c: Config, stack: seq<Name>, k: Name) {
    stack != [] && k in c ==> (stack[|stack| - 1], k) in References(c)
  }

  lemma {:induction false} EnvSame(settled: Config, states: map<Name, ResolveState>, k: Name)
    requires k !in states
    ensures Env(settled, states[k := Resolving]) == Env(settled, states)
  {
    var a, b := Env(settled, states[k := Resolving]), Env(settled, states);
    assert a.Keys == b.Keys;
    forall x | x in a ensures a[x] == b[x] {}
  }

  lemma {:induction false} StackPushes(states: map<Name, ResolveState>, stack: seq<Name>, k: Name)
    requires NoDuplicates(stack) && k !in states && forall x :: x in stack <==> x in states && states[x].Resolving?
    ensures NoDuplicates(stack + [k])
    ensures var next := states[k := Resolving];
            forall x :: x in stack + [k] <==> x in next && next[x].Resolving?
  {
    var longer, next := stack + [k], states[k := Resolving];
    assert k !in stack;
    forall x ensures x in longer <==> x in next && next[x].Resolving? {
      if x == k { assert longer[|stack|] == k; } else { assert x in longer <==> x in stack; }
    }
  }

  lemma {:induction false} Starts(c: Config, settled: Config, states: map<Name, ResolveState>, stack: seq<Name>,
                                  k: Name)
    requires Ready(c, settled, states, stack) && Follows(c, stack, k) && k in c && k !in settled && k !in states
    ensures Env(settled, states[k := Resolving]) == Env(settled, states)
    ensures Ready(c, settled, states[k := Resolving], stack + [k])
  {
    hide Partial, References, HasReference, Env;
    Chains.ChainSnoc(References(c), stack, k);
    EnvSame(settled, states, k);
    StackPushes(states, stack, k);
  }

  lemma {:induction false} EnvGrows(settled: Config, states: map<Name, ResolveState>, k: Name, v: string)
    requires k in states && states[k].Resolving? && states.Keys !! settled.Keys
    ensures Env(settled, states[k := Done(v)]) == Env(settled, states)[k := v] && k !in Env(settled, states)
  {
    var a, b := Env(settled, states[k := Done(v)]), Env(settled, states)[k := v];
    assert k !in settled && a.Keys == b.Keys;
    forall x | x in a ensures a[x] == b[x] {}
  }

  lemma {:induction false} StackPops(states: map<Name, ResolveState>, stack: seq<Name>, k: Name, v: string)
    requires NoDuplicates(stack + [k]) && forall x :: x in stack + [k] <==> x in states && states[x].Resolving?
    ensures k in states && states[k].Resolving? && NoDuplicates(stack)
    ensures var next := states[k := Done(v)];
            forall x :: x in stack <==> x in next && next[x].Resolving?
  {
    var longer, next := stack + [k], states[k := Done(v)];
    assert longer[|stack|] == k && k in longer;
    forall i, j | 0 <= i < j < |stack| ensures stack[i] != stack[j] { assert longer[i] != longer[j]; }
    forall x ensures x in stack <==> x in next && next[x].Resolving? {
      if x == k {
        forall i | 0 <= i < |stack| ensures stack[i] != k { assert longer[i] != longer[|stack|]; }
      } else {
        assert x in longer <==> x in stack;
      }
    }
  }

  lemma {:induction false} Finishes(c: Config, settled: Config, states: map<Name, ResolveState>, stack: seq<Name>,
                                    k: Name, v: string)
    requires Ready(c, settled, states, stack + [k])
    requires k in c && WellNamed(Captures(c[k])) && Covered(c, Captures(c[k]), Env(settled, states))
    requires v == Substitute(c[k], Env(settled, states))
    ensures Env(settled, states[k := Done(v)]) == Env(settled, states)[k := v] && k !in Env(settled, states)
    ensures Ready(c, settled, states[k := Done(v)], stack)
  {
    hide References, HasReference, Captures, Substitute, Covered, WellNamed, Partial, Env;
    StackPops(states, stack, k, v);
    EnvGrows(settled, states, k, v);
    PartialAdd(c, Env(settled, states), k);
    Chains.ChainSlice(References(c), stack + [k], 0, |stack|);
    assert (stack + [k])[0..|stack|] == stack;
  }

  /** A reference to a key that is being resolved closes a cycle. */
  lemma {:induction false} ClosesCycle(c: Config, settled: Config, states: map<Name, ResolveState>, stack: seq<Name>,
                                       k: Name)
    requires Ready(c, settled, states, stack) && Follows(c, stack, k) && k in states && states[k].Resolving?
    ensures !Resolvable(c)
  {
    hide Partial, References, HasReference;
    assert k in stack;
    var i :| 0 <= i < |stack| && stack[i] == k;
    Chains.ChainSnoc(References(c), stack, k);
    Chains.RepeatIsCycle(References(c), stack + [k], i, |stack|);
  }

  class ResolvedItems {
    var states: map<Name, ResolveState>
    var stack: seq<Name>

    constructor ()
      ensures states == map[] && stack == []
    {
      states, stack := map[], [];
    }
  }

  lemma {:induction false} LiteralsReady(c: Config, settled: Config)
    requires settled.Keys <= c.Keys && forall k :: k in settled ==> !HasReference(c[k]) && settled[k] == c[k]
    requires forall k :: k in c && !HasReference(c[k]) ==> k in settled
    ensures Ready(c, settled, map[], [])
  {
    assert Env(settled, map[]) == settled;
    forall k | k in settled ensures Settled(c, settled, k) {
      NoReference(c[k], settled);
    }
    forall p | Chains.Cycle(References(c), p) ensures !Chains.Within(p, settled.Keys) {
      assert (p[0], p[1]) in References(c);
      if p[0] in settled { NoReference(c[p[0]], settled); }
    }
  }

  /** `drain_to`: with nothing left on the stack, everything resolved is settled. */
  lemma {:induction false} Drained(c: Config, settled: Config, states: map<Name, ResolveState>)
    requires Ready(c, settled, states, [])
    ensures Ready(c, Env(settled, states), map[], [])
  {
    hide Partial, References, HasReference;
    assert Env(Env(settled, states), map[]) == Env(settled, states);
  }

  lemma {:induction false} AllSettled(c: Config, settled: Config)
    requires Ready(c, settled, map[], []) && forall k :: k in c ==> k in settled
    ensures Resolved(c) == Some(settled)
  {
    assert Env(settled, map[]) == settled && settled.Keys == c.Keys;
    assert forall e :: e in References(c) ==> e.0 in c.Keys && e.1 in c.Keys;
    Chains.AcyclicAll(References(c), settled.Keys);
    hide References, HasReference, Captures, Replaced, Chains.AcyclicOn, Chains.Cyclic;
    assert forall k :: k in c ==> Settled(c, settled, k);
    assert Solves(c, settled);
    OneSolution(c, settled, Resolved(c).value);
  }

  /** Where the value of a key is found. */
  lemma {:induction false} KnownItem(c: Config, settled: Config, states: map<Name, ResolveState>, k: Name)
    requires Env(settled, states).Keys <= c.Keys && states.Keys !! settled.Keys
    ensures k !in c ==> Lookup(Env(settled, states), k) == ""
    ensures k in settled ==> k in Env(settled, states) && Lookup(Env(settled, states), k) == settled[k]
    ensures k in states && states[k].Done? ==>
              k in Env(settled, states) && Lookup(Env(settled, states), k) == states[k].value
  {
  }

  lemma {:induction false} ExtendsRefl(env: Config)
    ensures Extends(env, env)
  {
  }

  lemma {:induction false} ExtendsAdd(env: Config, more: Config, k: Name, v: string)
    requires Extends(env, more)
    ensures k !in more ==> Extends(env, more[k := v])
  {
  }

  lemma {:induction false} ReadyKeys(c: Config, settled: Config, states: map<Name, ResolveState>, stack: seq<Name>)
    requires Ready(c, settled, states, stack)
    ensures Env(settled, states).Keys <= c.Keys && states.Keys !! settled.Keys && states.Keys <= c.Keys
  {
    hide References, HasReference, Settled;
  }

  /** The first `i` references of a value are replaced. */
  ghost predicate SoFar(c: Config, captures: seq<Capture>, i: nat, env: Config, resolved: string) {
    && i <= |captures| && WellNamed(captures[..i]) && Covered(c, captures[..i], env)
      && resolved == Replaced(captures[..i], env)
  }

  lemma {:induction false} SoFarStart(c: Config, captures: seq<Capture>, env: Config)
    ensures SoFar(c, captures, 0, env, "")
  {
    assert captures[..0] == [];
  }

  lemma {:induction false} CoveredNext(c: Config, captures: seq<Capture>, i: nat, env: Config, more: Config)
    requires i < |captures| && Covered(c, captures[..i], env) && Extends(env, more)
    requires var k := SectionAndKey(captures[i].name);
             k.Some? && k.value in c ==> k.value in more
    ensures Covered(c, captures[..i + 1], more)
  {
    var longer := captures[..i + 1];
    forall j | j in c && Names(longer, j) ensures j in more {
      var m :| 0 <= m <= i && SectionAndKey(longer[m].name) == Some(j);
      if m < i {
        assert captures[..i][m] == longer[m];
        assert Names(captures[..i], j);
      }
    }
  }

  lemma {:induction false} SoFarNext(c: Config, captures: seq<Capture>, i: nat, env: Config, more: Config,
                                     resolved: string)
    requires SoFar(c, captures, i, env, resolved) && i < |captures| && SectionAndKey(captures[i].name).Some?
    requires env.Keys <= c.Keys && more.Keys <= c.Keys && Extends(env, more)
    requires var k := SectionAndKey(captures[i].name).value;
             k in c ==> k in more
    ensures var k := SectionAndKey(captures[i].name).value;
            SoFar(c, captures, i + 1, more, resolved + captures[i].before + Lookup(more, k))
  {
    ReplacedStable(c, captures[..i], env, more);
    CoveredNext(c, captures, i, env, more);
    hide Covered, Extends;
    var longer := captures[..i + 1];
    assert longer[..i] == captures[..i] && longer[i] == captures[i];
    forall m | 0 <= m < |longer| ensures SectionAndKey(longer[m].name).Some? {
      if m < i { assert captures[..i][m] == longer[m]; }
    }
  }

  lemma {:induction false} SoFarEnd(c: Config, captures: seq<Capture>, env: Config, resolved: string)
    requires SoFar(c, captures, |captures|, env, resolved)
    ensures WellNamed(captures) && Covered(c, captures, env) && resolved == Replaced(captures, env)
  {
    assert captures[..|captures|] == captures;
  }

  lemma {:induction false} MalformedName(c: Config, k: Name, i: nat)
    requires k in c && i < |Captures(c[k])| && SectionAndKey(Captures(c[k])[i].name).None?
    ensures !Resolvable(c)
  {
    hide Captures;
  }

  lemma {:induction false} NextFollows(c: Config, stack: seq<Name>, k: Name, i: nat)
    requires k in c && stack != [] && stack[|stack| - 1] == k
    requires i < |Captures(c[k])| && SectionAndKey(Captures(c[k])[i].name).Some?
    ensures Follows(c, stack, SectionAndKey(Captures(c[k])[i].name).value)
  {
    hide Captures;
  }

  class ConfigResolver {
    const values: Config
    /** The values that are literals or were resolved for an earlier item. */
    var settled: Config

    constructor (values: Config)
      ensures this.values == values && settled == map[]
    {
      this.values, settled := values, map[];
    }

    /** `resolve_item`. */
    method ResolveItem(items: ResolvedItems, k: Name) returns (r: Option<string>)
      requires Ready(values, settled, items.states, items.stack) && Follows(values, items.stack, k)
      modifies items
      ensures r.None? ==> !Resolvable(values)
      ensures r.Some? ==> Ready(values, settled, items.states, items.stack) && items.stack == old(items.stack)
      ensures r.Some? ==> old(items.states).Keys <= items.states.Keys
      ensures r.Some? ==> Extends(Env(settled, old(items.states)), Env(settled, items.states))
      ensures r.Some? ==> k in values ==> k in Env(settled, items.states)
      ensures r.Some? ==> r.value == Lookup(Env(settled, items.states), k)
      decreases values.Keys - items.states.Keys, 0
    {
      hide Ready, Resolvable, Follows, Env, Extends, Lookup, Substitute, Covered, WellNamed, Captures;
      ghost var stack, states := items.stack, items.states;
      ReadyKeys(values, settled, states, stack);
      KnownItem(values, settled, states, k);
      ExtendsRefl(Env(settled, states));
      if k !in values {
        return Some("");
      }
      if k in settled {
        return Some(settled[k]);
      }
      if k in items.states && items.states[k].Done? {
        return Some(items.states[k].value);
      }
      if k in items.states {
        ClosesCycle(values, settled, states, stack, k);
        return None;
      }
      Starts(values, settled, states, stack, k);
      items.states := items.states[k := Resolving];
      items.stack := items.stack + [k];
      assert k in values.Keys - states.Keys && values.Keys - items.states.Keys < values.Keys - states.Keys;
      r := DoResolve(items, k);
      if r.Some? {
        ExtendsAdd(Env(settled, states), Env(settled, items.states), k, r.value);
        Finishes(values, settled, items.states, stack, k, r.value);
        items.states := items.states[k := Done(r.value)];
        items.stack := items.stack[..|items.stack| - 1];
        assert items.stack == stack;
        ReadyKeys(values, settled, items.states, items.stack);
        KnownItem(values, settled, items.states, k);
      }
    }

    /** `do_resolve`, of the value of the key on top of the stack. */
    method DoResolve(items: ResolvedItems, k: Name) returns (r: Option<string>)
      requires k in values && items.stack != [] && items.stack[|items.stack| - 1] == k
      requires Ready(values, settled, items.states, items.stack)
      modifies items
      ensures r.None? ==> !Resolvable(values)
      ensures r.Some? ==> Ready(values, settled, items.states, items.stack) && items.stack == old(items.stack)
      ensures r.Some? ==> old(items.states).Keys <= items.states.Keys
      ensures r.Some? ==> Extends(Env(settled, old(items.states)), Env(settled, items.states))
      ensures r.Some? ==>
              WellNamed(Captures(values[k])) && Covered(values, Captures(values[k]), Env(settled, items.states))
      ensures r.Some? ==> r.value == Substitute(values[k], Env(settled, items.states))
      decreases values.Keys - items.states.Keys, 1
    {
      hide Ready, Resolvable, Follows, Captures, SoFar;
      var captures := Captures(values[k]);
      var resolved := "";
      ghost var stack, states := items.stack, items.states;
      SoFarStart(values, captures, Env(settled, states));
      for i := 0 to |captures|
        invariant Ready(values, settled, items.states, items.stack) && items.stack == stack
        invariant states.Keys <= items.states.Keys
        invariant Extends(Env(settled, states), Env(settled, items.states))
        invariant SoFar(values, captures, i, Env(settled, items.states), resolved)
      {
        var name := SectionAndKey(captures[i].name);
        if name.None? {
          assert !Resolvable(values) by { MalformedName(values, k, i); }
          return None;
        }
        ghost var before := Env(settled, items.states);
        ReadyKeys(values, settled, items.states, items.stack);
        NextFollows(values, stack, k, i);
        var v := ResolveItem(items, name.value);
        if v.None? {
          return None;
        }
        ReadyKeys(values, settled, items.states, items.stack);
        SoFarNext(values, captures, i, before, Env(settled, items.states), resolved);
        resolved := resolved + captures[i].before + v.value;
      }
      SoFarEnd(values, captures, Env(settled, items.states), resolved);
      r := Some(resolved + Tail(values[k]));
    }

    /** The first loop of `resolve_all`: literals stand for themselves, the rest is left to resolve. */
    method MarkLiterals() returns (toResolve: seq<Name>)
      requires settled == map[]
      modifies this
      ensures Ready(values, settled, map[], []) && settled.Keys <= values.Keys
      ensures forall k :: k in values && k !in settled ==> k in toResolve
      ensures forall k :: k in toResolve ==> k in values
    {
      toResolve := [];
      var left := values.Keys;
      while left != {}
        invariant left <= values.Keys && settled.Keys <= values.Keys
        invariant forall k :: k in settled ==> !HasReference(values[k]) && settled[k] == values[k]
        invariant forall k :: k in values && k !in left ==>
                  if HasReference(values[k]) then k in toResolve else k in settled
        invariant forall k :: k in toResolve ==> k in values
        decreases left
      {
        var k :| k in left;
        left := left - {k};
        if HasReference(values[k]) {
          toResolve := toResolve + [k];
        } else {
          settled := settled[k := values[k]];
        }
      }
      LiteralsReady(values, settled);
    }

    /** `resolve_all`: the values with all references replaced, or an error exactly if there is no such thing. */
    method ResolveAll() returns (r: Option<Config>)
      requires settled == map[]
      modifies this
      ensures r == Resolved(values)
    {
      hide Ready, Resolvable, Solves, HasReference;
      var toResolve := MarkLiterals();
      for i := 0 to |toResolve|
        invariant Ready(values, settled, map[], []) && settled.Keys <= values.Keys
        invariant forall k :: k in values && k !in settled ==> k in toResolve[i..]
      {
        var items := new ResolvedItems();
        assert Follows(values, [], toResolve[i]);
        assert toResolve[i] in toResolve;
        var v := ResolveItem(items, toResolve[i]);
        if v.None? {
          return None;
        }
        ReadyKeys(values, settled, items.states, items.stack);
        Drained(values, settled, items.states);
        settled := Env(settled, items.states);
        forall k | k in values && k !in settled ensures k in toResolve[i + 1..] {
          assert k in toResolve[i..] && toResolve[i..] == [toResolve[i]] + toResolve[i + 1..];
        }
      }
      assert toResolve[|toResolve|..] == [];
      AllSettled(values, settled);
      r := Some(settled);
    }
  }
}
