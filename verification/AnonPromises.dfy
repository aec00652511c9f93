/**
 Binding the promises of anon targets to the values of their keys: `push_one` and `run_promises` in
 app/bz_anon_target/src/anon_promises.rs. The keys of all entries are resolved as one flat list.
 */
module AnonPromises {
  import opened Collections

  type Key = string
  type Promise = nat

  /** One key, or a list of keys for a promise of a list. */
  datatype Keys = One(key: Key) | Many(keys: seq<Key>)
  {
    function Flat(): seq<Key> {
      match this
      case One(key) => [key]
      case Many(keys) => keys
    }
  }

  datatype Entry = Entry(promise: Promise, keys: Keys)

  /** Where the values of an entry are looked up: one index, or a range of them. */
  datatype Place = At(index: nat) | Range(from: nat, until: nat)

  datatype Value = OneValue(value: string) | ListValue(values: seq<string>)

  datatype Binding = Binding(promise: Promise, value: Value)

  /** Everything bound; a key that does not resolve; or an index that is out of range, which panics. */
  datatype RunResult = Bound(bindings: seq<Binding>) | Unresolved | OutOfRange

  // ----- Places -----

  /** The keys of all entries in one list. */
  function AllKeys(entries: seq<Entry>): (r: seq<Key>) {
    if entries == [] then [] else AllKeys(entries[..|entries| - 1]) + entries[|entries| - 1].keys.Flat()
  }

  /** The place of the entry at position `j`: it counts entries, not keys. */
  function PlaceOf(keys: Keys, j: nat): Place {
    match keys
    case One(_) => At(j)
    case Many(ks) => Range(j, j + |ks|)
  }

  function Resolved(keys: seq<Key>, resolve: map<Key, string>): (r: seq<string>)
    requires forall i :: 0 <= i < |keys| ==> keys[i] in resolve
    ensures |r| == |keys| && forall i :: 0 <= i < |r| ==> r[i] == resolve[keys[i]]
  {
    seq(|keys|, i requires 0 <= i < |keys| => resolve[keys[i]])
  }

  /** The values at a place, if they are all there; an empty range is empty wherever it lies. */
  function ValuesAt(values: seq<string>, place: Place): Option<Value> {
    match place
    case At(i) => if i < |values| then Some(OneValue(values[i])) else None
    case Range(from, until) =>
      if from >= until then Some(ListValue([]))
      else if until <= |values| then Some(ListValue(values[from..until])) else None
  }

  /** The bindings of the first entries, in order, up to a place that is out of range. */
  function BindingsOf(entries: seq<Entry>, values: seq<string>): Option<seq<Binding>> {
    if entries == [] then Some([])
    else
      var n := |entries| - 1;
      var before, value := BindingsOf(entries[..n], values), ValuesAt(values, PlaceOf(entries[n].keys, n));
      if before.None? || value.None? then None else Some(before.value + [Binding(entries[n].promise, value.value)])
  }

  ghost predicate AllResolve(keys: seq<Key>, resolve: map<Key, string>) {
    forall i :: 0 <= i < |keys| ==> keys[i] in resolve
  }

  /** `run_promises`. */
  ghost function RunOf(entries: seq<Entry>, resolve: map<Key, string>): RunResult {
    var keys := AllKeys(entries);
    if !AllResolve(keys, resolve) then Unresolved
    else
      var bindings := BindingsOf(entries, Resolved(keys, resolve));
      if bindings.None? then OutOfRange else Bound(bindings.value)
  }

  // ----- When every promise gets the values of its own keys -----

  /** What the promise of an entry should get. */
  ghost function OwnValue(keys: Keys, resolve: map<Key, string>): Value
    requires AllResolve(keys.Flat(), resolve)
  {
    var values := Resolved(keys.Flat(), resolve);
    match keys
    case One(_) => OneValue(values[0])
    case Many(_) => ListValue(values)
  }

  /** Each binding is of the entry's own promise to the values of its own keys. */
  ghost predicate AllOwn(entries: seq<Entry>, resolve: map<Key, string>, bindings: seq<Binding>) {
    && |bindings| == |entries|
    && forall j :: 0 <= j < |entries| ==>
         && AllResolve(entries[j].keys.Flat(), resolve)
         && bindings[j] == Binding(entries[j].promise, OwnValue(entries[j].keys, resolve))
  }

  /** Each entry that has keys comes after as many keys as entries. */
  predicate Aligned(entries: seq<Entry>) {
    forall j :: 0 <= j < |entries| && entries[j].keys.Flat() != [] ==> |AllKeys(entries[..j])| == j
  }

  lemma {:induction false} AllKeysSnoc(entries: seq<Entry>)
    requires entries != []
    ensures AllKeys(entries) == AllKeys(entries[..|entries| - 1]) + entries[|entries| - 1].keys.Flat()
  {
  }

  lemma {:induction false} SliceOfConcat<T>(a: seq<T>, b: seq<T>, i: nat, j: nat)
    requires i <= j <= |a|
    ensures (a + b)[i..j] == a[i..j] && (a + b)[|a|..|a| + |b|] == b
  {
  }

  /** The entry's keys lie in the flat list after all keys of the entries before it. */
  lemma {:induction false} KeysOfEntry(entries: seq<Entry>, j: nat)
    requires j < |entries|
    ensures var start, own := |AllKeys(entries[..j])|, entries[j].keys.Flat();
            start + |own| <= |AllKeys(entries)| && AllKeys(entries)[start..start + |own|] == own
  {
    hide AllKeys, Keys.Flat;
    AllKeysSnoc(entries);
    var n := |entries| - 1;
    var before, last := AllKeys(entries[..n]), entries[n].keys.Flat();
    if j < n {
      KeysOfEntry(entries[..n], j);
      assert entries[..n][..j] == entries[..j];
      SliceOfConcat(before, last, |AllKeys(entries[..j])|, |AllKeys(entries[..j])| + |entries[j].keys.Flat()|);
    } else {
      SliceOfConcat(before, last, 0, 0);
    }
  }

  lemma {:induction false} BindingAt(entries: seq<Entry>, values: seq<string>, j: nat)
    requires BindingsOf(entries, values).Some? && j < |entries|
    ensures |BindingsOf(entries, values).value| == |entries|
    ensures ValuesAt(values, PlaceOf(entries[j].keys, j)).Some?
    ensures BindingsOf(entries, values).value[j] ==
            Binding(entries[j].promise, ValuesAt(values, PlaceOf(entries[j].keys, j)).value)
  {
    var n := |entries| - 1;
    if n > 0 { BindingAt(entries[..n], values, if j < n then j else 0); }
  }

  lemma {:induction false} BindingsInRange(entries: seq<Entry>, values: seq<string>)
    ensures BindingsOf(entries, values).Some? <==>
            forall j :: 0 <= j < |entries| ==> ValuesAt(values, PlaceOf(entries[j].keys, j)).Some?
  {
    if entries != [] {
      var n := |entries| - 1;
      BindingsInRange(entries[..n], values);
      assert forall j :: 0 <= j < n ==> entries[..n][j] == entries[j];
    }
  }

  /** The values of an entry's own keys lie where its keys lie. */
  lemma {:induction false} OwnValuesAt(entries: seq<Entry>, resolve: map<Key, string>, j: nat)
    requires j < |entries| && AllResolve(AllKeys(entries), resolve)
    ensures AllResolve(entries[j].keys.Flat(), resolve)
    ensures var start, own, values := |AllKeys(entries[..j])|, entries[j].keys.Flat(),
            Resolved(AllKeys(entries), resolve);
            start + |own| <= |values| && values[start..start + |own|] == Resolved(own, resolve)
  {
    hide AllKeys, Keys.Flat;
    KeysOfEntry(entries, j);
    var all, own, start := AllKeys(entries), entries[j].keys.Flat(), |AllKeys(entries[..j])|;
    forall i | 0 <= i < |own| ensures own[i] == all[start + i] { assert own[i] == all[start..start + |own|][i]; }
  }

  /** An entry in the right position is bound to its own values. */
  lemma {:induction false} RightPlace(entries: seq<Entry>, resolve: map<Key, string>, j: nat)
    requires j < |entries| && AllResolve(AllKeys(entries), resolve)
    requires entries[j].keys.Flat() != [] ==> |AllKeys(entries[..j])| == j
    ensures AllResolve(entries[j].keys.Flat(), resolve)
    ensures ValuesAt(Resolved(AllKeys(entries), resolve), PlaceOf(entries[j].keys, j)) ==
            Some(OwnValue(entries[j].keys, resolve))
  {
    hide AllKeys;
    OwnValuesAt(entries, resolve, j);
    if entries[j].keys.One? {
      var values := Resolved(AllKeys(entries), resolve);
      assert values[j..j + 1][0] == values[j];
    }
  }

  lemma {:induction false} NoBindings(values: seq<string>)
    ensures BindingsOf([], values) == Some([])
  {
  }

  /** Entries that are aligned get their own values. */
  lemma {:induction false} AlignedGetOwn(entries: seq<Entry>, resolve: map<Key, string>)
    requires Aligned(entries) && AllResolve(AllKeys(entries), resolve)
    ensures RunOf(entries, resolve).Bound? && AllOwn(entries, resolve, RunOf(entries, resolve).bindings)
  {
    var values := Resolved(AllKeys(entries), resolve);
    forall j | 0 <= j < |entries|
      ensures AllResolve(entries[j].keys.Flat(), resolve)
      ensures ValuesAt(values, PlaceOf(entries[j].keys, j)) == Some(OwnValue(entries[j].keys, resolve))
    {
      RightPlace(entries, resolve, j);
    }
    hide Aligned, AllKeys, ValuesAt, OwnValue, PlaceOf, Keys.Flat, AllResolve, Resolved, BindingsOf;
    BindingsInRange(entries, values);
    if entries == [] { NoBindings(values); }
    forall j | 0 <= j < |entries| {
      BindingAt(entries, values, j);
    }
    if entries != [] { BindingAt(entries, values, 0); }
  }

  /** Where a place holds an entry's own values, the first of them is the value at its index. */
  lemma {:induction false} FirstOfValue(values: seq<string>, keys: Keys, j: nat, resolve: map<Key, string>)
    requires keys.Flat() != [] && AllResolve(keys.Flat(), resolve)
    requires ValuesAt(values, PlaceOf(keys, j)) == Some(OwnValue(keys, resolve))
    ensures j < |values| && values[j] == Resolved(keys.Flat(), resolve)[0]
  {
    if keys.Many? { assert values[j..j + |keys.keys|][0] == values[j]; }
  }

  /** With keys and values that tell apart, an entry bound to its own values is in the right position. */
  lemma {:induction false} OwnIsAligned(entries: seq<Entry>, resolve: map<Key, string>, j: nat)
    requires AllResolve(AllKeys(entries), resolve) && NoDuplicates(Resolved(AllKeys(entries), resolve))
    requires RunOf(entries, resolve).Bound? && AllOwn(entries, resolve, RunOf(entries, resolve).bindings)
    requires j < |entries| && entries[j].keys.Flat() != []
    ensures |AllKeys(entries[..j])| == j
  {
    hide AllKeys, BindingsOf;
    OwnValuesAt(entries, resolve, j);
    var own, start, values := entries[j].keys.Flat(), |AllKeys(entries[..j])|, Resolved(AllKeys(entries), resolve);
    BindingAt(entries, values, j);
    FirstOfValue(values, entries[j].keys, j, resolve);
    assert values[start..start + |own|][0] == values[start];
  }

  /**
   If different keys have different values and no key is asked for twice, then every promise is bound to the values of
   its own keys exactly if each entry that has keys comes after as many keys as entries.
   */
  lemma {:induction false} BoundToOwnIff(entries: seq<Entry>, resolve: map<Key, string>)
    requires AllResolve(AllKeys(entries), resolve) && NoDuplicates(Resolved(AllKeys(entries), resolve))
    ensures RunOf(entries, resolve).Bound? && AllOwn(entries, resolve, RunOf(entries, resolve).bindings) <==>
            Aligned(entries)
  {
    if Aligned(entries) {
      AlignedGetOwn(entries, resolve);
    }
    if RunOf(entries, resolve).Bound? && AllOwn(entries, resolve, RunOf(entries, resolve).bindings) {
      forall j | 0 <= j < |entries| && entries[j].keys.Flat() != [] ensures |AllKeys(entries[..j])| == j {
        OwnIsAligned(entries, resolve, j);
      }
    }
  }

  lemma {:induction false} SinglesCount(entries: seq<Entry>)
    requires forall j :: 0 <= j < |entries| ==> entries[j].keys.One?
    ensures |AllKeys(entries)| == |entries|
  {
    if entries != [] { SinglesCount(entries[..|entries| - 1]); }
  }

  /** Entries of one key each, which is all that is ever made, always get their own values. */
  lemma {:induction false} SinglesGetOwn(entries: seq<Entry>, resolve: map<Key, string>)
    requires (forall j :: 0 <= j < |entries| ==> entries[j].keys.One?) && AllResolve(AllKeys(entries), resolve)
    ensures RunOf(entries, resolve).Bound? && AllOwn(entries, resolve, RunOf(entries, resolve).bindings)
  {
    forall j | 0 <= j < |entries| ensures |AllKeys(entries[..j])| == j {
      SinglesCount(entries[..j]);
    }
    AlignedGetOwn(entries, resolve);
  }

  // ----- The operations -----

  method Shape(entries: seq<Entry>) returns (shape: seq<Place>, keys: seq<Key>)
    ensures keys == AllKeys(entries)
    ensures |shape| == |entries| && forall j :: 0 <= j < |entries| ==> shape[j] == PlaceOf(entries[j].keys, j)
  {
    shape, keys := [], [];
    for j := 0 to |entries|
      invariant keys == AllKeys(entries[..j]) && |shape| == j
      invariant forall k :: 0 <= k < j ==> shape[k] == PlaceOf(entries[k].keys, k)
    {
      assert entries[..j + 1][..j] == entries[..j];
      match entries[j].keys {
        case One(key) =>
          shape := shape + [At(|shape|)];
          keys := keys + [key];
        case Many(ks) =>
          shape := shape + [Range(|shape|, |shape| + |ks|)];
          keys := keys + ks;
      }
    }
    assert entries[..|entries|] == entries;
  }

  method ResolveAll(keys: seq<Key>, resolve: map<Key, string>) returns (r: Option<seq<string>>)
    ensures r.Some? <==> AllResolve(keys, resolve)
    ensures r.Some? ==> r.value == Resolved(keys, resolve)
  {
    var values: seq<string> := [];
    for i := 0 to |keys|
      invariant |values| == i && forall k :: 0 <= k < i ==> keys[k] in resolve && values[k] == resolve[keys[k]]
    {
      if keys[i] !in resolve {
        return None;
      }
      values := values + [resolve[keys[i]]];
    }
    r := Some(values);
  }

  method Bind(entries: seq<Entry>, shape: seq<Place>, values: seq<string>) returns (r: Option<seq<Binding>>)
    requires |shape| == |entries| && forall j :: 0 <= j < |entries| ==> shape[j] == PlaceOf(entries[j].keys, j)
    ensures r == BindingsOf(entries, values)
  {
    var bindings: seq<Binding> := [];
    for j := 0 to |shape|
      invariant BindingsOf(entries[..j], values) == Some(bindings)
    {
      assert entries[..j + 1][..j] == entries[..j];
      var value := ValuesAt(values, shape[j]);
      if value.None? {
        BindingsInRange(entries, values);
        return None;
      }
      bindings := bindings + [Binding(entries[j].promise, value.value)];
    }
    assert entries[..|entries|] == entries;
    r := Some(bindings);
  }

  class Promises {
    var entries: seq<Entry>

    constructor ()
      ensures entries == []
    {
      entries := [];
    }

    /** `push_one`, the only way entries are made. */
    method PushOne(promise: Promise, key: Key)
      modifies this
      ensures entries == old(entries) + [Entry(promise, One(key))]
      ensures old(OnlySingles()) ==> OnlySingles()
    {
      entries := entries + [Entry(promise, One(key))];
    }

    ghost predicate OnlySingles()
      reads this
    {
      forall j :: 0 <= j < |entries| ==> entries[j].keys.One?
    }

    /** `run_promises`: the shape, the values of all keys, then the bindings one after the other. */
    method RunPromises(resolve: map<Key, string>) returns (r: RunResult)
      ensures r == RunOf(entries, resolve)
      ensures OnlySingles() && AllResolve(AllKeys(entries), resolve) ==>
              r.Bound? && AllOwn(entries, resolve, r.bindings)
    {
      if OnlySingles() && AllResolve(AllKeys(entries), resolve) { SinglesGetOwn(entries, resolve); }
      hide AllOwn, AllKeys, BindingsOf, AllResolve;
      var shape, keys := Shape(entries);
      var values := ResolveAll(keys, resolve);
      if values.None? {
        return Unresolved;
      }
      var bindings := Bind(entries, shape, values.value);
      r := if bindings.None? then OutOfRange else Bound(bindings.value);
    }
  }
}
