/**
 Attributes of anon targets: coercion of `any` attributes, collection of the promises they mention, and resolution.
 app/bz_anon_target/src/anon_target_attr.rs, anon_target_attr_coerce.rs, anon_target_attr_resolve.rs.
 */
module AnonAttr {
  import opened Collections

  datatype Artifact = Artifact(path: string, shortPath: string, contentBased: bool)

  datatype PromiseAttr = PromiseAttr(id: string, shortPath: Option<string>, contentBased: bool)

  datatype ValueEntry = ValueEntry(key: Value, value: Value)

  /** A Starlark value; `Opaque` stands for every other type. */
  datatype Value =
    | NoneValue
    | BoolValue(b: bool)
    | IntValue(i: int)
    | StringValue(s: string)
    | ListValue(items: seq<Value>)
    | TupleValue(items: seq<Value>)
    | DictValue(entries: seq<ValueEntry>)
    | ArtifactValue(artifact: Artifact)
    | PromiseValue(promise: PromiseAttr, artifact: Artifact)
    | LabelValue(name: string)
    | Opaque(repr: string)

  datatype AttrEntry = AttrEntry(key: Attr, value: Attr)

  /** `AnonTargetAttr`, without deps and macro arguments. */
  datatype Attr =
    | BoolAttr(b: bool)
    | IntAttr(i: int)
    | StringAttr(s: string)
    | EnumVariantAttr(s: string)
    | ListAttr(items: seq<Attr>)
    | TupleAttr(items: seq<Attr>)
    | DictAttr(entries: seq<AttrEntry>)
    | NoneAttr
    | OneOfAttr(inner: Attr, index: nat)
    | ArtifactAttr(artifact: Artifact)
    | PromiseArtifactAttr(promise: PromiseAttr)
    | LabelAttr(name: string)

  // ----- Coercion of `any` -----

  predicate FitsI64(i: int) {
    -0x8000_0000_0000_0000 <= i < 0x8000_0000_0000_0000
  }

  function CoerceAll(items: seq<Value>): Option<seq<Attr>> {
    if items == [] then Some([])
    else
      var first, rest := Coerce(items[0]), CoerceAll(items[1..]);
      if first.None? || rest.None? then None else Some([first.value] + rest.value)
  }

  function CoerceEntry(e: ValueEntry): Option<AttrEntry> {
    var k, v := Coerce(e.key), Coerce(e.value);
    if k.None? || v.None? then None else Some(AttrEntry(k.value, v.value))
  }

  function CoerceEntries(entries: seq<ValueEntry>): Option<seq<AttrEntry>> {
    if entries == [] then Some([])
    else
      var first, rest := CoerceEntry(entries[0]), CoerceEntries(entries[1..]);
      if first.None? || rest.None? then None else Some([first.value] + rest.value)
  }

  /**
   `to_anon_target_any`; `None` is an error. Other types raise a soft error that is always an error (`error_on_oss`).
   */
  function Coerce(v: Value): Option<Attr> {
    match v
    case NoneValue => Some(NoneAttr)
    case BoolValue(b) => Some(BoolAttr(b))
    case IntValue(i) => if FitsI64(i) then Some(IntAttr(i)) else None
    case DictValue(entries) =>
      var r := CoerceEntries(entries);
      if r.None? then None else Some(DictAttr(r.value))
    case TupleValue(items) =>
      var r := CoerceAll(items);
      if r.None? then None else Some(TupleAttr(r.value))
    case ListValue(items) =>
      var r := CoerceAll(items);
      if r.None? then None else Some(ListAttr(r.value))
    case StringValue(s) => Some(StringAttr(s))
    case _ => None
  }

  // ----- Promises -----

  function PromisesOfAll(items: seq<Attr>): seq<PromiseAttr> {
    if items == [] then [] else Promises(items[0]) + PromisesOfAll(items[1..])
  }

  function PromisesOfEntry(e: AttrEntry): seq<PromiseAttr> {
    Promises(e.key) + Promises(e.value)
  }

  function PromisesOfEntries(entries: seq<AttrEntry>): seq<PromiseAttr> {
    if entries == [] then [] else PromisesOfEntry(entries[0]) + PromisesOfEntries(entries[1..])
  }

  /** The promises an attribute mentions, in traversal order. */
  function Promises(a: Attr): seq<PromiseAttr> {
    match a
    case ListAttr(items) => PromisesOfAll(items)
    case TupleAttr(items) => PromisesOfAll(items)
    case DictAttr(entries) => PromisesOfEntries(entries)
    case OneOfAttr(inner, _) => Promises(inner)
    case PromiseArtifactAttr(promise) => [promise]
    case _ => []
  }

  // ----- Resolution -----

  type Promised = map<PromiseAttr, Artifact>

  ghost predicate Covers(promised: Promised, promises: seq<PromiseAttr>) {
    forall p :: p in promises ==> p in promised
  }

  /** Lists and dicts are not hashable, nor is a tuple that holds one. */
  predicate Hashable(v: Value) {
    match v
    case ListValue(_) => false
    case DictValue(_) => false
    case TupleValue(items) => forall i :: 0 <= i < |items| ==> Hashable(items[i])
    case _ => true
  }

  /** A promise resolves only to an artifact that keeps what was promised about its path. */
  function ResolvePromise(p: PromiseAttr, artifact: Artifact): Option<Value> {
    if artifact.contentBased != p.contentBased then None
    else if p.shortPath.Some? && artifact.shortPath != p.shortPath.value then None
    else Some(PromiseValue(p, artifact))
  }

  /** Inserting into a map that keeps the order of first insertion. */
  function Insert(entries: seq<ValueEntry>, key: Value, value: Value): seq<ValueEntry> {
    if entries == [] then [ValueEntry(key, value)]
    else if entries[0].key == key then [ValueEntry(key, value)] + entries[1..]
    else [entries[0]] + Insert(entries[1..], key, value)
  }

  function ResolveAll(items: seq<Attr>, promised: Promised): Option<seq<Value>>
    requires Covers(promised, PromisesOfAll(items))
  {
    if items == [] then Some([])
    else
      var first, rest := Resolve(items[0], promised), ResolveAll(items[1..], promised);
      if first.None? || rest.None? then None else Some([first.value] + rest.value)
  }

  function ResolveEntry(e: AttrEntry, promised: Promised): Option<ValueEntry>
    requires Covers(promised, PromisesOfEntry(e))
  {
    var k, v := Resolve(e.key, promised), Resolve(e.value, promised);
    if k.None? || !Hashable(k.value) || v.None? then None else Some(ValueEntry(k.value, v.value))
  }

  function InsertAll(dict: seq<ValueEntry>, entries: seq<AttrEntry>, promised: Promised): Option<seq<ValueEntry>>
    requires Covers(promised, PromisesOfEntries(entries))
    decreases entries
  {
    if entries == [] then Some(dict)
    else
      var e := ResolveEntry(entries[0], promised);
      if e.None? then None else InsertAll(Insert(dict, e.value.key, e.value.value), entries[1..], promised)
  }

  /** `resolve_single`; `None` is an error. Every promise met has to be in the map: the lookup is unwrapped. */
  function Resolve(a: Attr, promised: Promised): Option<Value>
    requires Covers(promised, Promises(a))
  {
    match a
    case BoolAttr(b) => Some(BoolValue(b))
    case IntAttr(i) => Some(IntValue(i))
    case StringAttr(s) => Some(StringValue(s))
    case EnumVariantAttr(s) => Some(StringValue(s))
    case ListAttr(items) =>
      var r := ResolveAll(items, promised);
      if r.None? then None else Some(ListValue(r.value))
    case TupleAttr(items) =>
      var r := ResolveAll(items, promised);
      if r.None? then None else Some(TupleValue(r.value))
    case DictAttr(entries) =>
      var r := InsertAll([], entries, promised);
      if r.None? then None else Some(DictValue(r.value))
    case NoneAttr => Some(NoneValue)
    case OneOfAttr(inner, _) => Resolve(inner, promised)
    case ArtifactAttr(artifact) => Some(ArtifactValue(artifact))
    case PromiseArtifactAttr(promise) => ResolvePromise(promise, promised[promise])
    case LabelAttr(name) => Some(LabelValue(name))
  }

  // ----- Round trip -----

  ghost predicate WellFormedEntry(e: ValueEntry) {
    Hashable(e.key) && WellFormed(e.key) && WellFormed(e.value)
  }

  ghost predicate DistinctKeys(entries: seq<ValueEntry>) {
    forall i, j :: 0 <= i < j < |entries| ==> entries[i].key != entries[j].key
  }

  ghost predicate WellFormedEntries(entries: seq<ValueEntry>) {
    && DistinctKeys(entries)
    && forall i :: 0 <= i < |entries| ==> WellFormedEntry(entries[i])
  }

  /** The invariant of Starlark dicts, at every depth: keys are hashable and distinct. */
  ghost predicate WellFormed(v: Value) {
    match v
    case ListValue(items) => forall i :: 0 <= i < |items| ==> WellFormed(items[i])
    case TupleValue(items) => forall i :: 0 <= i < |items| ==> WellFormed(items[i])
    case DictValue(entries) => WellFormedEntries(entries)
    case _ => true
  }

  ghost predicate PlainEntry(e: ValueEntry) {
    Plain(e.key) && Plain(e.value)
  }

  /** Nothing but none, booleans, 64-bit integers, strings, lists, tuples and dicts. */
  ghost predicate Plain(v: Value) {
    match v
    case NoneValue => true
    case BoolValue(_) => true
    case IntValue(i) => FitsI64(i)
    case StringValue(_) => true
    case ListValue(items) => forall i :: 0 <= i < |items| ==> Plain(items[i])
    case TupleValue(items) => forall i :: 0 <= i < |items| ==> Plain(items[i])
    case DictValue(entries) => forall i :: 0 <= i < |entries| ==> PlainEntry(entries[i])
    case _ => false
  }

  ghost predicate ComesBack(v: Value, promised: Promised) {
    var a := Coerce(v);
    && (a.Some? <==> Plain(v))
    && (a.Some? ==> Promises(a.value) == [] && Resolve(a.value, promised) == Some(v))
  }

  ghost predicate AllBack(items: seq<Value>, promised: Promised) {
    var a := CoerceAll(items);
    && (a.Some? <==> forall i :: 0 <= i < |items| ==> Plain(items[i]))
    && (a.Some? ==> PromisesOfAll(a.value) == [] && ResolveAll(a.value, promised) == Some(items))
  }

  ghost predicate EntriesBack(dict: seq<ValueEntry>, entries: seq<ValueEntry>, promised: Promised) {
    var a := CoerceEntries(entries);
    && (a.Some? <==> forall i :: 0 <= i < |entries| ==> PlainEntry(entries[i]))
    && (a.Some? ==> PromisesOfEntries(a.value) == [] && InsertAll(dict, a.value, promised) == Some(dict + entries))
  }

  lemma {:induction false} ScalarComesBack(v: Value, promised: Promised)
    requires !v.ListValue? && !v.TupleValue? && !v.DictValue?
    ensures ComesBack(v, promised)
  {
  }

  lemma {:induction false} SequenceComesBack(items: seq<Value>, promised: Promised)
    requires AllBack(items, promised)
    ensures ComesBack(ListValue(items), promised) && ComesBack(TupleValue(items), promised)
  {
  }

  lemma {:induction false} DictComesBack(entries: seq<ValueEntry>, promised: Promised)
    requires EntriesBack([], entries, promised)
    ensures ComesBack(DictValue(entries), promised)
  {
    assert [] + entries == entries;
  }

  lemma {:induction false} AllComeBack(items: seq<Value>, promised: Promised)
    requires forall i :: 0 <= i < |items| ==> WellFormed(items[i])
    ensures AllBack(items, promised)
  {
    if items != [] {
      AnyRoundTrip(items[0], promised);
      AllComeBack(items[1..], promised);
      var a := CoerceAll(items);
      if a.Some? {
        assert a.value[0] == Coerce(items[0]).value && a.value[1..] == CoerceAll(items[1..]).value;
        assert [items[0]] + items[1..] == items;
      }
    }
  }

  lemma {:induction false} InsertNew(dict: seq<ValueEntry>, key: Value, value: Value)
    requires forall i :: 0 <= i < |dict| ==> dict[i].key != key
    ensures Insert(dict, key, value) == dict + [ValueEntry(key, value)]
  {
    if dict != [] { InsertNew(dict[1..], key, value); }
  }

  lemma {:induction false} EntryComesBack(e: ValueEntry, promised: Promised)
    requires WellFormedEntry(e)
    ensures var a := CoerceEntry(e);
            && (a.Some? <==> PlainEntry(e))
            && (a.Some? ==> PromisesOfEntry(a.value) == [] && ResolveEntry(a.value, promised) == Some(e))
  {
    AnyRoundTrip(e.key, promised);
    AnyRoundTrip(e.value, promised);
  }

  lemma {:induction false} EntriesComeBack(dict: seq<ValueEntry>, entries: seq<ValueEntry>, promised: Promised)
    requires DistinctKeys(dict + entries) && forall i :: 0 <= i < |entries| ==> WellFormedEntry(entries[i])
    ensures EntriesBack(dict, entries, promised)
    decreases entries
  {
    if entries == [] {
      assert dict + [] == dict;
    } else {
      var e := entries[0];
      EntryComesBack(e, promised);
      forall i | 0 <= i < |dict| ensures dict[i].key != e.key {
        assert (dict + entries)[i].key != (dict + entries)[|dict|].key;
      }
      InsertNew(dict, e.key, e.value);
      assert dict + [e] + entries[1..] == dict + entries;
      EntriesComeBack(dict + [e], entries[1..], promised);
    }
  }

  /** Coercion to `any` succeeds exactly for plain values, and resolving the result gives the value back. */
  lemma {:induction false} AnyRoundTrip(v: Value, promised: Promised)
    requires WellFormed(v)
    ensures ComesBack(v, promised)
  {
    hide AllBack, EntriesBack, ComesBack;
    match v
    case ListValue(items) =>
      AllComeBack(items, promised);
      SequenceComesBack(items, promised);
    case TupleValue(items) =>
      AllComeBack(items, promised);
      SequenceComesBack(items, promised);
    case DictValue(entries) =>
      assert [] + entries == entries;
      EntriesComeBack([], entries, promised);
      DictComesBack(entries, promised);
    case _ =>
      ScalarComesBack(v, promised);
  }

  // ----- Collecting and looking up promises -----

  /** `PromiseArtifactTraversal`: pushes every promise it is shown. */
  class PromiseTraversal {
    var promises: seq<PromiseAttr>

    constructor ()
      ensures promises == []
    {
      promises := [];
    }

    /** `traverse_anon_attr`. */
    method Traverse(a: Attr)
      modifies this
      ensures promises == old(promises) + Promises(a)
      decreases a
    {
      match a {
        case ListAttr(items) => TraverseAll(items);
        case TupleAttr(items) => TraverseAll(items);
        case DictAttr(entries) => TraverseEntries(entries);
        case OneOfAttr(inner, _) => Traverse(inner);
        case PromiseArtifactAttr(promise) => promises := promises + [promise];
        case _ =>
      }
    }

    method TraverseAll(items: seq<Attr>)
      modifies this
      ensures promises == old(promises) + PromisesOfAll(items)
      decreases items
    {
      for i := 0 to |items|
        invariant promises + PromisesOfAll(items[i..]) == old(promises) + PromisesOfAll(items)
      {
        assert items[i..][1..] == items[i + 1..];
        ghost var before := promises;
        Traverse(items[i]);
        assert promises + PromisesOfAll(items[i + 1..]) ==
            before + (Promises(items[i]) + PromisesOfAll(items[i + 1..]));
      }
    }

    method TraverseEntry(e: AttrEntry)
      modifies this
      ensures promises == old(promises) + PromisesOfEntry(e)
      decreases e
    {
      Traverse(e.key);
      Traverse(e.value);
    }

    method TraverseEntries(entries: seq<AttrEntry>)
      modifies this
      ensures promises == old(promises) + PromisesOfEntries(entries)
      decreases entries
    {
      for i := 0 to |entries|
        invariant promises + PromisesOfEntries(entries[i..]) == old(promises) + PromisesOfEntries(entries)
      {
        assert entries[i..][1..] == entries[i + 1..];
        ghost var before := promises;
        TraverseEntry(entries[i]);
        assert promises + PromisesOfEntries(entries[i + 1..])
            == before + (PromisesOfEntry(entries[i]) + PromisesOfEntries(entries[i + 1..]));
      }
    }
  }

  /** `get_dependents`: the promises of all attributes of a target. */
  method GetDependents(attrs: seq<Attr>) returns (promises: seq<PromiseAttr>)
    ensures promises == PromisesOfAll(attrs)
  {
    var traversal := new PromiseTraversal();
    traversal.TraverseAll(attrs);
    promises := traversal.promises;
  }

  ghost predicate Analysed(promises: seq<PromiseAttr>, analysis: map<string, Artifact>) {
    forall p :: p in promises ==> p.id in analysis
  }

  /** Every promise with the artifact its analysis produced. */
  ghost function Looked(promises: seq<PromiseAttr>, analysis: map<string, Artifact>): Promised
    requires Analysed(promises, analysis)
  {
    map p | p in promises :: analysis[p.id]
  }

  /** `get_analysis_results`: an error if any analysis does not know its promise. */
  method GetAnalysisResults(promises: seq<PromiseAttr>, analysis: map<string, Artifact>) returns (r: Option<Promised>)
    ensures r.Some? <==> Analysed(promises, analysis)
    ensures r.Some? ==> r.value == Looked(promises, analysis)
  {
    var promised: Promised := map[];
    for i := 0 to |promises|
      invariant Analysed(promises[..i], analysis) && promised == Looked(promises[..i], analysis)
    {
      assert promises[..i + 1] == promises[..i] + [promises[i]];
      if promises[i].id !in analysis {
        assert promises[i] in promises;
        return None;
      }
      promised := promised[promises[i] := analysis[promises[i].id]];
    }
    assert promises[..|promises|] == promises;
    r := Some(promised);
  }

  function After(first: seq<Value>, rest: Option<seq<Value>>): Option<seq<Value>> {
    if rest.None? then None else Some(first + rest.value)
  }

  lemma {:induction false} ResolveStep(items: seq<Attr>, i: nat, promised: Promised, before: seq<Value>)
    requires i < |items| && Covers(promised, PromisesOfAll(items[i..]))
    ensures Covers(promised, Promises(items[i])) && Covers(promised, PromisesOfAll(items[i + 1..]))
    ensures var v, rest := Resolve(items[i], promised), ResolveAll(items[i + 1..], promised);
            After(before, ResolveAll(items[i..], promised)) == if v.None? then None else After(before + [v.value], rest)
  {
    assert items[i..][1..] == items[i + 1..];
    var v, rest := Resolve(items[i], promised), ResolveAll(items[i + 1..], promised);
    if v.Some? && rest.Some? {
      assert before + ([v.value] + rest.value) == before + [v.value] + rest.value;
    }
  }

  lemma {:induction false} ResolveEnds(items: seq<Attr>, promised: Promised, all: seq<Value>)
    requires Covers(promised, PromisesOfAll(items))
    ensures items[0..] == items && After([], ResolveAll(items, promised)) == ResolveAll(items, promised)
    ensures Covers(promised, PromisesOfAll(items[|items|..]))
            && After(all, ResolveAll(items[|items|..], promised)) == Some(all)
  {
    assert items[|items|..] == [] && all + [] == all;
    if ResolveAll(items, promised).Some? {
      assert [] + ResolveAll(items, promised).value == ResolveAll(items, promised).value;
    }
  }

  /** The loop that resolves a list of attributes and stops at the first error. */
  method ResolveValues(items: seq<Attr>, promised: Promised) returns (r: Option<seq<Value>>)
    requires Covers(promised, PromisesOfAll(items))
    ensures r == ResolveAll(items, promised)
  {
    var values: seq<Value> := [];
    ResolveEnds(items, promised, values);
    hide Covers, PromisesOfAll, ResolveAll, Resolve, After, Promises;
    for i := 0 to |items|
      invariant Covers(promised, PromisesOfAll(items[i..]))
      invariant ResolveAll(items, promised) == After(values, ResolveAll(items[i..], promised))
    {
      ResolveStep(items, i, promised, values);
      var v := Resolve(items[i], promised);
      if v.None? {
        return None;
      }
      values := values + [v.value];
    }
    ResolveEnds(items, promised, values);
    r := Some(values);
  }

  /**
   Collecting, looking up and resolving the attributes of a target: after a successful lookup every promise met
   is there, so the only errors left are those of the attributes themselves.
   */
  method ResolveTarget(attrs: seq<Attr>, analysis: map<string, Artifact>) returns (r: Option<seq<Value>>)
    ensures r == if Analysed(PromisesOfAll(attrs), analysis)
            then ResolveAll(attrs, Looked(PromisesOfAll(attrs), analysis))
                 else None
  {
    var promises := GetDependents(attrs);
    var promised := GetAnalysisResults(promises, analysis);
    if promised.None? {
      return None;
    }
    r := ResolveValues(attrs, promised.value);
  }
}
