/** Small value types and sequence facts shared by the other modules. */
module Collections {

  datatype Option<+T> = None | Some(value: T)

  /** `s` read backwards. */
  function Reverse<T>(s: seq<T>): (r: seq<T>)
    ensures |r| == |s|
    ensures forall i :: 0 <= i < |s| ==> r[i] == s[|s| - 1 - i]
  {
    seq(|s|, i requires 0 <= i < |s| => s[|s| - 1 - i])
  }

  function SetOf<T>(s: seq<T>): (r: set<T>) {
    set x | x in s
  }

  ghost predicate NoDuplicates<T>(s: seq<T>) {
    forall i, j :: 0 <= i < j < |s| ==> s[i] != s[j]
  }

  ghost predicate SortedBy<T>(s: seq<T>, key: T -> nat) {
    forall i, j :: 0 <= i < j < |s| ==> key(s[i]) <= key(s[j])
  }

  /** The elements of `s` whose key is `k`, in order. */
  function WithKey<T>(s: seq<T>, key: T -> nat, k: nat): (r: seq<T>) {
    if s == [] then []
    else (if key(s[0]) == k then [s[0]] else []) + WithKey(s[1..], key, k)
  }

  /** Inserts `x` in a sorted sequence, after the elements whose key is not greater. */
  function InsertBy<T>(s: seq<T>, x: T, key: T -> nat): (r: seq<T>) {
    if s == [] || key(x) < key(s[0]) then [x] + s else [s[0]] + InsertBy(s[1..], x, key)
  }

  /** A stable sort by `key`, standing for the standard library's `sort_by_key`. */
  function SortBy<T>(s: seq<T>, key: T -> nat): (r: seq<T>) {
    if s == [] then [] else InsertBy(SortBy(s[..|s| - 1], key), s[|s| - 1], key)
  }

  lemma {:induction false} InsertByKeeps<T>(s: seq<T>, x: T, key: T -> nat)
    ensures multiset(InsertBy(s, x, key)) == multiset(s) + multiset{x}
    ensures forall y :: y in InsertBy(s, x, key) ==> y == x || y in s
  {
    if s != [] && key(s[0]) <= key(x) {
      InsertByKeeps(s[1..], x, key);
      assert s == [s[0]] + s[1..];
    }
  }

  lemma {:induction false} InsertBySorted<T>(s: seq<T>, x: T, key: T -> nat)
    requires SortedBy(s, key)
    ensures SortedBy(InsertBy(s, x, key), key)
  {
    if s != [] && key(s[0]) <= key(x) {
      InsertBySorted(s[1..], x, key);
      InsertByKeeps(s[1..], x, key);
      var t := InsertBy(s[1..], x, key);
      forall j | 0 <= j < |t| ensures key(s[0]) <= key(t[j]) {
        assert t[j] in t;
      }
    }
  }

  lemma {:induction false} WithKeyAbove<T>(s: seq<T>, key: T -> nat, k: nat)
    requires forall i :: 0 <= i < |s| ==> k < key(s[i])
    ensures WithKey(s, key, k) == []
  {
    if s != [] { WithKeyAbove(s[1..], key, k); }
  }

  lemma {:induction false} InsertByStable<T>(s: seq<T>, x: T, key: T -> nat, k: nat)
    requires SortedBy(s, key)
    ensures WithKey(InsertBy(s, x, key), key, k) == WithKey(s, key, k) + (if key(x) == k then [x] else [])
  {
    var r := InsertBy(s, x, key);
    if s == [] || key(x) < key(s[0]) {
      assert r[1..] == s;
      if key(x) == k { WithKeyAbove(s, key, k); }
    } else {
      InsertByStable(s[1..], x, key, k);
      assert r[1..] == InsertBy(s[1..], x, key);
    }
  }

  lemma {:induction false} Reassociate<T>(a: seq<T>, b: seq<T>, c: seq<T>)
    ensures a + (b + c) == a + b + c
  {
  }

  lemma {:induction false} WithKeyAppend<T>(s: seq<T>, x: T, key: T -> nat, k: nat)
    ensures WithKey(s + [x], key, k) == WithKey(s, key, k) + (if key(x) == k then [x] else [])
  {
    if s == [] {
      assert ([] + [x])[1..] == [];
    } else {
      assert (s + [x])[0] == s[0] && (s + [x])[1..] == s[1..] + [x];
      WithKeyAppend(s[1..], x, key, k);
      var first := if key(s[0]) == k then [s[0]] else [];
      var rest, last := WithKey(s[1..], key, k), if key(x) == k then [x] else [];
      assert WithKey(s, key, k) == first + rest && WithKey(s + [x], key, k) == first + (rest + last);
      hide WithKey;
      Reassociate(first, rest, last);
    }
  }

  /** The sort orders by key, keeps every element, and keeps the relative order of equal keys. */
  lemma {:induction false} SortByCorrect<T>(s: seq<T>, key: T -> nat)
    ensures SortedBy(SortBy(s, key), key)
    ensures multiset(SortBy(s, key)) == multiset(s)
    ensures |SortBy(s, key)| == |s|
    ensures forall k :: WithKey(SortBy(s, key), key, k) == WithKey(s, key, k)
  {
    if s != [] {
      var p, x := s[..|s| - 1], s[|s| - 1];
      SortByCorrect(p, key);
      InsertBySorted(SortBy(p, key), x, key);
      InsertByKeeps(SortBy(p, key), x, key);
      assert s == p + [x];
      forall k ensures WithKey(SortBy(s, key), key, k) == WithKey(s, key, k) {
        InsertByStable(SortBy(p, key), x, key, k);
        WithKeyAppend(p, x, key, k);
      }
      assert |multiset(SortBy(s, key))| == |multiset(s)|;
    }
  }

  lemma {:induction false} SortByMembers<T>(s: seq<T>, key: T -> nat)
    ensures SortedBy(SortBy(s, key), key)
    ensures forall y :: y in SortBy(s, key) <==> y in s
  {
    SortByCorrect(s, key);
    assert forall y :: y in SortBy(s, key) <==> y in multiset(SortBy(s, key));
    assert forall y :: y in s <==> y in multiset(s);
  }
}
