/** Objects and maps as the source uses them: keyed entries in insertion order. */
module Dicts {
  import opened Options

  datatype Entry<K, V> = Entry(key: K, value: V)

  type Dict<K, V> = seq<Entry<K, V>>

  function Keys<K(==), V>(d: Dict<K, V>): set<K> {
    if d == [] then {} else {d[0].key} + Keys(d[1..])
  }

  predicate Unique<K(==), V>(d: Dict<K, V>) {
    d == [] || (d[0].key !in Keys(d[1..]) && Unique(d[1..]))
  }

  function Get<K(==), V>(d: Dict<K, V>, k: K): (r: Option<V>)
    ensures r.Some? <==> k in Keys(d)
  {
    if d == [] then None else if d[0].key == k then Some(d[0].value) else Get(d[1..], k)
  }

  predicate Has<K(==), V>(d: Dict<K, V>, k: K)
    ensures Has(d, k) <==> k in Keys(d)
  {
    Get(d, k).Some?
  }

  /** Assigning to a key keeps the place of an old entry and appends a new one. */
  function Put<K(==), V>(d: Dict<K, V>, k: K, v: V): (r: Dict<K, V>)
    ensures Keys(r) == Keys(d) + {k}
  {
    if d == [] then [Entry(k, v)]
    else if d[0].key == k then [Entry(k, v)] + d[1..]
    else [d[0]] + Put(d[1..], k, v)
  }

  function Remove<K(==), V>(d: Dict<K, V>, k: K): (r: Dict<K, V>)
    ensures Keys(r) == Keys(d) - {k}
  {
    if d == [] then [] else if d[0].key == k then Remove(d[1..], k) else [d[0]] + Remove(d[1..], k)
  }

  /** Building an object or a map from a list: a later entry overwrites an earlier one. */
  function FromPairs<K(==), V>(d: Dict<K, V>): (r: Dict<K, V>) {
    if d == [] then [] else Put(FromPairs(d[..|d| - 1]), d[|d| - 1].key, d[|d| - 1].value)
  }

  lemma {:induction false} KeysAppend<K, V>(a: Dict<K, V>, b: Dict<K, V>)
    ensures Keys(a + b) == Keys(a) + Keys(b)
  {
    if a == [] {
      assert a + b == b;
    } else {
      assert (a + b)[1..] == a[1..] + b;
      KeysAppend(a[1..], b);
    }
  }

  lemma {:induction false} UniqueAppend<K, V>(a: Dict<K, V>, b: Dict<K, V>)
    ensures Unique(a + b) <==> Unique(a) && Unique(b) && Keys(a) !! Keys(b)
  {
    if a == [] {
      assert a + b == b;
    } else {
      assert (a + b)[1..] == a[1..] + b;
      KeysAppend(a[1..], b);
      UniqueAppend(a[1..], b);
    }
  }

  lemma {:induction false} KeyAt<K, V>(d: Dict<K, V>, i: nat)
    requires i < |d|
    ensures d[i].key in Keys(d)
  {
    if i > 0 {
      KeyAt(d[1..], i - 1);
    }
  }

  /** Unique means what it says: no two entries share a key. */
  lemma {:induction false} UniqueByIndex<K, V>(d: Dict<K, V>, i: nat, j: nat)
    requires Unique(d) && i < j < |d|
    ensures d[i].key != d[j].key
  {
    if i == 0 {
      KeyAt(d[1..], j - 1);
    } else {
      UniqueByIndex(d[1..], i - 1, j - 1);
    }
  }

  lemma {:induction false} GetAt<K, V>(d: Dict<K, V>, i: nat)
    requires Unique(d) && i < |d|
    ensures Get(d, d[i].key) == Some(d[i].value)
  {
    if i > 0 {
      GetAt(d[1..], i - 1);
      KeyAt(d[1..], i - 1);
    }
  }

  /** What is found is an entry. */
  lemma {:induction false} GetIsIn<K, V>(d: Dict<K, V>, k: K)
    requires k in Keys(d)
    ensures Get(d, k).Some? && Entry(k, Get(d, k).value) in d
  {
    if d[0].key != k {
      GetIsIn(d[1..], k);
    }
  }

  /** A list with unique keys has as many entries as keys. */
  lemma {:induction false} UniqueSize<K, V>(d: Dict<K, V>)
    requires Unique(d)
    ensures |d| == |Keys(d)|
  {
    if d != [] {
      UniqueSize(d[1..]);
    }
  }

  lemma {:induction false} PutUnique<K, V>(d: Dict<K, V>, k: K, v: V)
    requires Unique(d)
    ensures Unique(Put(d, k, v))
  {
    if d != [] && d[0].key != k {
      PutUnique(d[1..], k, v);
    }
  }

  lemma {:induction false} PutGet<K, V>(d: Dict<K, V>, k: K, v: V, other: K)
    ensures Get(Put(d, k, v), other) == if other == k then Some(v) else Get(d, other)
  {
    if d != [] && d[0].key != k {
      PutGet(d[1..], k, v, other);
    }
  }

  lemma {:induction false} RemoveUnique<K, V>(d: Dict<K, V>, k: K)
    requires Unique(d)
    ensures Unique(Remove(d, k))
  {
    if d != [] {
      RemoveUnique(d[1..], k);
    }
  }

  lemma {:induction false} RemoveGet<K, V>(d: Dict<K, V>, k: K, other: K)
    ensures Get(Remove(d, k), other) == if other == k then None else Get(d, other)
  {
    if d != [] {
      RemoveGet(d[1..], k, other);
    }
  }

  lemma {:induction false} PutNew<K, V>(d: Dict<K, V>, k: K, v: V)
    requires k !in Keys(d)
    ensures Put(d, k, v) == d + [Entry(k, v)]
  {
    if d != [] {
      PutNew(d[1..], k, v);
    }
  }

  /** An object built from a list has its keys, each once; a list without repeats is unchanged. */
  lemma {:induction false} FromPairsSpec<K, V>(d: Dict<K, V>)
    ensures Unique(FromPairs(d)) && Keys(FromPairs(d)) == Keys(d)
    ensures Unique(d) ==> FromPairs(d) == d
  {
    if d != [] {
      var n := |d| - 1;
      var last := [d[n]];
      assert d == d[..n] + last;
      FromPairsSpec(d[..n]);
      PutUnique(FromPairs(d[..n]), d[n].key, d[n].value);
      KeysAppend(d[..n], last);
      UniqueAppend(d[..n], last);
      assert last[1..] == [] && Keys(last) == {d[n].key};
      if Unique(d) {
        PutNew(d[..n], d[n].key, d[n].value);
      }
    }
  }

  /** A lookup in an object built from a list finds the last entry with that key. */
  lemma {:induction false} FromPairsGet<K, V>(d: Dict<K, V>, i: nat)
    requires i < |d| && forall j :: i < j < |d| ==> d[j].key != d[i].key
    ensures Get(FromPairs(d), d[i].key) == Some(d[i].value)
    decreases |d|
  {
    var n := |d| - 1;
    PutGet(FromPairs(d[..n]), d[n].key, d[n].value, d[i].key);
    if i < n {
      FromPairsGet(d[..n], i);
    }
  }

  /** A key of the list stands at some position. */
  lemma {:induction false} FindKey<K, V>(d: Dict<K, V>, k: K) returns (i: nat)
    requires k in Keys(d)
    ensures i < |d| && d[i].key == k
  {
    if d[0].key == k {
      i := 0;
    } else {
      i := FindKey(d[1..], k);
      i := i + 1;
    }
  }
}
