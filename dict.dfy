/** A JavaScript object used as a dictionary with string keys: its entries in
    insertion order. Assigning to a key that exists replaces its value where
    it stands; assigning to a new key appends it. */
module Dict {
  import opened Common

  type Dict<V> = seq<(string, V)>

  function Keys<V>(d: Dict<V>): (ks: seq<string>)
    ensures |ks| == |d| && forall i :: 0 <= i < |d| ==> ks[i] == d[i].0
    decreases |d|
  {
    if |d| == 0 then [] else [d[0].0] + Keys(d[1..])
  }

  predicate HasKey<V>(d: Dict<V>, k: string) {
    k in Keys(d)
  }

  /** No key occurs twice. */
  predicate UniqueKeys<V>(d: Dict<V>) {
    forall i, j :: 0 <= i < j < |d| ==> d[i].0 != d[j].0
  }

  /** `d[k]`, `undefined` for a missing key. */
  function Get<V>(d: Dict<V>, k: string): (r: Option<V>)
    ensures r.None? <==> !HasKey(d, k)
    ensures r.Some? ==> exists i :: 0 <= i < |d| && d[i] == (k, r.value)
    decreases |d|
  {
    if |d| == 0 then None
    else if d[0].0 == k then Some(d[0].1)
    else
      var r := Get(d[1..], k);
      assert forall i :: 0 <= i < |d| - 1 ==> d[1..][i] == d[i + 1];
      r
  }

  /** `d[k] = v`. */
  function Put<V>(d: Dict<V>, k: string, v: V): (r: Dict<V>)
    decreases |d|
  {
    if |d| == 0 then [(k, v)]
    else if d[0].0 == k then [(k, v)] + d[1..]
    else [d[0]] + Put(d[1..], k, v)
  }

  /** `{}` after assigning each entry of `entries` in turn. */
  function FromEntries<V>(entries: seq<(string, V)>): Dict<V>
    decreases |entries|
  {
    if |entries| == 0 then []
    else
      var last := entries[|entries| - 1];
      Put(FromEntries(entries[..|entries| - 1]), last.0, last.1)
  }

  // ----------------------------------------------------------------------------
  // Properties
  // ----------------------------------------------------------------------------

  /** Reading a key just assigned gives its new value; other keys keep theirs. */
  lemma {:induction false} GetPut<V>(d: Dict<V>, k: string, v: V, k2: string)
    ensures Get(Put(d, k, v), k) == Some(v)
    ensures k2 != k ==> Get(Put(d, k, v), k2) == Get(d, k2)
    decreases |d|
  {
    if |d| > 0 && d[0].0 != k {
      GetPut(d[1..], k, v, k2);
    }
  }

  /** Assigning an existing key keeps the order of the keys; a new key is
      appended after the others. */
  lemma {:induction false} PutKeys<V>(d: Dict<V>, k: string, v: V)
    ensures HasKey(d, k) ==> Keys(Put(d, k, v)) == Keys(d)
    ensures !HasKey(d, k) ==> Keys(Put(d, k, v)) == Keys(d) + [k]
    decreases |d|
  {
    if |d| > 0 {
      var r := Put(d, k, v);
      if d[0].0 != k {
        PutKeys(d[1..], k, v);
        assert r == [d[0]] + Put(d[1..], k, v);
        assert r[1..] == Put(d[1..], k, v);
      } else {
        assert r[1..] == d[1..];
      }
    }
  }

  /** Assignment keeps keys unique. */
  lemma PutUnique<V>(d: Dict<V>, k: string, v: V)
    requires UniqueKeys(d)
    ensures UniqueKeys(Put(d, k, v))
  {
    PutKeys(d, k, v);
    var r := Put(d, k, v);
    assert forall i :: 0 <= i < |r| ==> r[i].0 == Keys(r)[i];
    assert forall i :: 0 <= i < |d| ==> d[i].0 == Keys(d)[i];
  }

  /** The value of the last entry with key `k`. */
  function LastValue<V>(entries: seq<(string, V)>, k: string): (r: Option<V>)
    ensures r.None? <==> forall i :: 0 <= i < |entries| ==> entries[i].0 != k
    decreases |entries|
  {
    if |entries| == 0 then None
    else if entries[|entries| - 1].0 == k then Some(entries[|entries| - 1].1)
    else LastValue(entries[..|entries| - 1], k)
  }

  /** Assigning the entries in turn leaves each key with its last value. */
  lemma {:induction false} FromEntriesGet<V>(entries: seq<(string, V)>, k: string)
    ensures Get(FromEntries(entries), k) == LastValue(entries, k)
    decreases |entries|
  {
    if |entries| > 0 {
      var last := entries[|entries| - 1];
      FromEntriesGet(entries[..|entries| - 1], k);
      GetPut(FromEntries(entries[..|entries| - 1]), last.0, last.1, k);
    }
  }

  /** The keys are those of the entries, each once. */
  lemma {:induction false} FromEntriesKeys<V>(entries: seq<(string, V)>, k: string)
    ensures HasKey(FromEntries(entries), k) <==> exists i :: 0 <= i < |entries| && entries[i].0 == k
    ensures UniqueKeys(FromEntries(entries))
    decreases |entries|
  {
    FromEntriesGet(entries, k);
    if |entries| > 0 {
      var last := entries[|entries| - 1];
      FromEntriesKeys(entries[..|entries| - 1], k);
      PutUnique(FromEntries(entries[..|entries| - 1]), last.0, last.1);
    }
  }
}
