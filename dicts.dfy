/**
  Python's insertion-ordered `dict` with string keys: a sequence of entries whose keys are
  distinct. `Put` is `d[k] = v` (an existing key keeps its place, a new key goes last) and
  `Get` is `d.get(k)`.
*/
module Dicts {
  import opened Wrappers

  datatype Entry<V> = Entry(key: string, value: V)

  type Dict<V> = seq<Entry<V>>

  /** The keys in iteration order. */
  function Keys<V>(d: Dict<V>): seq<string> {
    if d == [] then [] else [d[0].key] + Keys(d[1..])
  }

  lemma {:induction false} KeysAt<V>(d: Dict<V>, i: nat)
    requires i < |d|
    ensures |Keys(d)| == |d| && Keys(d)[i] == d[i].key
  {
    if i > 0 {
      KeysAt(d[1..], i - 1);
    } else {
      KeysLength(d);
    }
  }

  lemma {:induction false} KeysLength<V>(d: Dict<V>)
    ensures |Keys(d)| == |d|
  {
    if d != [] {
      KeysLength(d[1..]);
    }
  }

  /** `k in d`. */
  predicate HasKey<V>(d: Dict<V>, k: string) {
    k in Keys(d)
  }

  /** No key occurs twice, as in every Python dict. */
  predicate DistinctKeys<V>(d: Dict<V>) {
    forall i, j :: 0 <= i < j < |d| ==> d[i].key != d[j].key
  }

  /** `d.get(k)`: the value of the first entry for `k`, if there is one. */
  function Get<V>(d: Dict<V>, k: string): (r: Option<V>)
    ensures r.None? <==> !HasKey(d, k)
  {
    if d == [] then None
    else if d[0].key == k then Some(d[0].value)
    else Get(d[1..], k)
  }

  /** In a dict with distinct keys, the entry at position `i` is what `Get` finds for its key. */
  lemma {:induction false} GetAt<V>(d: Dict<V>, i: nat)
    requires DistinctKeys(d) && i < |d|
    ensures Get(d, d[i].key) == Some(d[i].value)
  {
    if i > 0 {
      GetAt(d[1..], i - 1);
    }
  }

  /** `d.get(k, default)`. */
  function GetOr<V>(d: Dict<V>, k: string, default: V): V {
    match Get(d, k)
    case Some(v) => v
    case None => default
  }

  /** `d[k] = v`: the value for `k` becomes `v` and every other key keeps its value. */
  function Put<V>(d: Dict<V>, k: string, v: V): (r: Dict<V>)
    ensures Get(r, k) == Some(v)
    ensures forall k' :: k' != k ==> Get(r, k') == Get(d, k')
  {
    if d == [] then [Entry(k, v)]
    else if d[0].key == k then [Entry(k, v)] + d[1..]
    else [d[0]] + Put(d[1..], k, v)
  }

  /** `d[k] = v` changes the order of keys only by adding a new key at the end. */
  lemma {:induction false} PutKeys<V>(d: Dict<V>, k: string, v: V)
    ensures Keys(Put(d, k, v)) == if HasKey(d, k) then Keys(d) else Keys(d) + [k]
  {
    if d != [] && d[0].key != k {
      PutKeys(d[1..], k, v);
    }
  }

  /** `d[k] = v` for a key `d` lacks puts the new entry last. */
  lemma {:induction false} PutNew<V>(d: Dict<V>, k: string, v: V)
    requires forall i :: 0 <= i < |d| ==> d[i].key != k
    ensures Put(d, k, v) == d + [Entry(k, v)]
    decreases |d|
  {
    if d != [] {
      PutNew(d[1..], k, v);
    }
  }

  /** Every key after `d[k] = v` is `k` or a key `d` already had. */
  lemma {:induction false} PutKeysFrom<V>(d: Dict<V>, k: string, v: V)
    ensures forall j :: 0 <= j < |Put(d, k, v)| ==>
      Put(d, k, v)[j].key == k || exists m :: 0 <= m < |d| && d[m].key == Put(d, k, v)[j].key
    decreases |d|
  {
    if d != [] && d[0].key != k {
      PutKeysFrom(d[1..], k, v);
      var r := Put(d, k, v);
      forall j | 0 <= j < |r| && r[j].key != k
        ensures exists m :: 0 <= m < |d| && d[m].key == r[j].key
      {
        if j == 0 {
          assert d[0].key == r[j].key;
        } else {
          var m :| 0 <= m < |d[1..]| && d[1..][m].key == Put(d[1..], k, v)[j - 1].key;
          assert d[m + 1].key == r[j].key;
        }
      }
    } else if d != [] {
      var r := Put(d, k, v);
      forall j | 0 <= j < |r| && r[j].key != k
        ensures exists m :: 0 <= m < |d| && d[m].key == r[j].key
      {
        assert d[j].key == r[j].key;
      }
    }
  }

  /** `d[k] = v` keeps the keys of a dict distinct. */
  lemma {:induction false} PutDistinct<V>(d: Dict<V>, k: string, v: V)
    requires DistinctKeys(d)
    ensures DistinctKeys(Put(d, k, v))
    decreases |d|
  {
    if d != [] && d[0].key != k {
      PutDistinct(d[1..], k, v);
      PutKeysFrom(d[1..], k, v);
      var r := Put(d, k, v);
      forall i, j | 0 <= i < j < |r|
        ensures r[i].key != r[j].key
      {
        if i == 0 {
          assert r[j] == Put(d[1..], k, v)[j - 1];
          if r[j].key != k {
            var m :| 0 <= m < |d[1..]| && d[1..][m].key == r[j].key;
            assert d[m + 1].key == r[j].key;
          }
        } else {
          assert r[i] == Put(d[1..], k, v)[i - 1] && r[j] == Put(d[1..], k, v)[j - 1];
        }
      }
    } else if d != [] {
      var r := Put(d, k, v);
      forall i, j | 0 <= i < j < |r|
        ensures r[i].key != r[j].key
      {
        assert r[i].key == d[i].key && r[j].key == d[j].key;
      }
    }
  }

  /** After `d[k] = v` the dict has `k` and every key it had before, and no other. */
  lemma PutHasKey<V>(d: Dict<V>, k: string, v: V, k': string)
    ensures HasKey(Put(d, k, v), k') <==> k' == k || HasKey(d, k')
  {
    var r := Put(d, k, v);
    assert Get(r, k).Some?;
    if k' != k {
      assert Get(r, k') == Get(d, k');
    }
  }
  /** The position of the entry `Get` finds. */
  lemma {:induction false} GetIndex<V>(d: Dict<V>, k: string) returns (m: nat)
    requires Get(d, k).Some?
    ensures m < |d| && d[m] == Entry(k, Get(d, k).value)
  {
    if d[0].key == k {
      m := 0;
    } else {
      m := GetIndex(d[1..], k);
      m := m + 1;
    }
  }

  /** The keys of a dict with one more entry at the end. */
  lemma {:induction false} KeysSnoc<V>(d: Dict<V>, e: Entry<V>)
    ensures Keys(d + [e]) == Keys(d) + [e.key]
  {
    if d != [] {
      assert (d + [e])[1..] == d[1..] + [e];
      KeysSnoc(d[1..], e);
    } else {
      assert d + [e] == [e];
    }
  }

  /** `Get` on a dict with one more entry at the end finds the earlier entries first. */
  lemma {:induction false} GetSnoc<V>(d: Dict<V>, e: Entry<V>, k: string)
    ensures Get(d + [e], k) == if HasKey(d, k) then Get(d, k) else if e.key == k then Some(e.value) else None
  {
    if d != [] {
      assert (d + [e])[1..] == d[1..] + [e];
      GetSnoc(d[1..], e, k);
      assert Keys(d) == [d[0].key] + Keys(d[1..]);
    } else {
      assert d + [e] == [e];
    }
  }
}
