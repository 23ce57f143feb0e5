/**
 * A JavaScript object used as a dictionary (`Record<string, V>`): its keys keep
 * the order in which they were first assigned, and assigning an existing key
 * keeps its position. `Object.entries` walks the entries in that order.
 */
module Records {
  import opened Options

  datatype Entry<V> = Entry(key: string, value: V)

  type Record<V> = seq<Entry<V>>

  function Keys<V>(r: Record<V>): (ks: seq<string>)
    ensures |ks| == |r|
    ensures forall i :: 0 <= i < |r| ==> ks[i] == r[i].key
  {
    if r == [] then [] else [r[0].key] + Keys(r[1..])
  }

  /** No key occurs twice, as in every JavaScript object. */
  predicate DistinctKeys<V>(r: Record<V>) {
    forall i, j :: 0 <= i < j < |r| ==> r[i].key != r[j].key
  }

  /** `r[k]`, which is `undefined` for a missing key. */
  function Get<V>(r: Record<V>, k: string): (v: Option<V>) {
    if r == [] then None
    else if r[0].key == k then Some(r[0].value)
    else Get(r[1..], k)
  }

  /** `r[k] = v`: overwrite in place, or append a new key at the end. */
  function Put<V>(r: Record<V>, k: string, v: V): (r': Record<V>) {
    if r == [] then [Entry(k, v)]
    else if r[0].key == k then [Entry(k, v)] + r[1..]
    else [r[0]] + Put(r[1..], k, v)
  }

  /** A key reads as missing exactly when it is not among the keys. */
  lemma {:induction false} GetNone<V>(r: Record<V>, k: string)
    ensures Get(r, k).None? <==> k !in Keys(r)
  {
    if r != [] {
      GetNone(r[1..], k);
      assert Keys(r) == [r[0].key] + Keys(r[1..]);
    }
  }

  /** `r[k] = v` keeps the keys, or appends `k` when it is new. */
  lemma {:induction false} PutKeys<V>(r: Record<V>, k: string, v: V)
    ensures Keys(Put(r, k, v)) == if k in Keys(r) then Keys(r) else Keys(r) + [k]
  {
    if r != [] {
      assert Keys(r) == [r[0].key] + Keys(r[1..]);
      if r[0].key != k {
        PutKeys(r[1..], k, v);
        assert Keys(Put(r, k, v)) == [r[0].key] + Keys(Put(r[1..], k, v));
      } else {
        assert Keys(Put(r, k, v)) == [k] + Keys(r[1..]);
      }
    }
  }

  /** After `r[k] = v`, reading `k` gives `v` and every other key reads as before. */
  lemma {:induction false} PutGet<V>(r: Record<V>, k: string, v: V, k': string)
    ensures Get(Put(r, k, v), k') == if k' == k then Some(v) else Get(r, k')
  {
    if r != [] && r[0].key != k {
      PutGet(r[1..], k, v, k');
      assert Put(r, k, v)[1..] == Put(r[1..], k, v);
    } else if r != [] {
      assert Put(r, k, v)[1..] == r[1..];
    }
  }

  lemma {:induction false} PutKeepsKeysDistinct<V>(r: Record<V>, k: string, v: V)
    requires DistinctKeys(r)
    ensures DistinctKeys(Put(r, k, v))
  {
    var r' := Put(r, k, v);
    PutKeys(r, k, v);
    forall i, j | 0 <= i < j < |r'| ensures r'[i].key != r'[j].key {
      var ks, ks' := Keys(r), Keys(r');
      assert ks'[i] == r'[i].key && ks'[j] == r'[j].key;
      if k in ks {
        assert ks' == ks;
      } else {
        assert ks' == ks + [k];
        if j == |r| {
          assert ks[i] == r[i].key;
        } else {
          assert ks[i] == r[i].key && ks[j] == r[j].key;
        }
      }
    }
  }

  /** With distinct keys, looking up the key of an entry finds that entry's value. */
  lemma {:induction false} GetAt<V>(r: Record<V>, i: nat)
    requires DistinctKeys(r) && i < |r|
    ensures Get(r, r[i].key) == Some(r[i].value)
  {
    if i > 0 {
      assert r[0].key != r[i].key;
      assert DistinctKeys(r[1..]) by {
        forall a, b | 0 <= a < b < |r| - 1
          ensures r[1..][a].key != r[1..][b].key
        {
          assert r[1..][a] == r[a + 1] && r[1..][b] == r[b + 1];
        }
      }
      GetAt(r[1..], i - 1);
      assert r[1..][i - 1] == r[i];
    }
  }

  /** The position of a key that is present. */
  lemma {:induction false} GetIndex<V>(r: Record<V>, k: string) returns (i: nat)
    requires Get(r, k).Some?
    ensures i < |r| && r[i].key == k && Get(r, k) == Some(r[i].value)
  {
    if r[0].key == k {
      i := 0;
    } else {
      var j := GetIndex(r[1..], k);
      i := j + 1;
    }
  }

  /** Appending an entry only adds its key if the key was not present. */
  lemma {:induction false} GetAppend<V>(r: Record<V>, e: Entry<V>, k: string)
    ensures Get(r + [e], k) == if Get(r, k).Some? then Get(r, k) else if e.key == k then Some(e.value) else None
  {
    if r != [] {
      assert (r + [e])[1..] == r[1..] + [e];
      GetAppend(r[1..], e, k);
    }
  }
}
