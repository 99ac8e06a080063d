/** A JavaScript object used as a dictionary whose keys are not array indices ("Test 01",
    "listening_test_01"): its entries in insertion order, each key once. Assigning to a key that
    is present replaces the value and keeps the key's place; a new key goes last. */
module Tables {
  import opened Wrappers

  type Table<V> = seq<(string, V)>

  function Keys<V>(t: Table<V>): (ks: seq<string>)
    ensures |ks| == |t| && forall i :: 0 <= i < |t| ==> ks[i] == t[i].0
  {
    if |t| == 0 then [] else [t[0].0] + Keys(t[1..])
  }

  predicate KeysUnique<V>(t: Table<V>) {
    forall i, j :: 0 <= i < j < |t| ==> t[i].0 != t[j].0
  }

  /** `obj[k]`, with `None` for `undefined`. */
  function Get<V>(t: Table<V>, k: string): (r: Option<V>)
    ensures r.None? <==> k !in Keys(t)
    ensures r.Some? ==> exists i :: 0 <= i < |t| && t[i] == (k, r.value)
    ensures KeysUnique(t) ==> forall i :: 0 <= i < |t| && t[i].0 == k ==> r == Some(t[i].1)
  {
    if |t| == 0 then None
    else if t[0].0 == k then Some(t[0].1)
    else
      var r := Get(t[1..], k);
      assert r.Some? ==> exists i :: 1 <= i < |t| && t[i] == (k, r.value);
      r
  }

  /** `obj[k] = v`. */
  function Put<V>(t: Table<V>, k: string, v: V): (r: Table<V>)
    ensures |r| == if k in Keys(t) then |t| else |t| + 1
  {
    if |t| == 0 then [(k, v)]
    else if t[0].0 == k then [(k, v)] + t[1..]
    else [t[0]] + Put(t[1..], k, v)
  }

  /** A present key keeps its place; a new key goes last; every other key stays where it was. */
  lemma {:induction false} PutKeys<V>(t: Table<V>, k: string, v: V)
    ensures Keys(Put(t, k, v)) == if k in Keys(t) then Keys(t) else Keys(t) + [k]
  {
    if |t| > 0 && t[0].0 != k {
      PutKeys(t[1..], k, v);
      assert Keys(t) == [t[0].0] + Keys(t[1..]);
      assert Keys(Put(t, k, v)) == [t[0].0] + Keys(Put(t[1..], k, v));
    }
  }

  /** Assignment never creates a second entry for a key. */
  lemma PutKeepsKeysUnique<V>(t: Table<V>, k: string, v: V)
    requires KeysUnique(t)
    ensures KeysUnique(Put(t, k, v))
  {
    PutKeys(t, k, v);
    var r := Put(t, k, v);
    forall i, j | 0 <= i < j < |r|
      ensures r[i].0 != r[j].0
    {
      assert Keys(r)[i] == r[i].0 && Keys(r)[j] == r[j].0;
      if k in Keys(t) {
        assert Keys(t)[i] == t[i].0 && Keys(t)[j] == t[j].0;
      } else if j < |t| {
        assert Keys(t)[i] == t[i].0 && Keys(t)[j] == t[j].0;
      } else {
        assert Keys(t)[i] == t[i].0;
      }
    }
  }

  /** After `obj[k] = v` the key reads as `v` and every other key reads as before. */
  lemma {:induction false} GetPut<V>(t: Table<V>, k: string, v: V, k': string)
    ensures Get(Put(t, k, v), k') == if k' == k then Some(v) else Get(t, k')
  {
    if |t| > 0 && t[0].0 != k {
      GetPut(t[1..], k, v, k');
      assert Put(t, k, v)[1..] == Put(t[1..], k, v);
    }
  }
}
