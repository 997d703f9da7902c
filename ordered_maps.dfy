/** A JavaScript object used as a string-keyed dictionary. For keys that
    are not array indices, `Object.entries` lists them in the order each was
    first assigned, and assigning to a key already present keeps its place;
    this module models exactly that as a sequence of (key, value) entries.
    JavaScript lists array-index keys such as "0" first, in numeric order;
    the service never uses one. */
module OrderedMaps {
  import opened Basics

  type OrderedMap<V> = seq<(string, V)>

  /** The keys, in `Object.entries` order. */
  function Keys<V>(m: OrderedMap<V>): (keys: seq<string>)
    ensures |keys| == |m|
  {
    if |m| == 0 then [] else [m[0].0] + Keys(m[1..])
  }

  predicate NoDuplicates(s: seq<string>)
  {
    forall i, j :: 0 <= i < j < |s| ==> s[i] != s[j]
  }

  /** `m[k]`: the value under `k`, or None for `undefined`. */
  function Get<V>(m: OrderedMap<V>, k: string): (r: Option<V>)
    ensures r.Some? <==> k in Keys(m)
  {
    if |m| == 0 then None
    else if m[0].0 == k then Some(m[0].1)
    else Get(m[1..], k)
  }

  /** `m[k] = v`: replaces the value in place when `k` is present, and
      otherwise adds `k` as the last key. */
  function Put<V>(m: OrderedMap<V>, k: string, v: V): OrderedMap<V>
  {
    if |m| == 0 then [(k, v)]
    else if m[0].0 == k then [(k, v)] + m[1..]
    else [m[0]] + Put(m[1..], k, v)
  }

  /** `m[k] = v` keeps the keys and their order, and adds `k` last when it
      is new. */
  lemma {:induction false} PutKeys<V>(m: OrderedMap<V>, k: string, v: V)
    ensures Keys(Put(m, k, v)) == if k in Keys(m) then Keys(m) else Keys(m) + [k]
  {
    if |m| > 0 {
      if m[0].0 == k {
        assert ([(k, v)] + m[1..])[1..] == m[1..];
      } else {
        PutKeys(m[1..], k, v);
        assert ([m[0]] + Put(m[1..], k, v))[1..] == Put(m[1..], k, v);
      }
    }
  }

  /** After `m[k] = v`, `k` reads `v` and every other key reads as before. */
  lemma {:induction false} GetPut<V>(m: OrderedMap<V>, k: string, v: V, j: string)
    ensures Get(Put(m, k, v), j) == if j == k then Some(v) else Get(m, j)
  {
    if |m| > 0 && m[0].0 != k {
      GetPut(m[1..], k, v, j);
    }
  }

  lemma PutKeepsKeysDistinct<V>(m: OrderedMap<V>, k: string, v: V)
    requires NoDuplicates(Keys(m))
    ensures NoDuplicates(Keys(Put(m, k, v)))
  {
    PutKeys(m, k, v);
  }

  /** Looking up a key in a map extended by one entry at the end. */
  lemma {:induction false} GetAppend<V>(m: OrderedMap<V>, k: string, v: V, j: string)
    ensures Get(m + [(k, v)], j) ==
      if j in Keys(m) then Get(m, j) else if j == k then Some(v) else None
  {
    if |m| > 0 {
      assert (m + [(k, v)])[1..] == m[1..] + [(k, v)];
      GetAppend(m[1..], k, v, j);
    }
  }

  /** Assigning a key twice leaves the second value, in the place the key
      took on the first assignment. */
  lemma {:induction false} PutPut<V>(m: OrderedMap<V>, k: string, a: V, b: V)
    ensures Put(Put(m, k, a), k, b) == Put(m, k, b)
  {
    if |m| > 0 && m[0].0 != k {
      PutPut(m[1..], k, a, b);
    }
  }

  /** The keys of a map extended by one entry at the end. */
  lemma {:induction false} KeysAppend<V>(m: OrderedMap<V>, k: string, v: V)
    ensures Keys(m + [(k, v)]) == Keys(m) + [k]
  {
    if |m| > 0 {
      assert (m + [(k, v)])[1..] == m[1..] + [(k, v)];
      KeysAppend(m[1..], k, v);
    }
  }
}
