/** Kotlin's read-only maps as the wallet builds them (from `emptyMap()`, `+` and
    `mapValues`): insertion-ordered association lists. `m + (k to v)` replaces the
    value of an existing key where it stands and appends a new key at the end,
    and iterating a map visits its entries in that order. */
module LinkedMaps {

  datatype Option<T> = None | Some(value: T)

  type Entries<K, V> = seq<(K, V)>

  /** `m.keys`, in iteration order. */
  function Keys<K, V>(m: Entries<K, V>): (ks: seq<K>)
    ensures |ks| == |m|
    ensures forall i :: 0 <= i < |m| ==> ks[i] == m[i].0
  {
    if m == [] then [] else [m[0].0] + Keys(m[1..])
  }

  /** No key occurs twice: every association list built by `Put` from `[]` has this shape. */
  ghost predicate DistinctKeys<K, V>(m: Entries<K, V>)
  {
    forall i, j :: 0 <= i < j < |m| ==> m[i].0 != m[j].0
  }

  /** `m[k]`: the value stored under `k`, or `None` when `k` is not a key. */
  function Get<K(==), V>(m: Entries<K, V>, k: K): (r: Option<V>)
    ensures r.None? <==> k !in Keys(m)
    ensures r.Some? ==> exists i :: 0 <= i < |m| && m[i] == (k, r.value)
  {
    if m == [] then None
    else if m[0].0 == k then Some(m[0].1)
    else
      var r := Get(m[1..], k);
      assert r.Some? ==> exists i :: 0 <= i < |m[1..]| && m[1..][i] == (k, r.value);
      assert r.Some? ==> exists i :: 1 <= i < |m| && m[i] == (k, r.value);
      r
  }

  /** `m + (k to v)`. */
  function Put<K(==), V>(m: Entries<K, V>, k: K, v: V): Entries<K, V>
  {
    if m == [] then [(k, v)]
    else if m[0].0 == k then [(k, v)] + m[1..]
    else [m[0]] + Put(m[1..], k, v)
  }

  /** `m.mapValues { f(it.value) }`: same keys, same order. */
  function MapValues<K, V, W>(m: Entries<K, V>, f: V -> W): (r: Entries<K, W>)
    ensures |r| == |m|
    ensures forall i :: 0 <= i < |m| ==> r[i] == (m[i].0, f(m[i].1))
  {
    if m == [] then [] else [(m[0].0, f(m[0].1))] + MapValues(m[1..], f)
  }

  /** `m.flatMap { it.value }`: the value lists concatenated in key order. */
  function FlatValues<K, T>(m: Entries<K, seq<T>>): seq<T>
  {
    if m == [] then [] else m[0].1 + FlatValues(m[1..])
  }

  lemma {:induction false} PutGet<K, V>(m: Entries<K, V>, k: K, v: V, k': K)
    ensures Get(Put(m, k, v), k') == if k' == k then Some(v) else Get(m, k')
  {
    if m != [] && m[0].0 != k {
      PutGet(m[1..], k, v, k');
      assert Put(m, k, v)[1..] == Put(m[1..], k, v);
    } else if m != [] {
      assert Put(m, k, v)[1..] == m[1..];
    }
  }

  /** An existing key keeps its place; a new key is appended after all the others. */
  lemma {:induction false} PutKeys<K, V>(m: Entries<K, V>, k: K, v: V)
    ensures Keys(Put(m, k, v)) == if k in Keys(m) then Keys(m) else Keys(m) + [k]
  {
    if m != [] {
      PutKeys(m[1..], k, v);
      assert Keys(m) == [m[0].0] + Keys(m[1..]);
      if m[0].0 == k {
        assert Put(m, k, v)[1..] == m[1..];
      } else {
        assert Put(m, k, v)[1..] == Put(m[1..], k, v);
        assert k in Keys(m) <==> k in Keys(m[1..]);
      }
    }
  }

  /** Every entry under another key stays where it was, with its value. */
  lemma {:induction false} PutOtherEntries<K, V>(m: Entries<K, V>, k: K, v: V)
    ensures |Put(m, k, v)| >= |m|
    ensures forall i :: 0 <= i < |m| && m[i].0 != k ==> Put(m, k, v)[i] == m[i]
  {
    if m != [] && m[0].0 != k {
      PutOtherEntries(m[1..], k, v);
      var rest := Put(m[1..], k, v);
      assert Put(m, k, v) == [m[0]] + rest;
      forall i | 0 <= i < |m| && m[i].0 != k ensures Put(m, k, v)[i] == m[i] {
        if i > 0 {
          assert m[1..][i - 1] == m[i];
        }
      }
    }
  }

  lemma {:induction false} PutDistinct<K, V>(m: Entries<K, V>, k: K, v: V)
    requires DistinctKeys(m)
    ensures DistinctKeys(Put(m, k, v))
  {
    PutKeys(m, k, v);
    var r := Put(m, k, v);
    var ks, ks' := Keys(m), Keys(r);
    forall i, j | 0 <= i < j < |r| ensures r[i].0 != r[j].0 {
      assert ks'[i] == r[i].0 && ks'[j] == r[j].0;
      if k in ks {
        assert ks'[i] == ks[i] && ks'[j] == ks[j];
      } else if j < |m| {
        assert ks'[i] == ks[i] && ks'[j] == ks[j];
      } else {
        assert ks'[j] == k && ks'[i] == ks[i];
      }
    }
  }

  lemma {:induction false} FlatValuesAppend<K, T>(m1: Entries<K, seq<T>>, m2: Entries<K, seq<T>>)
    ensures FlatValues(m1 + m2) == FlatValues(m1) + FlatValues(m2)
  {
    if m1 == [] {
      assert m1 + m2 == m2;
    } else {
      assert (m1 + m2)[0] == m1[0] && (m1 + m2)[1..] == m1[1..] + m2;
      FlatValuesAppend(m1[1..], m2);
    }
  }

  /** An element of the flattened values belongs to the value list of some entry, and back. */
  lemma {:induction false} FlatValuesMembership<K, T>(m: Entries<K, seq<T>>, x: T)
    ensures x in FlatValues(m) <==> exists i :: 0 <= i < |m| && x in m[i].1
  {
    if m != [] {
      FlatValuesMembership(m[1..], x);
      if x in FlatValues(m[1..]) {
        var i :| 0 <= i < |m[1..]| && x in m[1..][i].1;
        assert x in m[i + 1].1;
      }
      if exists i :: 0 <= i < |m| && x in m[i].1 {
        var i :| 0 <= i < |m| && x in m[i].1;
        if i > 0 {
          assert x in m[1..][i - 1].1;
        }
      }
    }
  }

  /** Every entry after `Put` is the new one or an entry that was there before. */
  lemma {:induction false} PutEntries<K, V>(m: Entries<K, V>, k: K, v: V)
    ensures forall e :: e in Put(m, k, v) ==> e == (k, v) || e in m
  {
    if m != [] && m[0].0 != k {
      PutEntries(m[1..], k, v);
      assert Put(m, k, v) == [m[0]] + Put(m[1..], k, v);
    } else if m != [] {
      assert Put(m, k, v) == [(k, v)] + m[1..];
    }
  }
}
