/** An insertion-ordered map (`java.util.LinkedHashMap`) as a sequence of
    entries: `put` of a new key appends, `put` of a present key replaces the
    value in place and keeps the key's position. */
module LinkedMaps {
  import opened Wrappers

  datatype LinkedMap<K, V> = LinkedMap(entries: seq<(K, V)>)

  function Empty<K, V>(): LinkedMap<K, V>
  {
    LinkedMap([])
  }

  /** `keySet()`, in iteration (insertion) order. */
  function Keys<K, V>(m: LinkedMap<K, V>): (ks: seq<K>)
    ensures |ks| == |m.entries|
    ensures forall i :: 0 <= i < |ks| ==> ks[i] == m.entries[i].0
  {
    seq(|m.entries|, i requires 0 <= i < |m.entries| => m.entries[i].0)
  }

  /** No key occurs twice: what every `LinkedHashMap` guarantees. */
  predicate DistinctKeys<K(==), V>(m: LinkedMap<K, V>)
  {
    forall i, j :: 0 <= i < j < |m.entries| ==> m.entries[i].0 != m.entries[j].0
  }

  /** Position of the first occurrence of `k` in `ks` at or after `from`, or
      `|ks|` when there is none. */
  function IndexFrom<K(==)>(ks: seq<K>, k: K, from: nat): (i: nat)
    requires from <= |ks|
    ensures from <= i <= |ks|
    ensures i < |ks| ==> ks[i] == k
    ensures forall j :: from <= j < i ==> ks[j] != k
    decreases |ks| - from
  {
    if from == |ks| then |ks|
    else if ks[from] == k then from
    else IndexFrom(ks, k, from + 1)
  }

  /** Position of the first occurrence of `k` in `ks`, or `|ks|` when absent. */
  function IndexOf<K(==)>(ks: seq<K>, k: K): (i: nat)
    ensures i <= |ks|
    ensures i < |ks| <==> k in ks
    ensures i < |ks| ==> ks[i] == k
    ensures forall j :: 0 <= j < i ==> ks[j] != k
  {
    IndexFrom(ks, k, 0)
  }

  /** The first-occurrence search finds earlier keys of an extended sequence where
      it found them before, and the new key just past the old ones. */
  lemma IndexOfAppend<K>(ks: seq<K>, x: K)
    ensures forall k ::
              IndexOf(ks + [x], k) == (if k in ks then IndexOf(ks, k) else if k == x then |ks| else |ks| + 1)
  {
    forall k
      ensures IndexOf(ks + [x], k) == (if k in ks then IndexOf(ks, k) else if k == x then |ks| else |ks| + 1)
    {
      var i, j := IndexOf(ks, k), IndexOf(ks + [x], k);
      if k in ks {
        assert (ks + [x])[i] == k;
        assert forall l :: 0 <= l < i ==> (ks + [x])[l] == ks[l];
      } else if k == x {
        assert (ks + [x])[|ks|] == k;
        assert forall l :: 0 <= l < |ks| ==> (ks + [x])[l] == ks[l];
      } else {
        assert forall l :: 0 <= l < |ks| ==> (ks + [x])[l] == ks[l];
      }
    }
  }

  /** `get(k)`: the value stored under `k`, `None` for `null`. */
  function Get<K(==), V>(m: LinkedMap<K, V>, k: K): Option<V>
  {
    var i := IndexOf(Keys(m), k);
    if i < |m.entries| then Some(m.entries[i].1) else None
  }

  /** `put(k, v)`. */
  function Put<K(==), V>(m: LinkedMap<K, V>, k: K, v: V): LinkedMap<K, V>
  {
    var i := IndexOf(Keys(m), k);
    if i < |m.entries| then LinkedMap(m.entries[i := (k, v)])
    else LinkedMap(m.entries + [(k, v)])
  }

  /** `put` stores `v` under `k` and leaves every other key's value alone; a new
      key goes to the end of the iteration order, a present key keeps its place;
      keys stay distinct. */
  lemma PutSpec<K(!new), V>(m: LinkedMap<K, V>, k: K, v: V)
    ensures DistinctKeys(m) ==> DistinctKeys(Put(m, k, v))
    ensures Get(Put(m, k, v), k) == Some(v)
    ensures forall k' :: k' != k ==> Get(Put(m, k, v), k') == Get(m, k')
    ensures k in Keys(m) ==> Keys(Put(m, k, v)) == Keys(m)
    ensures k !in Keys(m) ==> Keys(Put(m, k, v)) == Keys(m) + [k]
  {
    var i := IndexOf(Keys(m), k);
    var r := Put(m, k, v);
    if i < |m.entries| {
      assert Keys(r) == Keys(m);
    } else {
      assert Keys(r) == Keys(m) + [k];
      IndexOfAppend(Keys(m), k);
    }
  }

  /** A run of `put` calls, in order. */
  function PutAll<K(==), V>(m: LinkedMap<K, V>, bindings: seq<(K, V)>): LinkedMap<K, V>
    decreases |bindings|
  {
    if bindings == [] then m
    else
      var last := bindings[|bindings| - 1];
      Put(PutAll(m, bindings[..|bindings| - 1]), last.0, last.1)
  }

  /** `put` of a key not yet present appends one entry. */
  lemma PutNew<K(!new), V>(m: LinkedMap<K, V>, k: K, v: V)
    requires k !in Keys(m)
    ensures Put(m, k, v).entries == m.entries + [(k, v)]
  {
    assert IndexOf(Keys(m), k) == |m.entries|;
  }

  /** When every key put is new and no key is put twice, the first `n` `put`
      calls append their entries in call order. */
  lemma {:induction false} PutAllFreshPrefix<K(!new), V>(m: LinkedMap<K, V>, bindings: seq<(K, V)>, n: nat)
    requires n <= |bindings|
    requires DistinctKeys(LinkedMap(bindings))
    requires forall i :: 0 <= i < |bindings| ==> bindings[i].0 !in Keys(m)
    ensures PutAll(m, bindings[..n]).entries == m.entries + bindings[..n]
  {
    if n > 0 {
      PutAllFreshPrefix(m, bindings, n - 1);
      var k := bindings[n - 1].0;
      assert k !in Keys(LinkedMap(m.entries + bindings[..n - 1])) by {
        KeyNotInConcat(m, bindings[..n - 1], k);
      }
      PutAllStep(m, bindings[..n - 1], bindings[n - 1]);
      assert bindings[..n] == bindings[..n - 1] + [bindings[n - 1]];
    }
  }

  /** One more `put` of a new key extends the run of appended entries. */
  lemma PutAllStep<K(!new), V>(m: LinkedMap<K, V>, before: seq<(K, V)>, b: (K, V))
    requires PutAll(m, before).entries == m.entries + before
    requires b.0 !in Keys(LinkedMap(m.entries + before))
    ensures PutAll(m, before + [b]).entries == m.entries + (before + [b])
  {
    PutAllSnoc(m, before, b);
    PutNew(PutAll(m, before), b.0, b.1);
  }

  /** `PutAll` unfolded at its last `put`. */
  lemma PutAllSnoc<K(!new), V>(m: LinkedMap<K, V>, before: seq<(K, V)>, b: (K, V))
    ensures PutAll(m, before + [b]) == Put(PutAll(m, before), b.0, b.1)
  {
    assert (before + [b])[..|before|] == before;
  }

  /** A key absent from a map and from a run of entries is absent from the map
      extended by those entries. */
  lemma KeyNotInConcat<K, V>(m: LinkedMap<K, V>, more: seq<(K, V)>, k: K)
    requires k !in Keys(m)
    requires forall j :: 0 <= j < |more| ==> more[j].0 != k
    ensures k !in Keys(LinkedMap(m.entries + more))
  {
    var all := LinkedMap(m.entries + more);
    forall j | 0 <= j < |all.entries| ensures all.entries[j].0 != k {
      if j < |m.entries| {
        assert all.entries[j].0 == Keys(m)[j];
      } else {
        assert all.entries[j] == more[j - |m.entries|];
      }
    }
  }

  /** When every key put is new and no key is put twice, the `put` calls append
      their entries in call order. */
  lemma PutAllFresh<K(!new), V>(m: LinkedMap<K, V>, bindings: seq<(K, V)>)
    requires DistinctKeys(LinkedMap(bindings))
    requires forall i :: 0 <= i < |bindings| ==> bindings[i].0 !in Keys(m)
    ensures PutAll(m, bindings).entries == m.entries + bindings
  {
    PutAllFreshPrefix(m, bindings, |bindings|);
    assert bindings[..|bindings|] == bindings;
  }

  /** With distinct keys, looking up the key of the `i`-th entry finds that entry. */
  lemma GetAt<K, V>(m: LinkedMap<K, V>, i: nat)
    requires DistinctKeys(m)
    requires i < |m.entries|
    ensures Get(m, m.entries[i].0) == Some(m.entries[i].1)
  {
    var j := IndexOf(Keys(m), m.entries[i].0);
    assert Keys(m)[i] == m.entries[i].0;
    assert j <= i;
  }
}
