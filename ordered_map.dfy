/** A JavaScript `Map` (and, with unit values, a `Set`): its keys are kept
    in insertion order, and setting a key that is already present replaces
    its value without moving it. */
module OrderedMap {

  datatype OMap<K, V> = OMap(keys: seq<K>, vals: map<K, V>)

  /** The keys are distinct and are exactly the keys of `vals`. */
  ghost predicate Valid<K, V>(m: OMap<K, V>) {
    && (forall i, j :: 0 <= i < j < |m.keys| ==> m.keys[i] != m.keys[j])
    && m.vals.Keys == (set k | k in m.keys)
  }

  function Empty<K, V>(): OMap<K, V> { OMap([], map[]) }

  /** `m.set(k, v)`. */
  function Set<K, V>(m: OMap<K, V>, k: K, v: V): OMap<K, V>
  {
    if k in m.keys then OMap(m.keys, m.vals[k := v]) else OMap(m.keys + [k], m.vals[k := v])
  }

  /** `Array.from(m.values())`. */
  function Values<K, V>(m: OMap<K, V>): (r: seq<V>)
    requires Valid(m)
    ensures |r| == |m.keys|
    ensures forall i :: 0 <= i < |r| ==> r[i] == m.vals[m.keys[i]]
  {
    seq(|m.keys|, i requires 0 <= i < |m.keys| => m.vals[m.keys[i]])
  }

  /** `new Map(entries)` with the entries `[ks[i], vs[i]]`, set in order. */
  function FromPairs<K, V>(ks: seq<K>, vs: seq<V>): OMap<K, V>
    requires |ks| == |vs|
  {
    if ks == [] then Empty()
    else Set(FromPairs(ks[..|ks| - 1], vs[..|vs| - 1]), ks[|ks| - 1], vs[|vs| - 1])
  }

  /** The index of the first occurrence of `k` in `ks`. */
  function FirstIndex<K(==)>(ks: seq<K>, k: K): (i: nat)
    requires k in ks
    ensures i < |ks| && ks[i] == k && k !in ks[..i]
  {
    if ks[0] == k then 0
    else
      var i := 1 + FirstIndex(ks[1..], k);
      assert ks[..i] == [ks[0]] + ks[1..][..i - 1];
      i
  }

  /** The index of the last occurrence of `k` in `ks`. */
  function LastIndex<K(==)>(ks: seq<K>, k: K): (i: nat)
    requires k in ks
    ensures i < |ks| && ks[i] == k && k !in ks[i + 1..]
  {
    if ks[|ks| - 1] == k then |ks| - 1
    else LastIndex(ks[..|ks| - 1], k)
  }

  lemma {:induction false} FirstIndexAppend<K>(ks: seq<K>, x: K, y: K)
    requires x in ks
    ensures FirstIndex(ks + [y], x) == FirstIndex(ks, x)
  {
    if ks[0] != x {
      assert (ks + [y])[1..] == ks[1..] + [y];
      FirstIndexAppend(ks[1..], x, y);
    }
  }

  lemma FirstIndexOfNew<K>(ks: seq<K>, x: K)
    requires x !in ks
    ensures FirstIndex(ks + [x], x) == |ks|
  {
  }

  lemma LastIndexAppendOther<K>(ks: seq<K>, x: K, y: K)
    requires x in ks && x != y
    ensures LastIndex(ks + [y], x) == LastIndex(ks, x)
  {
    assert (ks + [y])[..|ks|] == ks;
  }

  /** Setting a key keeps a valid map valid and adds exactly that key. */
  lemma SetValid<K, V>(m: OMap<K, V>, k: K, v: V)
    requires Valid(m)
    ensures Valid(Set(m, k, v))
    ensures forall x :: x in Set(m, k, v).keys <==> x in m.keys || x == k
    ensures Set(m, k, v).vals == m.vals[k := v]
  {
    if k !in m.keys {
      var r := Set(m, k, v);
      assert (set x | x in r.keys) == (set x | x in m.keys) + {k};
    }
  }

  /** What `new Map(entries)` holds: each key once, and exactly the keys of
      the entries. */
  lemma {:induction false} FromPairsValid<K, V>(ks: seq<K>, vs: seq<V>)
    requires |ks| == |vs|
    ensures Valid(FromPairs(ks, vs))
    ensures forall k :: k in FromPairs(ks, vs).keys <==> k in ks
  {
    if ks != [] {
      var n := |ks| - 1;
      assert ks == ks[..n] + [ks[n]];
      FromPairsValid(ks[..n], vs[..n]);
      SetValid(FromPairs(ks[..n], vs[..n]), ks[n], vs[n]);
    }
  }

  /** Under each key, `new Map(entries)` holds the value of its last entry. */
  lemma {:induction false} FromPairsValues<K, V>(ks: seq<K>, vs: seq<V>)
    requires |ks| == |vs|
    ensures forall k :: k in ks ==> k in FromPairs(ks, vs).vals && FromPairs(ks, vs).vals[k] == vs[LastIndex(ks, k)]
  {
    if ks != [] {
      var n := |ks| - 1;
      var ks', vs' := ks[..n], vs[..n];
      var k := ks[n];
      assert ks == ks' + [k];
      FromPairsValues(ks', vs');
      var r := FromPairs(ks, vs);
      forall x | x in ks
        ensures x in r.vals && r.vals[x] == vs[LastIndex(ks, x)]
      {
        if x != k {
          LastIndexAppendOther(ks', x, k);
        }
      }
    }
  }

  /** `new Map(entries)` lists its keys in the order of their first entry. */
  lemma {:induction false} FromPairsOrder<K, V>(ks: seq<K>, vs: seq<V>)
    requires |ks| == |vs|
    ensures forall k :: k in FromPairs(ks, vs).keys ==> k in ks
    ensures forall a, b :: 0 <= a < b < |FromPairs(ks, vs).keys| ==>
              FirstIndex(ks, FromPairs(ks, vs).keys[a]) < FirstIndex(ks, FromPairs(ks, vs).keys[b])
  {
    FromPairsValid(ks, vs);
    if ks != [] {
      var n := |ks| - 1;
      var ks', vs' := ks[..n], vs[..n];
      var k := ks[n];
      assert ks == ks' + [k];
      FromPairsOrder(ks', vs');
      FromPairsValid(ks', vs');
      var m := FromPairs(ks', vs');
      var r := FromPairs(ks, vs);
      forall a, b | 0 <= a < b < |r.keys|
        ensures FirstIndex(ks, r.keys[a]) < FirstIndex(ks, r.keys[b])
      {
        assert r.keys[a] == m.keys[a];
        FirstIndexAppend(ks', r.keys[a], k);
        if b < |m.keys| {
          FirstIndexAppend(ks', r.keys[b], k);
        } else {
          FirstIndexOfNew(ks', k);
        }
      }
    }
  }

  /** `Array.from(new Map(entries).values())`: one value per distinct key. */
  function DedupeValues<K(==), V>(ks: seq<K>, vs: seq<V>): seq<V>
    requires |ks| == |vs|
  {
    FromPairsValid(ks, vs);
    Values(FromPairs(ks, vs))
  }

  /** The deduplicated list, stated on its own: position `i` holds the value
      of the last entry whose key is the `i`-th distinct key, distinct keys
      are listed by first occurrence, and every key of the entries appears. */
  lemma DedupeValuesSpec<K, V>(ks: seq<K>, vs: seq<V>)
    requires |ks| == |vs|
    ensures var m := FromPairs(ks, vs);
      && |DedupeValues(ks, vs)| == |m.keys| <= |ks|
      && (forall i, j :: 0 <= i < j < |m.keys| ==> m.keys[i] != m.keys[j])
      && (forall k :: k in m.keys <==> k in ks)
      && (forall i :: 0 <= i < |m.keys| ==> DedupeValues(ks, vs)[i] == vs[LastIndex(ks, m.keys[i])])
      && (forall a, b :: 0 <= a < b < |m.keys| ==> FirstIndex(ks, m.keys[a]) < FirstIndex(ks, m.keys[b]))
  {
    FromPairsValid(ks, vs);
    FromPairsValues(ks, vs);
    FromPairsOrder(ks, vs);
    var m := FromPairs(ks, vs);
    DistinctBound(m.keys, ks);
  }

  /** `[...new Set(xs)]`: each element once, in the order of its first
      occurrence. */
  function Distinct<K(==)>(xs: seq<K>): (r: seq<K>)
    ensures forall i, j :: 0 <= i < j < |r| ==> r[i] != r[j]
    ensures forall i :: 0 <= i < |r| ==> r[i] in xs
    ensures forall i :: 0 <= i < |xs| ==> xs[i] in r
    ensures forall a, b :: 0 <= a < b < |r| ==> FirstIndex(xs, r[a]) < FirstIndex(xs, r[b])
  {
    FromPairsValid(xs, xs);
    FromPairsOrder(xs, xs);
    FromPairs(xs, xs).keys
  }

  /** A list of distinct elements, all taken from `ks`, is no longer than `ks`. */
  lemma DistinctBound<K>(d: seq<K>, ks: seq<K>)
    requires forall i, j :: 0 <= i < j < |d| ==> d[i] != d[j]
    requires forall k :: k in d ==> k in ks
    ensures |d| <= |ks|
  {
    var sd := set k | k in d;
    var sk := set k | k in ks;
    assert sd <= sk;
    assert sk == sd + (sk - sd);
    CardinalityOfDistinct(d);
    SetOfSeqBound(ks);
  }

  lemma {:induction false} CardinalityOfDistinct<K>(d: seq<K>)
    requires forall i, j :: 0 <= i < j < |d| ==> d[i] != d[j]
    ensures |set k | k in d| == |d|
  {
    if d != [] {
      var n := |d| - 1;
      CardinalityOfDistinct(d[..n]);
      assert d == d[..n] + [d[n]];
      assert (set k | k in d) == (set k | k in d[..n]) + {d[n]};
    }
  }

  lemma {:induction false} SetOfSeqBound<K>(ks: seq<K>)
    ensures |set k | k in ks| <= |ks|
  {
    if ks != [] {
      var n := |ks| - 1;
      SetOfSeqBound(ks[..n]);
      assert ks == ks[..n] + [ks[n]];
      assert (set k | k in ks) == (set k | k in ks[..n]) + {ks[n]};
    }
  }
}
