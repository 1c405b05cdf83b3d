/**
 * An insertion-ordered map, the behaviour of java.util.LinkedHashMap that the
 * resolver, the enum descriptors and the schema registry rely on: a key keeps
 * the position of its first insertion, and putting an existing key replaces its
 * value in place.
 */
module OrderedMap {

  datatype Option<T> = None | Some(value: T)

  type OrderedMap<K, V> = seq<(K, V)>

  /** The keys in iteration order. */
  function Keys<K, V>(m: OrderedMap<K, V>): (ks: seq<K>)
    ensures |ks| == |m|
    ensures forall i :: 0 <= i < |m| ==> ks[i] == m[i].0
  {
    if m == [] then [] else [m[0].0] + Keys(m[1..])
  }

  /** The values in iteration order. */
  function Values<K, V>(m: OrderedMap<K, V>): (vs: seq<V>)
    ensures |vs| == |m|
    ensures forall i :: 0 <= i < |m| ==> vs[i] == m[i].1
  {
    if m == [] then [] else [m[0].1] + Values(m[1..])
  }

  /** No key occurs twice: the invariant every map built by Put keeps. */
  ghost predicate DistinctKeys<K, V>(m: OrderedMap<K, V>)
  {
    forall i, j :: 0 <= i < j < |m| ==> m[i].0 != m[j].0
  }

  predicate HasKey<K(==), V>(m: OrderedMap<K, V>, k: K)
  {
    exists i :: 0 <= i < |m| && m[i].0 == k
  }

  /** `map.get(k)`: the value of the first entry with key k, if any. */
  function Get<K(==), V>(m: OrderedMap<K, V>, k: K): (r: Option<V>)
    ensures r.Some? <==> HasKey(m, k)
    ensures r.Some? ==> (k, r.value) in m
  {
    if m == [] then None
    else if m[0].0 == k then Some(m[0].1)
    else
      assert HasKey(m, k) ==> HasKey(m[1..], k) by {
        if HasKey(m, k) {
          var i :| 0 <= i < |m| && m[i].0 == k;
          assert m[1..][i - 1].0 == k;
        }
      }
      Get(m[1..], k)
  }

  /** In a map without repeated keys, Get finds exactly the stored entry. */
  lemma {:induction false} GetDistinct<K, V>(m: OrderedMap<K, V>, k: K, v: V)
    requires DistinctKeys(m)
    ensures (k, v) in m <==> Get(m, k) == Some(v)
  {
    if m != [] && m[0].0 != k {
      assert DistinctKeys(m[1..]);
      GetDistinct(m[1..], k, v);
      assert (k, v) in m <==> (k, v) in m[1..] by {
        if (k, v) in m { var i :| 0 <= i < |m| && m[i] == (k, v); assert i > 0 && m[1..][i - 1] == (k, v); }
      }
    } else if m != [] && (k, v) in m {
      var i :| 0 <= i < |m| && m[i] == (k, v);
      assert i == 0;
    }
  }

  /** `map.put(k, v)`: replace in place when k is present, append otherwise. */
  function Put<K(==), V>(m: OrderedMap<K, V>, k: K, v: V): (r: OrderedMap<K, V>)
    ensures HasKey(m, k) ==> |r| == |m| && Keys(r) == Keys(m)
    ensures !HasKey(m, k) ==> r == m + [(k, v)]
    ensures forall i :: 0 <= i < |m| && m[i].0 != k ==> r[i] == m[i]
  {
    if m == [] then [(k, v)]
    else if m[0].0 == k then [(k, v)] + m[1..]
    else
      var tail := Put(m[1..], k, v);
      assert HasKey(m, k) ==> HasKey(m[1..], k) by {
        if HasKey(m, k) {
          var i :| 0 <= i < |m| && m[i].0 == k;
          assert m[1..][i - 1].0 == k;
        }
      }
      assert !HasKey(m[1..], k) ==> !HasKey(m, k) by {
        if HasKey(m, k) {
          var i :| 0 <= i < |m| && m[i].0 == k;
          assert m[1..][i - 1].0 == k;
        }
      }
      assert m == [m[0]] + m[1..];
      [m[0]] + tail
  }

  /** Put keeps every key present once. */
  lemma {:induction false} PutDistinct<K, V>(m: OrderedMap<K, V>, k: K, v: V)
    requires DistinctKeys(m)
    ensures DistinctKeys(Put(m, k, v))
  {
    var r := Put(m, k, v);
    if HasKey(m, k) {
      forall i, j | 0 <= i < j < |r| ensures r[i].0 != r[j].0 {
        assert Keys(r)[i] == Keys(m)[i] && Keys(r)[j] == Keys(m)[j];
      }
    } else {
      forall i, j | 0 <= i < j < |r| ensures r[i].0 != r[j].0 {
        if j == |m| {
          assert r[j].0 == k;
          assert r[i] == m[i];
        }
      }
    }
  }

  /** Reading back the key just put yields the new value. */
  lemma PutGetSame<K, V>(m: OrderedMap<K, V>, k: K, v: V)
    ensures Get(Put(m, k, v), k) == Some(v)
  {
    var r := Put(m, k, v);
    assert HasKey(r, k) by {
      if HasKey(m, k) {
        var i :| 0 <= i < |m| && m[i].0 == k;
        assert Keys(r)[i] == Keys(m)[i];
      } else {
        assert r[|m|].0 == k;
      }
    }
  }

  /** Every other key reads back what it read before the put. */
  lemma {:induction false} PutGetOther<K, V>(m: OrderedMap<K, V>, k: K, v: V, k': K)
    requires k' != k
    ensures Get(Put(m, k, v), k') == Get(m, k')
  {
    if m != [] && m[0].0 != k {
      PutGetOther(m[1..], k, v, k');
      var r := Put(m, k, v);
      assert r[1..] == Put(m[1..], k, v);
    }
  }

  /** The map obtained by putting every pair of ps, in order, into an empty map. */
  function FromPairs<K(==), V>(ps: seq<(K, V)>): (m: OrderedMap<K, V>)
    ensures DistinctKeys(m)
  {
    if ps == [] then []
    else
      var init := FromPairs(ps[..|ps| - 1]);
      PutDistinct(init, ps[|ps| - 1].0, ps[|ps| - 1].1);
      Put(init, ps[|ps| - 1].0, ps[|ps| - 1].1)
  }

  /** Building from one more pair is one more put. */
  lemma FromPairsSnoc<K, V>(ps: seq<(K, V)>, p: (K, V))
    ensures FromPairs(ps + [p]) == Put(FromPairs(ps), p.0, p.1)
  {
    assert (ps + [p])[..|ps|] == ps;
  }

  /** The index of the last pair of ps whose key is k. */
  predicate IsLastWithKey<K(==), V>(ps: seq<(K, V)>, k: K, i: int)
  {
    0 <= i < |ps| && ps[i].0 == k && forall j :: i < j < |ps| ==> ps[j].0 != k
  }

  /** Some pair of ps has key k. */
  predicate SomePairHasKey<K(==), V>(ps: seq<(K, V)>, k: K)
  {
    exists i :: 0 <= i < |ps| && ps[i].0 == k
  }

  /** Building a map from pairs: a key is present iff some pair has it. */
  lemma {:induction false} FromPairsHasKey<K, V>(ps: seq<(K, V)>, k: K)
    ensures HasKey(FromPairs(ps), k) <==> SomePairHasKey(ps, k)
  {
    if ps != [] {
      var n := |ps| - 1;
      var init := ps[..n];
      var m := FromPairs(init);
      FromPairsHasKey(init, k);
      assert FromPairs(ps) == Put(m, ps[n].0, ps[n].1);
      if ps[n].0 == k {
        PutGetSame(m, k, ps[n].1);
        assert SomePairHasKey(ps, k) by { assert ps[n].0 == k; }
      } else {
        PutGetOther(m, ps[n].0, ps[n].1, k);
        assert SomePairHasKey(ps, k) <==> SomePairHasKey(init, k) by {
          if SomePairHasKey(ps, k) {
            var i :| 0 <= i < |ps| && ps[i].0 == k;
            assert i < n && init[i].0 == k;
          }
          if SomePairHasKey(init, k) {
            var i :| 0 <= i < n && init[i].0 == k;
            assert ps[i].0 == k;
          }
        }
      }
    }
  }

  /** A present key holds the value of the LAST pair that has it (later puts overwrite). */
  lemma {:induction false} FromPairsLast<K, V>(ps: seq<(K, V)>, k: K, i: int)
    requires IsLastWithKey(ps, k, i)
    ensures Get(FromPairs(ps), k) == Some(ps[i].1)
  {
    var n := |ps| - 1;
    var init := ps[..n];
    var m := FromPairs(init);
    assert FromPairs(ps) == Put(m, ps[n].0, ps[n].1);
    if i == n {
      PutGetSame(m, k, ps[n].1);
    } else {
      assert IsLastWithKey(init, k, i);
      FromPairsLast(init, k, i);
      PutGetOther(m, ps[n].0, ps[n].1, k);
    }
  }

  /** Put leaves the key at every existing position where it was. */
  lemma PutKeepsPosition<K, V>(m: OrderedMap<K, V>, k: K, v: V, a: nat)
    requires a < |m|
    ensures a < |Put(m, k, v)| && Put(m, k, v)[a].0 == m[a].0
  {
    if HasKey(m, k) {
      assert Keys(Put(m, k, v))[a] == Keys(m)[a];
    }
  }

  /** A key seen for the first time goes after every key already present. */
  lemma FromPairsAppendsNewKey<K, V>(ps: seq<(K, V)>, i: nat)
    requires i < |ps| - 1
    requires forall l :: 0 <= l < |ps| - 1 ==> ps[l].0 != ps[|ps| - 1].0
    ensures exists a, b :: 0 <= a < b < |FromPairs(ps)| && FromPairs(ps)[a].0 == ps[i].0 && FromPairs(ps)[b].0 == ps[|ps| - 1].0
  {
    var n := |ps| - 1;
    var init := ps[..n];
    var m := FromPairs(init);
    assert HasKey(m, ps[i].0) by {
      FromPairsHasKey(init, ps[i].0);
      assert init[i].0 == ps[i].0;
    }
    assert !HasKey(m, ps[n].0) by {
      FromPairsHasKey(init, ps[n].0);
      forall l | 0 <= l < n ensures init[l].0 != ps[n].0 {
        assert init[l] == ps[l];
      }
    }
    var r := FromPairs(ps);
    assert r == m + [(ps[n].0, ps[n].1)];
    var a :| 0 <= a < |m| && m[a].0 == ps[i].0;
    assert r[a] == m[a];
    assert 0 <= a < |m| < |r| && r[a].0 == ps[i].0 && r[|m|].0 == ps[n].0;
  }

  /**
   * Key order of a map built from pairs: the keys are those of the pairs, in the
   * order of their FIRST occurrence.
   */
  lemma {:induction false} FromPairsKeyOrder<K, V>(ps: seq<(K, V)>, i: nat, j: nat)
    requires i < j < |ps|
    requires forall l :: 0 <= l < j ==> ps[l].0 != ps[j].0
    ensures exists a, b :: 0 <= a < b < |FromPairs(ps)| && FromPairs(ps)[a].0 == ps[i].0 && FromPairs(ps)[b].0 == ps[j].0
  {
    var n := |ps| - 1;
    if j < n {
      var init := ps[..n];
      var m := FromPairs(init);
      assert FromPairs(ps) == Put(m, ps[n].0, ps[n].1);
      FromPairsKeyOrder(init, i, j);
      var a, b :| 0 <= a < b < |m| && m[a].0 == ps[i].0 && m[b].0 == ps[j].0;
      PutKeepsPosition(m, ps[n].0, ps[n].1, a);
      PutKeepsPosition(m, ps[n].0, ps[n].1, b);
    } else {
      FromPairsAppendsNewKey(ps, i);
    }
  }
}
