/**
 * Sums of real numbers: the left fold that `Array.prototype.reduce((a, b) => a + b, 0)`
 * computes over a list, and the sum of the values of a map over a set of its keys
 * (the order in which an object's values are visited does not matter over the reals).
 */
module RealSums {

  /** Left fold of `+` from 0. */
  function Sum(s: seq<real>): real
  {
    if s == [] then 0.0 else Sum(s[..|s| - 1]) + s[|s| - 1]
  }

  lemma {:induction false} SumAppend(a: seq<real>, b: seq<real>)
    ensures Sum(a + b) == Sum(a) + Sum(b)
    decreases |b|
  {
    if b == [] {
      assert a + b == a;
    } else {
      var b' := b[..|b| - 1];
      assert (a + b)[..|a + b| - 1] == a + b';
      SumAppend(a, b');
    }
  }

  /** Taking out the element at `j` takes its value off the sum. */
  lemma SumRemoveAt(b: seq<real>, j: nat)
    requires j < |b|
    ensures Sum(b) == Sum(b[..j] + b[j + 1..]) + b[j]
  {
    assert b == b[..j] + [b[j]] + b[j + 1..];
    SumAppend(b[..j] + [b[j]], b[j + 1..]);
    SumAppend(b[..j], [b[j]]);
    SumAppend(b[..j], b[j + 1..]);
    assert Sum([b[j]]) == b[j] by { assert [b[j]][..0] == []; }
  }

  /** The sum depends only on the multiset of summands. */
  lemma {:induction false} SumPermutation(a: seq<real>, b: seq<real>)
    requires multiset(a) == multiset(b)
    ensures Sum(a) == Sum(b)
    decreases |a|
  {
    if a == [] {
      assert |b| == |multiset(b)| == 0;
    } else {
      var x := a[|a| - 1];
      var a' := a[..|a| - 1];
      assert a == a' + [x];
      assert x in multiset(b);
      var j :| 0 <= j < |b| && b[j] == x;
      var b' := b[..j] + b[j + 1..];
      assert b == b[..j] + [x] + b[j + 1..];
      assert multiset(b') == multiset(b) - multiset{x};
      assert multiset(a') == multiset(a) - multiset{x};
      SumPermutation(a', b');
      SumRemoveAt(b, j);
    }
  }

  /** Sum of `m[k]` over the keys `keys` of `m`. */
  ghost function SumOver<K>(keys: set<K>, m: map<K, real>): real
    requires keys <= m.Keys
    decreases keys
  {
    if keys == {} then 0.0 else var k :| k in keys; m[k] + SumOver(keys - {k}, m)
  }

  /** Sum of all the values of `m`: what `Object.values(m).reduce((a, b) => a + b, 0)` yields. */
  ghost function SumValues<K>(m: map<K, real>): real
  {
    SumOver(m.Keys, m)
  }

  /** Any key may be taken out first: the sum does not depend on the order of the keys. */
  lemma {:induction false} SumOverRemove<K>(keys: set<K>, m: map<K, real>, k: K)
    requires keys <= m.Keys && k in keys
    ensures SumOver(keys, m) == m[k] + SumOver(keys - {k}, m)
    decreases keys
  {
    var j :| j in keys && SumOver(keys, m) == m[j] + SumOver(keys - {j}, m);
    if j != k {
      SumOverRemove(keys - {j}, m, k);
      SumOverRemove(keys - {k}, m, j);
      assert keys - {j} - {k} == keys - {k} - {j};
    }
  }

  /** Sums over the same keys of two maps related pointwise by a factor `c`. */
  lemma {:induction false} SumOverScale<K>(keys: set<K>, m: map<K, real>, n: map<K, real>, c: real)
    requires keys <= m.Keys && keys <= n.Keys
    requires forall k :: k in keys ==> n[k] == c * m[k]
    ensures SumOver(keys, n) == c * SumOver(keys, m)
    decreases keys
  {
    if keys != {} {
      var k :| k in keys;
      SumOverRemove(keys, m, k);
      SumOverRemove(keys, n, k);
      SumOverScale(keys - {k}, m, n, c);
    }
  }

  /** Sums over the same keys of two maps that agree on those keys. */
  lemma {:induction false} SumOverAgree<K>(keys: set<K>, m: map<K, real>, n: map<K, real>)
    requires keys <= m.Keys && keys <= n.Keys
    requires forall k :: k in keys ==> n[k] == m[k]
    ensures SumOver(keys, n) == SumOver(keys, m)
    decreases keys
  {
    if keys != {} {
      var k :| k in keys;
      SumOverRemove(keys, m, k);
      SumOverRemove(keys, n, k);
      SumOverAgree(keys - {k}, m, n);
    }
  }

  /** A map constant on `keys` sums to that constant times the number of keys. */
  lemma {:induction false} SumOverConst<K>(keys: set<K>, m: map<K, real>, c: real)
    requires keys <= m.Keys
    requires forall k :: k in keys ==> m[k] == c
    ensures SumOver(keys, m) == c * (|keys| as real)
    decreases keys
  {
    if keys != {} {
      var k :| k in keys;
      SumOverRemove(keys, m, k);
      SumOverConst(keys - {k}, m, c);
    }
  }

  lemma SumValuesSingle<K>(a: K, x: real)
    ensures SumValues(map[a := x]) == x
  {
    var m := map[a := x];
    assert m.Keys == {a};
    SumOverRemove(m.Keys, m, a);
    assert m.Keys - {a} == {};
  }

  lemma SumValuesPair<K>(a: K, b: K, x: real, y: real)
    requires a != b
    ensures SumValues(map[a := x, b := y]) == x + y
  {
    var m := map[a := x, b := y];
    SumOverRemove(m.Keys, m, a);
    assert m.Keys - {a} == {b};
    SumOverRemove({b}, m, b);
  }
}
