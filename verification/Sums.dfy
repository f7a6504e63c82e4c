/** Sums over the rows of a table, and what an update of a row does to them. */
module Sums {

  /** The weight of row `k`, zero when the table has no such row. */
  function At<K, V>(m: map<K, V>, w: (K, V) -> int, k: K): int {
    if k in m then w(k, m[k]) else 0
  }

  ghost function Pick<K, V>(m: map<K, V>): (k: K)
    requires m != map[]
    ensures k in m
  {
    assert m.Keys != {};
    var k :| k in m.Keys;
    k
  }

  ghost function Total<K, V>(m: map<K, V>, w: (K, V) -> int): int
    decreases |m|
  {
    if m == map[] then 0 else
      var k := Pick(m);
      w(k, m[k]) + Total(m - {k}, w)
  }

  lemma {:induction false} Extract<K, V>(m: map<K, V>, w: (K, V) -> int, k: K)
    requires k in m
    ensures Total(m, w) == w(k, m[k]) + Total(m - {k}, w)
    decreases |m|
  {
    var p := Pick(m);
    if p != k {
      Extract(m - {p}, w, k);
      Extract(m - {k}, w, p);
      assert m - {p} - {k} == m - {k} - {p};
    }
  }

  lemma {:induction false} AllZero<K(!new), V>(m: map<K, V>, w: (K, V) -> int)
    requires forall k <- m :: w(k, m[k]) == 0
    ensures Total(m, w) == 0
    decreases |m|
  {
    if m != map[] {
      var m' := m - {Pick(m)};
      assert forall k <- m' :: k in m && m'[k] == m[k];
      AllZero(m', w);
    }
  }

  /** Two tables with the same weights have the same total. */
  lemma {:induction false} SameTotal<K(!new), V>(m: map<K, V>, m': map<K, V>, w: (K, V) -> int)
    requires forall k :: At(m, w, k) == At(m', w, k)
    ensures Total(m, w) == Total(m', w)
    decreases |m|
  {
    if m == map[] {
      forall k <- m' ensures w(k, m'[k]) == 0 {
        assert At(m', w, k) == At(m, w, k);
      }
      AllZero(m', w);
    } else {
      var p := Pick(m);
      forall k ensures At(m - {p}, w, k) == At(m' - {p}, w, k) {
        assert At(m, w, k) == At(m', w, k);
      }
      SameTotal(m - {p}, m' - {p}, w);
      assert At(m, w, p) == At(m', w, p);
      if p in m' {
        Extract(m', w, p);
      } else {
        assert m' - {p} == m';
      }
    }
  }

  /** Taking one row out of a table takes its weight out of the total. */
  lemma Without<K, V>(m: map<K, V>, w: (K, V) -> int, k: K)
    ensures Total(m, w) == At(m, w, k) + Total(m - {k}, w)
  {
    if k in m {
      Extract(m, w, k);
    } else {
      assert m - {k} == m;
    }
  }

  /** Only the weight of row `k` changes. */
  lemma ChangeOne<K(!new), V>(m: map<K, V>, m': map<K, V>, w: (K, V) -> int, k: K)
    requires forall j | j != k :: At(m, w, j) == At(m', w, j)
    ensures Total(m', w) == Total(m, w) - At(m, w, k) + At(m', w, k)
  {
    Without(m, w, k);
    Without(m', w, k);
    forall j ensures At(m - {k}, w, j) == At(m' - {k}, w, j) {
      assert j == k || At(m, w, j) == At(m', w, j);
    }
    SameTotal(m - {k}, m' - {k}, w);
  }

  /** Only the weights of rows `k` and `l` change. */
  lemma ChangeTwo<K(!new), V>(m: map<K, V>, m': map<K, V>, w: (K, V) -> int, k: K, l: K)
    requires k != l
    requires forall j | j != k && j != l :: At(m, w, j) == At(m', w, j)
    ensures Total(m', w) == Total(m, w) - At(m, w, k) - At(m, w, l) + At(m', w, k) + At(m', w, l)
  {
    Without(m, w, k);
    Without(m', w, k);
    forall j | j != l ensures At(m - {k}, w, j) == At(m' - {k}, w, j) {
      assert j == k || At(m, w, j) == At(m', w, j);
    }
    ChangeOne(m - {k}, m' - {k}, w, l);
  }

  /** Setting one row. */
  lemma SetRow<K(!new), V>(m: map<K, V>, w: (K, V) -> int, k: K, v: V)
    ensures Total(m[k := v], w) == Total(m, w) - At(m, w, k) + w(k, v)
  {
    ChangeOne(m, m[k := v], w, k);
  }

  /** With non-negative weights the total bounds the weight of any row. */
  lemma {:induction false} Bounds<K(!new), V>(m: map<K, V>, w: (K, V) -> int, k: K)
    requires forall j <- m :: w(j, m[j]) >= 0
    ensures 0 <= At(m, w, k) <= Total(m, w)
    decreases |m|, k !in m
  {
    if k in m {
      var m' := m - {k};
      Extract(m, w, k);
      assert forall j <- m' :: j in m && m'[j] == m[j];
      Bounds(m', w, k);
    } else if m != map[] {
      Bounds(m, w, Pick(m));
    }
  }

  /** A smaller weight function has a smaller total. */
  lemma {:induction false} Monotone<K(!new), V>(m: map<K, V>, w: (K, V) -> int, w': (K, V) -> int)
    requires forall j <- m :: w(j, m[j]) <= w'(j, m[j])
    ensures Total(m, w) <= Total(m, w')
    decreases |m|
  {
    if m != map[] {
      var m' := m - {Pick(m)};
      assert forall j <- m' :: j in m && m'[j] == m[j];
      Monotone(m', w, w');
    }
  }

  /** Taking one element out of a sequence takes one occurrence of it out of its multiset. */
  lemma TakenOut<T>(xs: seq<T>, k: nat)
    requires k < |xs|
    ensures multiset(xs[..k] + xs[k + 1..]) == multiset(xs) - multiset{xs[k]}
  {
    assert xs == xs[..k] + [xs[k]] + xs[k + 1..];
  }
}
