/** Sums over finite maps and sequences, for aggregates kept beside the things they aggregate. */
module Sums {
  ghost function AnyOf<T>(s: set<T>): (x: T)
    requires s != {}
    ensures x in s
  {
    var x :| x in s;
    x
  }

  ghost function Pick<K, V>(m: map<K, V>): (k: K)
    requires m != map[]
    ensures k in m
  {
    AnyOf(m.Keys)
  }

  ghost function Sum<K, V>(m: map<K, V>, f: V -> int): int
    decreases |m|
  {
    if m == map[] then 0
    else
      var k := Pick(m);
      assert |m - {k}| < |m| by { RemovalShrinks(m, k); }
      f(m[k]) + Sum(m - {k}, f)
  }

  lemma {:induction false} RemovalShrinks<K, V>(m: map<K, V>, k: K)
    requires k in m
    ensures |m - {k}| == |m| - 1
  {
    assert (m - {k}).Keys == m.Keys - {k};
  }

  /** The summation order does not matter: any entry can be split off. */
  lemma {:induction false} SumSplit<K, V>(m: map<K, V>, f: V -> int, k: K)
    requires k in m
    ensures Sum(m, f) == f(m[k]) + Sum(m - {k}, f)
    decreases |m|
  {
    var p := Pick(m);
    if p != k {
      RemovalShrinks(m, p);
      RemovalShrinks(m, k);
      SumSplit(m - {p}, f, k);
      SumSplit(m - {k}, f, p);
      assert m - {p} - {k} == m - {k} - {p};
    }
  }

  lemma {:induction false} SumPut<K, V>(m: map<K, V>, f: V -> int, k: K, v: V)
    ensures Sum(m[k := v], f) == Sum(m, f) + f(v) - (if k in m then f(m[k]) else 0)
  {
    SumSplit(m[k := v], f, k);
    assert m[k := v] - {k} == m - {k};
    if k in m {
      SumSplit(m, f, k);
    } else {
      assert m - {k} == m;
    }
  }

  lemma {:induction false} SumRemove<K, V>(m: map<K, V>, f: V -> int, k: K)
    ensures Sum(m - {k}, f) == Sum(m, f) - (if k in m then f(m[k]) else 0)
  {
    if k in m {
      SumSplit(m, f, k);
    } else {
      assert m - {k} == m;
    }
  }

  /** Pointwise comparison of two summands over one map. */
  lemma {:induction false} SumLe<K, V>(m: map<K, V>, f: V -> int, g: V -> int)
    requires forall k :: k in m ==> f(m[k]) <= g(m[k])
    ensures Sum(m, f) <= Sum(m, g)
    decreases |m|
  {
    if m != map[] {
      var p := Pick(m);
      RemovalShrinks(m, p);
      SumLe(m - {p}, f, g);
    }
  }

  lemma {:induction false} SumNonNegative<K, V>(m: map<K, V>, f: V -> int)
    requires forall k :: k in m ==> f(m[k]) >= 0
    ensures Sum(m, f) >= 0
    ensures forall k :: k in m ==> f(m[k]) <= Sum(m, f)
    decreases |m|
  {
    if m != map[] {
      var p := Pick(m);
      RemovalShrinks(m, p);
      SumNonNegative(m - {p}, f);
      forall k | k in m
        ensures f(m[k]) <= Sum(m, f)
      {
        if k != p {
          assert k in m - {p} && (m - {p})[k] == m[k];
        }
      }
    }
  }

  lemma {:induction false} SumMinus<K, V>(m: map<K, V>, f: V -> int, g: V -> int, h: V -> int)
    requires forall k :: k in m ==> f(m[k]) == g(m[k]) - h(m[k])
    ensures Sum(m, f) == Sum(m, g) - Sum(m, h)
    decreases |m|
  {
    if m != map[] {
      var p := Pick(m);
      RemovalShrinks(m, p);
      SumMinus(m - {p}, f, g, h);
    }
  }

  // ------------------------------------------------------- sequences

  function SumSeq<V>(s: seq<V>, f: V -> int): int {
    if s == [] then 0 else SumSeq(s[..|s| - 1], f) + f(s[|s| - 1])
  }

  lemma {:induction false} SumSeqConcat<V>(a: seq<V>, b: seq<V>, f: V -> int)
    ensures SumSeq(a + b, f) == SumSeq(a, f) + SumSeq(b, f)
    decreases |b|
  {
    if b == [] {
      assert a + b == a;
    } else {
      assert (a + b)[..|a + b| - 1] == a + b[..|b| - 1];
      SumSeqConcat(a, b[..|b| - 1], f);
    }
  }

  lemma {:induction false} SumSeqNonNegative<V>(s: seq<V>, f: V -> int)
    requires forall i :: 0 <= i < |s| ==> f(s[i]) >= 0
    ensures SumSeq(s, f) >= 0
  {
    if s != [] {
      SumSeqNonNegative(s[..|s| - 1], f);
    }
  }
}
