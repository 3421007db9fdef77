/** Sums over the entries of a map. */
module Sums {
  import opened Common

  /** The sum of `f` over the entries of `m`. */
  function Sum<V>(m: map<nat, V>, f: (nat, V) -> nat): nat
    decreases |m|
  {
    if m == map[] then 0
    else
      var key := Least(m.Keys);
      assert (m - {key}).Keys == m.Keys - {key};
      f(key, m[key]) + Sum(m - {key}, f)
  }

  lemma {:induction false} SumWith<V>(m: map<nat, V>, f: (nat, V) -> nat, key: nat, value: V)
    requires key !in m
    ensures Sum(m[key := value], f) == Sum(m, f) + f(key, value)
    decreases |m|
  {
    var n := m[key := value];
    assert n.Keys == m.Keys + {key};
    var least := Least(n.Keys);
    if least == key {
      assert n - {key} == m;
    } else {
      assert least in m.Keys && Least(m.Keys) in n.Keys;
      assert (m - {least}).Keys == m.Keys - {least};
      assert n - {least} == (m - {least})[key := value];
      SumWith(m - {least}, f, key, value);
    }
  }

  lemma SumWithout<V>(m: map<nat, V>, f: (nat, V) -> nat, key: nat)
    requires key in m
    ensures Sum(m, f) == Sum(m - {key}, f) + f(key, m[key])
  {
    SumWith(m - {key}, f, key, m[key]);
    assert (m - {key})[key := m[key]] == m;
  }

  /** Equal entries, equal sums. */
  lemma {:induction false} SameSums<V, W>(m: map<nat, V>, f: (nat, V) -> nat, n: map<nat, W>, g: (nat, W) -> nat)
    requires m.Keys == n.Keys && forall k | k in m :: f(k, m[k]) == g(k, n[k])
    ensures Sum(m, f) == Sum(n, g)
    decreases |m|
  {
    if m != map[] {
      var key := Least(m.Keys);
      assert (m - {key}).Keys == m.Keys - {key} == (n - {key}).Keys;
      SameSums(m - {key}, f, n - {key}, g);
    }
  }

  /** Entry by entry no larger, no larger in sum. */
  lemma {:induction false} SmallerSums<V, W>(m: map<nat, V>, f: (nat, V) -> nat, n: map<nat, W>, g: (nat, W) -> nat)
    requires m.Keys == n.Keys && forall k | k in m :: f(k, m[k]) <= g(k, n[k])
    ensures Sum(m, f) <= Sum(n, g)
    decreases |m|
  {
    if m != map[] {
      var key := Least(m.Keys);
      assert (m - {key}).Keys == m.Keys - {key} == (n - {key}).Keys;
      SmallerSums(m - {key}, f, n - {key}, g);
    }
  }
}
