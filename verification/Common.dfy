/** Vocabulary shared by every module: failure-carrying values, identifiers, saturating
    subtraction, and the least element of a finite set. */
module Common {

  datatype Option<+T> = None | Some(value: T)

  datatype Result<+T, +E> = Ok(value: T) | Err(error: E)

  /** A 32-byte id, read as a big-endian number, so that byte order is numeric order. */
  type MemberId = nat
  type ItemId = nat
  type ContentHash = nat

  type Positive = n: nat | 0 < n witness 1

  const U64_MAX: nat := 0xFFFF_FFFF_FFFF_FFFF

  /** Unsigned subtraction that stops at zero. */
  function SaturatingSub(a: nat, b: nat): nat {
    if a < b then 0 else a - b
  }

  /** Unsigned 64-bit multiplication that stops at the largest value. */
  function SaturatingMul(a: nat, b: nat): nat {
    if a * b > U64_MAX then U64_MAX else a * b
  }

  function Get<K, V>(m: map<K, V>, key: K): Option<V> {
    if key in m then Some(m[key]) else None
  }

  lemma {:induction false} FindLeast(s: set<nat>) returns (least: nat)
    requires s != {}
    ensures least in s && forall x | x in s :: least <= x
  {
    least :| least in s;
    var rest := s - {least};
    assert forall x | x in s :: x == least || x in rest;
    if rest != {} {
      var other := FindLeast(rest);
      if other < least {
        least := other;
      }
    }
  }

  lemma LeastExists(s: set<nat>)
    requires s != {}
    ensures exists x :: x in s && forall y | y in s :: x <= y
  {
    var least := FindLeast(s);
  }

  /** The least element: what iterating an ordered collection meets first. */
  function Least(s: set<nat>): (least: nat)
    requires s != {}
    ensures least in s && forall x | x in s :: least <= x
  {
    LeastExists(s);
    var x :| x in s && forall y | y in s :: x <= y;
    x
  }

  lemma SubsetSize<T>(a: set<T>, b: set<T>)
    requires a <= b
    ensures |a| <= |b|
    ensures |a| == |b| ==> a == b
  {
    assert b == a + (b - a);
  }

  lemma FirstIsIn<T>(s: seq<T>)
    requires s != []
    ensures s[0] in s
  {
  }

  /** In a loop that takes the elements of `all` out of `todo` one by one: what is done so far. */
  lemma OneMoreDone<T>(all: set<T>, todo: set<T>, x: T)
    requires todo <= all && x in todo
    ensures x !in all - todo && all - (todo - {x}) == all - todo + {x}
  {
  }

  ghost function Elements(s: seq<nat>): set<nat> {
    set x | x in s
  }

  ghost predicate NoRepeats(s: seq<nat>) {
    forall i, j | 0 <= i < j < |s| :: s[i] != s[j]
  }

  ghost predicate Arranged<T(!new)>(before: (T, T) -> bool, s: seq<T>) {
    forall i, j | 0 <= i < j < |s| :: before(s[i], s[j])
  }

  /** Under an order with no two elements each before the other, a set has one arrangement. */
  lemma {:induction false} OneArrangement<T(!new)>(before: (T, T) -> bool, a: seq<T>, b: seq<T>)
    requires forall x, y :: !(before(x, y) && before(y, x))
    requires Arranged(before, a) && Arranged(before, b) && forall x :: x in a <==> x in b
    ensures a == b
  {
    if a == [] {
      if b != [] {
        FirstIsIn(b);
        assert false;
      }
    } else {
      FirstIsIn(a);
      FirstIsIn(b);
      assert a[0] == b[0];
      assert a == [a[0]] + a[1..] && b == [b[0]] + b[1..];
      forall x ensures x in a[1..] <==> x in b[1..] {
        assert x in a[1..] ==> before(a[0], x) && x in a;
        assert x in b[1..] ==> before(b[0], x) && x in b;
      }
      OneArrangement(before, a[1..], b[1..]);
    }
  }
}
