/** The rate limiter (crates/distlib-net/src/pacer.rs). Times are nanoseconds. */
module Pacer {
  import opened Common

  const BURST: nat := 100_000_000
  const NANOS: nat := 1_000_000_000

  /** The quotient of `bytes` and `rate` in whole nanoseconds, cut off at the largest 64-bit number.
      */
  function TimeFor(bytes: nat, rate: Positive): nat {
    var nanos := bytes * NANOS / rate;
    if nanos <= U64_MAX then nanos else U64_MAX
  }

  /** How far back a pause earns time: no further than the clock goes. */
  function Earliest(now: nat): nat {
    if BURST <= now then now - BURST else now
  }

  function Max(a: nat, b: nat): nat {
    if a < b then b else a
  }

  /** One call at a limited rate. */
  datatype Call = Call(now: nat, bytes: nat, rate: Positive)

  function Cost(call: Call): nat {
    TimeFor(call.bytes, call.rate)
  }

  function CaughtUp(start: nat, calls: seq<Call>): nat {
    if calls == [] then start
    else Max(CaughtUp(start, calls[..|calls| - 1]), Earliest(calls[|calls| - 1].now)) + Cost(calls[|calls| - 1])
  }

  /** What the calls from the `i`-th on cost together. */
  function Costs(calls: seq<Call>, i: nat): nat
    requires i <= |calls|
  {
    if i == |calls| then 0 else Costs(calls[..|calls| - 1], i) + Cost(calls[|calls| - 1])
  }

  function Bytes(calls: seq<Call>, i: nat): nat
    requires i <= |calls|
  {
    if i == |calls| then 0 else Bytes(calls[..|calls| - 1], i) + calls[|calls| - 1].bytes
  }

  lemma {:induction false} NotBefore(start: nat, calls: seq<Call>, i: nat)
    requires i <= |calls|
    ensures CaughtUp(start, calls) >= start + Costs(calls, 0)
    ensures i < |calls| ==> CaughtUp(start, calls) >= Earliest(calls[i].now) + Costs(calls, i)
  {
    if calls != [] {
      var rest := calls[..|calls| - 1];
      NotBefore(start, rest, if i < |rest| then i else |rest|);
      if i == |rest| {
        assert Costs(rest, i) == 0;
      }
    }
  }

  lemma {:induction false} NotAfter(start: nat, calls: seq<Call>) returns (i: nat)
    ensures i <= |calls|
    ensures CaughtUp(start, calls) == if i == |calls| then start + Costs(calls, 0)
      else Earliest(calls[i].now) + Costs(calls, i)
  {
    i := 0;
    if calls != [] {
      var n := |calls| - 1;
      var rest := calls[..n];
      if CaughtUp(start, rest) < Earliest(calls[n].now) {
        i := n;
        assert Costs(rest, n) == 0;
      } else {
        i := NotAfter(start, rest);
        if i == n {
          i := n + 1;
        }
      }
    }
  }

  /** Whether `t` is the latest of: the start with every cost, and each call's earliest with the costs
      from it on. */
  ghost predicate IsLatest(start: nat, calls: seq<Call>, t: nat) {
    && start + Costs(calls, 0) <= t
    && (forall i | 0 <= i < |calls| :: BurstBefore(calls[i].now) + Costs(calls, i) <= t)
    && (t == start + Costs(calls, 0) || exists i | 0 <= i < |calls| :: t == BurstBefore(calls[i].now) + Costs(calls, i))
  }

  /** A tenth of a second before `now`, or `now` itself where the clock does not go back so far. */
  ghost function BurstBefore(now: nat): nat {
    if now < 100_000_000 then now else now - 100_000_000
  }

  /** When all let through so far is within the rate, exactly, whatever the times and the rates. */
  lemma CaughtUpIsTheLatest(start: nat, calls: seq<Call>)
    ensures IsLatest(start, calls, CaughtUp(start, calls))
  {
    assert forall now :: BurstBefore(now) == Earliest(now);
    forall i | 0 <= i < |calls| ensures Earliest(calls[i].now) + Costs(calls, i) <= CaughtUp(start, calls) {
      NotBefore(start, calls, i);
    }
    NotBefore(start, calls, 0);
    var i := NotAfter(start, calls);
  }

  /** The time for some bytes is exact to the nanosecond below exactly when it fits 64 bits. */
  lemma TimeForIsExactUnlessTooLong(bytes: nat, rate: Positive)
    ensures TimeFor(bytes, rate) * rate <= bytes * NANOS
    ensures bytes * NANOS < (TimeFor(bytes, rate) + 1) * rate <==> bytes * NANOS / rate <= U64_MAX
  {
    var nanos, left := bytes * NANOS / rate, bytes * NANOS % rate;
    assert bytes * NANOS == nanos * rate + left;
    if nanos > U64_MAX {
      assert (U64_MAX + 1) * rate <= nanos * rate;
    } else {
      assert (nanos + 1) * rate == nanos * rate + rate;
    }
  }

  /** After a pause of a tenth of a second, what takes no longer than that goes out at once. */
  lemma BurstGoesOutAtOnce(start: nat, calls: seq<Call>, call: Call)
    requires CaughtUp(start, calls) + 100_000_000 <= call.now
    requires call.bytes * 1_000_000_000 <= call.rate * 100_000_000
    ensures CaughtUp(start, calls + [call]) <= call.now
  {
    assert (calls + [call])[..|calls|] == calls;
    QuotientIsNoMore(call.bytes * NANOS, call.rate, 100_000_000);
  }

  lemma QuotientIsNoMore(n: nat, d: Positive, q: nat)
    requires n <= d * q
    ensures n / d <= q
  {
    assert n == n / d * d + n % d;
    if n / d > q {
      Scaled(q + 1, n / d, d);
    }
  }

  ghost predicate AtRate(calls: seq<Call>, rate: Positive) {
    forall i | 0 <= i < |calls| :: calls[i].rate == rate && calls[i].bytes * NANOS / rate <= U64_MAX
  }

  lemma Together(a: nat, b: nat, rate: nat)
    ensures (a + b) * rate == a * rate + b * rate
  {
  }

  lemma Scaled(a: nat, b: nat, rate: nat)
    requires a <= b
    ensures a * rate <= b * rate
  {
  }

  lemma {:induction false} BytesCost(calls: seq<Call>, i: nat, rate: Positive)
    requires i <= |calls| && AtRate(calls, rate)
    ensures Bytes(calls, i) * NANOS <= (Costs(calls, i) + (|calls| - i)) * rate
  {
    if i < |calls| {
      var rest, last := calls[..|calls| - 1], calls[|calls| - 1];
      BytesCost(rest, i, rate);
      TimeForIsExactUnlessTooLong(last.bytes, rate);
      Together(Bytes(rest, i), last.bytes, NANOS);
      Together(Costs(rest, i) + (|rest| - i), Cost(last) + 1, rate);
    }
  }

  /** In every window the bytes let through are no more than the rate allows from its first call to the
      release of its last, and the burst, and a nanosecond's worth for each call. */
  lemma WindowIsWithinTheRate(start: nat, calls: seq<Call>, i: nat, rate: Positive, release: nat)
    requires i < |calls| && AtRate(calls, rate) && CaughtUp(start, calls) <= release
    ensures calls[i].now <= release + BURST
    ensures Bytes(calls, i) * NANOS <= (release + BURST - calls[i].now + (|calls| - i)) * rate
  {
    NotBefore(start, calls, i);
    BytesCost(calls, i, rate);
    Scaled(Costs(calls, i) + (|calls| - i), release + BURST - calls[i].now + (|calls| - i), rate);
  }

  /** Past 64 bits of nanoseconds the window is not kept to: this many bytes at a byte a second are let
      through long before their time. */
  lemma TooLongPassesTheRate()
    ensures var call := Call(BURST, U64_MAX, 1);
      Bytes([call], 0) * NANOS > (CaughtUp(0, [call]) + BURST - call.now + 1) * call.rate
  {
    var call := Call(BURST, U64_MAX, 1);
    assert [call][..0] == [];
    assert Bytes([call], 0) == U64_MAX;
    assert CaughtUp(0, [call]) == U64_MAX;
  }

  class BytePacer {
    var rate: Option<Positive>
    var caughtUpAt: nat
    ghost const start: nat
    ghost var calls: seq<Call>

    ghost predicate Valid()
      reads this
    {
      caughtUpAt == CaughtUp(start, calls)
    }

    constructor (rate: Option<Positive>, now: nat)
      ensures Valid() && this.rate == rate && start == now && calls == []
    {
      this.rate, caughtUpAt, start, calls := rate, now, now, [];
    }

    /** Calls already in `calls` keep the rate they were made at. */
    method SetRate(rate: Option<Positive>)
      requires Valid()
      modifies this`rate
      ensures Valid() && this.rate == rate
    {
      this.rate := rate;
    }

    /** One more call, unless there is no rate; the caller is to wait for the time returned. */
    method Pace(bytes: nat, now: nat) returns (release: Option<nat>)
      requires Valid()
      modifies this`caughtUpAt, this`calls
      ensures Valid()
      ensures rate.None? ==> release == None && calls == old(calls)
      ensures rate.Some? ==> release == Some(caughtUpAt) && calls == old(calls) + [Call(now, bytes, rate.value)]
    {
      if rate.None? {
        return None;
      }
      calls := calls + [Call(now, bytes, rate.value)];
      assert calls[..|calls| - 1] == old(calls);
      var earliest := if BURST <= now then now - BURST else now;
      caughtUpAt := (if caughtUpAt < earliest then earliest else caughtUpAt) + TimeFor(bytes, rate.value);
      release := Some(caughtUpAt);
    }
  }
}
