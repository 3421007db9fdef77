/** Waiting for the membership to settle (crates/distlib-custody/src/settling.rs). */
module SettlingDown {
  import opened Common

  datatype Waiting<T> = Waiting(value: T, firstChange: nat, lastChange: nat)

  datatype Settled<T> = Settled(adopted: T, waiting: Option<Waiting<T>>)

  /** What is asked of it: that the value is now `value`, or to adopt what has settled. */
  datatype Call<T> = Change(value: T, now: nat) | Settle(now: nat)

  function Changed<T(==)>(s: Settled<T>, value: T, now: nat): Settled<T> {
    if value == s.adopted then Settled(s.adopted, None)
    else match s.waiting
      case Some(w) => if w.value == value then s else Settled(s.adopted, Some(Waiting(value, w.firstChange, now)))
      case None => Settled(s.adopted, Some(Waiting(value, now, now)))
  }

  function Min(a: nat, b: nat): nat {
    if a <= b then a else b
  }

  function DeadlineOf<T>(s: Settled<T>, settle: nat, maxSettle: nat): Option<nat> {
    match s.waiting
    case None => None
    case Some(w) => Some(Min(w.lastChange + settle, w.firstChange + maxSettle))
  }

  function SettledBy<T>(s: Settled<T>, now: nat, settle: nat, maxSettle: nat): Settled<T> {
    var deadline := DeadlineOf(s, settle, maxSettle);
    if deadline.None? || deadline.value > now then s else Settled(s.waiting.value.value, None)
  }

  function After<T(==)>(start: T, calls: seq<Call<T>>, settle: nat, maxSettle: nat): Settled<T> {
    if calls == [] then Settled(start, None)
    else
      var s := After(start, calls[..|calls| - 1], settle, maxSettle);
      match calls[|calls| - 1]
      case Change(value, now) => Changed(s, value, now)
      case Settle(now) => SettledBy(s, now, settle, maxSettle)
  }

  // ----- What the calls say, read from their end -----

  /** The value last reported. */
  function Current<T>(start: T, calls: seq<Call<T>>): T {
    if calls == [] then start
    else if calls[|calls| - 1].Change? then calls[|calls| - 1].value
    else Current(start, calls[..|calls| - 1])
  }

  /** Since when the value last reported has been reported, and no other. */
  function SameSince<T(==)>(start: T, calls: seq<Call<T>>): Option<nat> {
    if calls == [] then None
    else
      var rest := calls[..|calls| - 1];
      match calls[|calls| - 1]
      case Settle(_) => SameSince(start, rest)
      case Change(value, now) => if value == Current(start, rest) then SameSince(start, rest) else Some(now)
  }

  /** Since when only values other than `home` have been reported. */
  function AwaySince<T(==)>(home: T, calls: seq<Call<T>>): Option<nat> {
    if calls == [] then None
    else
      var away := AwaySince(home, calls[..|calls| - 1]);
      match calls[|calls| - 1]
      case Settle(_) => away
      case Change(value, now) => if value == home then None else if away.Some? then away else Some(now)
  }

  lemma {:induction false} AtHome<T>(start: T, home: T, calls: seq<Call<T>>)
    requires Current(start, calls) == home
    ensures AwaySince(home, calls) == None
  {
    if calls != [] && calls[|calls| - 1].Settle? {
      AtHome(start, home, calls[..|calls| - 1]);
    }
  }

  /** The value last reported is the one waiting, if any, and otherwise the one adopted; and one that
      waits has been away from the adopted one, and the same, for as long as is on record. */
  lemma {:induction false} WaitsForWhatIsReported<T>(start: T, calls: seq<Call<T>>, settle: nat, maxSettle: nat)
    ensures var s := After(start, calls, settle, maxSettle);
      if Current(start, calls) == s.adopted then s.waiting == None
      else
        && AwaySince(s.adopted, calls).Some? && SameSince(start, calls).Some?
        && s.waiting == Some(Waiting(Current(start, calls), AwaySince(s.adopted, calls).value,
          SameSince(start, calls).value))
  {
    if calls != [] {
      var rest := calls[..|calls| - 1];
      WaitsForWhatIsReported(start, rest, settle, maxSettle);
      var s := After(start, rest, settle, maxSettle);
      if Current(start, rest) == s.adopted {
        AtHome(start, s.adopted, rest);
      }
    }
  }

  /** A value is adopted exactly when it is not the adopted one already and has been reported alone for
      `settle`, or values other than the adopted one have been reported alone for `maxSettle`. */
  lemma AdoptedExactlyWhenDue<T>(start: T, calls: seq<Call<T>>, settle: nat, maxSettle: nat, now: nat)
    ensures var s, s' := After(start, calls, settle, maxSettle), After(start, calls + [Settle(now)], settle, maxSettle);
      var same, away := SameSince(start, calls), AwaySince(s.adopted, calls);
      var due := Current(start, calls) != s.adopted && same.Some? && away.Some? &&
                 (same.value + settle <= now || away.value + maxSettle <= now);
      if due then s' == Settled(Current(start, calls), None) else s' == s
  {
    WaitsForWhatIsReported(start, calls, settle, maxSettle);
    assert (calls + [Settle(now)])[..|calls|] == calls;
  }

  /** Nothing stays away past its limit: after a call to settle, values other than the adopted one have
      been reported for less than `maxSettle`. */
  lemma NeverAwayTooLong<T>(start: T, calls: seq<Call<T>>, settle: nat, maxSettle: nat, now: nat)
    ensures var more := calls + [Settle(now)];
      var s := After(start, more, settle, maxSettle);
      Current(start, more) != s.adopted ==>
        AwaySince(s.adopted, more).Some? && now < AwaySince(s.adopted, more).value + maxSettle
  {
    var more := calls + [Settle(now)];
    assert more[..|calls|] == calls;
    AdoptedExactlyWhenDue(start, calls, settle, maxSettle, now);
    WaitsForWhatIsReported(start, calls, settle, maxSettle);
  }

  class Settling<T(==)> {
    const settle: nat
    const maxSettle: nat
    var adopted: T
    var waiting: Option<Waiting<T>>

    ghost function Now(): Settled<T>
      reads this
    {
      Settled(adopted, waiting)
    }

    constructor (adopted: T, settle: nat, maxSettle: nat)
      ensures Now() == After(adopted, [], settle, maxSettle) && this.settle == settle && this.maxSettle == maxSettle
    {
      this.adopted, this.settle, this.maxSettle, this.waiting := adopted, settle, maxSettle, None;
    }

    method Change(value: T, now: nat)
      modifies this
      ensures Now() == Changed(old(Now()), value, now)
    {
      if value == adopted {
        waiting := None;
        return;
      }
      match waiting {
        case Some(w) =>
          if w.value != value {
            waiting := Some(w.(value := value, lastChange := now));
          }
        case None =>
          waiting := Some(Waiting(value, now, now));
      }
    }

    /** The first time at which a call of `Settle` would change anything. */
    method Deadline() returns (deadline: Option<nat>)
      ensures deadline.None? <==> forall now :: SettledBy(Now(), now, settle, maxSettle) == Now()
      ensures deadline.Some? ==>
        forall now :: SettledBy(Now(), now, settle, maxSettle) != Now() <==> deadline.value <= now
    {
      deadline := None;
      if waiting.Some? {
        var w := waiting.value;
        deadline := Some(Min(w.lastChange + settle, w.firstChange + maxSettle));
        assert SettledBy(Now(), deadline.value, settle, maxSettle) != Now();
      }
    }

    /** `SettledBy` in place; returns the value if it is newly adopted. */
    method Settle(now: nat) returns (taken: Option<T>)
      modifies this`adopted, this`waiting
      ensures Now() == SettledBy(old(Now()), now, settle, maxSettle)
      ensures taken == if Now() == old(Now()) then None else Some(adopted)
    {
      var deadline := Deadline();
      if deadline.None? || deadline.value > now {
        return None;
      }
      adopted, waiting := waiting.value.value, None;
      taken := Some(adopted);
    }
  }
}
