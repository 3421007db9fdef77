/** What members say about where they are (crates/distlib-net/src/directory.rs). */
module Directories {
  import opened Common
  import opened Membership

  /** A member's statement of its own address. `verifies` says that the member really signed it, at
      log position `applied`. */
  datatype SignedAddress = SignedAddress(member: MemberId, addr: NodeAddr, applied: nat, verifies: bool)

  /** An address in the form it is dialled in. */
  datatype EndpointAddr = EndpointAddr(member: MemberId, direct: set<nat>, relay: Option<string>)

  datatype NetError = BadAddress(member: MemberId)

  /** Reads a relay's url into its one normal form. */
  type ReadUrl = string -> Option<string>

  predicate IsEmpty(addr: NodeAddr) {
    addr.relay.None? && addr.direct == {}
  }

  function ToEndpointAddr(addr: NodeAddr, member: MemberId, read: ReadUrl): Option<EndpointAddr> {
    match addr.relay
    case None => Some(EndpointAddr(member, addr.direct, None))
    case Some(url) =>
      if read(url).None? then None else Some(EndpointAddr(member, addr.direct, read(url)))
  }

  datatype Held = Held(signed: map<MemberId, SignedAddress>, lookup: map<MemberId, EndpointAddr>, learned: nat)

  const NOTHING := Held(map[], map[], 0)

  /** The change counter, one further on in 64 bits. */
  function WrappingNext(n: nat): nat {
    (n + 1) % (U64_MAX + 1)
  }

  /** What hearing `said` makes of what is held, and whether it was news. */
  function Learned(d: Held, said: SignedAddress, read: ReadUrl): (Held, Result<bool, NetError>) {
    if !said.verifies then (d, Err(BadAddress(said.member)))
    else if IsEmpty(said.addr) then (d, Ok(false))
    else match ToEndpointAddr(said.addr, said.member, read)
      case None => (d, Ok(false))
      case Some(endpoint) =>
        if said.member in d.signed && said.applied < d.signed[said.member].applied then (d, Ok(false))
        else
          var signed := d.signed[said.member := said];
          if Get(d.lookup, said.member) == Some(endpoint) then (d.(signed := signed), Ok(false))
          else (Held(signed, d.lookup[said.member := endpoint], WrappingNext(d.learned)), Ok(true))
  }

  function After(heard: seq<SignedAddress>, read: ReadUrl): Held {
    if heard == [] then NOTHING else Learned(After(heard[..|heard| - 1], read), heard[|heard| - 1], read).0
  }

  /** Whether a statement can be used at all. */
  predicate Usable(said: SignedAddress, read: ReadUrl) {
    said.verifies && !IsEmpty(said.addr) && ToEndpointAddr(said.addr, said.member, read).Some?
  }

  predicate UsableAbout(said: SignedAddress, member: MemberId, read: ReadUrl) {
    said.member == member && Usable(said, read)
  }

  /** Whether the `k`-th heard is, of those about `member` that can be used, the last at the highest
      position. */
  ghost predicate IsLatest(heard: seq<SignedAddress>, member: MemberId, read: ReadUrl, k: nat) {
    && k < |heard| && UsableAbout(heard[k], member, read)
    && (forall j | 0 <= j < k && UsableAbout(heard[j], member, read) :: heard[j].applied <= heard[k].applied)
    && (forall j | k < j < |heard| && UsableAbout(heard[j], member, read) :: heard[j].applied < heard[k].applied)
  }

  ghost predicate NoneAbout(heard: seq<SignedAddress>, member: MemberId, read: ReadUrl) {
    forall j | 0 <= j < |heard| :: !UsableAbout(heard[j], member, read)
  }

  /** Whether `d` holds, for `member`, what was heard at `at`, and looks it up there. */
  ghost predicate HoldsLatest(heard: seq<SignedAddress>, member: MemberId, read: ReadUrl, d: Held, at: Option<nat>) {
    match at
    case None => NoneAbout(heard, member, read) && member !in d.signed && member !in d.lookup
    case Some(k) =>
      && IsLatest(heard, member, read, k) && Get(d.signed, member) == Some(heard[k])
      && Get(d.lookup, member) == ToEndpointAddr(heard[k].addr, member, read)
  }

  lemma UnusableChangesNothing(d: Held, said: SignedAddress, member: MemberId, read: ReadUrl)
    requires !UsableAbout(said, member, read)
    ensures var d' := Learned(d, said, read).0;
      Get(d'.signed, member) == Get(d.signed, member) && Get(d'.lookup, member) == Get(d.lookup, member)
  {
  }

  lemma OneMoreUnusable(heard: seq<SignedAddress>, said: SignedAddress, member: MemberId, read: ReadUrl,
      at: Option<nat>)
    requires !UsableAbout(said, member, read)
    ensures NoneAbout(heard, member, read) ==> NoneAbout(heard + [said], member, read)
    ensures at.Some? && IsLatest(heard, member, read, at.value) ==> IsLatest(heard + [said], member, read, at.value)
  {
  }

  /** Which of the statements is the latest once `said` is heard too. */
  lemma OneMoreUsable(heard: seq<SignedAddress>, said: SignedAddress, member: MemberId, read: ReadUrl,
      at: Option<nat>) returns (at': nat)
    requires UsableAbout(said, member, read)
    requires if at.None? then NoneAbout(heard, member, read) else IsLatest(heard, member, read, at.value)
    ensures at' == if at.Some? && said.applied < heard[at.value].applied then at.value else |heard|
    ensures IsLatest(heard + [said], member, read, at')
  {
    at' := if at.Some? && said.applied < heard[at.value].applied then at.value else |heard|;
    var more := heard + [said];
    assert more[|heard|] == said;
    assert forall j | 0 <= j < |heard| :: more[j] == heard[j];
  }

  lemma OneMoreHeard(heard: seq<SignedAddress>, said: SignedAddress, member: MemberId, read: ReadUrl, d: Held,
      at: Option<nat>) returns (at': Option<nat>)
    requires HoldsLatest(heard, member, read, d, at)
    ensures HoldsLatest(heard + [said], member, read, Learned(d, said, read).0, at')
  {
    if UsableAbout(said, member, read) {
      var k := OneMoreUsable(heard, said, member, read, at);
      at' := Some(k);
      assert k == |heard| ==> (heard + [said])[k] == said;
      assert k < |heard| ==> (heard + [said])[k] == heard[k];
    } else {
      at' := at;
      UnusableChangesNothing(d, said, member, read);
      OneMoreUnusable(heard, said, member, read, at);
    }
  }

  /** Over everything heard, what is held for a member is the last said of those at its highest
      position, and what the lookup answers is that statement's address. */
  lemma {:induction false} LatestIsHeld(heard: seq<SignedAddress>, member: MemberId, read: ReadUrl)
      returns (at: Option<nat>)
    ensures HoldsLatest(heard, member, read, After(heard, read), at)
  {
    at := None;
    if heard != [] {
      var n := |heard| - 1;
      at := LatestIsHeld(heard[..n], member, read);
      at := OneMoreHeard(heard[..n], heard[n], member, read, After(heard[..n], read), at);
      assert heard[..n] + [heard[n]] == heard;
    }
  }

  /** What can be used, and where it has its member dialled: an address that is signed, not empty, and whose
      relay, if it names one, reads as a url. */
  lemma UsableExactlyWhen(said: SignedAddress, read: ReadUrl)
    ensures Usable(said, read) <==>
      && said.verifies && (said.addr.relay.Some? || said.addr.direct != {})
      && (said.addr.relay.Some? ==> read(said.addr.relay.value).Some?)
    ensures Usable(said, read) ==>
      ToEndpointAddr(said.addr, said.member, read) == Some(EndpointAddr(said.member, said.addr.direct,
        if said.addr.relay.None? then None else read(said.addr.relay.value)))
  {
  }

  /** A statement is news exactly when it makes the lookup answer another address than it did, and nobody
      else's answer changes; it is refused exactly when it does not verify. */
  lemma NewsExactlyWhenAnotherAnswer(d: Held, said: SignedAddress, read: ReadUrl)
    ensures var (d', news) := Learned(d, said, read);
      && (news.Err? <==> !said.verifies) && (news.Err? ==> news.error == BadAddress(said.member) && d' == d)
      && (news == Ok(true) <==> d'.lookup != d.lookup)
      && (news == Ok(true) <==> Get(d'.lookup, said.member) != Get(d.lookup, said.member))
      && (forall m | m != said.member ::
            Get(d'.lookup, m) == Get(d.lookup, m) && Get(d'.signed, m) == Get(d.signed, m))
  {
    var d' := Learned(d, said, read).0;
    assert d'.lookup != d.lookup ==> Get(d'.lookup, said.member) != Get(d.lookup, said.member);
  }

  /** How many of what was heard made the lookup answer anew. */
  ghost function Answers(heard: seq<SignedAddress>, read: ReadUrl): nat {
    if heard == [] then 0
    else
      var rest := heard[..|heard| - 1];
      Answers(rest, read) + if After(heard, read).lookup != After(rest, read).lookup then 1 else 0
  }

  lemma NextInWidth(n: nat)
    ensures WrappingNext(n % 0x1_0000_0000_0000_0000) == (n + 1) % 0x1_0000_0000_0000_0000
  {
  }

  lemma CountsOneMore(d: Held, said: SignedAddress, read: ReadUrl)
    ensures var d' := Learned(d, said, read).0;
      d'.learned == if d'.lookup != d.lookup then WrappingNext(d.learned) else d.learned
  {
    var d' := Learned(d, said, read).0;
    if d'.lookup != d.lookup {
      assert Get(d'.lookup, said.member) != Get(d.lookup, said.member) by {
        NewsExactlyWhenAnotherAnswer(d, said, read);
      }
    } else {
      NewsExactlyWhenAnotherAnswer(d, said, read);
    }
  }

  /** The counter is how many times the lookup came to answer anew, in 64 bits. */
  lemma {:induction false} CounterCountsNewAnswers(heard: seq<SignedAddress>, read: ReadUrl)
    ensures After(heard, read).learned == Answers(heard, read) % 0x1_0000_0000_0000_0000
  {
    if heard != [] {
      var n := |heard| - 1;
      CounterCountsNewAnswers(heard[..n], read);
      CountsOneMore(After(heard[..n], read), heard[n], read);
      NextInWidth(Answers(heard[..n], read));
    }
  }

  /** The position held for a member never goes back. */
  lemma PositionNeverGoesBack(d: Held, said: SignedAddress, read: ReadUrl, member: MemberId)
    requires member in d.signed
    ensures var d' := Learned(d, said, read).0;
      member in d'.signed && d.signed[member].applied <= d'.signed[member].applied
  {
  }

  /** Whether the statements at the highest position about `member` agree on where it is. */
  ghost predicate TopAgrees(heard: seq<SignedAddress>, member: MemberId, read: ReadUrl) {
    forall i: nat, j: nat | IsTop(heard, member, read, i) && IsTop(heard, member, read, j) ::
      ToEndpointAddr(heard[i].addr, member, read) == ToEndpointAddr(heard[j].addr, member, read)
  }

  /** Whether the `k`-th heard is at the highest position about `member`. */
  ghost predicate IsTop(heard: seq<SignedAddress>, member: MemberId, read: ReadUrl, k: nat) {
    && k < |heard| && UsableAbout(heard[k], member, read)
    && forall j | 0 <= j < |heard| && UsableAbout(heard[j], member, read) :: heard[j].applied <= heard[k].applied
  }

  lemma LatestIsTop(heard: seq<SignedAddress>, member: MemberId, read: ReadUrl, k: nat)
    requires IsLatest(heard, member, read, k)
    ensures IsTop(heard, member, read, k)
  {
  }

  ghost predicate SameStatements(a: seq<SignedAddress>, b: seq<SignedAddress>) {
    forall said :: said in a <==> said in b
  }

  lemma TopElsewhere(a: seq<SignedAddress>, b: seq<SignedAddress>, member: MemberId, read: ReadUrl, k: nat)
      returns (i: nat)
    requires SameStatements(a, b) && IsTop(b, member, read, k)
    ensures IsTop(a, member, read, i) && a[i] == b[k]
  {
    assert b[k] in b;
    i :| 0 <= i < |a| && a[i] == b[k];
    forall j | 0 <= j < |a| && UsableAbout(a[j], member, read) ensures a[j].applied <= a[i].applied {
      assert a[j] in a;
      var h :| 0 <= h < |b| && b[h] == a[j];
    }
  }

  /** The directory converges: the same statements, in any order and with any repeats, end with the
      same answer for a member whose statements at the highest position agree. */
  lemma AnyOrderEndsTheSame(a: seq<SignedAddress>, b: seq<SignedAddress>, member: MemberId, read: ReadUrl)
    requires SameStatements(a, b) && TopAgrees(a, member, read)
    ensures Get(After(a, read).lookup, member) == Get(After(b, read).lookup, member)
  {
    var k := LatestIsHeld(a, member, read);
    var h := LatestIsHeld(b, member, read);
    if k.None? || h.None? {
      if k.None? {
        NoneElsewhere(a, b, member, read);
      } else {
        NoneElsewhere(b, a, member, read);
      }
    } else {
      LatestIsTop(a, member, read, k.value);
      LatestIsTop(b, member, read, h.value);
      var i := TopElsewhere(a, b, member, read, h.value);
    }
  }

  lemma NoneElsewhere(a: seq<SignedAddress>, b: seq<SignedAddress>, member: MemberId, read: ReadUrl)
    requires SameStatements(a, b) && NoneAbout(a, member, read)
    ensures NoneAbout(b, member, read)
  {
    forall j | 0 <= j < |b| ensures !UsableAbout(b[j], member, read) {
      assert b[j] in b && b[j] in a;
    }
  }

  /** And only then: where they do not agree, saying one of them once more at the end decides. */
  lemma OtherwiseTheLastDecides(heard: seq<SignedAddress>, member: MemberId, read: ReadUrl, k: nat)
    requires IsTop(heard, member, read, k)
    ensures SameStatements(heard, heard + [heard[k]])
    ensures Get(After(heard + [heard[k]], read).lookup, member) == ToEndpointAddr(heard[k].addr, member, read)
  {
    var more := heard + [heard[k]];
    var h := LatestIsHeld(more, member, read);
    assert UsableAbout(more[|heard|], member, read);
    assert h.Some?;
    assert forall j | 0 <= j < |heard| :: more[j] == heard[j];
    assert h.value == |heard|;
  }

  class Directory {
    var signed: map<MemberId, SignedAddress>
    var lookup: map<MemberId, EndpointAddr>
    var learned: nat

    ghost function Now(): Held
      reads this
    {
      Held(signed, lookup, learned)
    }

    constructor ()
      ensures Now() == NOTHING
    {
      signed, lookup, learned := map[], map[], 0;
    }

    /** One statement heard, in place; the answer is whether the lookup is another than it was, or
        that the statement does not verify. */
    method Learn(said: SignedAddress, read: ReadUrl) returns (news: Result<bool, NetError>)
      modifies this
      ensures (Now(), news) == Learned(old(Now()), said, read)
    {
      var member := said.member;
      if !said.verifies {
        return Err(BadAddress(member));
      }
      if said.addr.relay.None? && said.addr.direct == {} {
        return Ok(false);
      }
      var endpoint := ToEndpointAddr(said.addr, member, read);
      if endpoint.None? {
        return Ok(false);
      }
      if member in signed && said.applied < signed[member].applied {
        return Ok(false);
      }
      var held := Get(lookup, member);
      if held == endpoint {
        signed := signed[member := said];
        return Ok(false);
      }
      lookup := lookup - {member};
      lookup := lookup[member := endpoint.value];
      assert lookup == old(lookup)[member := endpoint.value];
      signed := signed[member := said];
      learned := WrappingNext(learned);
      news := Ok(true);
    }
  }
}
