/** The membership fold of crates/distlib-consensus/src/state.rs, as a function of values: who the
    group is after each signed log entry. `MembershipState.dfy` runs the same rules in place. */
module Membership {
  import opened Common

  const FIRST_PROTOCOL: nat := 1

  /** An address, of a relay or direct. Addresses are only ever compared here. */
  datatype NodeAddr = NodeAddr(relay: Option<string>, direct: set<nat>)

  datatype MemberProfile = MemberProfile(memberId: MemberId, displayName: string)

  type Founder = (MemberProfile, NodeAddr)

  datatype GroupSettings = GroupSettings(
    replicas: Positive,
    capBytes: nat,
    weightStepBytes: Positive,
    minPledgeBytes: nat,
    pendingExpiry: Positive,
    settleSecs: nat,
    maxSettleSecs: nat,
    emergencyAfterSecs: nat)

  const DEFAULT_SETTINGS := GroupSettings(3, 2_000_000_000_000, 10_000_000_000, 100_000_000_000, 128, 3600, 86400,
    86400)

  datatype Event =
    | GroupFounded(groupId: nat, founders: seq<Founder>, settings: GroupSettings)
    | MemberAdded(profile: MemberProfile)
    | MemberExpelled(expelled: MemberId, reason: string)
    | PledgeChanged(member: MemberId, pledgeBytes: nat)
    | CoreGroupChanged(core: seq<(MemberId, NodeAddr)>)
    | Approved(proposal: nat)
    | Withdrawn(proposal: nat)
    | ProtocolSupported(member: MemberId, max: nat)
    | ProtocolRaised(to: nat)

  /** A log entry's payload. `verifies` says that the proposer really signed the rest. */
  datatype SignedEvent = SignedEvent(event: Event, proposer: MemberId, changedAt: nat, verifies: bool)

  datatype Error =
    | BadSignature(proposer: MemberId)
    | NotFounded
    | AlreadyFounded
    | FounderNotIncluded(proposer: MemberId)
    | NoFounders
    | DuplicateFounder(member: MemberId)
    | ProposerNotAMember(proposer: MemberId)
    | UnknownMember(member: MemberId)
    | InvalidCoreGroup
    | PledgeNotOwn(proposer: MemberId, member: MemberId)
    | PledgeBelowMinimum(pledgeBytes: nat, minPledgeBytes: nat)
    | NotCoreMember(proposer: MemberId)
    | AlreadyPending(proposal: nat)
    | UnknownProposal(proposal: nat)
    | ProposalExpired(proposal: nat, index: nat)
    | ApproverNotCore(approver: MemberId)
    | SelfApproval(member: MemberId)
    | NotTheProposer(member: MemberId, proposal: nat)
    | NotAMembershipChange
    | StaleProposal(seen: nat, current: nat)
    | InvalidSettings(text: string)
    | ProtocolSupportNotOwn(proposer: MemberId, member: MemberId)
    | ProtocolSupportBelowGroup(max: nat, protocol: nat)
    | ProtocolNotNext(to: nat, protocol: nat)
    | CoreLacksProtocol(member: MemberId, protocol: nat)

  datatype MemberRecord = MemberRecord(memberId: MemberId, displayName: string, pledgeBytes: nat, protocolMax: nat)

  datatype Proposal = Proposal(event: Event, proposer: MemberId, approvals: set<MemberId>)

  /** The slot a proposal waits in: one about the same is refused meanwhile. */
  datatype Subject = OfMember(member: MemberId) | OfCoreGroup | OfProtocol

  /** For an expulsion, the member it expels: `OwnApproval` and `StillAllowed` leave that one's
      voice out. */
  function Target(event: Event): Option<MemberId> {
    if event.MemberExpelled? then Some(event.expelled) else None
  }

  function SubjectOf(event: Event): Option<Subject> {
    match event
    case MemberAdded(profile) => Some(OfMember(profile.memberId))
    case MemberExpelled(member, _) => Some(OfMember(member))
    case CoreGroupChanged(_) => Some(OfCoreGroup)
    case ProtocolRaised(_) => Some(OfProtocol)
    case _ => None
  }

  function Ids(core: seq<(MemberId, NodeAddr)>): set<MemberId> {
    set i | 0 <= i < |core| :: core[i].0
  }

  /** A list of voters collected into a map: of a member named twice, the last address stands. */
  function Folded(core: seq<(MemberId, NodeAddr)>): (folded: map<MemberId, NodeAddr>)
    ensures folded.Keys == Ids(core)
    ensures |folded| <= |core|
  {
    if core == [] then map[] else
      var rest := core[..|core| - 1];
      var last := core[|core| - 1];
      assert Ids(core) == Ids(rest) + {last.0};
      assert Folded(rest)[last.0 := last.1].Keys == Folded(rest).Keys + {last.0};
      Folded(rest)[last.0 := last.1]
  }

  /** Whether the change of voters from `before` to `now` leaves the waiting map `proposed` unsafe
      to approve: it names a member the change moved, anywhere but where the change put it. */
  predicate SupersededBy(proposed: seq<(MemberId, NodeAddr)>, before: map<MemberId, NodeAddr>,
      now: map<MemberId, NodeAddr>)
  {
    var wants := Folded(proposed);
    exists m | m in before.Keys + now.Keys ::
      Get(before, m) != Get(now, m) && m in wants && Get(now, m) != Some(wants[m])
  }

  /** Whether a waiting `event` is kept once a change about `about` took the voters from `before` to
      `now`. */
  predicate Keeps(event: Event, about: Option<Subject>, before: map<MemberId, NodeAddr>, now: map<MemberId, NodeAddr>) {
    match event
    case CoreGroupChanged(proposed) => !SupersededBy(proposed, before, now)
    case other => SubjectOf(other) != about
  }

  function FounderIds(founders: seq<Founder>): seq<MemberId> {
    seq(|founders|, i requires 0 <= i < |founders| => founders[i].0.memberId)
  }

  /** The ids that occur at two places or more. */
  function Repeated(ids: seq<MemberId>): set<MemberId> {
    set i, j | 0 <= i < j < |ids| && ids[i] == ids[j] :: ids[i]
  }

  /** The rule a founder set satisfies: somebody, and nobody twice. */
  function CheckFounders(founders: seq<Founder>): Result<(), Error> {
    if founders == [] then Err(NoFounders)
    else
      var repeated := Repeated(FounderIds(founders));
      if repeated != {} then Err(DuplicateFounder(Least(repeated))) else Ok(())
  }

  function CheckSettings(settings: GroupSettings): Result<(), Error> {
    if settings.weightStepBytes > settings.capBytes then
      Err(InvalidSettings("weight_step_bytes is larger than cap_bytes, so every member weighs nothing"))
    else if settings.settleSecs > settings.maxSettleSecs then
      Err(InvalidSettings("settle_secs is longer than max_settle_secs"))
    else Ok(())
  }

  /** The value the fold carries from entry to entry. */
  datatype State = State(
    group: Option<nat>,
    members: map<MemberId, MemberRecord>,
    core: map<MemberId, NodeAddr>,
    pending: map<nat, Proposal>,
    changedAt: nat,
    settings: GroupSettings,
    protocol: nat)
  {
    predicate IsCore(member: MemberId) {
      member in core
    }

    predicate Speaks(member: MemberId, version: nat) {
      member in members && members[member].protocolMax >= version
    }

    function CheckPledge(pledgeBytes: nat): Result<(), Error> {
      if pledgeBytes < settings.minPledgeBytes then
        Err(PledgeBelowMinimum(pledgeBytes, settings.minPledgeBytes))
      else Ok(())
    }

    /** Refuses if any of `voters` does not speak `version`, naming the first by id. */
    function CoreSupports(voters: set<MemberId>, version: nat): Result<(), Error> {
      var lacking := set m | m in voters && !Speaks(m, version);
      if lacking != {} then Err(CoreLacksProtocol(Least(lacking), version)) else Ok(())
    }

    /** The checks on an event that depend on its signer: own record, voter, next protocol. */
    function Authorise(proposer: MemberId, event: Event): Result<(), Error> {
      match event
      case PledgeChanged(member, pledge) =>
        if member != proposer then Err(PledgeNotOwn(proposer, member)) else CheckPledge(pledge)
      case CoreGroupChanged(_) =>
        if !IsCore(proposer) then Err(NotCoreMember(proposer)) else Ok(())
      case Approved(_) =>
        if !IsCore(proposer) then Err(ApproverNotCore(proposer)) else Ok(())
      case ProtocolSupported(member, max) =>
        if member != proposer then Err(ProtocolSupportNotOwn(proposer, member))
        else if max < protocol then Err(ProtocolSupportBelowGroup(max, protocol))
        else Ok(())
      case ProtocolRaised(to) =>
        if to != protocol + 1 then Err(ProtocolNotNext(to, protocol))
        else CoreSupports(core.Keys, to)
      case _ => Ok(())
    }

    function Majority(): nat {
      |core| / 2 + 1
    }

    predicate ChangesTheVoters(event: Event) {
      match event
      case MemberExpelled(member, _) => IsCore(member)
      case CoreGroupChanged(voters) => |voters| != |core| || exists i | 0 <= i < |voters| :: voters[i].0 !in core
      case _ => false
    }

    /** The least size of `Counting` that decides `event`: none for one's own record, a majority of
        `core` for what moves the voters or the protocol, one otherwise. */
    function ApprovalsNeeded(event: Event): nat {
      if event.PledgeChanged? || event.ProtocolSupported? then 0
      else if event.ProtocolRaised? || ChangesTheVoters(event) then Majority()
      else 1
    }

    /** The part of `approvals` that lies in `core`. */
    function Counting(approvals: set<MemberId>): set<MemberId> {
      approvals * core.Keys
    }

    predicate Decided(event: Event, approvals: set<MemberId>) {
      |Counting(approvals)| >= ApprovalsNeeded(event)
    }

    predicate Expired(proposal: nat, index: nat) {
      SaturatingSub(index, proposal) > settings.pendingExpiry
    }

    /** The approvals a submission arrives with: its proposer's own, when that one counts. */
    function OwnApproval(proposer: MemberId, event: Event): set<MemberId> {
      if IsCore(proposer) && Target(event) != Some(proposer) then {proposer} else {}
    }

    /** The proposals still in force at `index` that hold the subject of `event`. */
    function InTheWay(index: nat, event: Event): set<nat> {
      set p | p in pending && !Expired(p, index) && SubjectOf(event).Some? &&
        SubjectOf(pending[p].event) == SubjectOf(event)
    }

    function Submit(index: nat, proposer: MemberId, event: Event): Result<State, Error> {
      var approvals := OwnApproval(proposer, event);
      if Decided(event, approvals) then Enact(event)
      else
        var waiting := InTheWay(index, event);
        if waiting != {} then Err(AlreadyPending(Least(waiting)))
        else Ok(this.(pending := pending[index := Proposal(event, proposer, approvals)]))
    }

    function StillAllowed(index: nat, proposal: nat, entry: Proposal, approver: MemberId): Result<(), Error> {
      if Expired(proposal, index) then Err(ProposalExpired(proposal, index))
      else if Target(entry.event) == Some(approver) then Err(SelfApproval(approver))
      else if entry.proposer !in members then Err(ProposerNotAMember(entry.proposer))
      else Authorise(entry.proposer, entry.event)
    }

    function Approve(index: nat, proposal: nat, approver: MemberId): Result<State, Error> {
      if proposal !in pending then Err(UnknownProposal(proposal))
      else
        var entry := pending[proposal];
        var allowed := StillAllowed(index, proposal, entry, approver);
        var approvals := entry.approvals + {approver};
        if allowed.Err? then Err(allowed.error)
        else if !Decided(entry.event, approvals) then
          Ok(this.(pending := pending[proposal := entry.(approvals := approvals)]))
        else this.(pending := pending - {proposal}).Enact(entry.event)
    }

    function Withdraw(proposal: nat, member: MemberId): Result<State, Error> {
      if proposal !in pending then Err(UnknownProposal(proposal))
      else if pending[proposal].proposer != member then Err(NotTheProposer(member, proposal))
      else Ok(this.(pending := pending - {proposal}))
    }

    /** Whether a waiting `event` outlives the enactment of `enacted` on this state, which leaves
        the voters `now`. */
    predicate Survives(event: Event, enacted: Event, now: map<MemberId, NodeAddr>) {
      Keeps(event, SubjectOf(enacted), core, now)
    }

    /** `Change`, and of `pending` the `Survivors`. */
    function Enact(event: Event): Result<State, Error> {
      var changed := Change(event);
      if changed.Err? then changed
      else
        var now := changed.value;
        Ok(now.(pending := Survivors(event, now.core)))
    }

    /** Those waiting that outlive the enactment of `event`. */
    function Survivors(event: Event, now: map<MemberId, NodeAddr>): map<nat, Proposal> {
      map p | p in pending && Survives(pending[p].event, event, now) :: pending[p]
    }

    /** The change itself, on a founded group. */
    function Change(event: Event): Result<State, Error> {
      match event
      case GroupFounded(_, _, _) => Err(AlreadyFounded)
      case MemberAdded(profile) =>
        var id := profile.memberId;
        var record := if id in members
          then MemberRecord(id, profile.displayName, members[id].pledgeBytes, members[id].protocolMax)
          else MemberRecord(id, profile.displayName, 0, FIRST_PROTOCOL);
        Ok(this.(members := members[id := record]))
      case MemberExpelled(member, _) =>
        if member !in members then Err(UnknownMember(member))
        else Ok(this.(members := members - {member}, core := core - {member}))
      case PledgeChanged(member, pledge) =>
        if member !in members then Err(UnknownMember(member))
        else Ok(this.(members := members[member := members[member].(pledgeBytes := pledge)]))
      case CoreGroupChanged(voters) =>
        if voters == [] || exists i | 0 <= i < |voters| :: voters[i].0 !in members then Err(InvalidCoreGroup)
        else if |Folded(voters)| != |voters| then Err(InvalidCoreGroup)
        else
          var supported := CoreSupports(Folded(voters).Keys, protocol);
          if supported.Err? then Err(supported.error) else Ok(this.(core := Folded(voters)))
      case ProtocolSupported(member, max) =>
        if member !in members then Err(UnknownMember(member))
        else Ok(this.(members := members[member := members[member].(protocolMax := max)]))
      case ProtocolRaised(to) => Ok(this.(protocol := to))
      case Approved(_) => Err(NotAMembershipChange)
      case Withdrawn(_) => Err(NotAMembershipChange)
    }

    function Found(groupId: nat, founders: seq<Founder>, chosen: GroupSettings, proposer: MemberId)
      : Result<State, Error>
    {
      if group.Some? then Err(AlreadyFounded)
      else if CheckFounders(founders).Err? then Err(CheckFounders(founders).error)
      else if CheckSettings(chosen).Err? then Err(CheckSettings(chosen).error)
      else if proposer !in FounderIds(founders) then Err(FounderNotIncluded(proposer))
      else Ok(this.(group := Some(groupId), settings := chosen, protocol := FIRST_PROTOCOL,
                    members := FoundingMembers(founders), core := Folded(FoundingCore(founders))))
    }

    /** What an entry does before the sweep: dispatched, or refused. */
    function Dispatch(index: nat, signed: SignedEvent): Result<State, Error> {
      if !signed.verifies then Err(BadSignature(signed.proposer))
      else if signed.changedAt != changedAt then Err(StaleProposal(signed.changedAt, changedAt))
      else if signed.event.GroupFounded? then
        Found(signed.event.groupId, signed.event.founders, signed.event.settings, signed.proposer)
      else if group.None? then Err(NotFounded)
      else if signed.proposer !in members then Err(ProposerNotAMember(signed.proposer))
      else
        var authorised := Authorise(signed.proposer, signed.event);
        if authorised.Err? then Err(authorised.error)
        else match signed.event
          case Approved(proposal) => Approve(index, proposal, signed.proposer)
          case Withdrawn(proposal) => Withdraw(proposal, signed.proposer)
          case event => Submit(index, signed.proposer, event)
    }

    /** Marks the state changed at `index` and drops the proposals the log has left behind. */
    function Swept(index: nat): State {
      this.(changedAt := index, pending := Unexpired(pending, index, settings.pendingExpiry))
    }

    /** The whole of an entry: `Dispatch`, and if that is not a refusal `Swept`. */
    function Apply(index: nat, signed: SignedEvent): Result<State, Error> {
      var dispatched := Dispatch(index, signed);
      if dispatched.Err? then dispatched else Ok(dispatched.value.Swept(index))
    }
  }

  function Unexpired(pending: map<nat, Proposal>, index: nat, expiry: nat): map<nat, Proposal> {
    map p | p in pending && SaturatingSub(index, p) < expiry :: pending[p]
  }

  function FoundingCore(founders: seq<Founder>): seq<(MemberId, NodeAddr)> {
    seq(|founders|, i requires 0 <= i < |founders| => (founders[i].0.memberId, founders[i].1))
  }

  function FoundingMembers(founders: seq<Founder>): (members: map<MemberId, MemberRecord>)
  {
    if founders == [] then map[] else
      var last := founders[|founders| - 1].0;
      FoundingMembers(founders[..|founders| - 1])
        [last.memberId := MemberRecord(last.memberId, last.displayName, 0, FIRST_PROTOCOL)]
  }

  /** Before any entry. */
  const EMPTY := State(None, map[], map[], map[], 0, DEFAULT_SETTINGS, 0)

  datatype Entry = Entry(index: nat, signed: SignedEvent)

  /** One log entry: a refused one leaves the state as it was. */
  function Step(s: State, entry: Entry): State {
    match s.Apply(entry.index, entry.signed)
    case Ok(next) => next
    case Err(_) => s
  }

  function Run(s: State, log: seq<Entry>): State {
    if log == [] then s else Step(Run(s, log[..|log| - 1]), log[|log| - 1])
  }

  lemma RunThen(s: State, log: seq<Entry>, entry: Entry)
    ensures Run(s, log + [entry]) == Step(Run(s, log), entry)
  {
    assert (log + [entry])[..|log|] == log;
  }

  /** Log positions only grow, from past the last change. */
  ghost predicate InOrder(s: State, log: seq<Entry>) {
    && (forall i | 0 <= i < |log| :: s.changedAt < log[i].index)
    && forall i, j | 0 <= i < j < |log| :: log[i].index < log[j].index
  }
}
