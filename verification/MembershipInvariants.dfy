/** What every reachable membership satisfies: the voters are never nobody, each is a member that
    speaks the group's protocol, and each subject has one waiting proposal at most. */
module MembershipInvariants {
  import opened Common
  import opened Membership

  /** What one entry did. */
  datatype Effect =
    | Refused
    | Founding
    | Recording(proposal: Proposal)
    | Noting(waiting: nat)
    | TakingBack(waiting: nat)
    | Enacting(event: Event, author: MemberId, approvals: set<MemberId>, via: Option<nat>)

  ghost function EffectOf(s: State, entry: Entry): Effect {
    var signed := entry.signed;
    if s.Dispatch(entry.index, signed).Err? then Refused
    else match signed.event
      case GroupFounded(_, _, _) => Founding
      case Withdrawn(p) => TakingBack(p)
      case Approved(p) =>
        var approvals := s.pending[p].approvals + {signed.proposer};
        if s.Decided(s.pending[p].event, approvals)
          then Enacting(s.pending[p].event, s.pending[p].proposer, approvals, Some(p))
          else Noting(p)
      case event =>
        var approvals := s.OwnApproval(signed.proposer, event);
        if s.Decided(event, approvals)
          then Enacting(event, signed.proposer, approvals, None)
          else Recording(Proposal(event, signed.proposer, approvals))
  }

  /** The state with the proposal `via` names taken out of those waiting. */
  function Without(s: State, via: Option<nat>): State {
    if via.None? then s else s.(pending := s.pending - {via.value})
  }

  ghost predicate IsSubmission(event: Event) {
    !event.GroupFounded? && !event.Approved? && !event.Withdrawn?
  }

  /** Each entry either changes nothing, or does exactly one of five things and then sweeps. */
  ghost predicate Does(s: State, entry: Entry, effect: Effect, next: State) {
    var i := entry.index;
    var who := entry.signed.proposer;
    match effect
    case Refused => next == s
    case Founding =>
      var e := entry.signed.event;
      && e.GroupFounded?
      && s.Found(e.groupId, e.founders, e.settings, who).Ok?
      && next == s.Found(e.groupId, e.founders, e.settings, who).value.Swept(i)
    case Recording(proposal) =>
      && s.group.Some? && who in s.members && IsSubmission(proposal.event)
      && proposal == Proposal(entry.signed.event, who, s.OwnApproval(who, proposal.event))
      && s.Authorise(who, proposal.event).Ok?
      && !s.Decided(proposal.event, proposal.approvals)
      && s.InTheWay(i, proposal.event) == {}
      && next == s.(pending := s.pending[i := proposal]).Swept(i)
    case Noting(p) =>
      && s.group.Some? && who in s.core && p in s.pending && entry.signed.event == Approved(p)
      && Target(s.pending[p].event) != Some(who)
      && !s.Expired(p, i)
      && next == s.(pending := s.pending[p := s.pending[p].(approvals := s.pending[p].approvals + {who})]).Swept(i)
    case TakingBack(p) =>
      && p in s.pending && who == s.pending[p].proposer && entry.signed.event == Withdrawn(p)
      && next == Without(s, Some(p)).Swept(i)
    case Enacting(event, author, approvals, via) =>
      && s.group.Some? && author in s.members
      && s.Authorise(author, event).Ok?
      && s.Decided(event, approvals)
      && (via.None? ==>
        IsSubmission(event) && event == entry.signed.event && author == who && approvals == s.OwnApproval(who, event))
      && (via.Some? ==> Carries(s, entry, via.value, event, author, approvals))
      && s.Change(event).Ok?
      && next == EnactedAt(s, via, event, i)
  }

  /** The change itself, and those waiting that neither it nor the deadline leaves behind. */
  ghost function EnactedAt(s: State, via: Option<nat>, event: Event, index: nat): State
    requires s.Change(event).Ok?
  {
    var now := s.Change(event).value;
    now.(changedAt := index, pending := StillWaiting(s, via, event, now.core, index))
  }

  /** Those waiting that are neither `via`, nor made stale by `event`, nor past their deadline. */
  ghost function StillWaiting(s: State, via: Option<nat>, event: Event, now: map<MemberId, NodeAddr>,
      index: nat): map<nat, Proposal> {
    Unexpired(Without(s, via).Survivors(event, now), index, s.settings.pendingExpiry)
  }

  lemma WhoStillWaits(s: State, via: Option<nat>, event: Event, now: map<MemberId, NodeAddr>, index: nat, p: nat)
    ensures p in StillWaiting(s, via, event, now, index) <==>
      p in s.pending && via != Some(p) && s.Survives(s.pending[p].event, event, now) &&
        SaturatingSub(index, p) < s.settings.pendingExpiry
    ensures p in StillWaiting(s, via, event, now, index) ==> StillWaiting(s, via, event, now, index)[p] == s.pending[p]
  {
  }

  lemma ChangeIgnoresWaiting(s: State, waiting: map<nat, Proposal>, event: Event)
    ensures s.(pending := waiting).Change(event).Ok? <==> s.Change(event).Ok?
    ensures s.Change(event).Ok? ==>
      s.(pending := waiting).Change(event).value == s.Change(event).value.(pending := waiting)
  {
  }

  lemma EnactIs(s: State, via: Option<nat>, event: Event, index: nat)
    ensures Without(s, via).Enact(event).Ok? <==> s.Change(event).Ok?
    ensures s.Change(event).Ok? ==> Without(s, via).Enact(event).value.Swept(index) == EnactedAt(s, via, event, index)
  {
    var from := Without(s, via);
    ChangeIgnoresWaiting(s, from.pending, event);
    assert from == s.(pending := from.pending);
    if s.Change(event).Ok? {
      ChangeKeepsSettings(s, event);
    }
  }

  lemma ChangeKeepsSettings(s: State, event: Event)
    requires s.Change(event).Ok?
    ensures s.Change(event).value.settings == s.settings && s.Change(event).value.group == s.group
  {
  }

  /** Whether `entry` is the approval that completes the waiting proposal `p`. */
  ghost predicate Carries(s: State, entry: Entry, p: nat, event: Event, author: MemberId, approvals: set<MemberId>) {
    var who := entry.signed.proposer;
    && p in s.pending
    && entry.signed.event == Approved(p)
    && who in s.core
    && Target(event) != Some(who)
    && !s.Expired(p, entry.index)
    && s.pending[p].event == event && s.pending[p].proposer == author
    && approvals == s.pending[p].approvals + {who}
  }

  lemma ApprovalDoes(s: State, entry: Entry)
    requires entry.signed.event.Approved? && !EffectOf(s, entry).Refused?
    ensures Does(s, entry, EffectOf(s, entry), Step(s, entry))
  {
    if EffectOf(s, entry).Enacting? {
      EnactIs(s, EffectOf(s, entry).via, EffectOf(s, entry).event, entry.index);
    }
    assert s.Authorise(entry.signed.proposer, entry.signed.event).Ok?;
    assert s.Approve(entry.index, entry.signed.event.proposal, entry.signed.proposer).Ok?;
  }

  /** An approval that is allowed and decides its proposal enacts it. */
  lemma ApprovalEnacts(s: State, entry: Entry, p: nat)
    requires s.group.Some? && p in s.pending
    requires entry.signed == SignedEvent(Approved(p), entry.signed.proposer, s.changedAt, true)
    requires entry.signed.proposer in s.core && entry.signed.proposer in s.members
    requires s.StillAllowed(entry.index, p, s.pending[p], entry.signed.proposer).Ok?
    requires s.Decided(s.pending[p].event, s.pending[p].approvals + {entry.signed.proposer})
    requires s.Change(s.pending[p].event).Ok?
    ensures Step(s, entry) == EnactedAt(s, Some(p), s.pending[p].event, entry.index)
  {
    EnactIs(s, Some(p), s.pending[p].event, entry.index);
  }

  lemma SubmissionDoes(s: State, entry: Entry)
    requires EffectOf(s, entry).Recording? || (EffectOf(s, entry).Enacting? && EffectOf(s, entry).via.None?)
    ensures Does(s, entry, EffectOf(s, entry), Step(s, entry))
  {
    if EffectOf(s, entry).Enacting? {
      EnactIs(s, None, entry.signed.event, entry.index);
    }
    assert s.Submit(entry.index, entry.signed.proposer, entry.signed.event).Ok?;
  }

  lemma StepDoes(s: State, entry: Entry)
    ensures Does(s, entry, EffectOf(s, entry), Step(s, entry))
    ensures EffectOf(s, entry).Refused? <==> s.Apply(entry.index, entry.signed).Err?
    ensures !EffectOf(s, entry).Refused? ==> entry.signed.verifies && entry.signed.changedAt == s.changedAt
  {
    match EffectOf(s, entry)
    case Refused =>
    case Founding =>
    case TakingBack(_) =>
    case Noting(_) => ApprovalDoes(s, entry);
    case Recording(_) => SubmissionDoes(s, entry);
    case Enacting(_, _, _, via) =>
      if via.Some? {
        ApprovalDoes(s, entry);
      } else {
        SubmissionDoes(s, entry);
      }
  }

  /** Where a waiting proposal comes from: it waited before, just recorded, or noted one more. */
  ghost predicate ComesFrom(s: State, entry: Entry, effect: Effect, p: nat, proposal: Proposal) {
    || (p in s.pending && proposal == s.pending[p])
    || (effect == Recording(proposal) && p == entry.index)
    || (effect == Noting(p) && p in s.pending
        && proposal == s.pending[p].(approvals := s.pending[p].approvals + {entry.signed.proposer}))
  }

  /** Whether `entry` adds its signer's approval to the waiting proposal it completes. */
  ghost predicate Completes(s: State, entry: Entry, effect: Effect)
    requires effect.Enacting? && effect.via.Some?
  {
    var p := effect.via.value;
    && p in s.pending
    && entry.signed.event == Approved(p)
    && s.pending[p].event == effect.event
    && s.pending[p].proposer == effect.author
    && effect.approvals == s.pending[p].approvals + {entry.signed.proposer}
  }

  /** The parts of an effect that later proofs need: what moved, on whose word, and what waits. */
  ghost predicate Outline(s: State, entry: Entry, effect: Effect, next: State) {
    var who := entry.signed.proposer;
    && (forall p | p in next.pending :: ComesFrom(s, entry, effect, p, next.pending[p]))
    && (effect.Refused? ==> next == s)
    && (!effect.Refused? ==> next.changedAt == entry.index)
    && (effect.Recording? ==>
      effect.proposal.event == entry.signed.event && effect.proposal.proposer == who &&
      effect.proposal.approvals <= {who})
    && (effect.Founding? ==> s.group.None?)
    && (s.group.Some? ==> next.group.Some?)
    && (effect.Enacting? ==>
          && s.Decided(effect.event, effect.approvals)
          && s.Change(effect.event).Ok?
          && next == s.Change(effect.event).value.(pending := next.pending, changedAt := entry.index)
          && (effect.via.None? ==>
            entry.signed.event == effect.event && who == effect.author && effect.approvals <= {who})
          && (effect.via.Some? ==> Completes(s, entry, effect)))
    && (!effect.Enacting? && !effect.Founding? ==> next == s.(pending := next.pending, changedAt := next.changedAt))
  }

  lemma OutlineOf(s: State, entry: Entry, effect: Effect, next: State)
    requires Does(s, entry, effect, next)
    ensures Outline(s, entry, effect, next)
    ensures effect.Enacting? ==> forall p | p in next.pending :: s.Survives(s.pending[p].event, effect.event, next.core)
  {
    if effect.Enacting? {
      EnactedOutline(s, effect.via, effect.event, entry.index);
    } else {
      OtherOutline(s, entry, effect, next);
    }
  }

  lemma OtherOutline(s: State, entry: Entry, effect: Effect, next: State)
    requires Does(s, entry, effect, next) && !effect.Enacting?
    ensures Outline(s, entry, effect, next)
  {
    match effect
    case Refused =>
    case Founding =>
    case Recording(_) =>
    case Noting(_) =>
    case TakingBack(_) =>
  }

  lemma EnactedOutline(s: State, via: Option<nat>, event: Event, index: nat)
    requires s.Change(event).Ok?
    ensures var next := EnactedAt(s, via, event, index);
      && next == s.Change(event).value.(pending := next.pending, changedAt := index)
      && next.group == s.group
      && forall p | p in next.pending ::
        p in s.pending && next.pending[p] == s.pending[p] && s.Survives(s.pending[p].event, event, next.core)
  {
  }

  lemma StepOutline(s: State, entry: Entry)
    ensures Outline(s, entry, EffectOf(s, entry), Step(s, entry))
    ensures !EffectOf(s, entry).Refused? ==> entry.signed.verifies && entry.signed.changedAt == s.changedAt
    ensures EffectOf(s, entry).Refused? <==> s.Apply(entry.index, entry.signed).Err?
    ensures EffectOf(s, entry).Enacting? ==>
      forall p | p in Step(s, entry).pending ::
        s.Survives(s.pending[p].event, EffectOf(s, entry).event, Step(s, entry).core)
  {
    StepDoes(s, entry);
    OutlineOf(s, entry, EffectOf(s, entry), Step(s, entry));
  }

  ghost predicate Proposable(event: Event) {
    event.MemberAdded? || event.MemberExpelled? || event.CoreGroupChanged? || event.ProtocolRaised?
  }

  ghost predicate SoundProposal(s: State, p: nat)
    requires p in s.pending
  {
    var entry := s.pending[p];
    && Proposable(entry.event)
    && (entry.event.ProtocolRaised? ==> entry.event.to == s.protocol + 1)
    && (entry.event.MemberExpelled? ==> entry.event.expelled !in entry.approvals)
  }

  /** The members and voters of a founded group. */
  ghost predicate SoundGroup(s: State) {
    && s.core != map[]
    && s.core.Keys <= s.members.Keys
    && FIRST_PROTOCOL <= s.protocol
    && (forall m | m in s.core :: s.protocol <= s.members[m].protocolMax)
    && (forall m | m in s.members ::
          s.members[m].memberId == m &&
            (s.members[m].pledgeBytes == 0 || s.settings.minPledgeBytes <= s.members[m].pledgeBytes))
  }

  ghost predicate Sound(s: State) {
    && (forall p | p in s.pending :: SoundProposal(s, p))
    && (if s.group.Some? then SoundGroup(s)
        else s.members == map[] && s.core == map[] && s.pending == map[] && s.protocol == 0)
  }

  /** No two waiting proposals share a subject. */
  ghost predicate OneSlotEach(s: State) {
    forall p, q | p in s.pending && q in s.pending &&
      SubjectOf(s.pending[p].event) == SubjectOf(s.pending[q].event) :: p == q
  }

  lemma {:induction false} FoundingMembersAre(founders: seq<Founder>)
    ensures FoundingMembers(founders).Keys == set i | 0 <= i < |founders| :: founders[i].0.memberId
    ensures forall m | m in FoundingMembers(founders) ::
      var r := FoundingMembers(founders)[m]; r.memberId == m && r.pledgeBytes == 0 && r.protocolMax == FIRST_PROTOCOL
  {
    if founders != [] {
      var rest := founders[..|founders| - 1];
      FoundingMembersAre(rest);
      assert forall i | 0 <= i < |rest| :: rest[i] == founders[i];
    }
  }

  lemma FoundIsSound(s: State, groupId: nat, founders: seq<Founder>, settings: GroupSettings, proposer: MemberId)
    requires Sound(s)
    requires s.Found(groupId, founders, settings, proposer).Ok?
    ensures SoundGroup(s.Found(groupId, founders, settings, proposer).value)
  {
    FoundingMembersAre(founders);
    var voters := FoundingCore(founders);
    assert forall i | 0 <= i < |founders| :: voters[i].0 == founders[i].0.memberId;
    assert voters[0].0 in Folded(voters).Keys;
  }

  /** A core member is expelled only from a core of three or more: its own approval is never in the
      set, so the majority has to come from the others. */
  lemma ExpelledFromThreeOrMore(s: State, member: MemberId, reason: string, approvals: set<MemberId>)
    requires member in s.core
    requires member !in approvals
    requires s.Decided(MemberExpelled(member, reason), approvals)
    ensures |s.core| >= 3
  {
    SubsetSize(s.Counting(approvals), s.core.Keys - {member});
  }

  lemma SupportedByAll(s: State, voters: set<MemberId>, version: nat)
    requires s.CoreSupports(voters, version).Ok?
    ensures forall m | m in voters :: s.Speaks(m, version)
  {
    var lacking := set m | m in voters && !s.Speaks(m, version);
    assert forall m | m in voters :: s.Speaks(m, version) || m in lacking;
  }

  lemma ExpulsionIsSound(s: State, member: MemberId, reason: string, approvals: set<MemberId>)
    requires SoundGroup(s)
    requires s.Decided(MemberExpelled(member, reason), approvals) && member !in approvals
    requires member in s.members
    ensures SoundGroup(s.(members := s.members - {member}, core := s.core - {member}))
  {
    var rest := s.core - {member};
    assert rest.Keys == s.core.Keys - {member};
    if member in s.core {
      ExpelledFromThreeOrMore(s, member, reason, approvals);
      assert |rest.Keys| >= 2;
    } else {
      assert rest == s.core;
    }
  }

  lemma CoreChangeIsSound(s: State, voters: seq<(MemberId, NodeAddr)>)
    requires SoundGroup(s)
    requires s.Change(CoreGroupChanged(voters)).Ok?
    ensures SoundGroup(s.(core := Folded(voters)))
  {
    SupportedByAll(s, Folded(voters).Keys, s.protocol);
    assert voters[0].0 in Folded(voters).Keys;
  }

  lemma ChangeIsSound(s: State, event: Event, author: MemberId, approvals: set<MemberId>)
    requires SoundGroup(s)
    requires s.Authorise(author, event).Ok? && s.Decided(event, approvals) && s.Change(event).Ok?
    requires event.MemberExpelled? ==> event.expelled !in approvals
    ensures SoundGroup(s.Change(event).value)
  {
    match event
    case MemberExpelled(member, reason) => ExpulsionIsSound(s, member, reason, approvals);
    case CoreGroupChanged(voters) => CoreChangeIsSound(s, voters);
    case ProtocolRaised(to) => RaiseIsSound(s, to);
    case _ => RecordChangeIsSound(s, event, author);
  }

  lemma RecordChangeIsSound(s: State, event: Event, author: MemberId)
    requires SoundGroup(s) && s.Authorise(author, event).Ok? && s.Change(event).Ok?
    requires event.MemberAdded? || event.PledgeChanged? || event.ProtocolSupported?
    ensures SoundGroup(s.Change(event).value)
  {
    match event
    case MemberAdded(profile) => RecordIsSound(s, profile.memberId, s.Change(event).value.members[profile.memberId]);
    case PledgeChanged(member, pledge) => RecordIsSound(s, member, s.members[member].(pledgeBytes := pledge));
    case ProtocolSupported(member, max) => RecordIsSound(s, member, s.members[member].(protocolMax := max));
  }

  lemma RaiseIsSound(s: State, to: nat)
    requires SoundGroup(s) && s.CoreSupports(s.core.Keys, to).Ok? && s.protocol <= to
    ensures SoundGroup(s.(protocol := to))
  {
    SupportedByAll(s, s.core.Keys, to);
  }

  /** A member's record put in place of what was there. */
  lemma RecordIsSound(s: State, member: MemberId, record: MemberRecord)
    requires SoundGroup(s) && record.memberId == member
    requires record.pledgeBytes == 0 || s.settings.minPledgeBytes <= record.pledgeBytes
    requires member in s.core ==> s.protocol <= record.protocolMax
    ensures SoundGroup(s.(members := s.members[member := record]))
  {
  }

  lemma EnactedIsSound(s: State, via: Option<nat>, event: Event, author: MemberId, approvals: set<MemberId>, index: nat)
    requires s.group.Some? && Sound(s)
    requires s.Authorise(author, event).Ok? && s.Decided(event, approvals) && s.Change(event).Ok?
    requires event.MemberExpelled? ==> event.expelled !in approvals
    ensures Sound(EnactedAt(s, via, event, index))
  {
    ChangeIsSound(s, event, author, approvals);
    ChangeKeepsSettings(s, event);
    var next := EnactedAt(s, via, event, index);
    assert SoundGroup(next);
    forall p | p in next.pending ensures SoundProposal(next, p) {
      WhoStillWaits(s, via, event, s.Change(event).value.core, index, p);
      assert SoundProposal(s, p);
      SurvivorIsSound(s, event, p, next);
    }
  }

  /** A proposal of a raise outlives only what leaves the protocol as it is. */
  lemma SurvivorIsSound(s: State, event: Event, p: nat, next: State)
    requires p in s.pending && SoundProposal(s, p) && s.Change(event).Ok?
    requires s.Survives(s.pending[p].event, event, s.Change(event).value.core)
    requires p in next.pending && next.pending[p] == s.pending[p] && next.protocol == s.Change(event).value.protocol
    ensures SoundProposal(next, p)
  {
    assert !event.ProtocolRaised? ==> next.protocol == s.protocol;
  }

  lemma SweepKeeps(s: State, index: nat)
    ensures Sound(s) ==> Sound(s.Swept(index))
    ensures OneSlotEach(s) ==> OneSlotEach(s.Swept(index))
  {
    var swept := s.Swept(index);
    forall p | p in swept.pending && SoundProposal(s, p) ensures SoundProposal(swept, p) {}
  }

  lemma WithoutIsSound(s: State, via: Option<nat>)
    requires Sound(s)
    ensures Sound(Without(s, via))
  {
    var next := Without(s, via);
    forall p | p in next.pending ensures SoundProposal(next, p) {
      assert SoundProposal(s, p);
    }
  }

  /** Putting one sound proposal among those waiting. */
  lemma WithIsSound(s: State, at: nat, proposal: Proposal)
    requires Sound(s) && s.group.Some?
    requires Proposable(proposal.event)
    requires proposal.event.ProtocolRaised? ==> proposal.event.to == s.protocol + 1
    requires proposal.event.MemberExpelled? ==> proposal.event.expelled !in proposal.approvals
    ensures Sound(s.(pending := s.pending[at := proposal]))
  {
    var next := s.(pending := s.pending[at := proposal]);
    forall p | p in next.pending ensures SoundProposal(next, p) {
      assert p != at ==> SoundProposal(s, p);
    }
  }

  lemma WaitingIsSound(s: State, entry: Entry, effect: Effect, next: State)
    requires Sound(s)
    requires effect.Recording? || effect.Noting? || effect.TakingBack?
    requires Does(s, entry, effect, next)
    ensures Sound(next)
  {
    var i := entry.index;
    match effect
    case Recording(proposal) =>
      WithIsSound(s, i, proposal);
      SweepKeeps(s.(pending := s.pending[i := proposal]), i);
    case Noting(w) =>
      assert SoundProposal(s, w);
      var noted := s.pending[w].(approvals := s.pending[w].approvals + {entry.signed.proposer});
      WithIsSound(s, w, noted);
      SweepKeeps(s.(pending := s.pending[w := noted]), i);
    case TakingBack(w) =>
      WithoutIsSound(s, Some(w));
      SweepKeeps(Without(s, Some(w)), i);
  }

  lemma StepIsSound(s: State, entry: Entry)
    requires Sound(s)
    ensures Sound(Step(s, entry))
  {
    StepDoes(s, entry);
    match EffectOf(s, entry)
    case Refused =>
    case Founding =>
      var e := entry.signed.event;
      FoundIsSound(s, e.groupId, e.founders, e.settings, entry.signed.proposer);
      SweepKeeps(s.Found(e.groupId, e.founders, e.settings, entry.signed.proposer).value, entry.index);
    case Enacting(event, author, approvals, via) =>
      assert via.Some? ==> SoundProposal(s, via.value);
      EnactedIsSound(s, via, event, author, approvals, entry.index);
    case effect => WaitingIsSound(s, entry, effect, Step(s, entry));
  }

  /** Every state a log leads to from nothing is sound, whatever the entries are. */
  lemma {:induction false} EveryRunIsSound(s: State, log: seq<Entry>)
    requires Sound(s)
    ensures Sound(Run(s, log))
  {
    if log != [] {
      EveryRunIsSound(s, log[..|log| - 1]);
      StepIsSound(Run(s, log[..|log| - 1]), log[|log| - 1]);
    }
  }

  lemma StepKeepsOneSlotEach(s: State, entry: Entry)
    requires Sound(s) && OneSlotEach(s)
    ensures OneSlotEach(Step(s, entry))
  {
    StepDoes(s, entry);
    OutlineOf(s, entry, EffectOf(s, entry), Step(s, entry));
    if EffectOf(s, entry).Recording? {
      RecordingKeepsOneSlotEach(s, entry, EffectOf(s, entry), Step(s, entry));
    } else {
      SameEventsSameSlots(s, entry, EffectOf(s, entry), Step(s, entry));
    }
  }

  lemma SameEventsSameSlots(s: State, entry: Entry, effect: Effect, next: State)
    requires OneSlotEach(s) && !effect.Recording?
    requires forall p | p in next.pending :: ComesFrom(s, entry, effect, p, next.pending[p])
    ensures OneSlotEach(next)
  {
    forall p | p in next.pending ensures p in s.pending && next.pending[p].event == s.pending[p].event {
      assert ComesFrom(s, entry, effect, p, next.pending[p]);
    }
  }

  lemma RecordingKeepsOneSlotEach(s: State, entry: Entry, effect: Effect, next: State)
    requires OneSlotEach(s) && Does(s, entry, effect, next) && effect.Recording?
    ensures OneSlotEach(next)
  {
    forall p, q | p in next.pending && q in next.pending && p != q
      ensures SubjectOf(next.pending[p].event) != SubjectOf(next.pending[q].event)
    {
      OnlySlot(s, entry, effect, next, p, q);
    }
  }

  lemma OnlySlot(s: State, entry: Entry, effect: Effect, next: State, p: nat, q: nat)
    requires OneSlotEach(s) && Does(s, entry, effect, next) && effect.Recording?
    requires p in next.pending && q in next.pending && p != q
    ensures SubjectOf(next.pending[p].event) != SubjectOf(next.pending[q].event)
  {
    var i := entry.index;
    var event := effect.proposal.event;
    RecordedIsProposable(s, event, effect.proposal.approvals);
    forall w | w in s.pending && !s.Expired(w, i) ensures SubjectOf(s.pending[w].event) != SubjectOf(event) {
      assert w !in s.InTheWay(i, event);
    }
  }

  lemma RecordedIsProposable(s: State, event: Event, approvals: set<MemberId>)
    requires IsSubmission(event) && !s.Decided(event, approvals)
    ensures Proposable(event) && SubjectOf(event).Some?
  {
  }

  /** After every entry, each subject has one waiting proposal at most. */
  lemma {:induction false} EveryRunKeepsOneSlotEach(s: State, log: seq<Entry>)
    requires Sound(s) && OneSlotEach(s)
    ensures OneSlotEach(Run(s, log))
  {
    if log != [] {
      EveryRunIsSound(s, log[..|log| - 1]);
      EveryRunKeepsOneSlotEach(s, log[..|log| - 1]);
      StepKeepsOneSlotEach(Run(s, log[..|log| - 1]), log[|log| - 1]);
    }
  }

  /** Every state that a log leads to from nothing is sound, with one slot for each subject. */
  lemma EveryLogIsSound(log: seq<Entry>)
    ensures Sound(Run(EMPTY, log)) && OneSlotEach(Run(EMPTY, log))
  {
    EveryRunIsSound(EMPTY, log);
    EveryRunKeepsOneSlotEach(EMPTY, log);
  }

  /** What a member has to its name: its pledge, and the protocol it speaks. */
  function Standing(record: MemberRecord): (nat, nat) {
    (record.pledgeBytes, record.protocolMax)
  }

  lemma ChangeOfStanding(s: State, event: Event, m: MemberId)
    requires s.Change(event).Ok? && m in s.members && m in s.Change(event).value.members
    requires Standing(s.Change(event).value.members[m]) != Standing(s.members[m])
    ensures (event.PledgeChanged? || event.ProtocolSupported?) && event.member == m
  {
  }

  lemma StandingIsOnesOwn(s: State, entry: Entry, effect: Effect, next: State, m: MemberId)
    requires Sound(s) && Does(s, entry, effect, next) && !effect.Founding?
    requires m in s.members && m in next.members && Standing(next.members[m]) != Standing(s.members[m])
    ensures entry.signed.proposer == m && effect.Enacting? && effect.via.None? && s.Authorise(m, effect.event).Ok?
    ensures next.members[m] == s.Change(effect.event).value.members[m]
    ensures (effect.event.PledgeChanged? || effect.event.ProtocolSupported?) && effect.event.member == m
  {
    if effect.Enacting? {
      ChangeOfStanding(s, effect.event, m);
      assert effect.via.Some? ==> SoundProposal(s, effect.via.value);
    }
  }

  /** A member's pledge, and the protocol it is said to speak, change only by an entry it signed itself;
      a pledge to no less than the minimum, a protocol to no less than the group's. */
  lemma StandingChangesByOnesOwnHand(s: State, entry: Entry, m: MemberId)
    requires Sound(s) && s.group.Some? && m in s.members && m in Step(s, entry).members
    requires Standing(Step(s, entry).members[m]) != Standing(s.members[m])
    ensures entry.signed.verifies && entry.signed.proposer == m
    ensures var was, now := s.members[m], Step(s, entry).members[m];
      && (now.pledgeBytes != was.pledgeBytes ==> s.settings.minPledgeBytes <= now.pledgeBytes)
      && (now.protocolMax != was.protocolMax ==> s.protocol <= now.protocolMax)
  {
    StepDoes(s, entry);
    StandingIsOnesOwn(s, entry, EffectOf(s, entry), Step(s, entry), m);
  }

  /** Whoever proposed what is enacted is a member still, and of a change of voters still a voter; and a
      raise is by one, to what every voter speaks. */
  lemma EnactedIsStillAuthorised(s: State, entry: Entry, effect: Effect, next: State)
    requires Does(s, entry, effect, next) && effect.Enacting?
    ensures effect.author in s.members
    ensures effect.event.CoreGroupChanged? ==> effect.author in s.core
    ensures effect.event.ProtocolRaised? ==> next.protocol == s.protocol + 1 && forall m | m in s.core ::
      s.Speaks(m, next.protocol)
  {
    if effect.event.ProtocolRaised? {
      SupportedByAll(s, s.core.Keys, effect.event.to);
    }
  }

  lemma WhoIsDropped(s: State, event: Event, m: MemberId)
    requires s.Change(event).Ok? && m in s.members && m !in s.Change(event).value.members
    ensures event.MemberExpelled? && event.expelled == m
  {
  }

  lemma ExpulsionNeedsThree(s: State, entry: Entry, effect: Effect, next: State, m: MemberId)
    requires Sound(s) && s.group.Some? && Does(s, entry, effect, next)
    requires m in s.core && m !in next.members
    ensures |s.core| >= 3
  {
    assert effect.Enacting?;
    WhoIsDropped(s, effect.event, m);
    assert effect.via.Some? ==> SoundProposal(s, effect.via.value);
    ExpelledFromThreeOrMore(s, m, effect.event.reason, effect.approvals);
  }

  /** An entry that expels a voter finds three of them or more. */
  lemma VoterExpelledFromThreeOrMore(s: State, entry: Entry, m: MemberId)
    requires Sound(s) && s.group.Some? && m in s.core && m !in Step(s, entry).members
    ensures |s.core| >= 3
  {
    StepDoes(s, entry);
    ExpulsionNeedsThree(s, entry, EffectOf(s, entry), Step(s, entry), m);
  }

  /** Along every log from nothing, whenever an entry expels a voter there are three or more. */
  lemma EveryVoterExpelledFromThreeOrMore(log: seq<Entry>, entry: Entry, m: MemberId)
    requires m in Run(EMPTY, log).core && m !in Run(EMPTY, log + [entry]).members
    ensures |Run(EMPTY, log).core| >= 3
  {
    EveryRunIsSound(EMPTY, log);
    RunThen(EMPTY, log, entry);
    VoterExpelledFromThreeOrMore(Run(EMPTY, log), entry, m);
  }
}
