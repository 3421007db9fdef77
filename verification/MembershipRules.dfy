/** What each entry comes to, when, and why it is refused, said in terms of the group as it stands. */
module MembershipRules {
  import opened Common
  import opened Membership
  import opened MembershipInvariants
  import opened MembershipTold

  /** Whether an entry is really signed by a member of a founded group, who had seen its last change. */
  ghost predicate Heard(s: State, signed: SignedEvent) {
    signed.verifies && signed.changedAt == s.changedAt && s.group.Some? && signed.proposer in s.members
  }

  /** Whether `who` may ask for this, as the group stands: anyone may ask that a member be admitted or
      expelled, a voter for other voters, and each for its own pledge and protocol. */
  ghost predicate MayAsk(s: State, who: MemberId, event: Event) {
    match event
    case PledgeChanged(m, pledge) => m == who && s.settings.minPledgeBytes <= pledge
    case ProtocolSupported(m, max) => m == who && s.protocol <= max
    case CoreGroupChanged(_) => who in s.core
    case Approved(_) => who in s.core
    case ProtocolRaised(to) => to == s.protocol + 1 && AllSpeak(s, s.core.Keys, to)
    case _ => true
  }

  ghost predicate AllSpeak(s: State, voters: set<MemberId>, version: nat) {
    forall m | m in voters :: m in s.members && version <= s.members[m].protocolMax
  }

  ghost predicate NamesOnce(voters: seq<(MemberId, NodeAddr)>) {
    forall i, j | 0 <= i < j < |voters| :: voters[i].0 != voters[j].0
  }

  /** Whether this can be done to the group as it stands. */
  ghost predicate CanBe(s: State, event: Event) {
    match event
    case MemberExpelled(m, _) => m in s.members
    case PledgeChanged(m, _) => m in s.members
    case ProtocolSupported(m, _) => m in s.members
    case CoreGroupChanged(voters) =>
      voters != [] && NamesOnce(voters) && Ids(voters) <= s.members.Keys && AllSpeak(s, Ids(voters), s.protocol)
    case MemberAdded(_) => true
    case ProtocolRaised(_) => true
    case _ => false
  }

  /** Whether `event` would have others vote than do. */
  ghost predicate MovesVoters(s: State, event: Event) {
    match event
    case MemberExpelled(m, _) => m in s.core
    case CoreGroupChanged(voters) => |voters| != |s.core| || !(Ids(voters) <= s.core.Keys)
    case _ => false
  }

  /** Whether the voters among `voices` are enough: more than half of all where the voters or the protocol
      would change, none where it is one's own pledge or protocol, and one for anything else. */
  ghost predicate Enough(s: State, event: Event, voices: set<MemberId>) {
    var n := |voices * s.core.Keys|;
    if event.PledgeChanged? || event.ProtocolSupported? then true
    else if event.ProtocolRaised? || MovesVoters(s, event) then 2 * n > |s.core|
    else n > 0
  }

  /** A voter speaks for what it asks for, but not for its own expulsion. */
  ghost function OwnVoice(s: State, who: MemberId, event: Event): set<MemberId> {
    if who in s.core && !(event.MemberExpelled? && event.expelled == who) then {who} else {}
  }

  /** Whether `a` and `b` are about one matter: one member's place in the group, who votes, or the
      protocol. */
  ghost predicate SameMatter(a: Event, b: Event) {
    || (a.CoreGroupChanged? && b.CoreGroupChanged?)
    || (a.ProtocolRaised? && b.ProtocolRaised?)
    || (MemberIn(a).Some? && MemberIn(a) == MemberIn(b))
  }

  /** The member whose place is the matter. */
  ghost function MemberIn(event: Event): Option<MemberId> {
    if event.MemberAdded? then Some(event.profile.memberId)
    else if event.MemberExpelled? then Some(event.expelled)
    else None
  }

  /** Whether `p` waits, in force at `index`, about the same matter. */
  ghost predicate Blocks(s: State, index: nat, event: Event, p: nat) {
    p in s.pending && index <= p + s.settings.pendingExpiry && SameMatter(s.pending[p].event, event)
  }

  lemma SubjectsAreMatters(a: Event, b: Event)
    ensures SubjectOf(a).Some? && SubjectOf(a) == SubjectOf(b) <==> SameMatter(a, b)
  {
  }

  lemma EnoughDecides(s: State, event: Event, voices: set<MemberId>)
    ensures s.Decided(event, voices) <==> Enough(s, event, voices)
  {
    if event.CoreGroupChanged? {
      assert Ids(event.core) <= s.core.Keys <==> forall i | 0 <= i < |event.core| :: event.core[i].0 in s.core;
    }
  }

  lemma AllSpeakExactlyWhen(s: State, voters: set<MemberId>, version: nat)
    ensures s.CoreSupports(voters, version).Ok? <==> AllSpeak(s, voters, version)
  {
    var lacking := set m | m in voters && !s.Speaks(m, version);
    assert forall m | m in voters :: s.Speaks(m, version) || m in lacking;
  }

  lemma MayAskExactlyWhen(s: State, who: MemberId, event: Event)
    ensures s.Authorise(who, event).Ok? <==> MayAsk(s, who, event)
  {
    if event.ProtocolRaised? {
      AllSpeakExactlyWhen(s, s.core.Keys, event.to);
    }
  }

  lemma OneMoreFolded(rest: seq<(MemberId, NodeAddr)>, last: (MemberId, NodeAddr))
    ensures |Folded(rest + [last])| == |Folded(rest)| + if last.0 in Ids(rest) then 0 else 1
  {
    assert (rest + [last])[..|rest|] == rest;
    var folded := Folded(rest);
    assert Folded(rest + [last]) == folded[last.0 := last.1];
    assert folded[last.0 := last.1].Keys == folded.Keys + {last.0};
    assert |folded| == |folded.Keys| && |folded[last.0 := last.1]| == |folded.Keys + {last.0}|;
  }

  lemma {:induction false} FoldsWhenNamedOnce(voters: seq<(MemberId, NodeAddr)>)
    ensures |Folded(voters)| == |voters| <==> NamesOnce(voters)
  {
    if voters != [] {
      var rest, last := voters[..|voters| - 1], voters[|voters| - 1];
      assert voters == rest + [last];
      FoldsWhenNamedOnce(rest);
      OneMoreNamed(rest, last);
      OneMoreFolded(rest, last);
    }
  }

  lemma OneMoreNamed(rest: seq<(MemberId, NodeAddr)>, last: (MemberId, NodeAddr))
    ensures NamesOnce(rest + [last]) <==> NamesOnce(rest) && last.0 !in Ids(rest)
  {
    var voters := rest + [last];
    if NamesOnce(voters) {
      assert forall i | 0 <= i < |rest| :: rest[i] == voters[i] && voters[i].0 != voters[|rest|].0;
    }
  }

  lemma VotersCanBe(s: State, voters: seq<(MemberId, NodeAddr)>)
    ensures s.Change(CoreGroupChanged(voters)).Ok? <==>
      voters != [] && Ids(voters) <= s.members.Keys && NamesOnce(voters) && AllSpeak(s, Ids(voters), s.protocol)
  {
    FoldsWhenNamedOnce(voters);
    AllSpeakExactlyWhen(s, Ids(voters), s.protocol);
    assert Ids(voters) <= s.members.Keys <==> forall i | 0 <= i < |voters| :: voters[i].0 in s.members;
  }

  lemma CanBeExactlyWhen(s: State, event: Event)
    ensures s.Change(event).Ok? <==> CanBe(s, event)
  {
    if event.CoreGroupChanged? {
      VotersCanBe(s, event.core);
    }
  }

  lemma BlocksExactlyWhen(s: State, index: nat, event: Event, p: nat)
    ensures p in s.InTheWay(index, event) <==> Blocks(s, index, event, p)
  {
    if p in s.pending {
      SubjectsAreMatters(s.pending[p].event, event);
    }
  }

  /** When what `signed` asks for is done at once. */
  ghost predicate DoneAtOnce(s: State, signed: SignedEvent) {
    var who, event := signed.proposer, signed.event;
    && Heard(s, signed) && IsSubmission(event) && MayAsk(s, who, event) && CanBe(s, event)
    && Enough(s, event, OwnVoice(s, who, event))
  }

  /** When it is left to wait for approvals: even if it cannot be done as the group stands. */
  ghost predicate LeftToWait(s: State, index: nat, signed: SignedEvent) {
    var who, event := signed.proposer, signed.event;
    && Heard(s, signed) && IsSubmission(event) && MayAsk(s, who, event)
    && !Enough(s, event, OwnVoice(s, who, event)) && forall p :: !Blocks(s, index, event, p)
  }

  /** When an approval of `p` counts: from a voter, in time, not for its own expulsion, and for what the one
      that asked for it could still ask for. */
  ghost predicate Counts(s: State, index: nat, signed: SignedEvent, p: nat) {
    && Heard(s, signed) && signed.event == Approved(p) && signed.proposer in s.core
    && p in s.pending && index <= p + s.settings.pendingExpiry
    && MemberExpelledBy(s.pending[p].event) != Some(signed.proposer)
    && s.pending[p].proposer in s.members && MayAsk(s, s.pending[p].proposer, s.pending[p].event)
  }

  ghost function MemberExpelledBy(event: Event): Option<MemberId> {
    if event.MemberExpelled? then Some(event.expelled) else None
  }

  /** When a group is founded: by one of its founders, none of them named twice, if there is none yet. */
  ghost predicate CanFound(s: State, signed: SignedEvent) {
    && signed.verifies && signed.changedAt == s.changedAt && s.group.None? && signed.event.GroupFounded?
    && var founders, chosen := signed.event.founders, signed.event.settings;
    && AmongFounders(founders, signed.proposer)
    && (forall i, j | 0 <= i < j < |founders| :: founders[i].0.memberId != founders[j].0.memberId)
    && chosen.weightStepBytes <= chosen.capBytes && chosen.settleSecs <= chosen.maxSettleSecs
  }

  /** Whether an entry comes to `effect`, which is no refusal. */
  ghost predicate ComesTo(s: State, entry: Entry, effect: Effect) {
    var index, signed := entry.index, entry.signed;
    match effect
    case Refused => false
    case Founding => CanFound(s, signed)
    case Recording(proposal) =>
      && LeftToWait(s, index, signed)
      && proposal == Proposal(signed.event, signed.proposer, OwnVoice(s, signed.proposer, signed.event))
    case TakingBack(p) =>
      Heard(s, signed) && signed.event == Withdrawn(p) && p in s.pending && s.pending[p].proposer == signed.proposer
    case Noting(p) =>
      Counts(s, index, signed, p) && !Enough(s, s.pending[p].event, s.pending[p].approvals + {signed.proposer})
    case Enacting(event, author, approvals, None) =>
      && DoneAtOnce(s, signed)
      && event == signed.event && author == signed.proposer && approvals == OwnVoice(s, author, event)
    case Enacting(event, author, approvals, Some(p)) =>
      && Counts(s, index, signed, p) && event == s.pending[p].event && author == s.pending[p].proposer
      && approvals == s.pending[p].approvals + {signed.proposer}
      && Enough(s, event, approvals) && CanBe(s, event)
  }

  lemma NoneInTheWay(s: State, index: nat, event: Event)
    ensures s.InTheWay(index, event) == {} <==> forall p :: !Blocks(s, index, event, p)
  {
    forall p ensures p in s.InTheWay(index, event) <==> Blocks(s, index, event, p) {
      BlocksExactlyWhen(s, index, event, p);
    }
  }

  lemma SubmissionIsTaken(s: State, index: nat, who: MemberId, event: Event)
    requires IsSubmission(event)
    ensures s.OwnApproval(who, event) == OwnVoice(s, who, event)
    ensures s.Submit(index, who, event).Ok? <==>
      if Enough(s, event, OwnVoice(s, who, event)) then CanBe(s, event) else forall p :: !Blocks(s, index, event, p)
  {
    EnoughDecides(s, event, OwnVoice(s, who, event));
    CanBeExactlyWhen(s, event);
    NoneInTheWay(s, index, event);
  }

  lemma SubmissionComesTo(s: State, entry: Entry)
    requires IsSubmission(entry.signed.event)
    ensures var effect := EffectOf(s, entry);
      effect.Refused? || ComesTo(s, entry, effect)
    ensures DoneAtOnce(s, entry.signed) || LeftToWait(s, entry.index, entry.signed) ==> !EffectOf(s, entry).Refused?
  {
    var who, event := entry.signed.proposer, entry.signed.event;
    SubmissionIsTaken(s, entry.index, who, event);
    MayAskExactlyWhen(s, who, event);
    EnoughDecides(s, event, OwnVoice(s, who, event));
  }

  lemma ApprovalIsAllowed(s: State, index: nat, p: nat, who: MemberId)
    requires p in s.pending
    ensures s.StillAllowed(index, p, s.pending[p], who).Ok? <==>
      && index <= p + s.settings.pendingExpiry && MemberExpelledBy(s.pending[p].event) != Some(who)
      && s.pending[p].proposer in s.members && MayAsk(s, s.pending[p].proposer, s.pending[p].event)
  {
    MayAskExactlyWhen(s, s.pending[p].proposer, s.pending[p].event);
  }

  lemma ApprovalIsTaken(s: State, index: nat, p: nat, who: MemberId)
    requires p in s.pending
    ensures var event, voices := s.pending[p].event, s.pending[p].approvals + {who};
      s.Approve(index, p, who).Ok? <==>
        s.StillAllowed(index, p, s.pending[p], who).Ok? && (Enough(s, event, voices) ==> CanBe(s, event))
  {
    var event, voices := s.pending[p].event, s.pending[p].approvals + {who};
    EnoughDecides(s, event, voices);
    CanBeExactlyWhen(s, event);
    ChangeIgnoresWaiting(s, s.pending - {p}, event);
  }

  /** Whether what the approval of `who` would complete, if it would, can be done. */
  ghost predicate NotInVain(s: State, p: nat, who: MemberId)
    requires p in s.pending
  {
    Enough(s, s.pending[p].event, s.pending[p].approvals + {who}) ==> CanBe(s, s.pending[p].event)
  }

  lemma ApprovalComesTo(s: State, entry: Entry, p: nat)
    requires entry.signed.event == Approved(p)
    ensures EffectOf(s, entry).Refused? || ComesTo(s, entry, EffectOf(s, entry))
  {
    if p in s.pending {
      ApprovalIsAllowed(s, entry.index, p, entry.signed.proposer);
      ApprovalIsTaken(s, entry.index, p, entry.signed.proposer);
      EnoughDecides(s, s.pending[p].event, s.pending[p].approvals + {entry.signed.proposer});
    }
  }

  lemma ApprovalIsHeard(s: State, entry: Entry, p: nat)
    requires Counts(s, entry.index, entry.signed, p) && NotInVain(s, p, entry.signed.proposer)
    ensures !EffectOf(s, entry).Refused?
  {
    ApprovalIsAllowed(s, entry.index, p, entry.signed.proposer);
    ApprovalIsTaken(s, entry.index, p, entry.signed.proposer);
  }

  lemma PairIsRepeated(ids: seq<MemberId>, i: nat, j: nat)
    requires i < j < |ids| && ids[i] == ids[j]
    ensures ids[i] in Repeated(ids)
  {
  }

  lemma FoundersAgree(founders: seq<Founder>)
    ensures Repeated(FounderIds(founders)) == {} <==>
      forall i, j | 0 <= i < j < |founders| :: founders[i].0.memberId != founders[j].0.memberId
    ensures forall m :: m in FounderIds(founders) <==> AmongFounders(founders, m)
  {
    var ids := FounderIds(founders);
    forall m ensures m in ids <==> AmongFounders(founders, m) {
      if i :| 0 <= i < |founders| && founders[i].0.memberId == m {
        assert ids[i] == m;
      }
    }
    if Repeated(ids) == {} {
      forall i, j | 0 <= i < j < |founders| ensures founders[i].0.memberId != founders[j].0.memberId {
        if ids[i] == ids[j] {
          PairIsRepeated(ids, i, j);
        }
      }
    }
  }

  lemma FoundingComesTo(s: State, entry: Entry)
    requires entry.signed.event.GroupFounded?
    ensures EffectOf(s, entry) == if CanFound(s, entry.signed) then Founding else Refused
  {
    FoundersAgree(entry.signed.event.founders);
  }

  lemma WithdrawalComesTo(s: State, entry: Entry, p: nat)
    requires entry.signed.event == Withdrawn(p)
    ensures EffectOf(s, entry) == if ComesTo(s, entry, TakingBack(p)) then TakingBack(p) else Refused
  {
  }

  lemma WhatItComesTo(s: State, entry: Entry)
    ensures EffectOf(s, entry).Refused? || ComesTo(s, entry, EffectOf(s, entry))
  {
    match entry.signed.event
    case GroupFounded(_, _, _) => FoundingComesTo(s, entry);
    case Withdrawn(p) => WithdrawalComesTo(s, entry, p);
    case Approved(p) => ApprovalComesTo(s, entry, p);
    case _ => SubmissionComesTo(s, entry);
  }

  lemma OnlyOneComesTo(s: State, entry: Entry, effect: Effect)
    requires ComesTo(s, entry, effect)
    ensures EffectOf(s, entry) == effect
  {
    match effect
    case Founding => FoundingComesTo(s, entry);
    case TakingBack(p) => WithdrawalComesTo(s, entry, p);
    case Noting(p) =>
      ApprovalIsHeard(s, entry, p);
      EnoughDecides(s, s.pending[p].event, s.pending[p].approvals + {entry.signed.proposer});
    case Recording(_) =>
      SubmissionComesTo(s, entry);
      SubmissionIsTaken(s, entry.index, entry.signed.proposer, entry.signed.event);
      EnoughDecides(s, entry.signed.event, OwnVoice(s, entry.signed.proposer, entry.signed.event));
    case Enacting(event, _, approvals, via) =>
      EnoughDecides(s, event, approvals);
      if via.Some? {
        ApprovalIsHeard(s, entry, via.value);
      } else {
        SubmissionComesTo(s, entry);
        SubmissionIsTaken(s, entry.index, entry.signed.proposer, entry.signed.event);
      }
  }

  /** Every entry comes to what these rules say, and is refused exactly when they say nothing of it. */
  lemma EachEntryComesTo(s: State, entry: Entry, effect: Effect)
    ensures !effect.Refused? ==> (EffectOf(s, entry) == effect <==> ComesTo(s, entry, effect))
    ensures s.Apply(entry.index, entry.signed).Err? <==> forall any :: !ComesTo(s, entry, any)
  {
    WhatItComesTo(s, entry);
    forall any | ComesTo(s, entry, any) ensures EffectOf(s, entry) == any {
      OnlyOneComesTo(s, entry, any);
    }
  }

  // ----- What waits afterwards -----

  /** Whether enacting `enacted`, which takes the voters from `before` to `now`, makes `waiting` stale: a set
      of voters if it names someone that moved, anywhere but where it moved to; anything else if it is
      about the same matter. */
  ghost predicate MadeStale(waiting: Event, enacted: Event, before: map<MemberId, NodeAddr>,
      now: map<MemberId, NodeAddr>) {
    if waiting.CoreGroupChanged? then exists m :: MovedElsewhere(waiting.core, before, now, m)
    else SameMatter(waiting, enacted)
  }

  /** Whether `m` moved between `before` and `now`, and not to where `wanted` has it, which has it
      somewhere. */
  ghost predicate MovedElsewhere(wanted: seq<(MemberId, NodeAddr)>, before: map<MemberId, NodeAddr>,
      now: map<MemberId, NodeAddr>, m: MemberId) {
    Get(before, m) != Get(now, m) && AddressIn(wanted, m).Some? && AddressIn(wanted, m) != Get(now, m)
  }

  /** Whether `p`, which waits in `s`, is neither taken back, nor completed, nor made stale. */
  ghost predicate LeftAlone(s: State, effect: Effect, now: map<MemberId, NodeAddr>, p: nat)
    requires p in s.pending
  {
    match effect
    case TakingBack(q) => q != p
    case Enacting(event, _, _, via) => via != Some(p) && !MadeStale(s.pending[p].event, event, s.core, now)
    case _ => true
  }

  lemma StaleExactlyWhen(s: State, waiting: Event, enacted: Event, now: map<MemberId, NodeAddr>)
    requires SubjectOf(waiting).Some?
    ensures s.Survives(waiting, enacted, now) <==> !MadeStale(waiting, enacted, s.core, now)
  {
    if waiting.CoreGroupChanged? {
      SupersededExactlyWhen(waiting, enacted, s.core, now);
    } else {
      SubjectsAreMatters(waiting, enacted);
    }
  }

  lemma SupersededExactlyWhen(waiting: Event, enacted: Event, before: map<MemberId, NodeAddr>,
      now: map<MemberId, NodeAddr>)
    requires waiting.CoreGroupChanged?
    ensures SupersededBy(waiting.core, before, now) <==> MadeStale(waiting, enacted, before, now)
  {
    var wants := Folded(waiting.core);
    forall m ensures Get(wants, m) == AddressIn(waiting.core, m) {
      FoldedHas(waiting.core, m);
    }
    if m :| MovedElsewhere(waiting.core, before, now, m) {
      assert Get(wants, m) == AddressIn(waiting.core, m);
      assert m in before.Keys + now.Keys;
    }
    if SupersededBy(waiting.core, before, now) {
      var m :| m in before.Keys + now.Keys &&
        Get(before, m) != Get(now, m) && m in wants && Get(now, m) != Some(wants[m]);
      assert Get(wants, m) == AddressIn(waiting.core, m);
      assert MovedElsewhere(waiting.core, before, now, m);
    }
  }

  /** What waits at `p` once `entry` has been folded: what it recorded there, or what waited, with one more
      approval if it noted one. */
  ghost function WaitingAt(s: State, entry: Entry, effect: Effect, p: nat): Proposal
    requires p in s.pending || effect.Recording?
  {
    if effect.Recording? && (p == entry.index || p !in s.pending) then effect.proposal
    else if effect == Noting(p) then
      s.pending[p].(approvals := s.pending[p].approvals + {entry.signed.proposer})
    else s.pending[p]
  }

  /** Whether `p` is what the entry recorded, or waited and is left alone. */
  ghost predicate IsLeft(s: State, entry: Entry, effect: Effect, next: State, p: nat) {
    (effect.Recording? && p == entry.index) || (p in s.pending && LeftAlone(s, effect, next.core, p))
  }

  lemma WaitsUnlessEnacting(s: State, entry: Entry, effect: Effect, next: State, p: nat)
    requires Does(s, entry, effect, next) && !effect.Refused? && !effect.Enacting? && s.group.Some?
    ensures p in next.pending <==> entry.index < p + s.settings.pendingExpiry && IsLeft(s, entry, effect, next, p)
    ensures p in next.pending ==> next.pending[p] == WaitingAt(s, entry, effect, p)
  {
  }

  lemma WaitsThoughEnacted(s: State, via: Option<nat>, event: Event, index: nat, p: nat)
    requires s.Change(event).Ok?
    requires forall q | q in s.pending :: SubjectOf(s.pending[q].event).Some?
    ensures var next := EnactedAt(s, via, event, index);
      && (p in next.pending <==>
          index < p + s.settings.pendingExpiry &&
          p in s.pending && via != Some(p) && !MadeStale(s.pending[p].event, event, s.core, next.core))
      && (p in next.pending ==> next.pending[p] == s.pending[p])
  {
    WhoStillWaits(s, via, event, s.Change(event).value.core, index, p);
    if p in s.pending {
      StaleExactlyWhen(s, s.pending[p].event, event, s.Change(event).value.core);
    }
  }

  /** After each entry that is accepted, exactly these wait: what it recorded, and what waited and is left
      alone, before their deadlines; each with the approvals it had, and the one just noted. */
  lemma EachWaitsExactlyWhen(s: State, entry: Entry, p: nat)
    requires Sound(s) && s.group.Some? && s.Apply(entry.index, entry.signed).Ok?
    ensures var effect, next := EffectOf(s, entry), Step(s, entry);
      && (p in next.pending <==> entry.index < p + s.settings.pendingExpiry && IsLeft(s, entry, effect, next, p))
      && (p in next.pending ==> next.pending[p] == WaitingAt(s, entry, effect, p))
  {
    StepDoes(s, entry);
    var effect := EffectOf(s, entry);
    if effect.Enacting? {
      forall q | q in s.pending ensures SubjectOf(s.pending[q].event).Some? {
        assert SoundProposal(s, q);
      }
      WaitsThoughEnacted(s, effect.via, effect.event, entry.index, p);
    } else {
      WaitsUnlessEnacting(s, entry, effect, Step(s, entry), p);
    }
  }

  /** Over every log no two waiting proposals are about one matter. */
  lemma EachMatterWaitsOnce(log: seq<Entry>, p: nat, q: nat)
    requires p in Run(EMPTY, log).pending && q in Run(EMPTY, log).pending
    requires SameMatter(Run(EMPTY, log).pending[p].event, Run(EMPTY, log).pending[q].event)
    ensures p == q
  {
    EveryLogIsSound(log);
    SubjectsAreMatters(Run(EMPTY, log).pending[p].event, Run(EMPTY, log).pending[q].event);
  }

  // ----- Why an entry is refused -----

  /** What is judged: the waiting proposal an approval names, if there is one, and otherwise what is
      signed; with whoever asked for it. */
  ghost function Judged(s: State, signed: SignedEvent): (Event, MemberId) {
    if signed.event.Approved? && signed.event.proposal in s.pending then
      (s.pending[signed.event.proposal].event, s.pending[signed.event.proposal].proposer)
    else (signed.event, signed.proposer)
  }

  /** Whether what `error` says of the entry and the group is so. */
  ghost predicate IsSo(s: State, entry: Entry, error: Error) {
    var signed := entry.signed;
    var (event, author) := Judged(s, signed);
    match error
    case BadSignature(who) => who == signed.proposer && !signed.verifies
    case StaleProposal(seen, current) => seen == signed.changedAt && current == s.changedAt && seen != current
    case NotFounded => s.group.None? && !signed.event.GroupFounded?
    case AlreadyFounded => s.group.Some? && signed.event.GroupFounded?
    case NoFounders => event.GroupFounded? && event.founders == []
    case DuplicateFounder(m) => event.GroupFounded? && IsFirstRepeated(event.founders, m)
    case FounderNotIncluded(who) =>
      who == signed.proposer && event.GroupFounded? && !AmongFounders(event.founders, who)
    case InvalidSettings(_) =>
      event.GroupFounded? &&
        (event.settings.capBytes < event.settings.weightStepBytes ||
         event.settings.maxSettleSecs < event.settings.settleSecs)
    case ProposerNotAMember(who) => (who == signed.proposer || who == author) && who !in s.members
    case UnknownMember(m) =>
      m !in s.members && (MemberExpelledBy(event) == Some(m) ||
        ((event.PledgeChanged? || event.ProtocolSupported?) && event.member == m))
    case InvalidCoreGroup =>
      event.CoreGroupChanged? &&
        (event.core == [] || !NamesOnce(event.core) || !(Ids(event.core) <= s.members.Keys))
    case PledgeNotOwn(who, m) => who == author && event.PledgeChanged? && event.member == m && m != who
    case PledgeBelowMinimum(pledge, min) =>
      event.PledgeChanged? && event.pledgeBytes == pledge && min == s.settings.minPledgeBytes && pledge < min
    case NotCoreMember(who) => who == author && event.CoreGroupChanged? && who !in s.core
    case ApproverNotCore(who) => who == signed.proposer && signed.event.Approved? && who !in s.core
    case AlreadyPending(p) =>
      Blocks(s, entry.index, event, p) && forall q :: Blocks(s, entry.index, event, q) ==> p <= q
    case UnknownProposal(p) => (signed.event == Approved(p) || signed.event == Withdrawn(p)) && p !in s.pending
    case ProposalExpired(p, index) =>
      signed.event == Approved(p) && index == entry.index && p + s.settings.pendingExpiry < index
    case SelfApproval(who) => who == signed.proposer && signed.event.Approved? && MemberExpelledBy(event) == Some(who)
    case NotTheProposer(who, p) =>
      who == signed.proposer && signed.event == Withdrawn(p) && p in s.pending && s.pending[p].proposer != who
    case NotAMembershipChange => false
    case ProtocolSupportNotOwn(who, m) => who == author && event.ProtocolSupported? && event.member == m && m != who
    case ProtocolSupportBelowGroup(max, protocol) =>
      event.ProtocolSupported? && event.max == max && protocol == s.protocol && max < protocol
    case ProtocolNotNext(to, protocol) => event == ProtocolRaised(to) && protocol == s.protocol && to != protocol + 1
    case CoreLacksProtocol(m, version) =>
      LacksFirst(s, if event.ProtocolRaised? then s.core.Keys else VotersAsked(event), m, version) &&
        ((event.CoreGroupChanged? && version == s.protocol) || event == ProtocolRaised(version))
  }

  ghost function VotersAsked(event: Event): set<MemberId> {
    if event.CoreGroupChanged? then Ids(event.core) else {}
  }

  /** Whether `m` is the first by id that founds the group twice. */
  ghost predicate IsFirstRepeated(founders: seq<Founder>, m: MemberId) {
    IsRepeated(founders, m) && forall other :: IsRepeated(founders, other) ==> m <= other
  }

  ghost predicate IsRepeated(founders: seq<Founder>, m: MemberId) {
    exists i, j :: 0 <= i < j < |founders| && founders[i].0.memberId == m && founders[j].0.memberId == m
  }

  /** Whether `m` is the first by id of `voters` that does not speak `version`. */
  ghost predicate LacksFirst(s: State, voters: set<MemberId>, m: MemberId, version: nat) {
    && m in voters && !(m in s.members && version <= s.members[m].protocolMax)
    && forall other | other in voters && other < m :: other in s.members && version <= s.members[other].protocolMax
  }

  lemma LackIsSo(s: State, voters: set<MemberId>, version: nat)
    requires s.CoreSupports(voters, version).Err?
    ensures var error := s.CoreSupports(voters, version).error;
      error.CoreLacksProtocol? && error.protocol == version && LacksFirst(s, voters, error.member, version)
  {
    var lacking := set m | m in voters && !s.Speaks(m, version);
    assert forall m | m in voters && m !in lacking :: s.Speaks(m, version);
  }

  /** What `Authorise` says of what is judged. */
  lemma UnauthorisedIsSo(s: State, entry: Entry)
    requires var (event, author) := Judged(s, entry.signed);
      s.Authorise(author, event).Err? && !event.Approved?
    ensures var (event, author) := Judged(s, entry.signed);
      IsSo(s, entry, s.Authorise(author, event).error)
  {
    var (event, author) := Judged(s, entry.signed);
    if event.ProtocolRaised? && event.to == s.protocol + 1 {
      LackIsSo(s, s.core.Keys, event.to);
    }
  }

  lemma ImpossibleIsSo(s: State, entry: Entry)
    requires var (event, _) := Judged(s, entry.signed);
      IsSubmission(event) && s.Change(event).Err?
    ensures var (event, _) := Judged(s, entry.signed);
      IsSo(s, entry, s.Change(event).error)
  {
    var (event, _) := Judged(s, entry.signed);
    if event.CoreGroupChanged? {
      FoldsWhenNamedOnce(event.core);
      if s.CoreSupports(Folded(event.core).Keys, s.protocol).Err? {
        LackIsSo(s, Ids(event.core), s.protocol);
      }
    }
  }

  lemma BlockedIsSo(s: State, index: nat, event: Event)
    requires s.InTheWay(index, event) != {}
    ensures var p := Least(s.InTheWay(index, event));
      Blocks(s, index, event, p) && forall q :: Blocks(s, index, event, q) ==> p <= q
  {
    forall q ensures q in s.InTheWay(index, event) <==> Blocks(s, index, event, q) {
      BlocksExactlyWhen(s, index, event, q);
    }
  }

  lemma RefusedSubmissionIsSo(s: State, entry: Entry)
    requires IsSubmission(entry.signed.event)
    requires s.Submit(entry.index, entry.signed.proposer, entry.signed.event).Err?
    ensures IsSo(s, entry, s.Submit(entry.index, entry.signed.proposer, entry.signed.event).error)
  {
    var who, event := entry.signed.proposer, entry.signed.event;
    if s.Decided(event, s.OwnApproval(who, event)) {
      ImpossibleIsSo(s, entry);
    } else {
      BlockedIsSo(s, entry.index, event);
    }
  }

  lemma RefusedApprovalIsSo(s: State, entry: Entry, p: nat)
    requires Sound(s) && entry.signed.event == Approved(p) && s.Approve(entry.index, p, entry.signed.proposer).Err?
    ensures IsSo(s, entry, s.Approve(entry.index, p, entry.signed.proposer).error)
  {
    if p in s.pending {
      assert SoundProposal(s, p);
      var allowed := s.StillAllowed(entry.index, p, s.pending[p], entry.signed.proposer);
      if allowed.Err? {
        if s.Authorise(s.pending[p].proposer, s.pending[p].event).Err? {
          UnauthorisedIsSo(s, entry);
        }
      } else {
        ChangeRefusesTheSame(s, s.pending - {p}, s.pending[p].event);
        ImpossibleIsSo(s, entry);
      }
    }
  }

  lemma SupportsTheSame(s: State, waiting: map<nat, Proposal>, voters: set<MemberId>, version: nat)
    ensures s.(pending := waiting).CoreSupports(voters, version) == s.CoreSupports(voters, version)
  {
    var t := s.(pending := waiting);
    assert (set m | m in voters && !s.Speaks(m, version)) == set m | m in voters && !t.Speaks(m, version);
  }

  lemma ChangeRefusesTheSame(s: State, waiting: map<nat, Proposal>, event: Event)
    requires s.(pending := waiting).Change(event).Err?
    ensures s.Change(event).Err? && s.Change(event).error == s.(pending := waiting).Change(event).error
  {
    if event.CoreGroupChanged? {
      SupportsTheSame(s, waiting, Folded(event.core).Keys, s.protocol);
    }
  }

  lemma RefusedFoundingIsSo(s: State, entry: Entry)
    requires var event := entry.signed.event;
      event.GroupFounded? && s.Found(event.groupId, event.founders, event.settings, entry.signed.proposer).Err?
    ensures var event := entry.signed.event;
      IsSo(s, entry, s.Found(event.groupId, event.founders, event.settings, entry.signed.proposer).error)
  {
    var event := entry.signed.event;
    if s.group.Some? {
      assert IsSo(s, entry, AlreadyFounded);
    } else if CheckFounders(event.founders).Err? {
      BadFoundersAreSo(s, entry);
    } else if CheckSettings(event.settings).Err? {
      BadSettingsAreSo(s, entry);
    } else {
      MissingFounderIsSo(s, entry);
    }
  }

  lemma BadSettingsAreSo(s: State, entry: Entry)
    requires entry.signed.event.GroupFounded? && CheckSettings(entry.signed.event.settings).Err?
    ensures IsSo(s, entry, CheckSettings(entry.signed.event.settings).error)
  {
    var error := CheckSettings(entry.signed.event.settings).error;
    assert error.InvalidSettings?;
  }

  lemma MissingFounderIsSo(s: State, entry: Entry)
    requires entry.signed.event.GroupFounded? && entry.signed.proposer !in FounderIds(entry.signed.event.founders)
    ensures IsSo(s, entry, FounderNotIncluded(entry.signed.proposer))
  {
    FoundersAgree(entry.signed.event.founders);
  }

  lemma BadFoundersAreSo(s: State, entry: Entry)
    requires entry.signed.event.GroupFounded? && CheckFounders(entry.signed.event.founders).Err?
    ensures IsSo(s, entry, CheckFounders(entry.signed.event.founders).error)
  {
    if entry.signed.event.founders != [] {
      FirstRepeatedIsSo(entry.signed.event.founders);
    }
  }

  lemma FirstRepeatedIsSo(founders: seq<Founder>)
    requires Repeated(FounderIds(founders)) != {}
    ensures IsFirstRepeated(founders, Least(Repeated(FounderIds(founders))))
  {
    forall m ensures m in Repeated(FounderIds(founders)) <==> IsRepeated(founders, m) {
      RepeatedIsSo(founders, m);
    }
  }

  lemma RepeatedIsSo(founders: seq<Founder>, m: MemberId)
    ensures m in Repeated(FounderIds(founders)) <==> IsRepeated(founders, m)
  {
    var ids := FounderIds(founders);
    if IsRepeated(founders, m) {
      var i, j :| 0 <= i < j < |founders| && founders[i].0.memberId == m && founders[j].0.memberId == m;
      assert ids[i] == ids[j] == m;
    }
  }

  /** No entry is refused for a reason that is not so; and each comes to be refused for the first reason in
      this order: the signature, what it was signed against, the founding, who signed it. */
  lemma EachRefusalIsSo(s: State, entry: Entry)
    requires Sound(s) && s.Apply(entry.index, entry.signed).Err?
    ensures var error, signed := s.Apply(entry.index, entry.signed).error, entry.signed;
      && IsSo(s, entry, error)
      && (!signed.verifies <==> error.BadSignature?)
      && (signed.verifies && signed.changedAt != s.changedAt <==> error.StaleProposal?)
      && (!error.BadSignature? && !error.StaleProposal? && !signed.event.GroupFounded? ==>
          && (s.group.None? <==> error.NotFounded?)
          && (s.group.Some? && signed.proposer !in s.members ==> error == ProposerNotAMember(signed.proposer)))
  {
    var signed := entry.signed;
    if signed.verifies && signed.changedAt == s.changedAt {
      if signed.event.GroupFounded? {
        RefusedFoundingIsSo(s, entry);
      } else if s.group.Some? && signed.proposer in s.members {
        RefusedMemberIsSo(s, entry);
      }
    }
  }

  lemma RefusedMemberIsSo(s: State, entry: Entry)
    requires Sound(s) && Heard(s, entry.signed) && !entry.signed.event.GroupFounded?
    requires s.Apply(entry.index, entry.signed).Err?
    ensures IsSo(s, entry, s.Apply(entry.index, entry.signed).error)
    ensures var error := s.Apply(entry.index, entry.signed).error;
      !error.BadSignature? && !error.StaleProposal? && !error.NotFounded?
  {
    var signed := entry.signed;
    if s.Authorise(signed.proposer, signed.event).Err? {
      if !signed.event.Approved? {
        UnauthorisedIsSo(s, entry);
      }
    } else if signed.event.Approved? {
      RefusedApprovalIsSo(s, entry, signed.event.proposal);
    } else if !signed.event.Withdrawn? {
      RefusedSubmissionIsSo(s, entry);
    }
  }
}
