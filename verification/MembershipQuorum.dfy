/** Who can change the voters: exactly a majority of them, by signatures that are in the log. */
module MembershipQuorum {
  import opened Common
  import opened Membership
  import opened MembershipInvariants

  /** Everyone who really signed something about the proposal made at `p`: the entry that made it,
      or an approval that names it. */
  ghost function Signers(log: seq<Entry>, p: nat): set<MemberId> {
    set i | 0 <= i < |log| && log[i].signed.verifies && (log[i].index == p || log[i].signed.event == Approved(p))
      :: log[i].signed.proposer
  }

  /** Whether `log` holds the signed entry at `p` that made this proposal. */
  ghost predicate MadeIn(log: seq<Entry>, p: nat, event: Event, proposer: MemberId) {
    exists i :: 0 <= i < |log| && log[i].index == p && log[i].signed.verifies
      && log[i].signed.event == event && log[i].signed.proposer == proposer
  }

  /** Every waiting proposal was made in `log`, and each of its approvals was signed there. */
  ghost predicate AllSigned(s: State, log: seq<Entry>) {
    forall p | p in s.pending ::
      && s.pending[p].approvals <= Signers(log, p)
      && MadeIn(log, p, s.pending[p].event, s.pending[p].proposer)
  }

  lemma MoreSigners(log: seq<Entry>, entry: Entry, p: nat)
    ensures Signers(log, p) <= Signers(log + [entry], p)
    ensures entry.signed.verifies && (entry.index == p || entry.signed.event == Approved(p)) ==>
      entry.signed.proposer in Signers(log + [entry], p)
    ensures forall event, proposer :: MadeIn(log, p, event, proposer) ==> MadeIn(log + [entry], p, event, proposer)
    ensures entry.signed.verifies && entry.index == p ==>
      MadeIn(log + [entry], p, entry.signed.event, entry.signed.proposer)
  {
    var more := log + [entry];
    assert more[|log|] == entry;
    assert forall i | 0 <= i < |log| :: more[i] == log[i];
    forall m | m in Signers(log, p) ensures m in Signers(more, p) {
      var i :| 0 <= i < |log| && log[i].signed.verifies &&
        (log[i].index == p || log[i].signed.event == Approved(p)) && log[i].signed.proposer == m;
      assert more[i].signed.proposer == m;
    }
    forall event, proposer | MadeIn(log, p, event, proposer) ensures MadeIn(more, p, event, proposer) {
      var i :| 0 <= i < |log| && log[i].index == p && log[i].signed.verifies && log[i].signed.event == event &&
        log[i].signed.proposer == proposer;
      assert more[i].index == p;
    }
  }

  lemma StepKeepsAllSigned(s: State, log: seq<Entry>, entry: Entry)
    requires AllSigned(s, log)
    ensures AllSigned(Step(s, entry), log + [entry])
  {
    StepOutline(s, entry);
    var next := Step(s, entry);
    forall p | p in next.pending
      ensures next.pending[p].approvals <= Signers(log + [entry], p)
      ensures MadeIn(log + [entry], p, next.pending[p].event, next.pending[p].proposer)
    {
      MoreSigners(log, entry, p);
    }
  }

  lemma {:induction false} EveryApprovalIsSigned(s: State, log: seq<Entry>)
    requires s.pending == map[]
    ensures AllSigned(Run(s, log), log)
  {
    if log != [] {
      var rest, last := log[..|log| - 1], log[|log| - 1];
      EveryApprovalIsSigned(s, rest);
      StepKeepsAllSigned(Run(s, rest), rest, last);
      assert rest + [last] == log;
    }
  }

  lemma SameVoters(s: State, voters: seq<(MemberId, NodeAddr)>)
    requires !s.ChangesTheVoters(CoreGroupChanged(voters))
    requires |Folded(voters)| == |voters|
    ensures Folded(voters).Keys == s.core.Keys
  {
    SubsetSize(Folded(voters).Keys, s.core.Keys);
  }

  lemma MajorityBehind(s: State, event: Event, approvals: set<MemberId>)
    requires s.Decided(event, approvals) && s.Change(event).Ok?
    requires s.Change(event).value.core.Keys != s.core.Keys || s.Change(event).value.protocol != s.protocol
    ensures |s.Counting(approvals)| >= s.Majority()
  {
    if event.CoreGroupChanged? && !s.ChangesTheVoters(event) {
      SameVoters(s, event.core);
    }
  }

  ghost predicate Moved(s: State, next: State) {
    next.core.Keys != s.core.Keys || next.protocol != s.protocol
  }

  /** The one way the voters or the protocol move: an enactment that a majority of the voters, as
      they stood, approved. */
  lemma ChangesNeedAMajority(s: State, entry: Entry, effect: Effect, next: State)
    requires s.group.Some? && Outline(s, entry, effect, next) && Moved(s, next)
    ensures effect.Enacting?
    ensures 2 * |effect.approvals * s.core.Keys| > |s.core|
  {
    if effect.Enacting? {
      MajorityBehind(s, effect.event, effect.approvals);
    }
  }

  /** Whether a majority of the voters of `s` signed, in `log`, a change that gives the voters and
      the protocol of `next`. */
  ghost predicate SignedByAMajority(s: State, log: seq<Entry>, next: State) {
    exists p, event, proposer :: SignedForBy(s, log, next, p, event, proposer)
  }

  ghost predicate SignedForBy(s: State, log: seq<Entry>, next: State, p: nat, event: Event, proposer: MemberId) {
    && MadeIn(log, p, event, proposer)
    && s.Change(event).Ok?
    && s.Change(event).value.core == next.core
    && s.Change(event).value.protocol == next.protocol
    && 2 * |Signers(log, p) * s.core.Keys| > |s.core|
  }

  lemma MoveIsSignedByAMajority(s: State, log: seq<Entry>, entry: Entry, effect: Effect, next: State)
    requires s.group.Some? && AllSigned(s, log)
    requires Outline(s, entry, effect, next) && Moved(s, next) && entry.signed.verifies
    ensures SignedByAMajority(s, log + [entry], next)
  {
    ChangesNeedAMajority(s, entry, effect, next);
    var p := if effect.via.Some? then effect.via.value else entry.index;
    MoreSigners(log, entry, p);
    SubsetSize(s.Counting(effect.approvals), Signers(log + [entry], p) * s.core.Keys);
    assert SignedForBy(s, log + [entry], next, p, effect.event, effect.author);
  }

  /** Over every run from a state with nothing waiting: whenever an entry changes the voters or the
      protocol, the log up to it holds the signed proposal for that very change, and the signatures
      on it of a majority of the voters it changes. */
  lemma EveryVoterChangeIsSignedByAMajority(s: State, log: seq<Entry>, entry: Entry)
    requires s.pending == map[]
    requires Run(s, log).group.Some?
    requires Moved(Run(s, log), Step(Run(s, log), entry))
    ensures SignedByAMajority(Run(s, log), log + [entry], Step(Run(s, log), entry))
  {
    var now := Run(s, log);
    EveryApprovalIsSigned(s, log);
    StepOutline(now, entry);
    MoveIsSignedByAMajority(now, log, entry, EffectOf(now, entry), Step(now, entry));
  }

  /** Whether every entry that is really signed is signed by one of `coalition`. */
  ghost predicate SignedOnlyBy(log: seq<Entry>, coalition: set<MemberId>) {
    forall i | 0 <= i < |log| && log[i].signed.verifies :: log[i].signed.proposer in coalition
  }

  ghost predicate ApprovedOnlyBy(s: State, coalition: set<MemberId>) {
    forall p | p in s.pending :: s.pending[p].approvals <= coalition
  }

  ghost predicate IsMinority(s: State, coalition: set<MemberId>) {
    2 * |coalition * s.core.Keys| <= |s.core|
  }

  lemma MinorityMovesNothing(s: State, entry: Entry, effect: Effect, next: State, coalition: set<MemberId>)
    requires s.group.Some? && Outline(s, entry, effect, next)
    requires IsMinority(s, coalition) && ApprovedOnlyBy(s, coalition)
    requires effect.Refused? || entry.signed.proposer in coalition
    ensures !Moved(s, next)
  {
    if Moved(s, next) {
      ChangesNeedAMajority(s, entry, effect, next);
      SubsetSize(s.Counting(effect.approvals), coalition * s.core.Keys);
      assert false;
    }
  }

  lemma ApprovalsStayIn(s: State, entry: Entry, effect: Effect, next: State, coalition: set<MemberId>)
    requires forall p | p in next.pending :: ComesFrom(s, entry, effect, p, next.pending[p])
    requires effect.Recording? ==> effect.proposal.approvals <= {entry.signed.proposer}
    requires ApprovedOnlyBy(s, coalition)
    requires effect.Refused? || entry.signed.proposer in coalition
    ensures ApprovedOnlyBy(next, coalition)
  {
  }

  /** Entries signed only by a coalition short of a majority never change the voters or the
      protocol, however many there are; `s` may have proposals waiting that only they approved. */
  lemma {:induction false} MinorityChangesNoVoters(s: State, log: seq<Entry>, coalition: set<MemberId>)
    requires s.group.Some?
    requires IsMinority(s, coalition) && ApprovedOnlyBy(s, coalition)
    requires SignedOnlyBy(log, coalition)
    ensures Run(s, log).group.Some?
    ensures Run(s, log).core.Keys == s.core.Keys && Run(s, log).protocol == s.protocol
    ensures ApprovedOnlyBy(Run(s, log), coalition)
  {
    if log != [] {
      var rest := log[..|log| - 1];
      MinorityChangesNoVoters(s, rest, coalition);
      assert |Run(s, rest).core| == |Run(s, rest).core.Keys| == |s.core.Keys| == |s.core|;
      var now, last := Run(s, rest), log[|log| - 1];
      StepOutline(now, last);
      MinorityMovesNothing(now, last, EffectOf(now, last), Step(now, last), coalition);
      ApprovalsStayIn(now, last, EffectOf(now, last), Step(now, last), coalition);
    }
  }

  /** The same people under the same names, and the same voters at the same addresses. */
  ghost predicate SamePeople(s: State, next: State) {
    && next.core == s.core
    && next.members.Keys == s.members.Keys
    && forall m | m in s.members :: next.members[m].displayName == s.members[m].displayName
  }

  lemma OutsidersMoveNobody(s: State, entry: Entry, effect: Effect, next: State, coalition: set<MemberId>)
    requires s.group.Some? && Outline(s, entry, effect, next)
    requires coalition !! s.core.Keys && ApprovedOnlyBy(s, coalition)
    requires effect.Refused? || entry.signed.proposer in coalition
    ensures SamePeople(s, next)
  {
    if effect.Enacting? {
      assert s.Counting(effect.approvals) == {};
      OwnRecordOnly(s, effect.event, effect.approvals);
    }
  }

  /** What nobody has to approve touches no one's place or name. */
  lemma OwnRecordOnly(s: State, event: Event, approvals: set<MemberId>)
    requires s.Decided(event, approvals) && s.Counting(approvals) == {} && s.Change(event).Ok?
    ensures SamePeople(s, s.Change(event).value)
  {
    assert s.ApprovalsNeeded(event) == 0;
    assert event.PledgeChanged? || event.ProtocolSupported?;
  }

  /** Members outside the core admit, expel, rename and move nobody, however many they are. */
  lemma {:induction false} OutsidersChangeNobody(s: State, log: seq<Entry>, coalition: set<MemberId>)
    requires s.group.Some?
    requires coalition !! s.core.Keys && ApprovedOnlyBy(s, coalition)
    requires SignedOnlyBy(log, coalition)
    ensures SamePeople(s, Run(s, log))
    ensures Run(s, log).group.Some? && ApprovedOnlyBy(Run(s, log), coalition)
  {
    if log != [] {
      OutsidersChangeNobody(s, log[..|log| - 1], coalition);
      var now, last := Run(s, log[..|log| - 1]), log[|log| - 1];
      StepOutline(now, last);
      OutsidersMoveNobody(now, last, EffectOf(now, last), Step(now, last), coalition);
      ApprovalsStayIn(now, last, EffectOf(now, last), Step(now, last), coalition);
    }
  }

  /** The `k`-th entry of a campaign: the first of `quorum` proposes `event`, and each of the others
      approves it. */
  function CampaignEntry(s: State, event: Event, quorum: seq<MemberId>, k: nat): Entry
    requires k < |quorum|
  {
    Entry(s.changedAt + 1 + k,
          SignedEvent(if k == 0 then event else Approved(s.changedAt + 1), quorum[k], s.changedAt + k, true))
  }

  /** The first `k` entries of the campaign. */
  function Campaign(s: State, event: Event, quorum: seq<MemberId>, k: nat): seq<Entry>
    requires k <= |quorum|
  {
    if k == 0 then [] else Campaign(s, event, quorum, k - 1) + [CampaignEntry(s, event, quorum, k - 1)]
  }

  function Voices(quorum: seq<MemberId>): set<MemberId> {
    set i | 0 <= i < |quorum| :: quorum[i]
  }

  lemma {:induction false} DistinctVoices(quorum: seq<MemberId>)
    requires forall i, j | 0 <= i < j < |quorum| :: quorum[i] != quorum[j]
    ensures |Voices(quorum)| == |quorum|
  {
    if quorum != [] {
      var rest := quorum[..|quorum| - 1];
      DistinctVoices(rest);
      assert Voices(quorum) == Voices(rest) + {quorum[|quorum| - 1]};
    }
  }

  /** A state that is asked to become `voters` by exactly a majority of distinct voters. */
  ghost predicate CanCampaign(s: State, event: Event, quorum: seq<MemberId>) {
    s.pending == map[] && s.Change(event).Ok? && IsQuorum(s, event, quorum)
  }

  /** As many distinct voters as make more than half of all, and no more, for a change of who they are. */
  ghost predicate IsQuorum(s: State, event: Event, quorum: seq<MemberId>) {
    && s.group.Some? && s.core.Keys <= s.members.Keys
    && event.CoreGroupChanged? && s.ChangesTheVoters(event)
    && 2 * |quorum| > |s.core| >= 2 * (|quorum| - 1)
    && (forall i | 0 <= i < |quorum| :: quorum[i] in s.core)
    && (forall i, j | 0 <= i < j < |quorum| :: quorum[i] != quorum[j])
    && |quorum| <= s.settings.pendingExpiry + 1
  }

  /** What the campaign has reached after `k` entries. */
  function Reached(s: State, event: Event, quorum: seq<MemberId>, k: nat): State
    requires 0 < k <= |quorum|
  {
    s.(changedAt := s.changedAt + k, pending := map[s.changedAt + 1 := Proposal(event, quorum[0], Voices(quorum[..k]))])
  }

  lemma Opens(s: State, event: Event, quorum: seq<MemberId>)
    requires s.group.Some? && s.core.Keys <= s.members.Keys && s.pending == map[] && event.CoreGroupChanged?
    requires s.ChangesTheVoters(event) && |quorum| > 1 && quorum[0] in s.core && s.Majority() > 1
    ensures Step(s, CampaignEntry(s, event, quorum, 0)) == Reached(s, event, quorum, 1)
  {
    var who := quorum[0];
    assert Voices(quorum[..1]) == {who};
    assert s.Counting({who}) == {who};
    assert s.InTheWay(s.changedAt + 1, event) == {};
    var recorded := s.(pending := s.pending[s.changedAt + 1 := Proposal(event, who, {who})]);
    assert s.Submit(s.changedAt + 1, who, event) == Ok(recorded);
    assert recorded.Swept(s.changedAt + 1) == Reached(s, event, quorum, 1);
  }

  /** An approval that is allowed and does not decide is noted. */
  lemma IsNoted(now: State, entry: Entry, p: nat)
    requires now.group.Some? && p in now.pending && entry.signed.proposer in now.core
    requires entry.signed.proposer in now.members
    requires entry.signed == SignedEvent(Approved(p), entry.signed.proposer, now.changedAt, true)
    requires now.StillAllowed(entry.index, p, now.pending[p], entry.signed.proposer).Ok?
    requires !now.Decided(now.pending[p].event, now.pending[p].approvals + {entry.signed.proposer})
    ensures var noted := now.pending[p].(approvals := now.pending[p].approvals + {entry.signed.proposer});
      Step(now, entry) == now.(pending := now.pending[p := noted]).Swept(entry.index)
  {
    assert now.Approve(entry.index, p, entry.signed.proposer).Ok?;
  }

  lemma StillTooFew(s: State, event: Event, quorum: seq<MemberId>, k: nat)
    requires event.CoreGroupChanged? && s.ChangesTheVoters(event) && 1 < k < |quorum| == s.Majority()
    requires |Voices(quorum[..k])| == k
    ensures Voices(quorum[..k - 1]) + {quorum[k - 1]} == Voices(quorum[..k])
    ensures !Reached(s, event, quorum, k - 1).Decided(event, Voices(quorum[..k]))
  {
    var now, voices := Reached(s, event, quorum, k - 1), Voices(quorum[..k]);
    SubsetSize(now.Counting(voices), voices);
  }

  lemma Continues(s: State, event: Event, quorum: seq<MemberId>, k: nat)
    requires s.group.Some? && s.core.Keys <= s.members.Keys && event.CoreGroupChanged? && s.ChangesTheVoters(event)
    requires 1 < k < |quorum| == s.Majority() <= s.settings.pendingExpiry + 1
    requires |Voices(quorum[..k])| == k && quorum[0] in s.core && quorum[k - 1] in s.core
    ensures Step(Reached(s, event, quorum, k - 1), CampaignEntry(s, event, quorum, k - 1)) ==
      Reached(s, event, quorum, k)
  {
    var now, entry := Reached(s, event, quorum, k - 1), CampaignEntry(s, event, quorum, k - 1);
    StillTooFew(s, event, quorum, k);
    MayApprove(s, event, quorum, k - 1);
    IsNoted(now, entry, s.changedAt + 1);
    assert Step(now, entry).pending == Reached(s, event, quorum, k).pending;
  }

  /** The next of the quorum may approve. */
  lemma MayApprove(s: State, event: Event, quorum: seq<MemberId>, k: nat)
    requires event.CoreGroupChanged? && s.core.Keys <= s.members.Keys
    requires 0 < k < |quorum| <= s.settings.pendingExpiry + 1 && quorum[0] in s.core
    ensures var now, first := Reached(s, event, quorum, k), s.changedAt + 1;
      now.StillAllowed(first + k, first, now.pending[first], quorum[k]).Ok?
  {
  }

  lemma Concludes(s: State, event: Event, quorum: seq<MemberId>)
    requires s.group.Some? && s.core.Keys <= s.members.Keys && event.CoreGroupChanged? && s.Change(event).Ok?
    requires 1 < |quorum| == s.Majority() <= s.settings.pendingExpiry + 1
    requires Voices(quorum) <= s.core.Keys && |Voices(quorum)| == |quorum| && quorum[0] in s.core &&
      quorum[|quorum| - 1] in s.core
    ensures Step(Reached(s, event, quorum, |quorum| - 1), CampaignEntry(s, event, quorum, |quorum| - 1)).core ==
      Folded(event.core)
  {
    var n := |quorum|;
    var now := Reached(s, event, quorum, n - 1);
    var first := s.changedAt + 1;
    LastVoiceDecides(s, event, quorum);
    MayApprove(s, event, quorum, n - 1);
    ChangeIgnoresWaiting(s.(changedAt := now.changedAt), now.pending, event);
    ApprovalEnacts(now, CampaignEntry(s, event, quorum, n - 1), first);
  }

  lemma LastVoiceDecides(s: State, event: Event, quorum: seq<MemberId>)
    requires event.CoreGroupChanged? && 1 < |quorum| == s.Majority()
    requires Voices(quorum) <= s.core.Keys && |Voices(quorum)| == |quorum|
    ensures Reached(s, event, quorum, |quorum| - 1).Decided(event,
      Voices(quorum[..|quorum| - 1]) + {quorum[|quorum| - 1]})
  {
    var now, voices := Reached(s, event, quorum, |quorum| - 1), Voices(quorum[..|quorum| - 1]) + {quorum[|quorum| - 1]};
    assert voices == Voices(quorum);
    assert now.Counting(voices) == voices;
  }

  lemma LeadsTo(s: State, log: seq<Entry>, before: State, entry: Entry, after: State)
    requires Run(s, log) == before && Step(before, entry) == after
    ensures Run(s, log + [entry]) == after
  {
    RunThen(s, log, entry);
  }

  lemma CampaignOpens(s: State, event: Event, quorum: seq<MemberId>)
    requires IsQuorum(s, event, quorum) && s.pending == map[] && |quorum| > 1
    ensures Run(s, Campaign(s, event, quorum, 1)) == Reached(s, event, quorum, 1)
  {
    Opens(s, event, quorum);
    LeadsTo(s, [], s, CampaignEntry(s, event, quorum, 0), Reached(s, event, quorum, 1));
  }

  lemma CampaignContinues(s: State, log: seq<Entry>, event: Event, quorum: seq<MemberId>, k: nat)
    requires IsQuorum(s, event, quorum) && 1 < k < |quorum|
    requires Run(s, log) == Reached(s, event, quorum, k - 1)
    ensures Run(s, log + [CampaignEntry(s, event, quorum, k - 1)]) == Reached(s, event, quorum, k)
  {
    DistinctVoices(quorum[..k]);
    Continues(s, event, quorum, k);
    RunThen(s, log, CampaignEntry(s, event, quorum, k - 1));
  }

  lemma {:induction false} CampaignSoFar(s: State, event: Event, quorum: seq<MemberId>, k: nat)
    requires IsQuorum(s, event, quorum) && s.pending == map[] && 1 <= k < |quorum|
    ensures Run(s, Campaign(s, event, quorum, k)) == Reached(s, event, quorum, k)
    decreases k
  {
    if k == 1 {
      CampaignOpens(s, event, quorum);
    } else {
      CampaignSoFar(s, event, quorum, k - 1);
      CampaignContinues(s, Campaign(s, event, quorum, k - 1), event, quorum, k);
    }
  }

  lemma CampaignConcludes(s: State, event: Event, quorum: seq<MemberId>, before: State, entry: Entry)
    requires |quorum| > 0 && entry == CampaignEntry(s, event, quorum, |quorum| - 1)
    requires before == Run(s, Campaign(s, event, quorum, |quorum| - 1))
    requires event.CoreGroupChanged? && Step(before, entry).core == Folded(event.core)
    ensures Run(s, Campaign(s, event, quorum, |quorum|)).core == Folded(event.core)
  {
    RunThen(s, Campaign(s, event, quorum, |quorum| - 1), entry);
  }

  /** The bound is tight: a majority of distinct voters can make any valid set of voters the core,
      each signing one entry, if the group lets proposals wait that long. */
  lemma MajorityChangesTheVoters(s: State, event: Event, quorum: seq<MemberId>)
    requires CanCampaign(s, event, quorum)
    ensures Run(s, Campaign(s, event, quorum, |quorum|)).core == Folded(event.core)
  {
    if |quorum| == 1 {
      AloneChangesTheVoters(s, event, quorum[0], CampaignEntry(s, event, quorum, 0));
      CampaignConcludes(s, event, quorum, s, CampaignEntry(s, event, quorum, 0));
    } else {
      TogetherChangeTheVoters(s, event, quorum);
    }
  }

  lemma TogetherChangeTheVoters(s: State, event: Event, quorum: seq<MemberId>)
    requires CanCampaign(s, event, quorum) && |quorum| > 1
    ensures Run(s, Campaign(s, event, quorum, |quorum|)).core == Folded(event.core)
  {
    var n := |quorum|;
    DistinctVoices(quorum);
    CampaignSoFar(s, event, quorum, n - 1);
    Concludes(s, event, quorum);
    CampaignConcludes(s, event, quorum, Reached(s, event, quorum, n - 1), CampaignEntry(s, event, quorum, n - 1));
  }

  lemma AloneChangesTheVoters(s: State, event: Event, who: MemberId, entry: Entry)
    requires s.group.Some? && s.core.Keys <= s.members.Keys && who in s.core && s.Majority() == 1
    requires event.CoreGroupChanged? && s.Change(event).Ok?
    requires entry.signed == SignedEvent(event, who, s.changedAt, true)
    ensures Step(s, entry).core == Folded(event.core)
  {
    assert s.OwnApproval(who, event) == {who};
    assert s.Counting({who}) == {who};
    assert s.Submit(entry.index, who, event) == s.Enact(event);
  }
}
