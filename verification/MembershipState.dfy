/** The fold run in place, as crates/distlib-consensus/src/state.rs does: fields rewritten one at a
    time, a proposal taken out while its approval is judged and put back when it is refused. */
module MembershipInPlace {
  import opened Common
  import opened Membership

  /** What a method that may refuse promises: the change the rules say, or the state untouched and
      the rules' own refusal. */
  ghost predicate Obeys(verdict: Result<(), Error>, before: State, after: State, rules: Result<State, Error>) {
    match rules
    case Ok(next) => verdict == Ok(()) && after == next
    case Err(error) => verdict == Err(error) && after == before
  }

  /** What is waiting has no part in whether an approval is allowed, or decides. */
  lemma JudgedTheSame(s: State, waiting: map<nat, Proposal>, index: nat, p: nat, entry: Proposal, approver: MemberId)
    ensures s.(pending := waiting).StillAllowed(index, p, entry, approver) == s.StillAllowed(index, p, entry, approver)
  {
    var t := s.(pending := waiting);
    if entry.event.ProtocolRaised? {
      var to := entry.event.to;
      assert (set m | m in s.core.Keys && !s.Speaks(m, to)) == (set m | m in t.core.Keys && !t.Speaks(m, to));
    }
  }

  /** Judging an approval with its proposal taken out comes to the same. */
  lemma ApproveIs(was: State, bare: State, index: nat, p: nat, approver: MemberId)
    requires p in was.pending && bare == was.(pending := was.pending - {p})
    ensures var entry := was.pending[p];
      var allowed, approvals := bare.StillAllowed(index, p, entry, approver), entry.approvals + {approver};
      was.Approve(index, p, approver) ==
        if allowed.Err? then Err(allowed.error)
        else if !bare.Decided(entry.event, approvals) then
          Ok(was.(pending := was.pending[p := entry.(approvals := approvals)]))
        else bare.Enact(entry.event)
  {
    var entry := was.pending[p];
    JudgedTheSame(was, bare.pending, index, p, entry, approver);
    assert bare.Decided(entry.event, entry.approvals + {approver}) ==
      was.Decided(entry.event, entry.approvals + {approver});
  }

  /** Those waiting that a change about `about` leaves in place. */
  function Kept(pending: map<nat, Proposal>, about: Option<Subject>, before: map<MemberId, NodeAddr>,
      now: map<MemberId, NodeAddr>): map<nat, Proposal> {
    map p | p in pending && Keeps(pending[p].event, about, before, now) :: pending[p]
  }

  lemma EnactIs(was: State, event: Event)
    requires was.Change(event).Ok?
    ensures var now := was.Change(event).value;
      was.Enact(event) == Ok(now.(pending := Kept(was.pending, SubjectOf(event), was.core, now.core)))
  {
    var now := was.Change(event).value;
    assert was.Enact(event).value.pending == Kept(was.pending, SubjectOf(event), was.core, now.core);
  }

  class MembershipState {
    var group: Option<nat>
    var members: map<MemberId, MemberRecord>
    var core: map<MemberId, NodeAddr>
    var pending: map<nat, Proposal>
    var changedAt: nat
    var settings: GroupSettings
    var protocol: nat

    function View(): State
      reads this
    {
      State(group, members, core, pending, changedAt, settings, protocol)
    }

    constructor ()
      ensures View() == EMPTY
    {
      group, members, core, pending, changedAt, settings, protocol := None, map[], map[], map[], 0, DEFAULT_SETTINGS, 0;
    }

    /** `State.Apply` in place. */
    method Apply(index: nat, signed: SignedEvent) returns (verdict: Result<(), Error>)
      modifies this
      ensures Obeys(verdict, old(View()), View(), old(View()).Apply(index, signed))
    {
      if !signed.verifies {
        return Err(BadSignature(signed.proposer));
      }
      if signed.changedAt != changedAt {
        return Err(StaleProposal(signed.changedAt, changedAt));
      }
      var event := signed.event;
      if event.GroupFounded? {
        verdict := Found(event.groupId, event.founders, event.settings, signed.proposer);
      } else {
        if group.None? {
          return Err(NotFounded);
        }
        if signed.proposer !in members {
          return Err(ProposerNotAMember(signed.proposer));
        }
        var authorised := View().Authorise(signed.proposer, event);
        if authorised.Err? {
          return authorised;
        }
        if event.Approved? {
          verdict := Approve(index, event.proposal, signed.proposer);
        } else if event.Withdrawn? {
          verdict := Withdraw(event.proposal, signed.proposer);
        } else {
          verdict := Submit(index, signed.proposer, event);
        }
      }
      assert Obeys(verdict, old(View()), View(), old(View()).Dispatch(index, signed));
      if verdict.Err? {
        return;
      }
      changedAt := index;
      var expiry := settings.pendingExpiry;
      pending := map p | p in pending && SaturatingSub(index, p) < expiry :: pending[p];
    }

    /** `State.Submit` in place. */
    method Submit(index: nat, proposer: MemberId, event: Event) returns (verdict: Result<(), Error>)
      modifies this
      ensures Obeys(verdict, old(View()), View(), old(View()).Submit(index, proposer, event))
    {
      var approvals := {};
      if proposer in core && Target(event) != Some(proposer) {
        approvals := approvals + {proposer};
      }
      if View().Decided(event, approvals) {
        verdict := Enact(event);
        return;
      }
      var waiting := View().InTheWay(index, event);
      if waiting != {} {
        return Err(AlreadyPending(Least(waiting)));
      }
      pending := pending[index := Proposal(event, proposer, approvals)];
      return Ok(());
    }

    /** `State.Approve` in place. The proposal is out of `pending` while it is judged. */
    method Approve(index: nat, proposal: nat, approver: MemberId) returns (verdict: Result<(), Error>)
      modifies this
      ensures Obeys(verdict, old(View()), View(), old(View()).Approve(index, proposal, approver))
    {
      if proposal !in pending {
        return Err(UnknownProposal(proposal));
      }
      ghost var was := View();
      var entry := pending[proposal];
      pending := pending - {proposal};
      assert pending[proposal := entry] == was.pending;

      ApproveIs(was, View(), index, proposal, approver);
      var allowed := View().StillAllowed(index, proposal, entry, approver);
      if allowed.Err? {
        pending := pending[proposal := entry];
        return allowed;
      }
      var approvals := entry.approvals + {approver};
      if !View().Decided(entry.event, approvals) {
        pending := pending[proposal := entry.(approvals := approvals)];
        assert pending == was.pending[proposal := entry.(approvals := approvals)];
        return Ok(());
      }
      verdict := EnactOrPutBack(proposal, entry);
    }

    /** Enacts what was taken out from among those waiting, or puts it back where it was. */
    method EnactOrPutBack(proposal: nat, entry: Proposal) returns (verdict: Result<(), Error>)
      modifies this
      ensures Obeys(verdict, old(View()).(pending := old(pending)[proposal := entry]), View(),
        old(View()).Enact(entry.event))
    {
      verdict := Enact(entry.event);
      if verdict.Err? {
        pending := pending[proposal := entry];
      }
    }

    method Withdraw(proposal: nat, member: MemberId) returns (verdict: Result<(), Error>)
      modifies this
      ensures Obeys(verdict, old(View()), View(), old(View()).Withdraw(proposal, member))
    {
      if proposal !in pending {
        return Err(UnknownProposal(proposal));
      }
      if pending[proposal].proposer != member {
        return Err(NotTheProposer(member, proposal));
      }
      pending := pending - {proposal};
      return Ok(());
    }

    /** `State.Enact` in place. */
    method Enact(event: Event) returns (verdict: Result<(), Error>)
      modifies this
      ensures Obeys(verdict, old(View()), View(), old(View()).Enact(event))
    {
      var before := core;
      ghost var was := View();
      verdict := ApplyToFoundedGroup(event);
      if verdict.Err? {
        return;
      }
      var about := SubjectOf(event);
      EnactIs(was, event);
      pending := Kept(pending, about, before, core);
    }

    method ApplyToFoundedGroup(event: Event) returns (verdict: Result<(), Error>)
      modifies this
      ensures Obeys(verdict, old(View()), View(), old(View()).Change(event))
    {
      match event {
        case GroupFounded(_, _, _) => return Err(AlreadyFounded);
        case MemberAdded(profile) =>
          var pledgeBytes, protocolMax := 0, FIRST_PROTOCOL;
          if profile.memberId in members {
            var had := members[profile.memberId];
            pledgeBytes, protocolMax := had.pledgeBytes, had.protocolMax;
          }
          members := members[profile.memberId := MemberRecord(profile.memberId, profile.displayName, pledgeBytes,
            protocolMax)];
        case MemberExpelled(member, _) =>
          if member !in members {
            return Err(UnknownMember(member));
          }
          members := members - {member};
          core := core - {member};
        case PledgeChanged(member, pledgeBytes) =>
          if member !in members {
            return Err(UnknownMember(member));
          }
          members := members[member := members[member].(pledgeBytes := pledgeBytes)];
        case CoreGroupChanged(voters) =>
          if voters == [] || exists i | 0 <= i < |voters| :: voters[i].0 !in members {
            return Err(InvalidCoreGroup);
          }
          var folded := Folded(voters);
          if |folded| != |voters| {
            return Err(InvalidCoreGroup);
          }
          var supported := View().CoreSupports(folded.Keys, protocol);
          if supported.Err? {
            return supported;
          }
          core := folded;
        case ProtocolSupported(member, max) =>
          if member !in members {
            return Err(UnknownMember(member));
          }
          members := members[member := members[member].(protocolMax := max)];
        case ProtocolRaised(to) => protocol := to;
        case Approved(_) => return Err(NotAMembershipChange);
        case Withdrawn(_) => return Err(NotAMembershipChange);
      }
      return Ok(());
    }

    method Found(groupId: nat, founders: seq<Founder>, chosen: GroupSettings, proposer: MemberId)
        returns (verdict: Result<(), Error>)
      modifies this
      ensures Obeys(verdict, old(View()), View(), old(View()).Found(groupId, founders, chosen, proposer))
    {
      if group.Some? {
        return Err(AlreadyFounded);
      }
      var ids := CheckedIds(founders);
      if ids.Err? {
        return Err(ids.error);
      }
      var agreed := CheckSettings(chosen);
      if agreed.Err? {
        return agreed;
      }
      if proposer !in FounderIds(founders) {
        return Err(FounderNotIncluded(proposer));
      }
      group := Some(groupId);
      settings := chosen;
      protocol := FIRST_PROTOCOL;
      members := FoundingMembers(founders);
      core := Folded(FoundingCore(founders));
      return Ok(());
    }
  }

  ghost predicate Ascending(ids: seq<MemberId>) {
    forall i, j | 0 <= i < j < |ids| :: ids[i] <= ids[j]
  }

  /** What sorting does to a list of ids: the same ids, ascending. */
  method Sorted(ids: seq<MemberId>) returns (sorted: seq<MemberId>)
    ensures Ascending(sorted) && multiset(sorted) == multiset(ids)
  {
    sorted := [];
    for n := 0 to |ids|
      invariant Ascending(sorted) && multiset(sorted) == multiset(ids[..n])
    {
      assert ids[..n + 1] == ids[..n] + [ids[n]];
      sorted := Inserted(sorted, ids[n]);
    }
    assert ids[..|ids|] == ids;
  }

  method Inserted(sorted: seq<MemberId>, id: MemberId) returns (more: seq<MemberId>)
    requires Ascending(sorted)
    ensures Ascending(more) && multiset(more) == multiset(sorted) + multiset{id}
  {
    var at := 0;
    while at < |sorted| && sorted[at] <= id
      invariant at <= |sorted| && forall i | 0 <= i < at :: sorted[i] <= id
    {
      at := at + 1;
    }
    more := sorted[..at] + [id] + sorted[at..];
    InsertedAscends(sorted, at, id);
    InsertedHolds(sorted, at, id);
  }

  lemma InsertedAscends(sorted: seq<MemberId>, at: nat, id: MemberId)
    requires Ascending(sorted) && at <= |sorted|
    requires forall i | 0 <= i < at :: sorted[i] <= id
    requires at < |sorted| ==> id < sorted[at]
    ensures Ascending(sorted[..at] + [id] + sorted[at..])
  {
    var more := sorted[..at] + [id] + sorted[at..];
    forall i, j | 0 <= i < j < |more| ensures more[i] <= more[j] {
      if i < at {
        assert more[i] == sorted[i];
      } else if i > at {
        assert more[i] == sorted[i - 1];
      }
      if j < at {
        assert more[j] == sorted[j];
      } else if j > at {
        assert more[j] == sorted[j - 1];
      }
    }
  }

  lemma InsertedHolds(sorted: seq<MemberId>, at: nat, id: MemberId)
    requires at <= |sorted|
    ensures multiset(sorted[..at] + [id] + sorted[at..]) == multiset(sorted) + multiset{id}
  {
    assert sorted == sorted[..at] + sorted[at..];
  }

  /** `CheckFounders` by sorting: of neighbours that are equal, the first pair is the least id that
      occurs twice. */
  method CheckedIds(founders: seq<Founder>) returns (ids: Result<seq<MemberId>, Error>)
    ensures ids.Err? <==> CheckFounders(founders).Err?
    ensures ids.Err? ==> ids.error == CheckFounders(founders).error
    ensures ids.Ok? ==> Ascending(ids.value) && multiset(ids.value) == multiset(FounderIds(founders))
    ensures ids.Ok? ==> forall i, j | 0 <= i < j < |ids.value| :: ids.value[i] != ids.value[j]
  {
    if founders == [] {
      return Err(NoFounders);
    }
    var given := FounderIds(founders);
    var sorted := Sorted(given);
    for k := 1 to |sorted|
      invariant forall i, j | 0 <= i < j < k && j < |sorted| :: sorted[i] < sorted[j]
    {
      if sorted[k - 1] == sorted[k] {
        FirstPairIsLeastRepeated(given, sorted, k);
        return Err(DuplicateFounder(sorted[k]));
      }
    }
    NoPairNoRepeated(given, sorted);
    return Ok(sorted);
  }

  lemma {:induction false} CountOf(ids: seq<MemberId>, x: MemberId)
    ensures multiset(ids)[x] >= 2 <==> x in Repeated(ids)
  {
    if ids != [] {
      var rest, last := ids[..|ids| - 1], ids[|ids| - 1];
      assert ids == rest + [last];
      CountOf(rest, x);
      if x == last && x in rest {
        var i :| 0 <= i < |rest| && rest[i] == x;
        assert ids[i] == ids[|rest|];
      }
      if x in Repeated(ids) {
        var i, j :| 0 <= i < j < |ids| && ids[i] == ids[j] && ids[i] == x;
        assert rest[i] == x;
        assert j < |rest| ==> rest[j] == x;
      }
      if x in Repeated(rest) {
        var i, j :| 0 <= i < j < |rest| && rest[i] == rest[j] && rest[i] == x;
        assert ids[i] == ids[j];
      }
    }
  }

  lemma FirstPairIsLeastRepeated(given: seq<MemberId>, sorted: seq<MemberId>, k: nat)
    requires Ascending(sorted) && multiset(sorted) == multiset(given)
    requires 0 < k < |sorted| && sorted[k - 1] == sorted[k]
    requires forall i, j | 0 <= i < j < k :: sorted[i] < sorted[j]
    ensures Repeated(given) != {} && Least(Repeated(given)) == sorted[k]
  {
    assert sorted[k] in Repeated(sorted);
    forall x ensures x in Repeated(given) <==> x in Repeated(sorted) {
      CountOf(given, x);
      CountOf(sorted, x);
    }
    forall x | x in Repeated(sorted) ensures sorted[k] <= x {
      var i, j :| 0 <= i < j < |sorted| && sorted[i] == sorted[j] && sorted[i] == x;
    }
  }

  lemma NoPairNoRepeated(given: seq<MemberId>, sorted: seq<MemberId>)
    requires multiset(sorted) == multiset(given)
    requires forall i, j | 0 <= i < j < |sorted| :: sorted[i] < sorted[j]
    ensures Repeated(given) == {}
  {
    forall x ensures x !in Repeated(given) {
      CountOf(given, x);
      CountOf(sorted, x);
    }
  }
}
