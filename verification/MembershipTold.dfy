/** Who the group is, told from the changes that took effect, read from the last of them. */
module MembershipTold {
  import opened Common
  import opened Membership
  import opened MembershipInvariants

  /** The change an entry puts into effect: at most one. */
  ghost function Effected(s: State, entry: Entry): seq<Event> {
    match EffectOf(s, entry)
    case Founding => [entry.signed.event]
    case Enacting(event, _, _, _) => [event]
    case _ => []
  }

  /** The changes a log puts into effect, in order. */
  ghost function Changes(s: State, log: seq<Entry>): seq<Event> {
    if log == [] then []
    else Changes(s, log[..|log| - 1]) + Effected(Run(s, log[..|log| - 1]), log[|log| - 1])
  }

  // ----- What the changes say, read from their end -----

  predicate AmongFounders(founders: seq<Founder>, m: MemberId) {
    exists i | 0 <= i < |founders| :: founders[i].0.memberId == m
  }

  /** What the list of founders calls `m`. */
  function NameAmong(founders: seq<Founder>, m: MemberId): string {
    if founders == [] then ""
    else
      var last := founders[|founders| - 1].0;
      if last.memberId == m then last.displayName else NameAmong(founders[..|founders| - 1], m)
  }

  /** Where a list of voters has `m`. */
  function AddressIn(voters: seq<(MemberId, NodeAddr)>, m: MemberId): Option<NodeAddr> {
    if voters == [] then None
    else
      var last := voters[|voters| - 1];
      if last.0 == m then Some(last.1) else AddressIn(voters[..|voters| - 1], m)
  }

  function FounderAddress(founders: seq<Founder>, m: MemberId): Option<NodeAddr> {
    if founders == [] then None
    else
      var last := founders[|founders| - 1];
      if last.0.memberId == m then Some(last.1) else FounderAddress(founders[..|founders| - 1], m)
  }

  /** Whether `m` was admitted, or founded the group, and has not been expelled since. */
  predicate IsIn(changes: seq<Event>, m: MemberId) {
    changes != [] &&
    var last, rest := changes[|changes| - 1], changes[..|changes| - 1];
    match last
    case GroupFounded(_, founders, _) => AmongFounders(founders, m)
    case MemberAdded(profile) => profile.memberId == m || IsIn(rest, m)
    case MemberExpelled(expelled, _) => expelled != m && IsIn(rest, m)
    case _ => IsIn(rest, m)
  }

  /** The name `m` was last added, or founded the group, under. */
  function NameOf(changes: seq<Event>, m: MemberId): string {
    if changes == [] then ""
    else
      var last, rest := changes[|changes| - 1], changes[..|changes| - 1];
      match last
      case GroupFounded(_, founders, _) => NameAmong(founders, m)
      case MemberAdded(profile) => if profile.memberId == m then profile.displayName else NameOf(rest, m)
      case _ => NameOf(rest, m)
  }

  /** What `m` last pledged, since it was last expelled if it was: nothing before it has pledged. */
  function PledgeOf(changes: seq<Event>, m: MemberId): nat {
    if changes == [] then 0
    else
      var last, rest := changes[|changes| - 1], changes[..|changes| - 1];
      match last
      case GroupFounded(_, _, _) => 0
      case MemberExpelled(expelled, _) => if expelled == m then 0 else PledgeOf(rest, m)
      case PledgeChanged(member, pledge) => if member == m then pledge else PledgeOf(rest, m)
      case _ => PledgeOf(rest, m)
  }

  /** The protocol `m` last said it speaks, since it was last expelled if it was: the first before that. */
  function SpeaksOf(changes: seq<Event>, m: MemberId): nat {
    if changes == [] then 1
    else
      var last, rest := changes[|changes| - 1], changes[..|changes| - 1];
      match last
      case GroupFounded(_, _, _) => 1
      case MemberExpelled(expelled, _) => if expelled == m then 1 else SpeaksOf(rest, m)
      case ProtocolSupported(member, max) => if member == m then max else SpeaksOf(rest, m)
      case _ => SpeaksOf(rest, m)
  }

  /** Where `m` votes: where the last set of voters has it, unless it was expelled since. */
  function AddressOf(changes: seq<Event>, m: MemberId): Option<NodeAddr> {
    if changes == [] then None
    else
      var last, rest := changes[|changes| - 1], changes[..|changes| - 1];
      match last
      case GroupFounded(_, founders, _) => FounderAddress(founders, m)
      case CoreGroupChanged(voters) => AddressIn(voters, m)
      case MemberExpelled(expelled, _) => if expelled == m then None else AddressOf(rest, m)
      case _ => AddressOf(rest, m)
  }

  /** The protocol last raised to: the first before that, and none before the founding. */
  function ProtocolOf(changes: seq<Event>): nat {
    if changes == [] then 0
    else
      var last, rest := changes[|changes| - 1], changes[..|changes| - 1];
      match last
      case GroupFounded(_, _, _) => 1
      case ProtocolRaised(to) => to
      case _ => ProtocolOf(rest)
  }

  /** The group and its settings, as the founding made them. */
  function FoundedAs(changes: seq<Event>): (Option<nat>, GroupSettings) {
    if changes == [] then (None, DEFAULT_SETTINGS)
    else
      match changes[|changes| - 1]
      case GroupFounded(groupId, _, settings) => (Some(groupId), settings)
      case _ => FoundedAs(changes[..|changes| - 1])
  }

  /** Whether `m` stands in `s` as the changes tell. */
  ghost predicate StandsAsTold(s: State, changes: seq<Event>, m: MemberId) {
    && Get(s.core, m) == AddressOf(changes, m)
    && (m in s.members <==> IsIn(changes, m))
    && if m in s.members then
         s.members[m] == MemberRecord(m, NameOf(changes, m), PledgeOf(changes, m), SpeaksOf(changes, m))
       else PledgeOf(changes, m) == 0 && SpeaksOf(changes, m) == 1
  }

  ghost predicate AsTold(s: State, changes: seq<Event>) {
    && (forall m :: StandsAsTold(s, changes, m))
    && s.protocol == ProtocolOf(changes) && (s.group, s.settings) == FoundedAs(changes)
  }

  lemma {:induction false} FoldedHas(voters: seq<(MemberId, NodeAddr)>, m: MemberId)
    ensures Get(Folded(voters), m) == AddressIn(voters, m)
  {
    if voters != [] {
      FoldedHas(voters[..|voters| - 1], m);
    }
  }

  lemma {:induction false} FoundersHave(founders: seq<Founder>, m: MemberId)
    ensures Get(FoundingMembers(founders), m) ==
      if AmongFounders(founders, m) then Some(MemberRecord(m, NameAmong(founders, m), 0, 1)) else None
  {
    if founders != [] {
      var n := |founders| - 1;
      FoundersHave(founders[..n], m);
      AmongOneMore(founders, m);
    }
  }

  lemma AmongOneMore(founders: seq<Founder>, m: MemberId)
    requires founders != []
    ensures var n := |founders| - 1;
      AmongFounders(founders, m) <==> founders[n].0.memberId == m || AmongFounders(founders[..n], m)
  {
    assert forall i | 0 <= i < |founders| - 1 :: founders[..|founders| - 1][i] == founders[i];
  }

  lemma FoundersOneFewer(founders: seq<Founder>)
    requires founders != []
    ensures var n := |founders| - 1;
      FoundingCore(founders) == FoundingCore(founders[..n]) + [(founders[n].0.memberId, founders[n].1)]
    ensures FoundingCore(founders)[..|founders| - 1] == FoundingCore(founders[..|founders| - 1])
  {
  }

  lemma {:induction false} FoundersAt(founders: seq<Founder>, m: MemberId)
    ensures AddressIn(FoundingCore(founders), m) == FounderAddress(founders, m)
  {
    if founders != [] {
      FoundersAt(founders[..|founders| - 1], m);
      FoundersOneFewer(founders);
    }
  }

  lemma FoundersVote(founders: seq<Founder>, m: MemberId)
    ensures Get(Folded(FoundingCore(founders)), m) == FounderAddress(founders, m)
  {
    FoundersAt(founders, m);
    FoldedHas(FoundingCore(founders), m);
  }

  lemma FoundedAsTold(s: State, changes: seq<Event>, event: Event, proposer: MemberId, m: MemberId)
    requires event.GroupFounded? && s.Found(event.groupId, event.founders, event.settings, proposer).Ok?
    ensures StandsAsTold(s.Found(event.groupId, event.founders, event.settings, proposer).value, changes + [event], m)
  {
    assert (changes + [event])[..|changes|] == changes;
    FoundersHave(event.founders, m);
    FoundersVote(event.founders, m);
  }

  /** What one more change leaves to be told of `m` as it was, unless it is about `m`. */
  lemma OneMoreChange(changes: seq<Event>, event: Event)
    ensures (changes + [event])[..|changes|] == changes
  {
  }

  lemma AddedAsTold(s: State, changes: seq<Event>, event: Event, m: MemberId)
    requires StandsAsTold(s, changes, m) && event.MemberAdded?
    ensures StandsAsTold(s.Change(event).value, changes + [event], m)
  {
    OneMoreChange(changes, event);
  }

  lemma ExpelledAsTold(s: State, changes: seq<Event>, event: Event, m: MemberId)
    requires StandsAsTold(s, changes, m) && event.MemberExpelled? && s.Change(event).Ok?
    ensures StandsAsTold(s.Change(event).value, changes + [event], m)
  {
    OneMoreChange(changes, event);
  }

  lemma StandingAsTold(s: State, changes: seq<Event>, event: Event, m: MemberId)
    requires StandsAsTold(s, changes, m) && s.Change(event).Ok?
    requires event.PledgeChanged? || event.ProtocolSupported?
    ensures StandsAsTold(s.Change(event).value, changes + [event], m)
  {
    OneMoreChange(changes, event);
  }

  lemma VotersAsTold(s: State, changes: seq<Event>, event: Event, m: MemberId)
    requires StandsAsTold(s, changes, m) && s.Change(event).Ok?
    requires event.CoreGroupChanged? || event.ProtocolRaised?
    ensures StandsAsTold(s.Change(event).value, changes + [event], m)
  {
    OneMoreChange(changes, event);
    if event.CoreGroupChanged? {
      FoldedHas(event.core, m);
    }
  }

  lemma ChangedAsTold(s: State, changes: seq<Event>, event: Event, m: MemberId)
    requires StandsAsTold(s, changes, m) && s.Change(event).Ok?
    ensures StandsAsTold(s.Change(event).value, changes + [event], m)
  {
    match event
    case MemberAdded(_) => AddedAsTold(s, changes, event, m);
    case MemberExpelled(_, _) => ExpelledAsTold(s, changes, event, m);
    case CoreGroupChanged(_) => VotersAsTold(s, changes, event, m);
    case ProtocolRaised(_) => VotersAsTold(s, changes, event, m);
    case _ => StandingAsTold(s, changes, event, m);
  }

  lemma StandsInBoth(s: State, t: State, changes: seq<Event>, m: MemberId)
    requires StandsAsTold(s, changes, m) && t.core == s.core && t.members == s.members
    ensures StandsAsTold(t, changes, m)
  {
  }

  lemma FoundingIsAsTold(s: State, changes: seq<Event>, entry: Entry)
    requires EffectOf(s, entry).Founding?
    ensures AsTold(Step(s, entry), changes + [entry.signed.event])
  {
    StepDoes(s, entry);
    var event := entry.signed.event;
    var founded := s.Found(event.groupId, event.founders, event.settings, entry.signed.proposer).value;
    assert (changes + [event])[..|changes|] == changes;
    forall m ensures StandsAsTold(Step(s, entry), changes + [event], m) {
      FoundedAsTold(s, changes, event, entry.signed.proposer, m);
      StandsInBoth(founded, Step(s, entry), changes + [event], m);
    }
  }

  lemma ChangeIsAsTold(s: State, changes: seq<Event>, event: Event)
    requires AsTold(s, changes) && s.Change(event).Ok?
    ensures AsTold(s.Change(event).value, changes + [event])
  {
    assert (changes + [event])[..|changes|] == changes;
    forall m ensures StandsAsTold(s.Change(event).value, changes + [event], m) {
      ChangedAsTold(s, changes, event, m);
    }
  }

  lemma AsToldInBoth(s: State, t: State, changes: seq<Event>)
    requires AsTold(s, changes) && t == s.(pending := t.pending, changedAt := t.changedAt)
    ensures AsTold(t, changes)
  {
    forall m ensures StandsAsTold(t, changes, m) {
      StandsInBoth(s, t, changes, m);
    }
  }

  lemma StepIsAsTold(s: State, changes: seq<Event>, entry: Entry)
    requires AsTold(s, changes)
    ensures AsTold(Step(s, entry), changes + Effected(s, entry))
  {
    StepOutline(s, entry);
    match EffectOf(s, entry)
    case Founding => FoundingIsAsTold(s, changes, entry);
    case Enacting(event, _, _, _) =>
      ChangeIsAsTold(s, changes, event);
      AsToldInBoth(s.Change(event).value, Step(s, entry), changes + [event]);
    case _ =>
      assert changes + [] == changes;
      AsToldInBoth(s, Step(s, entry), changes);
  }

  /** Over every log: who is a member, under what name and with what pledge, who votes and where, and
      what the group speaks, are what the changes that took effect tell, read from the last. */
  lemma {:induction false} EachStandsAsTold(log: seq<Entry>)
    ensures AsTold(Run(EMPTY, log), Changes(EMPTY, log))
  {
    if log != [] {
      EachStandsAsTold(log[..|log| - 1]);
      StepIsAsTold(Run(EMPTY, log[..|log| - 1]), Changes(EMPTY, log[..|log| - 1]), log[|log| - 1]);
    }
  }
}
