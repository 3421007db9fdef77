/** What a whole log guarantees: a late approval reverts no newer change of the voters, no signed
    entry counts twice, and folding a log again changes nothing. */
module MembershipHistory {
  import opened Common
  import opened Membership
  import opened MembershipInvariants

  /** Whether `now` still has each member `wants` names where `asked` had it, or already where it is
      wanted. */
  ghost predicate RevertsNothing(wants: map<MemberId, NodeAddr>, asked: map<MemberId, NodeAddr>,
      now: map<MemberId, NodeAddr>) {
    forall m | m in wants :: Get(now, m) == Get(asked, m) || Get(now, m) == Some(wants[m])
  }

  /** The voters when `log[i]` was folded. */
  ghost function CoreBefore(s: State, log: seq<Entry>, i: nat): map<MemberId, NodeAddr>
    requires i <= |log|
  {
    Run(s, log[..i]).core
  }

  /** `log[i]` is the entry at `p` that proposed `event`. */
  ghost predicate MadeAt(log: seq<Entry>, i: nat, p: nat, event: Event)
    requires i < |log|
  {
    log[i].index == p && log[i].signed.event == event
  }

  /** `log[i]` made the waiting proposal `p` of the voters `wants`, and nothing since has moved a
      member it names away from both. */
  ghost predicate StillCurrent(s: State, log: seq<Entry>, p: nat, event: Event, now: State, i: nat) {
    && event.CoreGroupChanged?
    && i < |log| && MadeAt(log, i, p, event)
    && RevertsNothing(Folded(event.core), CoreBefore(s, log, i), now.core)
  }

  ghost predicate AllCurrent(s: State, log: seq<Entry>, now: State) {
    forall p | p in now.pending && now.pending[p].event.CoreGroupChanged? ::
      exists i: nat :: StillCurrent(s, log, p, now.pending[p].event, now, i)
  }

  lemma SurvivingIsCurrent(s: State, enacted: Event, proposed: seq<(MemberId, NodeAddr)>,
      asked: map<MemberId, NodeAddr>, now: map<MemberId, NodeAddr>)
    requires s.Survives(CoreGroupChanged(proposed), enacted, now)
    requires RevertsNothing(Folded(proposed), asked, s.core)
    ensures RevertsNothing(Folded(proposed), asked, now)
  {
    var wants := Folded(proposed);
    forall m | m in wants ensures Get(now, m) == Get(asked, m) || Get(now, m) == Some(wants[m]) {
      if Get(s.core, m) != Get(now, m) {
        assert m in s.core.Keys + now.Keys;
      }
    }
  }

  lemma StepKeepsCurrent(s: State, log: seq<Entry>, now: State, entry: Entry, effect: Effect, next: State)
    requires now == Run(s, log) && AllCurrent(s, log, now)
    requires Outline(now, entry, effect, next)
    requires effect.Enacting? ==> forall p | p in next.pending ::
      now.Survives(now.pending[p].event, effect.event, next.core)
    requires now.pending == map[] || now.group.Some?
    ensures AllCurrent(s, log + [entry], next)
  {
    forall p | p in next.pending && next.pending[p].event.CoreGroupChanged?
      ensures exists i: nat :: StillCurrent(s, log + [entry], p, next.pending[p].event, next, i)
    {
      assert ComesFrom(now, entry, effect, p, next.pending[p]);
      if p in now.pending && next.pending[p].event == now.pending[p].event {
        var i: nat :| StillCurrent(s, log, p, now.pending[p].event, now, i);
        WaitsOn(s, log, now, entry, effect, next, p, i);
      } else {
        BeginsToWait(s, log, now, entry, next, p);
      }
    }
  }

  lemma WaitsOn(s: State, log: seq<Entry>, now: State, entry: Entry, effect: Effect, next: State, p: nat, i: nat)
    requires p in now.pending && StillCurrent(s, log, p, now.pending[p].event, now, i)
    requires next.core == now.core ||
      (effect.Enacting? && now.Survives(now.pending[p].event, effect.event, next.core))
    ensures StillCurrent(s, log + [entry], p, now.pending[p].event, next, i)
  {
    var event := now.pending[p].event;
    assert (log + [entry])[..i] == log[..i] && (log + [entry])[i] == log[i];
    if next.core != now.core {
      SurvivingIsCurrent(now, effect.event, event.core, CoreBefore(s, log, i), next.core);
    }
  }

  lemma BeginsToWait(s: State, log: seq<Entry>, now: State, entry: Entry, next: State, p: nat)
    requires now == Run(s, log) && next.core == now.core && p in next.pending
    requires p == entry.index && next.pending[p].event == entry.signed.event && entry.signed.event.CoreGroupChanged?
    ensures StillCurrent(s, log + [entry], p, next.pending[p].event, next, |log|)
  {
    assert (log + [entry])[..|log|] == log;
  }

  /** Over every run: whatever a waiting set of voters asks of a member it names, the member is
      still where it was when that was asked, or already where it is asked to be. */
  lemma {:induction false} EveryWaitingCoreIsCurrent(s: State, log: seq<Entry>)
    requires Sound(s) && s.pending == map[]
    ensures AllCurrent(s, log, Run(s, log))
  {
    if log != [] {
      var rest, last := log[..|log| - 1], log[|log| - 1];
      var now := Run(s, rest);
      EveryWaitingCoreIsCurrent(s, rest);
      EveryRunIsSound(s, rest);
      StepOutline(now, last);
      StepKeepsCurrent(s, rest, now, last, EffectOf(now, last), Step(now, last));
      assert rest + [last] == log;
    }
  }

  /** Whether `next` has each member that moved between `asked` and `now` where it moved to, or not
      at all. */
  ghost predicate KeepsMoves(asked: map<MemberId, NodeAddr>, now: map<MemberId, NodeAddr>,
      next: map<MemberId, NodeAddr>) {
    forall m | Get(now, m) != Get(asked, m) && m in next :: Get(next, m) == Get(now, m)
  }

  lemma CurrentKeepsMoves(wants: map<MemberId, NodeAddr>, asked: map<MemberId, NodeAddr>, now: map<MemberId, NodeAddr>)
    requires RevertsNothing(wants, asked, now)
    ensures KeepsMoves(asked, now, wants)
  {
  }

  lemma CompletionKeepsMoves(s: State, log: seq<Entry>, now: State, entry: Entry, effect: Effect, next: State)
    requires now == Run(s, log) && AllCurrent(s, log, now) && Outline(now, entry, effect, next)
    requires effect.Enacting? && effect.via.Some? && effect.event.CoreGroupChanged?
    ensures exists i: nat ::
      i < |log| && MadeAt(log, i, effect.via.value, effect.event) &&
      KeepsMoves(CoreBefore(s, log, i), now.core, next.core)
  {
    EnactedCore(now, entry, effect, next);
    MovesAreKept(s, log, now, effect.via.value, effect.event);
  }

  lemma EnactedCore(now: State, entry: Entry, effect: Effect, next: State)
    requires Outline(now, entry, effect, next)
    requires effect.Enacting? && effect.via.Some? && effect.event.CoreGroupChanged?
    ensures effect.via.value in now.pending && now.pending[effect.via.value].event == effect.event
    ensures next.core == Folded(effect.event.core)
  {
  }

  lemma MovesAreKept(s: State, log: seq<Entry>, now: State, p: nat, event: Event)
    requires now == Run(s, log) && AllCurrent(s, log, now)
    requires p in now.pending && now.pending[p].event == event && event.CoreGroupChanged?
    ensures exists i: nat ::
      i < |log| && MadeAt(log, i, p, event) && KeepsMoves(CoreBefore(s, log, i), now.core, Folded(event.core))
  {
    var i: nat :| StillCurrent(s, log, p, event, now, i);
    CurrentKeepsMoves(Folded(event.core), CoreBefore(s, log, i), now.core);
  }

  /** So the approval that completes a waiting set of voters, however late, leaves alone every
      member that moved since the proposal was made: it keeps the move, or drops the member. */
  lemma LateApprovalRevertsNothing(s: State, log: seq<Entry>, entry: Entry)
    requires Sound(s) && s.pending == map[]
    requires EffectOf(Run(s, log), entry).Enacting? && EffectOf(Run(s, log), entry).via.Some?
    requires EffectOf(Run(s, log), entry).event.CoreGroupChanged?
    ensures exists i: nat ::
      i < |log| && MadeAt(log, i, EffectOf(Run(s, log), entry).via.value, EffectOf(Run(s, log), entry).event) &&
              KeepsMoves(CoreBefore(s, log, i), Run(s, log).core, Step(Run(s, log), entry).core)
  {
    EveryWaitingCoreIsCurrent(s, log);
    StepOutline(Run(s, log), entry);
    CompletionKeepsMoves(s, log, Run(s, log), entry, EffectOf(Run(s, log), entry), Step(Run(s, log), entry));
  }

  lemma StepAlong(s: State, log: seq<Entry>, k: nat)
    requires k < |log|
    ensures Run(s, log[..k + 1]) == Step(Run(s, log[..k]), log[k])
    ensures Run(s, log[..k + 1]) == Run(s, log[..k]) || Run(s, log[..k + 1]).changedAt == log[k].index
  {
    assert log[..k + 1][..k] == log[..k];
    StepMovesOn(Run(s, log[..k]), log[k]);
  }

  /** Along a run in order, the state was last changed before any entry still to come. */
  lemma {:induction false} BehindTheRest(s: State, log: seq<Entry>, k: nat)
    requires InOrder(s, log) && k <= |log|
    ensures forall j | k <= j < |log| :: Run(s, log[..k]).changedAt < log[j].index
  {
    if k == 0 {
      assert log[..0] == [];
    } else {
      BehindTheRest(s, log, k - 1);
      StepAlong(s, log, k - 1);
    }
  }

  /** Along a run in order, what the state was last changed at says which state it is. */
  lemma {:induction false} ChangedAtNamesTheState(s: State, log: seq<Entry>, i: nat, k: nat)
    requires InOrder(s, log) && i <= k <= |log|
    ensures Run(s, log[..i]).changedAt <= Run(s, log[..k]).changedAt
    ensures Run(s, log[..k]).changedAt == Run(s, log[..i]).changedAt ==> Run(s, log[..k]) == Run(s, log[..i])
    ensures Run(s, log[..k]).changedAt != Run(s, log[..i]).changedAt ==> log[i].index <= Run(s, log[..k]).changedAt
    decreases k
  {
    if i < k {
      ChangedAtNamesTheState(s, log, i, k - 1);
      var before, after := LastStep(s, log, k);
      NamesStill(Run(s, log[..i]), before, after, log[i].index, log[k - 1].index);
    }
  }

  lemma LastStep(s: State, log: seq<Entry>, k: nat) returns (before: State, after: State)
    requires InOrder(s, log) && 0 < k <= |log|
    ensures before == Run(s, log[..k - 1]) && after == Run(s, log[..k])
    ensures before.changedAt < log[k - 1].index && (after == before || after.changedAt == log[k - 1].index)
  {
    before, after := Run(s, log[..k - 1]), Run(s, log[..k]);
    StepAlong(s, log, k - 1);
    BehindTheRest(s, log, k - 1);
  }

  lemma NamesStill(first: State, before: State, after: State, low: nat, high: nat)
    requires first.changedAt <= before.changedAt < high && low <= high
    requires if before.changedAt == first.changedAt then before == first else low <= before.changedAt
    requires after == before || after.changedAt == high
    ensures first.changedAt <= after.changedAt
    ensures if after.changedAt == first.changedAt then after == first else low <= after.changedAt
  {
  }

  lemma StepMovesOn(s: State, entry: Entry)
    ensures Step(s, entry) == s || Step(s, entry).changedAt == entry.index
  {
    StepOutline(s, entry);
  }

  /** Whether the `i`-th entry of `log` was accepted when it was folded. */
  ghost predicate AcceptedAt(s: State, log: seq<Entry>, i: nat)
    requires i < |log|
  {
    Run(s, log[..i]).Apply(log[i].index, log[i].signed).Ok?
  }

  lemma AcceptanceMovesOn(s: State, log: seq<Entry>, i: nat)
    requires InOrder(s, log) && i < |log| && AcceptedAt(s, log, i)
    ensures Run(s, log[..i]).changedAt == log[i].signed.changedAt < log[i].index == Run(s, log[..i + 1]).changedAt
  {
    BehindTheRest(s, log, i);
    assert log[..i + 1][..i] == log[..i];
    StepOutline(Run(s, log[..i]), log[i]);
  }

  /** Of the entries signed against one and the same membership, a log in order accepts one at
      most; so no signed entry is accepted twice. */
  lemma SignedAgainstOnce(s: State, log: seq<Entry>, i: nat, j: nat)
    requires InOrder(s, log) && i < j < |log|
    requires AcceptedAt(s, log, i) && AcceptedAt(s, log, j)
    ensures log[i].signed.changedAt < log[j].signed.changedAt
  {
    AcceptanceMovesOn(s, log, i);
    AcceptanceMovesOn(s, log, j);
    ChangedAtNamesTheState(s, log, i + 1, j);
  }

  /** Whether no entry states a membership from after itself. */
  ghost predicate NoneStatedAfterItself(entries: seq<Entry>) {
    forall i | 0 <= i < |entries| :: entries[i].signed.changedAt <= entries[i].index
  }

  lemma RefusedMovesNothing(s: State, log: seq<Entry>, i: nat)
    requires InOrder(s, log) && i < |log| && !AcceptedAt(s, log, i)
    ensures Run(s, log[..i + 1]) == Run(s, log[..i]) && Run(s, log[..i]).changedAt < log[i].index
  {
    BehindTheRest(s, log, i);
    assert log[..i + 1][..i] == log[..i];
  }

  /** An entry of the log that its final state accepts states a membership from after itself. */
  lemma ReplayedIsStatedAfterItself(s: State, log: seq<Entry>, i: nat)
    requires InOrder(s, log) && i < |log| && Run(s, log).Apply(log[i].index, log[i].signed).Ok?
    ensures log[i].index < log[i].signed.changedAt
  {
    assert log[..|log|] == log;
    StepOutline(Run(s, log), log[i]);
    ChangedAtNamesTheState(s, log, i + 1, |log|);
    if AcceptedAt(s, log, i) {
      AcceptanceMovesOn(s, log, i);
    } else {
      RefusedMovesNothing(s, log, i);
    }
  }

  /** So one that does not is refused when it is folded again. */
  lemma ReplayedEntryIsRefused(s: State, log: seq<Entry>, i: nat)
    requires InOrder(s, log) && i < |log| && log[i].signed.changedAt <= log[i].index
    ensures Run(s, log).Apply(log[i].index, log[i].signed).Err?
  {
    if Run(s, log).Apply(log[i].index, log[i].signed).Ok? {
      ReplayedIsStatedAfterItself(s, log, i);
    }
  }

  /** Folding any entries of a log again, in any order and any number of times, is refused entry by
      entry and changes nothing. */
  lemma {:induction false} ReplayChangesNothing(s: State, log: seq<Entry>, again: seq<Entry>)
    requires InOrder(s, log) && NoneStatedAfterItself(again)
    requires forall e | e in again :: e in log
    ensures forall e | e in again :: Run(s, log).Apply(e.index, e.signed).Err?
    ensures Run(Run(s, log), again) == Run(s, log)
  {
    forall e | e in again ensures Run(s, log).Apply(e.index, e.signed).Err? {
      var i :| 0 <= i < |log| && log[i] == e;
      ReplayedEntryIsRefused(s, log, i);
    }
    if again != [] {
      var last := again[|again| - 1];
      assert last in again;
      ReplayChangesNothing(s, log, again[..|again| - 1]);
    }
  }

  lemma PledgeIsAccepted(s: State, index: nat, m: MemberId, pledge: nat)
    requires s.group.Some? && m in s.members && s.settings.minPledgeBytes <= pledge
    ensures var signed := SignedEvent(PledgeChanged(m, pledge), m, s.changedAt, true);
      && s.Apply(index, signed).Ok?
      && var next := s.Apply(index, signed).value;
         next.group.Some? && m in next.members && next.settings == s.settings && next.changedAt == index
  {
    var event := PledgeChanged(m, pledge);
    assert s.Authorise(m, event).Ok? && s.Decided(event, s.OwnApproval(m, event));
    assert s.Enact(event).Ok?;
  }

  /** The condition is needed: an entry that states a membership from after itself is refused when it
      is first folded, and accepted when it is folded again at the end. */
  lemma StatedAfterItselfReplays(s: State, m: MemberId, pledge: nat, i: nat, j: nat)
    requires s.group.Some? && m in s.members && s.settings.minPledgeBytes <= pledge && s.changedAt < i < j
    ensures var ahead := Entry(i, SignedEvent(PledgeChanged(m, pledge), m, j, true));
      var other := Entry(j, SignedEvent(PledgeChanged(m, pledge), m, s.changedAt, true));
      && InOrder(s, [ahead, other])
      && s.Apply(ahead.index, ahead.signed).Err?
      && Run(s, [ahead, other]).Apply(ahead.index, ahead.signed).Ok?
  {
    var ahead := Entry(i, SignedEvent(PledgeChanged(m, pledge), m, j, true));
    var other := Entry(j, SignedEvent(PledgeChanged(m, pledge), m, s.changedAt, true));
    StaleIsRefused(s, ahead);
    RunOfTwo(s, ahead, other);
    var next := PledgeIsStep(s, other, m, pledge);
    PledgeIsAccepted(next, i, m, pledge);
  }

  lemma PledgeIsStep(s: State, entry: Entry, m: MemberId, pledge: nat) returns (next: State)
    requires s.group.Some? && m in s.members && s.settings.minPledgeBytes <= pledge
    requires entry.signed == SignedEvent(PledgeChanged(m, pledge), m, s.changedAt, true)
    ensures next == Step(s, entry) && next.changedAt == entry.index
    ensures next.group.Some? && m in next.members && next.settings == s.settings
  {
    PledgeIsAccepted(s, entry.index, m, pledge);
    next := Step(s, entry);
  }

  lemma StaleIsRefused(s: State, entry: Entry)
    requires entry.signed.changedAt != s.changedAt
    ensures s.Apply(entry.index, entry.signed).Err? && Step(s, entry) == s
  {
  }

  lemma RunOfTwo(s: State, a: Entry, b: Entry)
    ensures Run(s, [a, b]) == Step(Step(s, a), b)
  {
    RunThen(s, [], a);
    RunThen(s, [a], b);
    assert [] + [a] == [a] && [a] + [b] == [a, b];
  }
}
