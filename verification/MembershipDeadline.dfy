/** How long a proposal waits, and what it means that it does. */
module MembershipDeadline {
  import opened Common
  import opened Membership
  import opened MembershipInvariants

  /** Whether an entry with this effect, which leads to `next`, itself ends the proposal `p`: enacts
      it, takes it back, or supersedes it. */
  ghost predicate Ends(s: State, effect: Effect, next: State, p: nat)
    requires p in s.pending
  {
    || effect == TakingBack(p)
    || (effect.Enacting? && (effect.via == Some(p) || !s.Survives(s.pending[p].event, effect.event, next.core)))
  }

  /** The last index at which `p` may be approved. */
  function Deadline(s: State, p: nat): nat {
    p + s.settings.pendingExpiry
  }

  /** `p` waits in `next` as it did in `s`, with every approval it had. */
  ghost predicate StillWaits(s: State, next: State, p: nat)
    requires p in s.pending
  {
    && next.group.Some? && next.settings == s.settings
    && p in next.pending
    && next.pending[p].event == s.pending[p].event
    && next.pending[p].proposer == s.pending[p].proposer
    && s.pending[p].approvals <= next.pending[p].approvals
  }

  lemma EffectKeepsWaiting(s: State, entry: Entry, effect: Effect, next: State, p: nat)
    requires Does(s, entry, effect, next) && !effect.Enacting?
    requires s.group.Some? && p in s.pending && p < entry.index < Deadline(s, p)
    requires !Ends(s, effect, next, p)
    ensures StillWaits(s, next, p)
  {
  }

  lemma EnactmentKeepsWaiting(s: State, via: Option<nat>, event: Event, index: nat, p: nat)
    requires s.Change(event).Ok? && s.group.Some? && p in s.pending && index < Deadline(s, p)
    requires via != Some(p) && s.Survives(s.pending[p].event, event, EnactedAt(s, via, event, index).core)
    ensures StillWaits(s, EnactedAt(s, via, event, index), p)
  {
  }

  lemma StepKeepsWaiting(s: State, entry: Entry, p: nat)
    requires s.group.Some? && p in s.pending && p < entry.index < Deadline(s, p)
    requires !Ends(s, EffectOf(s, entry), Step(s, entry), p)
    ensures StillWaits(s, Step(s, entry), p)
  {
    StepDoes(s, entry);
    var effect := EffectOf(s, entry);
    if effect.Enacting? {
      EnactmentKeepsWaiting(s, effect.via, effect.event, entry.index, p);
    } else {
      EffectKeepsWaiting(s, entry, effect, Step(s, entry), p);
    }
  }

  /** No step along `log` ends `p`. */
  ghost predicate NothingEnds(s: State, log: seq<Entry>, p: nat) {
    forall i | 0 <= i < |log| :: p in Run(s, log[..i]).pending ==> !EndsAt(s, log, i, p)
  }

  ghost predicate EndsAt(s: State, log: seq<Entry>, i: nat, p: nat)
    requires i < |log| && p in Run(s, log[..i]).pending
  {
    Ends(Run(s, log[..i]), EffectOf(Run(s, log[..i]), log[i]), Step(Run(s, log[..i]), log[i]), p)
  }

  /** Whatever entries come between, refused or not, a proposal that none of them ends still waits,
      with every approval it had, before the entry at its deadline. */
  lemma {:induction false} WaitsUntilItsDeadline(s: State, log: seq<Entry>, p: nat)
    requires s.group.Some? && p in s.pending && p <= s.changedAt
    requires InOrder(s, log) && (forall i | 0 <= i < |log| :: log[i].index < Deadline(s, p))
    requires NothingEnds(s, log, p)
    ensures StillWaits(s, Run(s, log), p)
  {
    if log != [] {
      var rest := log[..|log| - 1];
      forall i | 0 <= i < |rest| && p in Run(s, rest[..i]).pending ensures !EndsAt(s, rest, i, p) {
        assert rest[i] == log[i] && rest[..i] == log[..i];
        assert !EndsAt(s, log, i, p);
      }
      WaitsUntilItsDeadline(s, rest, p);
      assert !EndsAt(s, log, |rest|, p);
      StepKeepsWaiting(Run(s, rest), log[|log| - 1], p);
    }
  }

  /** The deadline is exact: up to it an approval is never refused as expired, and past it every
      approval is refused and no submission is told that `p` is in its way. */
  lemma DeadlineIsExact(s: State, p: nat, index: nat, who: MemberId, event: Event)
    requires p in s.pending
    ensures s.StillAllowed(index, p, s.pending[p], who) == Err(ProposalExpired(p, index)) <==> index > Deadline(s, p)
    ensures index > Deadline(s, p) ==> s.Approve(index, p, who).Err?
    ensures index > Deadline(s, p) ==> s.Submit(index, who, event) != Err(AlreadyPending(p))
  {
    ExpiryIsAnswered(s, p, index, who);
    if s.Submit(index, who, event) == Err(AlreadyPending(p)) {
      InTheWayIsInForce(s, p, index, who, event);
    }
  }

  lemma ExpiryIsAnswered(s: State, p: nat, index: nat, who: MemberId)
    requires p in s.pending
    ensures s.StillAllowed(index, p, s.pending[p], who) == Err(ProposalExpired(p, index)) <==> index > Deadline(s, p)
  {
  }

  lemma InTheWayIsInForce(s: State, p: nat, index: nat, who: MemberId, event: Event)
    requires s.Submit(index, who, event) == Err(AlreadyPending(p))
    ensures p in s.pending && index <= Deadline(s, p)
  {
    NeverTheChangesVerdict(s, event, p);
    assert p in s.InTheWay(index, event);
  }

  lemma NeverTheChangesVerdict(s: State, event: Event, p: nat)
    ensures s.Enact(event) != Err(AlreadyPending(p))
    ensures forall index :: s.Change(event) != Err(ProposalExpired(p, index))
  {
  }

  /** An accepted entry at or past the deadline clears the proposal. */
  lemma ClearedAtItsDeadline(s: State, entry: Entry, p: nat)
    requires s.group.Some? && p in s.pending && p < entry.index
    requires s.Apply(entry.index, entry.signed).Ok? && Deadline(s, p) <= entry.index
    ensures p !in Step(s, entry).pending
  {
    StepDoes(s, entry);
  }

  /** Whether `p` waits with all the approvals it needs. */
  ghost predicate WaitsDecided(s: State, p: nat) {
    p in s.pending && s.Decided(s.pending[p].event, s.pending[p].approvals)
  }

  /** Every waiting proposal is short of the approvals it needs. */
  ghost predicate AllUndecided(s: State) {
    forall p :: !WaitsDecided(s, p)
  }

  lemma SameVotersSameVerdict(s: State, next: State, event: Event, approvals: set<MemberId>)
    requires next.core.Keys == s.core.Keys
    ensures next.Decided(event, approvals) == s.Decided(event, approvals)
  {
    assert |next.core| == |next.core.Keys| == |s.core.Keys| == |s.core|;
    assert next.ChangesTheVoters(event) == s.ChangesTheVoters(event) by {
      assert forall m :: m in next.core <==> m in s.core;
    }
    assert next.Counting(approvals) == s.Counting(approvals);
  }

  /** As long as the voters stay who they are, what does not wait decided does not come to. */
  lemma StepKeepsUndecided(s: State, entry: Entry, p: nat)
    requires !WaitsDecided(s, p) && Step(s, entry).core.Keys == s.core.Keys
    ensures !WaitsDecided(Step(s, entry), p)
  {
    StepDoes(s, entry);
    StepOutline(s, entry);
    var next := Step(s, entry);
    if p in next.pending {
      SameVotersSameVerdict(s, next, next.pending[p].event, next.pending[p].approvals);
      assert ComesFrom(s, entry, EffectOf(s, entry), p, next.pending[p]);
    }
  }

  /** Whether enacting what the entry at `index` decides leaves `p` waiting among other voters, of whom
      those that approved it are as many as it then takes. */
  ghost predicate Tips(s: State, index: nat, effect: Effect, p: nat)
    requires p in s.pending
  {
    && effect.Enacting? && s.Change(effect.event).Ok?
    && var core := s.Change(effect.event).value.core;
    && p in StillWaiting(s, effect.via, effect.event, core, index)
    && core.Keys != s.core.Keys
    && |s.pending[p].approvals * core.Keys| >= s.(core := core).ApprovalsNeeded(s.pending[p].event)
  }

  lemma TippedByOtherVoters(s: State, entry: Entry, effect: Effect, next: State, p: nat)
    requires Does(s, entry, effect, next) && effect.Enacting? && next.core.Keys != s.core.Keys && p in s.pending
    ensures WaitsDecided(next, p) <==> Tips(s, entry.index, effect, p)
  {
    var core := s.Change(effect.event).value.core;
    WhoStillWaits(s, effect.via, effect.event, core, entry.index, p);
    var judged := s.(core := core);
    SameVotersSameVerdict(judged, next, s.pending[p].event, s.pending[p].approvals);
    assert judged.Counting(s.pending[p].approvals) == s.pending[p].approvals * core.Keys;
  }

  lemma OnlyEnactingMovesVoters(s: State, entry: Entry, effect: Effect, next: State)
    requires Does(s, entry, effect, next) && s.group.Some?
    ensures effect.Enacting? ==> next.core == s.Change(effect.event).value.core
    ensures next.core.Keys != s.core.Keys ==> effect.Enacting?
  {
  }

  /** Whatever else waits and how: what does not wait decided does after an entry exactly when it waited
      before, and the entry tips it. */
  lemma DecidedExactlyWhenTipped(s: State, entry: Entry, p: nat)
    requires Sound(s) && !WaitsDecided(s, p)
    ensures WaitsDecided(Step(s, entry), p) <==> p in s.pending && Tips(s, entry.index, EffectOf(s, entry), p)
  {
    StepDoes(s, entry);
    if Step(s, entry).core.Keys == s.core.Keys {
      StepKeepsUndecided(s, entry, p);
    } else if p in s.pending {
      OnlyEnactingMovesVoters(s, entry, EffectOf(s, entry), Step(s, entry));
      TippedByOtherVoters(s, entry, EffectOf(s, entry), Step(s, entry), p);
    } else {
      NothingNewWaits(s, entry);
    }
  }

  ghost predicate TipsNone(s: State, entry: Entry) {
    forall p | p in s.pending :: !Tips(s, entry.index, EffectOf(s, entry), p)
  }

  /** So an entry leaves everything that waits undecided exactly when it tips nothing. */
  lemma UndecidedExactlyWhenNoneTipped(s: State, entry: Entry)
    requires Sound(s) && AllUndecided(s)
    ensures AllUndecided(Step(s, entry)) <==> TipsNone(s, entry)
  {
    forall p ensures WaitsDecided(Step(s, entry), p) <==> p in s.pending && Tips(s, entry.index, EffectOf(s, entry), p)
    {
      DecidedExactlyWhenTipped(s, entry, p);
    }
  }

  lemma NothingNewWaits(s: State, entry: Entry)
    requires Sound(s) && Step(s, entry).core.Keys != s.core.Keys
    ensures forall p | p in Step(s, entry).pending :: p in s.pending
  {
    StepOutline(s, entry);
    forall p | p in Step(s, entry).pending ensures p in s.pending {
      assert ComesFrom(s, entry, EffectOf(s, entry), p, Step(s, entry).pending[p]);
    }
  }

  /** Whether everything waits undecided after each of the first `i` entries, for every `i`. */
  ghost predicate UndecidedThrough(s: State, log: seq<Entry>) {
    forall i | 0 <= i <= |log| :: AllUndecided(Run(s, log[..i]))
  }

  ghost predicate TipsNoneThrough(s: State, log: seq<Entry>) {
    forall i | 0 <= i < |log| :: TipsNone(Run(s, log[..i]), log[i])
  }

  lemma OneMoreUndecided(s: State, log: seq<Entry>, k: nat)
    requires Sound(s) && k < |log| && AllUndecided(Run(s, log[..k]))
    ensures AllUndecided(Run(s, log[..k + 1])) <==> TipsNone(Run(s, log[..k]), log[k])
  {
    assert log[..k + 1][..k] == log[..k];
    EveryRunIsSound(s, log[..k]);
    UndecidedExactlyWhenNoneTipped(Run(s, log[..k]), log[k]);
  }

  /** What holds at first, and goes on holding exactly at the steps that keep it, holds throughout exactly
      when all of them do. */
  lemma {:induction false} HoldsThroughout(holds: seq<bool>, keeps: seq<bool>)
    requires |holds| == |keeps| + 1 && holds[0]
    requires forall k | 0 <= k < |keeps| :: holds[k] ==> holds[k + 1] == keeps[k]
    ensures (forall k | 0 <= k < |holds| :: holds[k]) <==> (forall k | 0 <= k < |keeps| :: keeps[k])
  {
    if keeps != [] {
      var n := |keeps| - 1;
      HoldsThroughout(holds[..n + 1], keeps[..n]);
      assert forall k | 0 <= k <= n :: holds[k] == holds[..n + 1][k];
      assert forall k | 0 <= k < n :: keeps[k] == keeps[..n][k];
      assert holds[n] ==> holds[n + 1] == keeps[n];
    }
  }

  /** Where along a log everything waits undecided. */
  ghost function Undecided(s: State, log: seq<Entry>): (holds: seq<bool>)
    ensures |holds| == |log| + 1 && forall i | 0 <= i <= |log| :: holds[i] == AllUndecided(Run(s, log[..i]))
  {
    seq(|log| + 1, i requires 0 <= i <= |log| => AllUndecided(Run(s, log[..i])))
  }

  /** Which entries of it tip nothing. */
  ghost function TippingNone(s: State, log: seq<Entry>): (keeps: seq<bool>)
    ensures |keeps| == |log| && forall i | 0 <= i < |log| :: keeps[i] == TipsNone(Run(s, log[..i]), log[i])
  {
    seq(|log|, i requires 0 <= i < |log| => TipsNone(Run(s, log[..i]), log[i]))
  }

  lemma UndecidedOneByOne(s: State, log: seq<Entry>)
    ensures UndecidedThrough(s, log) <==> forall k | 0 <= k <= |log| :: Undecided(s, log)[k]
  {
    if forall k | 0 <= k <= |log| :: Undecided(s, log)[k] {
      forall k | 0 <= k <= |log| ensures AllUndecided(Run(s, log[..k])) {
        assert Undecided(s, log)[k];
      }
    }
  }

  lemma TipsNoneOneByOne(s: State, log: seq<Entry>)
    ensures TipsNoneThrough(s, log) <==> forall k | 0 <= k < |log| :: TippingNone(s, log)[k]
  {
    if forall k | 0 <= k < |log| :: TippingNone(s, log)[k] {
      forall k | 0 <= k < |log| ensures TipsNone(Run(s, log[..k]), log[k]) {
        assert TippingNone(s, log)[k];
      }
    }
  }

  lemma StaysUndecided(s: State, log: seq<Entry>, k: nat)
    requires Sound(s) && k < |log| && Undecided(s, log)[k]
    ensures Undecided(s, log)[k + 1] == TippingNone(s, log)[k]
  {
    OneMoreUndecided(s, log, k);
  }

  ghost predicate NewlyTips(s: State, entry: Entry, p: nat) {
    p in s.pending && !WaitsDecided(s, p) && Tips(s, entry.index, EffectOf(s, entry), p)
  }

  /** Whether `p` waits decided after each entry from the `k`-th on. */
  ghost predicate DecidedFrom(s: State, log: seq<Entry>, k: nat, p: nat) {
    forall i | k < i <= |log| :: WaitsDecided(Run(s, log[..i]), p)
  }

  /** Whether the `k`-th entry tips `p`, which did not wait decided before and has ever since. */
  ghost predicate TippedAt(s: State, log: seq<Entry>, k: nat, p: nat) {
    k < |log| && NewlyTips(Run(s, log[..k]), log[k], p) && DecidedFrom(s, log, k, p)
  }

  /** In a run of yes and no that begins with no and ends with yes, there is a last change. */
  lemma {:induction false} LastTurn(turns: seq<bool>) returns (k: nat)
    requires turns != [] && !turns[0] && turns[|turns| - 1]
    ensures k + 1 < |turns| && !turns[k] && forall i | k < i < |turns| :: turns[i]
  {
    var n := |turns| - 1;
    if turns[n - 1] {
      k := LastTurn(turns[..n]);
      assert forall i | k < i < n :: turns[..n][i];
    } else {
      k := n - 1;
    }
  }

  lemma TurnedByTipping(s: State, log: seq<Entry>, k: nat, p: nat)
    requires Sound(s) && k < |log| && !WaitsDecided(Run(s, log[..k]), p) && WaitsDecided(Run(s, log[..k + 1]), p)
    ensures NewlyTips(Run(s, log[..k]), log[k], p)
  {
    assert log[..k + 1][..k] == log[..k];
    EveryRunIsSound(s, log[..k]);
    DecidedExactlyWhenTipped(Run(s, log[..k]), log[k], p);
  }

  lemma TurnedAt(s: State, log: seq<Entry>, p: nat) returns (k: nat)
    requires !WaitsDecided(s, p) && WaitsDecided(Run(s, log), p)
    ensures k < |log| && !WaitsDecided(Run(s, log[..k]), p) && DecidedFrom(s, log, k, p)
  {
    var turns := seq(|log| + 1, i requires 0 <= i <= |log| => WaitsDecided(Run(s, log[..i]), p));
    assert log[..0] == [] && log[..|log|] == log;
    k := LastTurn(turns);
    forall i | k < i <= |log| ensures WaitsDecided(Run(s, log[..i]), p) {
      assert turns[i];
    }
  }

  /** Over a whole log, one by one: what waits decided in the end is what one of its entries tipped, and
      has been since. */
  lemma DecidedInTheEndExactlyWhenTipped(s: State, log: seq<Entry>, p: nat)
    requires Sound(s) && !WaitsDecided(s, p)
    ensures WaitsDecided(Run(s, log), p) <==> exists k :: TippedAt(s, log, k, p)
  {
    assert log[..|log|] == log;
    if WaitsDecided(Run(s, log), p) {
      var k := TurnedAt(s, log, p);
      TurnedByTipping(s, log, k, p);
      assert TippedAt(s, log, k, p);
    }
  }

  /** Over a whole log: what waits is short of the approvals it needs at every point exactly when no
      entry along the way tips any of it. */
  lemma EveryWaitIsUndecidedExactlyWhenNoneTipped(log: seq<Entry>)
    ensures UndecidedThrough(EMPTY, log) <==> TipsNoneThrough(EMPTY, log)
  {
    forall k | 0 <= k < |log|
      ensures Undecided(EMPTY, log)[k] ==> Undecided(EMPTY, log)[k + 1] == TippingNone(EMPTY, log)[k]
    {
      if Undecided(EMPTY, log)[k] {
        StaysUndecided(EMPTY, log, k);
      }
    }
    assert log[..0] == [];
    HoldsThroughout(Undecided(EMPTY, log), TippingNone(EMPTY, log));
    UndecidedOneByOne(EMPTY, log);
    TipsNoneOneByOne(EMPTY, log);
  }

  /** Three voters, and two proposals of the first of them waiting for a second approval: to expel
      the third, and to demote it. */
  function BeforeDemotion(): State {
    var at := NodeAddr(None, {});
    var someone := MemberRecord(1, "", 0, 1);
    State(Some(0),
          map[1 := someone, 2 := someone.(memberId := 2), 3 := someone.(memberId := 3)],
          map[1 := at, 2 := at, 3 := at],
          map[5 := Proposal(MemberExpelled(3, ""), 1, {1}),
            6 := Proposal(CoreGroupChanged([(1, at), (2, at)]), 1, {1})],
          6, DEFAULT_SETTINGS, 1)
  }

  /** The log that leads there: a founding, and the two proposals. */
  function DemotionLog(): seq<Entry> {
    var at := NodeAddr(None, {});
    [Entry(4, SignedEvent(GroupFounded(0, ThreeFounders(), DEFAULT_SETTINGS), 1, 0, true)),
     Entry(5, SignedEvent(MemberExpelled(3, ""), 1, 4, true)),
     Entry(6, SignedEvent(CoreGroupChanged([(1, at), (2, at)]), 1, 5, true))]
  }

  function ThreeFounders(): seq<Founder> {
    var at := NodeAddr(None, {});
    [] + [(MemberProfile(1, ""), at)] + [(MemberProfile(2, ""), at)] + [(MemberProfile(3, ""), at)]
  }

  lemma ThreeAreNamed(at: NodeAddr)
    requires at == NodeAddr(None, {})
    ensures FounderIds(ThreeFounders()) == [1, 2, 3] && Repeated([1, 2, 3]) == {}
    ensures FoundingCore(ThreeFounders()) == [(1, at), (2, at), (3, at)]
  {
  }

  lemma ThreeAreFounded()
    ensures Step(EMPTY, DemotionLog()[0]) == BeforeDemotion().(pending := map[], changedAt := 4)
  {
    var at, founders := NodeAddr(None, {}), ThreeFounders();
    ThreeAreNamed(at);
    ThreeFolded(at);
    ThreeRecords(at);
    var founded := EMPTY.Found(0, founders, DEFAULT_SETTINGS, 1);
    assert founded == Ok(BeforeDemotion().(pending := map[], changedAt := 0));
  }

  lemma FoldedThen(core: seq<(MemberId, NodeAddr)>, last: (MemberId, NodeAddr))
    ensures Folded(core + [last]) == Folded(core)[last.0 := last.1]
  {
    assert (core + [last])[..|core|] == core;
  }

  lemma ThreeFolded(at: NodeAddr)
    ensures Folded([(1, at), (2, at), (3, at)]) == map[1 := at, 2 := at, 3 := at]
  {
    var none: seq<(MemberId, NodeAddr)> := [];
    FoldedThen(none, (1, at));
    FoldedThen(none + [(1, at)], (2, at));
    FoldedThen(none + [(1, at)] + [(2, at)], (3, at));
    assert none + [(1, at)] + [(2, at)] + [(3, at)] == [(1, at), (2, at), (3, at)];
  }

  lemma RecordsThen(founders: seq<Founder>, id: MemberId, at: NodeAddr)
    ensures FoundingMembers(founders + [(MemberProfile(id, ""), at)]) ==
      FoundingMembers(founders)[id := MemberRecord(id, "", 0, 1)]
  {
    assert (founders + [(MemberProfile(id, ""), at)])[..|founders|] == founders;
  }

  lemma ThreeRecords(at: NodeAddr)
    requires at == NodeAddr(None, {})
    ensures FoundingMembers(ThreeFounders()) == BeforeDemotion().members
  {
    var none: seq<Founder> := [];
    var one, two := (MemberProfile(1, ""), at), (MemberProfile(2, ""), at);
    RecordsThen(none, 1, at);
    RecordsThen(none + [one], 2, at);
    RecordsThen(none + [one] + [two], 3, at);
  }

  /** A change that one voice does not decide, and nothing is in the way of, is recorded. */
  lemma IsRecorded(s: State, entry: Entry)
    requires entry.signed == SignedEvent(entry.signed.event, 1, s.changedAt, true) && IsSubmission(entry.signed.event)
    requires s.group.Some? && 1 in s.members && s.Authorise(1, entry.signed.event).Ok? &&
      s.OwnApproval(1, entry.signed.event) == {1}
    requires !s.Decided(entry.signed.event, {1}) && s.InTheWay(entry.index, entry.signed.event) == {}
    ensures Step(s, entry) ==
      s.(pending := s.pending[entry.index := Proposal(entry.signed.event, 1, {1})]).Swept(entry.index)
  {
    assert s.Submit(entry.index, 1, entry.signed.event).Ok?;
  }

  lemma OneOfThreeIsTooFew(s: State, event: Event)
    requires s.core == BeforeDemotion().core && s.ChangesTheVoters(event)
    ensures s.Counting({1}) == {1} && !s.Decided(event, {1})
  {
    assert s.core.Keys == {1, 2, 3} && |s.core| == |s.core.Keys|;
  }

  lemma BothAreRecorded(s: State)
    requires s == BeforeDemotion().(pending := map[], changedAt := 4)
    ensures Step(Step(s, DemotionLog()[1]), DemotionLog()[2]) == BeforeDemotion()
  {
    var first, second := DemotionLog()[1], DemotionLog()[2];
    OneOfThreeIsTooFew(s, first.signed.event);
    IsRecorded(s, first);
    var t := s.(pending := map[5 := Proposal(first.signed.event, 1, {1})], changedAt := 5);
    assert Step(s, first) == t;
    OneOfThreeIsTooFew(t, second.signed.event);
    IsRecorded(t, second);
    assert Step(t, second).pending == BeforeDemotion().pending;
  }

  lemma BeforeDemotionIsReached()
    ensures Run(EMPTY, DemotionLog()) == BeforeDemotion()
  {
    var log := DemotionLog();
    assert log == [] + [log[0]] + [log[1]] + [log[2]];
    RunThen(EMPTY, [], log[0]);
    RunThen(EMPTY, [] + [log[0]], log[1]);
    RunThen(EMPTY, [] + [log[0]] + [log[1]], log[2]);
    ThreeAreFounded();
    BothAreRecorded(BeforeDemotion().(pending := map[], changedAt := 4));
  }

  lemma BeforeDemotionIsOrdinary()
    ensures Run(EMPTY, DemotionLog()) == BeforeDemotion()
    ensures Sound(BeforeDemotion()) && OneSlotEach(BeforeDemotion()) && AllUndecided(BeforeDemotion())
  {
    BeforeDemotionIsReached();
    EveryLogIsSound(DemotionLog());
    var s := BeforeDemotion();
    forall p | p in s.pending ensures !s.Decided(s.pending[p].event, s.pending[p].approvals) {
      OneVoiceIsTooFew(s, p);
    }
  }

  lemma OneVoiceIsTooFew(s: State, p: nat)
    requires s == BeforeDemotion() && p in s.pending
    ensures !s.Decided(s.pending[p].event, s.pending[p].approvals)
  {
    assert p == 5 || p == 6;
    OneOfThreeIsTooFew(s, s.pending[p].event);
  }

  lemma DemotionIsValid(s: State, at: NodeAddr)
    requires s.protocol == 1 && s.Speaks(1, 1) && s.Speaks(2, 1)
    ensures s.Change(CoreGroupChanged([(1, at), (2, at)])) == Ok(s.(core := map[1 := at, 2 := at]))
  {
    var voters: seq<(MemberId, NodeAddr)> := [(1, at), (2, at)];
    assert voters[..1] == [(1, at)] && voters[..1][..0] == [];
    assert Folded(voters[..1]) == map[1 := at];
    assert Folded(voters) == map[1 := at, 2 := at];
    assert (set m | m in Folded(voters).Keys && !s.Speaks(m, 1)) == {};
  }

  /** But a core that shrinks lowers the threshold, and nothing looks at what waits again: once the
      third voter is demoted, one approval is enough to expel it, and is there. The proposal goes on
      waiting, decided. */
  lemma ShrinkingCoreLeavesOneDecided(entry: Entry)
    requires entry == Entry(7, SignedEvent(Approved(6), 2, 6, true))
    ensures var next := Run(EMPTY, DemotionLog() + [entry]);
      5 in next.pending && next.Decided(next.pending[5].event, next.pending[5].approvals)
  {
    BeforeDemotionIsReached();
    RunThen(EMPTY, DemotionLog(), entry);
    DemotionLeavesOneDecided(BeforeDemotion(), entry);
  }

  lemma DemotionLeavesOneDecided(s: State, entry: Entry)
    requires s == BeforeDemotion() && entry == Entry(7, SignedEvent(Approved(6), 2, 6, true))
    ensures var next := Step(s, entry);
      5 in next.pending && next.Decided(next.pending[5].event, next.pending[5].approvals)
  {
    var at := NodeAddr(None, {});
    DemotionIsValid(s, at);
    DemotionIsDecided(s);
    ApprovalEnacts(s, entry, 6);
    var next := EnactedAt(s, Some(6), s.pending[6].event, 7);
    WhoStillWaits(s, Some(6), s.pending[6].event, next.core, 7, 5);
    OneOfTwoIsEnough(next, at);
  }

  lemma OneOfTwoIsEnough(s: State, at: NodeAddr)
    requires s.core == map[1 := at, 2 := at]
    ensures s.Decided(MemberExpelled(3, ""), {1})
  {
    assert s.Counting({1}) == {1};
    assert !s.ChangesTheVoters(MemberExpelled(3, ""));
  }

  lemma DemotionIsDecided(s: State)
    requires s == BeforeDemotion()
    ensures s.Decided(s.pending[6].event, s.pending[6].approvals + {2})
    ensures s.StillAllowed(7, 6, s.pending[6], 2).Ok?
  {
    assert s.core.Keys == {1, 2, 3};
    assert s.Counting({1} + {2}) == {1, 2};
  }
}
