/** The pin manager in place, as crates/distlib-custody/src/pins.rs runs it: one event at a time over
    its map of pins, with the fetches it has spawned. */
module PinManagers {
  import opened Common
  import opened Pins

  function QueuedIn(pins: PinMap): set<ItemId> {
    set i | i in pins && pins[i].Queued?
  }

  /** Whether queued `a` goes before queued `b`: fewer live copies, and at as many the earlier turn. */
  predicate GoesFirst(pins: PinMap, copies: ItemId -> nat, a: ItemId, b: ItemId)
    requires a in QueuedIn(pins) && b in QueuedIn(pins)
  {
    copies(a) < copies(b) || (copies(a) == copies(b) && pins[a].turn < pins[b].turn)
  }

  ghost predicate Enumerates(s: seq<ItemId>, items: set<ItemId>) {
    NoRepeats(s) && Elements(s) == items
  }

  /** Whether `picked` are up to `count` of the queued items, none passed over for one it goes before. */
  ghost predicate IsPick(pins: PinMap, count: nat, copies: ItemId -> nat, picked: seq<ItemId>) {
    && NoRepeats(picked) && Elements(picked) <= QueuedIn(pins)
    && |picked| == (if |QueuedIn(pins)| < count then |QueuedIn(pins)| else count)
    && forall p, q | p in Elements(picked) && q in QueuedIn(pins) - Elements(picked) :: !GoesFirst(pins, copies, q, p)
  }

  /** A pick is as many queued items as asked for, or all there are; and none of those picked has more copies
      than one passed over, or as many and a later turn. */
  lemma FewestCopiesFirst(pins: PinMap, count: nat, copies: ItemId -> nat, picked: seq<ItemId>)
    requires IsPick(pins, count, copies, picked)
    ensures forall p | p in picked :: p in pins && pins[p].Queued?
    ensures |picked| <= count && (|picked| < count ==> forall q | q in pins && pins[q].Queued? :: q in picked)
    ensures forall p, q | p in picked && q in pins && pins[q].Queued? && q !in picked ::
      copies(p) < copies(q) || (copies(p) == copies(q) && pins[p].turn <= pins[q].turn)
  {
    AsManyAsListed(picked);
    forall p | p in picked ensures p in pins && pins[p].Queued? {
      assert p in Elements(picked);
    }
    if |picked| < count {
      SubsetSize(Elements(picked), QueuedIn(pins));
      forall q | q in pins && pins[q].Queued? ensures q in picked {
        assert q in Elements(picked);
      }
    }
    forall p, q | p in picked && q in pins && pins[q].Queued? && q !in picked
      ensures copies(p) < copies(q) || (copies(p) == copies(q) && pins[p].turn <= pins[q].turn)
    {
      assert p in Elements(picked) && q in QueuedIn(pins) - Elements(picked);
      assert !GoesFirst(pins, copies, q, p);
    }
  }

  lemma {:induction false} AsManyAsListed(items: seq<ItemId>)
    requires NoRepeats(items)
    ensures |Elements(items)| == |items|
  {
    if items != [] {
      var n := |items| - 1;
      AsManyAsListed(items[..n]);
      assert Elements(items) == Elements(items[..n]) + {items[n]};
    }
  }

  /** Starting what was picked for the free slots leaves none free, or nothing queued. */
  lemma NoneIsLeftIdle(s: State, picked: seq<ItemId>, copies: ItemId -> nat, maxFetches: nat)
    requires IsPick(s.pins, SaturatingSub(maxFetches, |s.tasks|), copies, picked)
    requires |s.tasks| <= maxFetches && forall t | t in s.tasks :: t < s.nextTask
    ensures |Started(s, picked).tasks| <= maxFetches
    ensures |Started(s, picked).tasks| < maxFetches ==> forall q | q in s.pins && s.pins[q].Queued? :: q in picked
  {
    FewestCopiesFirst(s.pins, SaturatingSub(maxFetches, |s.tasks|), copies, picked);
    StartedIs(s, picked);
  }

  /** The items that some of `steps` lose. */
  ghost function LostIn(steps: seq<Step>): set<ItemId> {
    set k | 0 <= k < |steps| && steps[k].Lose? :: steps[k].item
  }

  /** The items that some of `steps` want. */
  ghost function WantedIn(steps: seq<Step>): set<ItemId> {
    set k | 0 <= k < |steps| && steps[k].Want? :: steps[k].item
  }

  lemma LostTogether(steps: seq<Step>, more: seq<Step>)
    ensures LostIn(steps + more) == LostIn(steps) + LostIn(more)
  {
    forall i | i in LostIn(steps) + LostIn(more) ensures i in LostIn(steps + more) {
      if k :| 0 <= k < |steps| && steps[k].Lose? && steps[k].item == i {
        assert (steps + more)[k] == steps[k];
      } else {
        var k :| 0 <= k < |more| && more[k].Lose? && more[k].item == i;
        assert (steps + more)[|steps| + k] == more[k];
      }
    }
  }

  lemma WantedTogether(steps: seq<Step>, more: seq<Step>)
    ensures WantedIn(steps + more) == WantedIn(steps) + WantedIn(more)
  {
    forall i | i in WantedIn(steps) + WantedIn(more) ensures i in WantedIn(steps + more) {
      if k :| 0 <= k < |steps| && steps[k].Want? && steps[k].item == i {
        assert (steps + more)[k] == steps[k];
      } else {
        var k :| 0 <= k < |more| && more[k].Want? && more[k].item == i;
        assert (steps + more)[|steps| + k] == more[k];
      }
    }
  }

  lemma OneLost(item: ItemId, answer: Answer)
    ensures LostIn([Lose(item, answer)]) == {item} && WantedIn([Lose(item, answer)]) == {}
  {
    assert [Lose(item, answer)][0].item == item;
  }

  lemma OneWanted(item: ItemId)
    ensures WantedIn([Want(item)]) == {item} && LostIn([Want(item)]) == {}
  {
    assert [Want(item)][0].item == item;
  }

  /** The fetches of `items`, started in turn. */
  function Started(s: State, items: seq<ItemId>): State {
    if items == [] then s else StartStep(Started(s, items[..|items| - 1]), items[|items| - 1])
  }

  lemma {:induction false} StartedIs(s: State, items: seq<ItemId>)
    requires NoRepeats(items) && Elements(items) <= QueuedIn(s.pins) && forall t | t in s.tasks :: t < s.nextTask
    ensures var after := Started(s, items);
      && (forall i | i !in Elements(items) :: Get(after.pins, i) == Get(s.pins, i))
      && |after.tasks| == |s.tasks| + |items|
      && (forall t | t in after.tasks :: t < after.nextTask)
  {
    if items != [] {
      var n := |items| - 1;
      StartedIs(s, items[..n]);
      var before := Started(s, items[..n]);
      assert Elements(items) == Elements(items[..n]) + {items[n]};
      assert before.tasks[before.nextTask := items[n]].Keys == before.tasks.Keys + {before.nextTask};
    }
  }

  /** Starting what was picked for the free slots is a run of steps: each has a slot. */
  lemma {:induction false} StartedIsARun(s: State, items: seq<ItemId>, maxFetches: nat)
      returns (run: seq<State>, steps: seq<Step>)
    requires NoRepeats(items) && Elements(items) <= QueuedIn(s.pins) && forall t | t in s.tasks :: t < s.nextTask
    requires |s.tasks| + |items| <= maxFetches
    ensures IsRun(run, steps, maxFetches) && run[0] == s && run[|steps|] == Started(s, items)
  {
    run, steps := [s], [];
    if items != [] {
      var n := |items| - 1;
      var item := items[n];
      run, steps := StartedIsARun(s, items[..n], maxFetches);
      StartedIs(s, items[..n]);
      assert item in Elements(items) && item !in Elements(items[..n]);
      assert Get(run[|steps|].pins, item) == Get(s.pins, item);
      run, steps := Longer(run, steps, Start(item), Started(s, items), maxFetches);
    }
  }

  lemma Longer(run: seq<State>, steps: seq<Step>, step: Step, next: State, maxFetches: nat)
      returns (run': seq<State>, steps': seq<Step>)
    requires IsRun(run, steps, maxFetches) && Takes(run[|steps|], step, next, maxFetches)
    ensures run' == run + [next] && steps' == steps + [step] && IsRun(run', steps', maxFetches)
  {
    run', steps' := run + [next], steps + [step];
    forall k | 0 <= k < |steps'| ensures Takes(run'[k], steps'[k], run'[k + 1], maxFetches) {
      if k < |steps| {
        assert Takes(run[k], steps[k], run[k + 1], maxFetches);
      }
    }
  }

  lemma Earlier(s: State, step: Step, run: seq<State>, steps: seq<Step>, maxFetches: nat)
      returns (run': seq<State>, steps': seq<Step>)
    requires IsRun(run, steps, maxFetches) && Takes(s, step, run[0], maxFetches)
    ensures run' == [s] + run && steps' == [step] + steps && IsRun(run', steps', maxFetches)
  {
    run', steps' := [s] + run, [step] + steps;
    forall k | 0 <= k < |steps'| ensures Takes(run'[k], steps'[k], run'[k + 1], maxFetches) {
      if k > 0 {
        assert Takes(run[k - 1], steps[k - 1], run[k], maxFetches);
      }
    }
  }

  /** Whether an item of this node's is being looked after: not on its way out, and if it is said to be
      kept, here. */
  predicate LookedAfter(pin: Pin, holds: bool) {
    !pin.Releasing? && (pin.Kept? ==> holds)
  }

  /** Whether a pass over custody wants an item of this node's: it is not looked after. */
  predicate NeedsKeeping(pin: Option<Pin>, holds: bool): (needs: bool)
    ensures needs <==> pin.None? || !LookedAfter(pin.value, holds)
  {
    match pin
    case None => true
    case Some(Releasing) => true
    case Some(Kept) => !holds
    case _ => false
  }

  lemma OneMoreRequeued(before: PinMap, first: nat, after: PinMap, next: nat, some: set<ItemId>, item: ItemId)
    requires Requeues(before, first, after, next, some) && item in before && item !in some
    ensures Requeues(before, first, after[item := Queued(next)], next + 1, some + {item})
  {
  }

  lemma OneMoreListed(order: seq<ItemId>, items: set<ItemId>, item: ItemId)
    requires Enumerates(order, items) && item !in items
    ensures Enumerates(order + [item], items + {item})
  {
    assert forall i | 0 <= i < |order| :: order[i] in Elements(order);
    assert Elements(order + [item]) == Elements(order) + {item};
  }

  /** The pins with those in `order` queued one after another, and the turn after the last. */
  function InTurn(pins: PinMap, first: nat, order: seq<ItemId>): (PinMap, nat) {
    if order == [] then (pins, first)
    else
      var (rest, next) := InTurn(pins, first, order[..|order| - 1]);
      (rest[order[|order| - 1] := Queued(next)], next + 1)
  }

  /** Where queueing stands once the items in `done` have been, in the order given. */
  ghost predicate QueuedSoFar(before: PinMap, first: nat, order: seq<ItemId>, done: set<ItemId>, pins: PinMap,
      next: nat) {
    Enumerates(order, done) && (pins, next) == InTurn(before, first, order)
  }

  lemma InTurnOneMore(pins: PinMap, first: nat, order: seq<ItemId>, item: ItemId)
    ensures var (rest, next) := InTurn(pins, first, order);
      InTurn(pins, first, order + [item]) == (rest[item := Queued(next)], next + 1)
  {
    assert (order + [item])[..|order|] == order;
  }

  lemma {:induction false} InTurnRequeues(pins: PinMap, first: nat, order: seq<ItemId>)
    requires NoRepeats(order) && Elements(order) <= pins.Keys
    ensures var (after, next) := InTurn(pins, first, order); Requeues(pins, first, after, next, Elements(order))
  {
    if order != [] {
      var n := |order| - 1;
      InTurnRequeues(pins, first, order[..n]);
      var (rest, next) := InTurn(pins, first, order[..n]);
      assert Elements(order) == Elements(order[..n]) + {order[n]};
      OneMoreRequeued(pins, first, rest, next, Elements(order[..n]), order[n]);
    }
  }

  /** One pin hears that availability changed. */
  function HearOne(pins: PinMap, next: nat, item: ItemId): (PinMap, nat) {
    if item !in pins then (pins, next)
    else match pins[item]
      case Fetching(task, again, _) => (pins[item := Fetching(task, again, true)], next)
      case Failed => (pins[item := Queued(next)], next + 1)
      case _ => (pins, next)
  }

  /** The pins once those in `order` have heard, one after another, that availability changed. */
  function HeardInTurn(pins: PinMap, first: nat, order: seq<ItemId>): (PinMap, nat) {
    if order == [] then (pins, first)
    else
      var (rest, next) := HeardInTurn(pins, first, order[..|order| - 1]);
      HearOne(rest, next, order[|order| - 1])
  }

  /** Where telling stands once the items in `done` have been told, in the order given. */
  ghost predicate ToldSoFar(before: PinMap, first: nat, order: seq<ItemId>, done: set<ItemId>, pins: PinMap,
      next: nat) {
    Enumerates(order, done) && (pins, next) == HeardInTurn(before, first, order)
  }

  lemma HeardOneMore(pins: PinMap, first: nat, order: seq<ItemId>, item: ItemId)
    ensures var (rest, next) := HeardInTurn(pins, first, order);
      HeardInTurn(pins, first, order + [item]) == HearOne(rest, next, item)
  {
    assert (order + [item])[..|order|] == order;
  }

  lemma {:induction false} HeardInTurnIs(pins: PinMap, first: nat, order: seq<ItemId>)
    requires NoRepeats(order) && Elements(order) <= pins.Keys
    ensures var (after, next) := HeardInTurn(pins, first, order); HeardSoFar(pins, first, after, next, Elements(order))
  {
    if order == [] {
      NobodyHeard(pins, first);
      assert Elements(order) == {};
    } else {
      var n := |order| - 1;
      HeardInTurnIs(pins, first, order[..n]);
      var (rest, next) := HeardInTurn(pins, first, order[..n]);
      assert Elements(order) == Elements(order[..n]) + {order[n]};
      OneMoreHeard(pins, first, rest, next, Elements(order[..n]), order[n]);
    }
  }

  lemma OneMoreHeard(pins: PinMap, first: nat, after: PinMap, next: nat, done: set<ItemId>, item: ItemId)
    requires HeardSoFar(pins, first, after, next, done) && item in pins && item !in done
    ensures HeardSoFar(pins, first, HearOne(after, next, item).0, HearOne(after, next, item).1, done + {item})
  {
    if pins[item].Fetching? {
      FetchHears(pins, first, after, next, done, item);
    } else if pins[item].Failed? {
      FailedHears(pins, first, after, next, done, item);
    } else {
      OtherHears(pins, first, after, next, done, item);
    }
  }

  /** Fetches among `done` remember that availability changed. */
  function FlaggedAmong(pins: PinMap, done: set<ItemId>): PinMap {
    map i | i in pins :: if i in done && pins[i].Fetching? then pins[i].(availabilityChanged := true) else pins[i]
  }

  /** The pins once those in `done` have heard that availability changed. */
  ghost predicate HeardSoFar(pins: PinMap, first: nat, after: PinMap, next: nat, done: set<ItemId>) {
    after.Keys == pins.Keys && Requeues(FlaggedAmong(pins, done), first, after, next, FailedIn(pins) * done)
  }

  lemma OneMoreFlagged(pins: PinMap, done: set<ItemId>, item: ItemId)
    requires item in pins && item !in done
    ensures FailedIn(pins) * (done + {item}) == FailedIn(pins) * done + if pins[item].Failed? then {item} else {}
    ensures FlaggedAmong(pins, done + {item}) ==
      if pins[item].Fetching? then FlaggedAmong(pins, done)[item := pins[item].(availabilityChanged := true)]
        else FlaggedAmong(pins, done)
  {
  }

  lemma FetchHears(pins: PinMap, first: nat, after: PinMap, next: nat, done: set<ItemId>, item: ItemId)
    requires HeardSoFar(pins, first, after, next, done) && item in pins && item !in done && pins[item].Fetching?
    ensures HeardSoFar(pins, first, HearOne(after, next, item).0, HearOne(after, next, item).1, done + {item})
  {
    OneMoreFlagged(pins, done, item);
    assert after[item] == FlaggedAmong(pins, done)[item];
    RequeuedElsewhere(FlaggedAmong(pins, done), first, after, next, FailedIn(pins) * done, item,
      pins[item].(availabilityChanged := true));
  }

  /** The same change to a pin that is not queued, before and after. */
  lemma RequeuedElsewhere(before: PinMap, first: nat, after: PinMap, next: nat, some: set<ItemId>, item: ItemId,
      pin: Pin)
    requires Requeues(before, first, after, next, some) && item in before && item !in some
    ensures Requeues(before[item := pin], first, after[item := pin], next, some)
  {
  }

  lemma FailedHears(pins: PinMap, first: nat, after: PinMap, next: nat, done: set<ItemId>, item: ItemId)
    requires HeardSoFar(pins, first, after, next, done) && item in pins && item !in done && pins[item].Failed?
    ensures HeardSoFar(pins, first, HearOne(after, next, item).0, HearOne(after, next, item).1, done + {item})
  {
    OneMoreFlagged(pins, done, item);
    assert HearOne(after, next, item) == (after[item := Queued(next)], next + 1) by {
      assert after[item] == FlaggedAmong(pins, done)[item];
    }
    var before, some := FlaggedAmong(pins, done), FailedIn(pins) * done;
    assert before == FlaggedAmong(pins, done + {item}) && some + {item} == FailedIn(pins) * (done + {item});
    OneMoreRequeued(before, first, after, next, some, item);
  }

  lemma OtherHears(pins: PinMap, first: nat, after: PinMap, next: nat, done: set<ItemId>, item: ItemId)
    requires HeardSoFar(pins, first, after, next, done) && item in pins && item !in done
    requires !pins[item].Fetching? && !pins[item].Failed?
    ensures HeardSoFar(pins, first, HearOne(after, next, item).0, HearOne(after, next, item).1, done + {item})
  {
    OneMoreFlagged(pins, done, item);
    assert after[item] == FlaggedAmong(pins, done)[item];
  }

  lemma NobodyHeard(pins: PinMap, first: nat)
    ensures HeardSoFar(pins, first, pins, first, {})
  {
    assert FlaggedAmong(pins, {}) == pins;
    assert FailedIn(pins) * {} == {};
  }

  lemma EveryoneHeard(pins: PinMap, first: nat, after: PinMap, next: nat)
    requires HeardSoFar(pins, first, after, next, pins.Keys)
    ensures Requeues(Flagged(pins), first, after, next, FailedIn(pins))
  {
    assert FlaggedAmong(pins, pins.Keys) == Flagged(pins);
    assert FailedIn(pins) * pins.Keys == FailedIn(pins);
  }

  class PinManager {
    const maxFetches: Positive
    var pins: PinMap
    var nextTurn: nat
    var tasks: map<Task, ItemId>
    var nextTask: Task
    ghost var log: Log

    ghost function Now(): State
      reads this
    {
      State(pins, nextTurn, tasks, nextTask, log)
    }

    constructor (tagged: set<ItemId>, maxFetches: Positive)
      ensures Now() == Initial(tagged) && this.maxFetches == maxFetches
    {
      this.maxFetches := maxFetches;
      pins, nextTurn, tasks, nextTask, log := map i | i in tagged :: Kept, 0, map[], 0, [];
    }

    /** `WantStep` in place. */
    method Want(item: ItemId)
      modifies this
      ensures Now() == WantStep(old(Now()), item)
    {
      var turn := nextTurn;
      nextTurn := nextTurn + 1;
      pins := pins[item := Wanted(Get(pins, item), turn)];
      log := log + [Wants(item)];
    }

    method QueueOne(item: ItemId, ghost before: PinMap, ghost first: nat, ghost order: seq<ItemId>,
        ghost done: set<ItemId>)
      requires item !in done && QueuedSoFar(before, first, order, done, pins, nextTurn)
      modifies this`pins, this`nextTurn
      ensures QueuedSoFar(before, first, order + [item], done + {item}, pins, nextTurn)
    {
      OneMoreListed(order, done, item);
      InTurnOneMore(before, first, order, item);
      pins, nextTurn := pins[item := Queued(nextTurn)], nextTurn + 1;
    }

    /** Queues each of `items` again, in any order. */
    method QueueEach(items: set<ItemId>) returns (ghost order: seq<ItemId>)
      modifies this`pins, this`nextTurn
      ensures QueuedSoFar(old(pins), old(nextTurn), order, items, pins, nextTurn)
    {
      order := [];
      var todo := items;
      assert items - todo == {};
      while todo != {}
        invariant todo <= items && QueuedSoFar(old(pins), old(nextTurn), order, items - todo, pins, nextTurn)
        decreases |todo|
      {
        var item :| item in todo;
        OneMoreDone(items, todo, item);
        QueueOne(item, old(pins), old(nextTurn), order, items - todo);
        order, todo := order + [item], todo - {item};
      }
      assert items - todo == items;
    }

    /** Every `WaitingForRoom` pin becomes `Queued`, each at a turn of its own. */
    method AskAgainForRoom()
      modifies this`pins, this`nextTurn
      ensures Requeues(old(pins), old(nextTurn), pins, nextTurn, WaitingIn(old(pins)))
    {
      ghost var order := QueueEach(WaitingIn(pins));
      InTurnRequeues(old(pins), old(nextTurn), order);
    }

    /** `ReleaseStep` in place, by what the world answers. */
    method ReleaseIfSafe(item: ItemId, answer: Answer)
      modifies this`pins, this`nextTurn, this`log
      ensures ReleaseStep(old(Now()), item, answer, Now())
    {
      if answer.behind || (answer.holds && !answer.enough) {
        pins := pins[item := Releasing];
        return;
      }
      if answer.succeeds {
        pins := pins - {item};
        log := log + [Releases(item)];
        AskAgainForRoom();
      } else {
        pins := pins[item := Releasing];
      }
    }

    method Lose(item: ItemId, answer: Answer)
      modifies this`pins, this`nextTurn, this`log
      ensures LoseStep(old(Now()), item, answer, Now())
    {
      if item in pins && !pins[item].Fetching? {
        ReleaseIfSafe(item, answer);
      }
    }

    /** A fetch ended, without a panic. */
    method Fetched(task: Task, outcome: Outcome, keeps: bool, answer: Answer)
      requires task in tasks && !outcome.Panic?
      modifies this
      ensures EndStep(old(Now()), task, outcome, keeps, answer, Now())
    {
      var item := tasks[task];
      tasks := tasks - {task};
      log := log + [Ends(item, outcome)];
      if item !in pins || !pins[item].Fetching? {
        return;
      }
      var pin := pins[item];
      if !keeps {
        ReleaseIfSafe(item, answer);
        return;
      }
      var again := pin.wantedAgain || (outcome.Error? && pin.availabilityChanged);
      if again {
        pins, nextTurn := pins[item := Queued(nextTurn)], nextTurn + 1;
      } else {
        pins := pins[item := Ended(outcome)];
      }
    }

    /** A fetch panicked: only its task is known. */
    method FetchPanicked(task: Task)
      requires task in tasks
      modifies this
      ensures PanicStep(old(Now()), task, Now())
    {
      log := log + [Ends(tasks[task], Panic)];
      tasks := tasks - {task};
      var found := set i | i in pins && IsFetchedBy(pins, i, task);
      assert forall i :: IsFetchedBy(pins, i, task) <==> i in found;
      if found != {} {
        var item :| item in found;
        pins := pins[item := Failed];
      }
    }

    method Tell(item: ItemId, ghost before: PinMap, ghost first: nat, ghost order: seq<ItemId>, ghost done: set<ItemId>)
      requires item !in done && ToldSoFar(before, first, order, done, pins, nextTurn)
      modifies this`pins, this`nextTurn
      ensures ToldSoFar(before, first, order + [item], done + {item}, pins, nextTurn)
    {
      OneMoreListed(order, done, item);
      HeardOneMore(before, first, order, item);
      if item in pins {
        match pins[item] {
          case Fetching(_, _, _) => pins := pins[item := pins[item].(availabilityChanged := true)];
          case Failed => pins, nextTurn := pins[item := Queued(nextTurn)], nextTurn + 1;
          case _ =>
        }
      }
    }

    /** Tells each pin, in any order, that availability changed. */
    method HearEach() returns (ghost order: seq<ItemId>)
      modifies this`pins, this`nextTurn
      ensures ToldSoFar(old(pins), old(nextTurn), order, old(pins).Keys, pins, nextTurn)
    {
      order := [];
      var all := pins.Keys;
      var todo := all;
      assert all - todo == {};
      while todo != {}
        invariant todo <= all && ToldSoFar(old(pins), old(nextTurn), order, all - todo, pins, nextTurn)
        decreases |todo|
      {
        var item :| item in todo;
        OneMoreDone(all, todo, item);
        Tell(item, old(pins), old(nextTurn), order, all - todo);
        order, todo := order + [item], todo - {item};
      }
      assert all - todo == all;
    }

    method HearOfAvailability()
      modifies this`pins, this`nextTurn, this`log
      ensures HearStep(old(Now()), Now())
    {
      log := log + [Hears];
      ghost var order := HearEach();
      HeardInTurnIs(old(pins), old(nextTurn), order);
      EveryoneHeard(old(pins), old(nextTurn), pins, nextTurn);
    }

    /** Loses each of `items`, in any order. */
    method LoseEach(items: set<ItemId>, answers: ItemId -> Answer)
        returns (ghost run: seq<State>, ghost steps: seq<Step>)
      modifies this`pins, this`nextTurn, this`log
      ensures HasLost(old(Now()), Now(), items, {}, answers, run, steps, maxFetches)
    {
      run, steps := [Now()], [];
      ghost var start := Now();
      var todo := items;
      NoneLost(start, items, answers, maxFetches);
      while todo != {}
        invariant HasLost(start, Now(), items, todo, answers, run, steps, maxFetches)
        decreases |todo|
      {
        var item :| item in todo;
        ghost var s := Now();
        Lose(item, answers(item));
        HasLostOneMore(start, s, items, todo, answers, run, steps, maxFetches, item, Now());
        run, steps := run + [Now()], steps + [Step.Lose(item, answers(item))];
        todo := todo - {item};
      }
    }

    /** Availability changed: what failed may now succeed, and what is being released may be safe. */
    method AvailabilityChanged(answers: ItemId -> Answer) returns (ghost run: seq<State>, ghost steps: seq<Step>)
      modifies this`pins, this`nextTurn, this`log
      ensures IsRun(run, steps, maxFetches) && run[0] == old(Now()) && run[|steps|] == Now()
      ensures |steps| == 1 + |ReleasingIn(old(pins))| && steps[0] == Hear && LostIn(steps) == ReleasingIn(old(pins))
      ensures forall k | 1 <= k < |steps| ::
        steps[k].Lose? && steps[k].item in ReleasingIn(old(pins)) && steps[k].answer == answers(steps[k].item)
    {
      ghost var s := Now();
      var releasing := ReleasingIn(pins);
      HearOfAvailability();
      ghost var heard := Now();
      assert Takes(s, Hear, heard, maxFetches);
      ghost var run', steps' := LoseEach(releasing, answers);
      run, steps := Earlier(s, Hear, run', steps', maxFetches);
      LostTogether([Hear], steps');
    }

    /** Wants each of `mine` that is not looked after, or that is said to be kept and is not here. */
    method WantEach(mine: set<ItemId>, holds: ItemId -> bool) returns (ghost run: seq<State>, ghost steps: seq<Step>)
      modifies this
      ensures HasWanted(old(Now()), Now(), mine, {}, holds, run, steps, maxFetches)
    {
      run, steps := [Now()], [];
      ghost var start := Now();
      var todo := mine;
      NoneWanted(start, mine, holds, maxFetches);
      while todo != {}
        invariant HasWanted(start, Now(), mine, todo, holds, run, steps, maxFetches)
        decreases |todo|
      {
        var item :| item in todo;
        ghost var s := Now();
        if NeedsKeeping(Get(pins, item), holds(item)) {
          Want(item);
          HasWantedOneMore(start, s, mine, todo, holds, run, steps, maxFetches, item);
          run, steps := run + [Now()], steps + [Step.Want(item)];
        } else {
          HasPassedOneOver(start, s, mine, todo, holds, run, steps, maxFetches, item);
        }
        todo := todo - {item};
      }
    }

    /** A pass: wants each of `mine` that is not kept, then loses every pin that is not of `mine`. Before
        custody is first computed there is no `mine`, and nothing happens. */
    method ReadCustodyAgain(mine: Option<set<ItemId>>, holds: ItemId -> bool, answers: ItemId -> Answer)
        returns (ghost run: seq<State>, ghost steps: seq<Step>)
      modifies this
      ensures IsRun(run, steps, maxFetches) && run[0] == old(Now()) && run[|steps|] == Now()
      ensures mine.None? ==> steps == []
      ensures mine.Some? ==> IsPass(steps, old(pins), mine.value, holds, answers)
      ensures mine.Some? ==> forall i | i in mine.value ::
        i in pins && pins[i] != Releasing && (pins[i] == Kept ==> holds(i))
      ensures mine.Some? ==> forall i | i in pins && i !in mine.value :: pins[i].Fetching? || pins[i].Releasing?
    {
      run, steps := [Now()], [];
      if mine.None? {
        return;
      }
      ghost var start := Now();
      run, steps := WantEach(mine.value, holds);
      ghost var wanted := Now();
      var lost := pins.Keys - mine.value;
      ghost var run', steps' := LoseEach(lost, answers);
      PassLeaves(start, wanted, Now(), mine.value, holds, answers, run, steps, run', steps', maxFetches);
      run, steps := InARow(run, steps, run', steps', maxFetches);
    }

    /** The first `count` of the `Queued` pins under `GoesFirst`, in no particular order. */
    method NextToFetch(count: nat, copies: ItemId -> nat) returns (picked: seq<ItemId>)
      ensures IsPick(pins, count, copies, picked)
    {
      picked := [];
      var queued := QueuedIn(pins);
      var left := queued;
      while left != {} && |picked| < count
        invariant left <= queued && NoRepeats(picked) && Elements(picked) == queued - left
        invariant |picked| + |left| == |queued| && |picked| <= count
        invariant forall p, q | p in Elements(picked) && q in left :: !GoesFirst(pins, copies, q, p)
        decreases |left|
      {
        var item := FirstOf(left, copies);
        assert item !in Elements(picked);
        ghost var before := picked;
        picked := picked + [item];
        assert Elements(picked) == Elements(before) + {item};
        left := left - {item};
      }
      assert left == queued - Elements(picked);
    }

    method FirstOf(some: set<ItemId>, copies: ItemId -> nat) returns (first: ItemId)
      requires some != {} && some <= QueuedIn(pins)
      ensures first in some && forall q | q in some :: !GoesFirst(pins, copies, q, first)
    {
      first :| first in some;
      var todo := some - {first};
      while todo != {}
        invariant first in some && todo <= some && forall q | q in some - todo :: !GoesFirst(pins, copies, q, first)
        decreases |todo|
      {
        var item :| item in todo;
        ghost var best := first;
        assert forall q | q in some - (todo - {item}) :: q == item || q in some - todo;
        if GoesFirst(pins, copies, item, first) {
          first := item;
        }
        todo := todo - {item};
      }
    }

    /** Starts a task for each of the picked items; there are as many as slots are free, if so many
        are queued. */
    method StartFetches(copies: ItemId -> nat) returns (ghost picked: seq<ItemId>)
      modifies this
      ensures IsPick(old(pins), SaturatingSub(maxFetches, |old(tasks)|), copies, picked)
      ensures Now() == Started(old(Now()), picked)
    {
      var free := SaturatingSub(maxFetches, |tasks|);
      var chosen := NextToFetch(free, copies);
      picked := chosen;
      ghost var before := Now();
      for n := 0 to |chosen|
        invariant Now() == Started(before, chosen[..n])
      {
        var item := chosen[n];
        assert chosen[..n + 1][..n] == chosen[..n];
        pins := pins[item := Fetching(nextTask, false, false)];
        tasks := tasks[nextTask := item];
        nextTask := nextTask + 1;
        log := log + [Starts(item)];
      }
      assert chosen[..|chosen|] == chosen;
    }
  }

  /** Those of `mine` that are not kept: neither pinned, or on their way out, or said to be kept and not here. */
  ghost function Unkept(pins: PinMap, mine: set<ItemId>, holds: ItemId -> bool): set<ItemId> {
    set i | i in mine && (i !in pins || pins[i] == Releasing || (pins[i] == Kept && !holds(i)))
  }

  lemma OneMoreUnkept(pins: PinMap, mine: set<ItemId>, item: ItemId, holds: ItemId -> bool)
    ensures Unkept(pins, mine + {item}, holds) ==
      Unkept(pins, mine, holds) + if NeedsKeeping(Get(pins, item), holds(item)) then {item} else {}
  {
  }

  /** Whether the steps of a pass want exactly those of `mine` that are not kept, each once, and then lose
      exactly the pins not of `mine`, each once and by what the world answers. */
  ghost predicate IsPass(steps: seq<Step>, pins: PinMap, mine: set<ItemId>, holds: ItemId -> bool,
      answers: ItemId -> Answer) {
    && WantedIn(steps) == Unkept(pins, mine, holds) && LostIn(steps) == pins.Keys - mine
    && |steps| == |Unkept(pins, mine, holds)| + |pins.Keys - mine|
    && forall k | 0 <= k < |steps| ::
         steps[k].Want? || (steps[k].Lose? && steps[k].answer == answers(steps[k].item))
  }

  ghost predicate WantedSoFar(before: PinMap, pins: PinMap, mine: set<ItemId>, todo: set<ItemId>,
      holds: ItemId -> bool) {
    && (forall i | i in mine && i !in todo :: i in pins && !NeedsKeeping(Some(pins[i]), holds(i)))
    && (forall i | i !in mine || i in todo :: Get(pins, i) == Get(before, i))
  }

  lemma InARow(run: seq<State>, steps: seq<Step>, run': seq<State>, steps': seq<Step>, maxFetches: nat)
      returns (whole: seq<State>, all: seq<Step>)
    requires IsRun(run, steps, maxFetches) && IsRun(run', steps', maxFetches) && run[|steps|] == run'[0]
    ensures whole == run + run'[1..] && all == steps + steps' && IsRun(whole, all, maxFetches)
  {
    whole, all := run + run'[1..], steps + steps';
    forall k | 0 <= k < |all| ensures Takes(whole[k], all[k], whole[k + 1], maxFetches) {
      if k < |steps| {
        assert Takes(run[k], steps[k], run[k + 1], maxFetches);
      } else {
        assert Takes(run'[k - |steps|], steps'[k - |steps|], run'[k - |steps| + 1], maxFetches);
      }
    }
  }

  /** Whether an item not lost itself has at most been asked for room again meanwhile. */
  predicate Kin(before: Option<Pin>, after: Option<Pin>) {
    before == after || (before == Some(WaitingForRoom) && after.Some? && after.value.Queued?)
  }

  ghost predicate LostSoFar(before: PinMap, pins: PinMap, items: set<ItemId>, todo: set<ItemId>) {
    && pins.Keys <= before.Keys
    && (forall i | i in before && (i !in items || i in todo) :: Kin(Some(before[i]), Get(pins, i)))
    && (forall i | i in pins && i in items && i !in todo :: pins[i].Fetching? || pins[i].Releasing?)
  }

  /** What has been lost when `todo` of `items` are still to be. */
  ghost predicate HasLost(start: State, now: State, items: set<ItemId>, todo: set<ItemId>,
      answers: ItemId -> Answer, run: seq<State>, steps: seq<Step>, maxFetches: nat) {
    && IsRun(run, steps, maxFetches) && run[0] == start && run[|steps|] == now
    && todo <= items && |steps| + |todo| == |items| && LostIn(steps) == items - todo
    && AllLose(steps, answers) && LostSoFar(start.pins, now.pins, items, todo)
  }

  ghost predicate AllLose(steps: seq<Step>, answers: ItemId -> Answer) {
    forall k | 0 <= k < |steps| :: steps[k].Lose? && steps[k].answer == answers(steps[k].item)
  }

  lemma NoneLost(start: State, items: set<ItemId>, answers: ItemId -> Answer, maxFetches: nat)
    ensures HasLost(start, start, items, items, answers, [start], [], maxFetches)
  {
  }

  lemma HasLostOneMore(start: State, s: State, items: set<ItemId>, todo: set<ItemId>, answers: ItemId -> Answer,
      run: seq<State>, steps: seq<Step>, maxFetches: nat, item: ItemId, s': State)
    requires HasLost(start, s, items, todo, answers, run, steps, maxFetches) && item in todo
    requires LoseStep(s, item, answers(item), s')
    ensures HasLost(start, s', items, todo - {item}, answers, run + [s'], steps + [Step.Lose(item, answers(item))],
      maxFetches)
  {
    LosesOne(start.pins, s, items, todo, item, answers(item), s');
    LostTogether(steps, [Step.Lose(item, answers(item))]);
    OneLost(item, answers(item));
    OneMoreDone(items, todo, item);
    var run', steps' := Longer(run, steps, Step.Lose(item, answers(item)), s', maxFetches);
  }

  /** What has been wanted when `todo` of `mine` are still to be looked at. */
  ghost predicate HasWanted(start: State, now: State, mine: set<ItemId>, todo: set<ItemId>, holds: ItemId -> bool,
      run: seq<State>, steps: seq<Step>, maxFetches: nat) {
    && IsRun(run, steps, maxFetches) && run[0] == start && run[|steps|] == now
    && todo <= mine && WantedSoFar(start.pins, now.pins, mine, todo, holds)
    && |steps| == |WantedIn(steps)| && WantedIn(steps) == Unkept(start.pins, mine - todo, holds) && AllWant(steps)
  }

  ghost predicate AllWant(steps: seq<Step>) {
    forall k | 0 <= k < |steps| :: steps[k].Want?
  }

  lemma NoneWanted(start: State, mine: set<ItemId>, holds: ItemId -> bool, maxFetches: nat)
    ensures HasWanted(start, start, mine, mine, holds, [start], [], maxFetches)
  {
  }

  lemma HasPassedOneOver(start: State, s: State, mine: set<ItemId>, todo: set<ItemId>, holds: ItemId -> bool,
      run: seq<State>, steps: seq<Step>, maxFetches: nat, item: ItemId)
    requires HasWanted(start, s, mine, todo, holds, run, steps, maxFetches) && item in todo
    requires !NeedsKeeping(Get(s.pins, item), holds(item))
    ensures HasWanted(start, s, mine, todo - {item}, holds, run, steps, maxFetches)
  {
    OneMoreDone(mine, todo, item);
    OneMoreUnkept(start.pins, mine - todo, item, holds);
    assert Get(s.pins, item) == Get(start.pins, item);
  }

  lemma WantsOne(start: State, s: State, mine: set<ItemId>, todo: set<ItemId>, holds: ItemId -> bool, item: ItemId)
    requires WantedSoFar(start.pins, s.pins, mine, todo, holds) && item in todo && todo <= mine
    requires NeedsKeeping(Get(s.pins, item), holds(item))
    ensures WantedSoFar(start.pins, WantStep(s, item).pins, mine, todo - {item}, holds)
  {
    var after := WantStep(s, item).pins;
    assert !NeedsKeeping(Some(after[item]), holds(item));
    forall i: ItemId | i !in mine || i in todo - {item} ensures Get(after, i) == Get(start.pins, i) {
      assert Get(s.pins, i) == Get(start.pins, i);
    }
  }

  lemma OneMoreIsWanted(steps: seq<Step>, item: ItemId)
    requires |steps| == |WantedIn(steps)| && AllWant(steps) && item !in WantedIn(steps)
    ensures var more := steps + [Step.Want(item)];
      |more| == |WantedIn(more)| && AllWant(more) && WantedIn(more) == WantedIn(steps) + {item}
  {
    WantedTogether(steps, [Step.Want(item)]);
    OneWanted(item);
  }

  lemma HasWantedOneMore(start: State, s: State, mine: set<ItemId>, todo: set<ItemId>, holds: ItemId -> bool,
      run: seq<State>, steps: seq<Step>, maxFetches: nat, item: ItemId)
    requires HasWanted(start, s, mine, todo, holds, run, steps, maxFetches) && item in todo
    requires NeedsKeeping(Get(s.pins, item), holds(item))
    ensures HasWanted(start, WantStep(s, item), mine, todo - {item}, holds, run + [WantStep(s, item)],
      steps + [Step.Want(item)], maxFetches)
  {
    assert Get(s.pins, item) == Get(start.pins, item);
    OneMoreDone(mine, todo, item);
    OneMoreUnkept(start.pins, mine - todo, item, holds);
    WantsOne(start, s, mine, todo, holds, item);
    OneMoreIsWanted(steps, item);
    var run', steps' := Longer(run, steps, Step.Want(item), WantStep(s, item), maxFetches);
  }

  lemma OnlyWant(steps: seq<Step>)
    requires AllWant(steps)
    ensures LostIn(steps) == {}
  {
  }

  lemma OnlyLose(steps: seq<Step>, answers: ItemId -> Answer)
    requires AllLose(steps, answers)
    ensures WantedIn(steps) == {}
  {
  }

  lemma IsAPass(start: State, steps: seq<Step>, steps': seq<Step>, mine: set<ItemId>, holds: ItemId -> bool,
      answers: ItemId -> Answer)
    requires AllWant(steps) && WantedIn(steps) == Unkept(start.pins, mine, holds) && |steps| == |WantedIn(steps)|
    requires AllLose(steps', answers) && LostIn(steps') == start.pins.Keys - mine && |steps'| == |LostIn(steps')|
    ensures IsPass(steps + steps', start.pins, mine, holds, answers)
  {
    LostTogether(steps, steps');
    WantedTogether(steps, steps');
    OnlyWant(steps);
    OnlyLose(steps', answers);
  }

  lemma AsManyToLose(before: PinMap, wanted: PinMap, mine: set<ItemId>, holds: ItemId -> bool)
    requires WantedSoFar(before, wanted, mine, {}, holds)
    ensures wanted.Keys - mine == before.Keys - mine
  {
    forall i | i !in mine ensures i in wanted <==> i in before {
      assert Get(wanted, i) == Get(before, i);
    }
  }

  /** What a pass leaves: everything of `mine` looked after, and everything else on its way out or being
      fetched. */
  lemma LeavesLookedAfter(before: PinMap, wanted: PinMap, now: PinMap, mine: set<ItemId>, holds: ItemId -> bool)
    requires WantedSoFar(before, wanted, mine, {}, holds) && LostSoFar(wanted, now, wanted.Keys - mine, {})
    ensures forall i | i in mine :: i in now && now[i] != Releasing && (now[i] == Kept ==> holds(i))
    ensures forall i | i in now && i !in mine :: now[i].Fetching? || now[i].Releasing?
  {
    forall i | i in mine ensures i in now && now[i] != Releasing && (now[i] == Kept ==> holds(i)) {
      assert i in wanted && !NeedsKeeping(Some(wanted[i]), holds(i));
      assert Kin(Some(wanted[i]), Get(now, i));
    }
  }

  lemma PassLeaves(start: State, wanted: State, now: State, mine: set<ItemId>, holds: ItemId -> bool,
      answers: ItemId -> Answer, run: seq<State>, steps: seq<Step>, run': seq<State>, steps': seq<Step>,
      maxFetches: nat)
    requires HasWanted(start, wanted, mine, {}, holds, run, steps, maxFetches)
    requires HasLost(wanted, now, wanted.pins.Keys - mine, {}, answers, run', steps', maxFetches)
    ensures IsPass(steps + steps', start.pins, mine, holds, answers)
    ensures forall i | i in mine ::
      i in now.pins && now.pins[i] != Releasing && (now.pins[i] == Kept ==> holds(i))
    ensures forall i | i in now.pins && i !in mine :: now.pins[i].Fetching? || now.pins[i].Releasing?
  {
    AsManyToLose(start.pins, wanted.pins, mine, holds);
    LeavesLookedAfter(start.pins, wanted.pins, now.pins, mine, holds);
    NothingLeft(mine);
    NothingLeft(wanted.pins.Keys - mine);
    IsAPass(start, steps, steps', mine, holds, answers);
  }

  lemma NothingLeft(items: set<ItemId>)
    ensures items - {} == items
  {
  }

  lemma LosesOne(before: PinMap, s: State, items: set<ItemId>, todo: set<ItemId>, item: ItemId, answer: Answer,
      s': State)
    requires LostSoFar(before, s.pins, items, todo) && item in todo && todo <= items && LoseStep(s, item, answer, s')
    ensures LostSoFar(before, s'.pins, items, todo - {item})
  {
    forall i | i in before && (i !in items || i in todo - {item}) ensures Kin(Some(before[i]), Get(s'.pins, i)) {
      assert Kin(Some(before[i]), Get(s.pins, i));
      if s' != s {
        assert i in (s.pins - {item}) && (s.pins - {item})[i] == s.pins[i];
      }
    }
    forall i | i in s'.pins && i in items && i !in todo - {item} ensures s'.pins[i].Fetching? || s'.pins[i].Releasing? {
      if i != item {
        assert s.pins[i].Fetching? || s.pins[i].Releasing?;
      }
    }
  }
}
