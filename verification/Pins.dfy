/** The pin manager of crates/distlib-custody/src/pins.rs, as steps over values: each item's state,
    the fetches under way, and what has happened so far. `PinManager.dfy` takes the same steps in
    place. */
module Pins {
  import opened Common

  type Task = nat

  /** The states of an item; a queued one has its turn, one being fetched its task and two flags. */
  datatype Pin =
    | Queued(turn: nat)
    | Fetching(task: Task, wantedAgain: bool, availabilityChanged: bool)
    | Failed
    | WaitingForRoom
    | Kept
    | Releasing

  datatype Outcome = Done | NoRoom | Error | Panic

  /** What happened: nothing decides by it. */
  datatype Note =
    | Wants(item: ItemId)
    | Starts(item: ItemId)
    | Ends(item: ItemId, outcome: Outcome)
    | Hears
    | Releases(item: ItemId)

  type Log = seq<Note>

  type PinMap = map<ItemId, Pin>

  datatype State = State(pins: PinMap, nextTurn: nat, tasks: map<Task, ItemId>, nextTask: Task, log: Log)

  /** What the world answers when an item is to be let go of: whether this node is behind the group,
      whether it holds the item, whether enough others do, and whether letting go succeeds. */
  datatype Answer = Answer(behind: bool, holds: bool, enough: bool, succeeds: bool) {
    predicate LetsGo() {
      !behind && (holds ==> enough) && succeeds
    }
  }

  // ----- The steps -----

  /** A want leaves a queued pin in its place, sets the first flag of one being fetched, and queues
      any other at `turn`. */
  function Wanted(pin: Option<Pin>, turn: nat): Pin {
    match pin
    case Some(Queued(t)) => Queued(t)
    case Some(Fetching(task, _, changed)) => Fetching(task, true, changed)
    case _ => Queued(turn)
  }

  function WantStep(s: State, item: ItemId): State {
    State(s.pins[item := Wanted(Get(s.pins, item), s.nextTurn)], s.nextTurn + 1, s.tasks, s.nextTask,
      s.log + [Wants(item)])
  }

  function WaitingIn(pins: PinMap): set<ItemId> {
    set i | i in pins && pins[i] == WaitingForRoom
  }

  function FailedIn(pins: PinMap): set<ItemId> {
    set i | i in pins && pins[i] == Failed
  }

  function ReleasingIn(pins: PinMap): set<ItemId> {
    set i | i in pins && pins[i] == Releasing
  }

  /** Whether `after` is `before` with `some` queued, in any order, from turn `first` up to `next`. */
  ghost predicate Requeues(before: PinMap, first: nat, after: PinMap, next: nat, some: set<ItemId>) {
    && some <= before.Keys == after.Keys && next == first + |some|
    && (forall i | i in before && i !in some :: after[i] == before[i])
    && (forall i | i in some :: after[i].Queued? && first <= after[i].turn < next)
    && (forall i, j | i in some && j in some && i != j :: after[i] != after[j])
  }

  /** Lets go of `item`, and asks again for what waits for room; or holds on to it for now. */
  ghost predicate ReleaseStep(s: State, item: ItemId, answer: Answer, s': State) {
    if answer.LetsGo() then
      && s' == State(s'.pins, s'.nextTurn, s.tasks, s.nextTask, s.log + [Releases(item)])
      && Requeues(s.pins - {item}, s.nextTurn, s'.pins, s'.nextTurn, WaitingIn(s.pins - {item}))
    else
      s' == s.(pins := s.pins[item := Releasing])
  }

  ghost predicate LoseStep(s: State, item: ItemId, answer: Answer, s': State) {
    if item !in s.pins || s.pins[item].Fetching? then s' == s else ReleaseStep(s, item, answer, s')
  }

  function StartStep(s: State, item: ItemId): State {
    State(s.pins[item := Fetching(s.nextTask, false, false)], s.nextTurn, s.tasks[s.nextTask := item],
      s.nextTask + 1, s.log + [Starts(item)])
  }

  /** What a fetch that ended with `outcome` leaves, unless it is to be fetched again. */
  function Ended(outcome: Outcome): Pin {
    match outcome
    case Done => Kept
    case NoRoom => WaitingForRoom
    case _ => Failed
  }

  /** The state once `task` has been joined. */
  function Joined(s: State, task: Task, outcome: Outcome): State
    requires task in s.tasks
  {
    s.(tasks := s.tasks - {task}, log := s.log + [Ends(s.tasks[task], outcome)])
  }

  ghost predicate EndStep(s: State, task: Task, outcome: Outcome, keeps: bool, answer: Answer, s': State) {
    && task in s.tasks && !outcome.Panic?
    && var item, t := s.tasks[task], Joined(s, task, outcome);
    if item !in s.pins || !s.pins[item].Fetching? then s' == t
    else if !keeps then ReleaseStep(t, item, answer, s')
    else s' == SettledAs(t, item, s.pins[item], outcome)
  }

  /** The end of a fetch of an item still kept: queued again if `pin` says so, else as `Ended` says. */
  function SettledAs(t: State, item: ItemId, pin: Pin, outcome: Outcome): State
    requires pin.Fetching?
  {
    if pin.wantedAgain || (outcome.Error? && pin.availabilityChanged) then
      t.(pins := t.pins[item := Queued(t.nextTurn)], nextTurn := t.nextTurn + 1)
    else t.(pins := t.pins[item := Ended(outcome)])
  }

  predicate IsFetchedBy(pins: PinMap, item: ItemId, task: Task) {
    item in pins && pins[item].Fetching? && pins[item].task == task
  }

  ghost predicate PanicStep(s: State, task: Task, s': State) {
    && task in s.tasks
    && var t := Joined(s, task, Panic);
    if exists item :: IsFetchedBy(s.pins, item, task)
    then exists item :: IsFetchedBy(s.pins, item, task) && s' == t.(pins := t.pins[item := Failed])
    else s' == t
  }

  /** A fetch under way remembers that availability changed. */
  function Flagged(pins: PinMap): PinMap {
    map i | i in pins :: if pins[i].Fetching? then pins[i].(availabilityChanged := true) else pins[i]
  }

  /** Availability changed: what failed is queued again, and what is being fetched remembers. */
  ghost predicate HearStep(s: State, s': State) {
    && s' == State(s'.pins, s'.nextTurn, s.tasks, s.nextTask, s.log + [Hears])
    && Requeues(Flagged(s.pins), s.nextTurn, s'.pins, s'.nextTurn, FailedIn(s.pins))
  }

  datatype Step =
    | Want(item: ItemId)
    | Lose(item: ItemId, answer: Answer)
    | Start(item: ItemId)
    | End(task: Task, outcome: Outcome, keeps: bool, answer: Answer)
    | Panicked(task: Task)
    | Hear

  ghost predicate Takes(s: State, step: Step, s': State, maxFetches: nat) {
    match step
    case Want(item) => s' == WantStep(s, item)
    case Lose(item, answer) => LoseStep(s, item, answer, s')
    case Start(item) => item in s.pins && s.pins[item].Queued? && |s.tasks| < maxFetches && s' == StartStep(s, item)
    case End(task, outcome, keeps, answer) => EndStep(s, task, outcome, keeps, answer, s')
    case Panicked(task) => PanicStep(s, task, s')
    case Hear => HearStep(s, s')
  }

  /** What the manager starts from: what is tagged for custody already. */
  function Initial(tagged: set<ItemId>): State {
    State(map i | i in tagged :: Kept, 0, map[], 0, [])
  }

  ghost predicate IsRun(run: seq<State>, steps: seq<Step>, maxFetches: nat) {
    && |run| == |steps| + 1
    && forall k | 0 <= k < |steps| :: Takes(run[k], steps[k], run[k + 1], maxFetches)
  }

  // ----- What the log says, read from its end -----

  /** Whether `item` was wanted after its last fetch started. */
  predicate WantedSinceStart(log: Log, item: ItemId) {
    log != [] &&
    var last, rest := log[|log| - 1], log[..|log| - 1];
    last == Wants(item) || (last != Starts(item) && WantedSinceStart(rest, item))
  }

  predicate HeardSinceStart(log: Log, item: ItemId) {
    log != [] &&
    var last, rest := log[|log| - 1], log[..|log| - 1];
    last == Hears || (last != Starts(item) && HeardSinceStart(rest, item))
  }

  predicate HeardSinceEnd(log: Log, item: ItemId) {
    log != [] &&
    var last, rest := log[|log| - 1], log[..|log| - 1];
    last == Hears || (!(last.Ends? && last.item == item) && HeardSinceEnd(rest, item))
  }

  predicate RoomSinceEnd(log: Log, item: ItemId) {
    log != [] &&
    var last, rest := log[|log| - 1], log[..|log| - 1];
    last.Releases? || (!(last.Ends? && last.item == item) && RoomSinceEnd(rest, item))
  }

  predicate RoomSinceStart(log: Log, item: ItemId) {
    log != [] &&
    var last, rest := log[|log| - 1], log[..|log| - 1];
    last.Releases? || (last != Starts(item) && RoomSinceStart(rest, item))
  }

  /** How the last fetch of `item` to end ended. */
  function LastEnd(log: Log, item: ItemId): Option<Outcome> {
    if log == [] then None
    else
      var last, rest := log[|log| - 1], log[..|log| - 1];
      if last.Ends? && last.item == item then Some(last.outcome) else LastEnd(rest, item)
  }

  /** Whether a fetch of `item` has started and not ended. */
  predicate Running(log: Log, item: ItemId) {
    log != [] &&
    var last, rest := log[|log| - 1], log[..|log| - 1];
    last == Starts(item) || (!(last.Ends? && last.item == item) && Running(rest, item))
  }

  // ----- What every run keeps -----

  /** Whether `pin` is what the log makes of `item`. */
  ghost predicate Matches(log: Log, item: ItemId, pin: Pin) {
    match pin
    case Queued(_) => true
    case Fetching(_, wantedAgain, changed) =>
      wantedAgain == WantedSinceStart(log, item) && changed == HeardSinceStart(log, item)
    case Failed =>
      || (LastEnd(log, item) == Some(Error) && !WantedSinceStart(log, item) && !HeardSinceStart(log, item))
      || (LastEnd(log, item) == Some(Panic) && !HeardSinceEnd(log, item))
    case WaitingForRoom =>
      LastEnd(log, item) == Some(NoRoom) && !WantedSinceStart(log, item) && !RoomSinceEnd(log, item)
    case Kept =>
      (LastEnd(log, item) == Some(Done) || LastEnd(log, item) == None) && !WantedSinceStart(log, item)
    case Releasing => true
  }

  /** Pins being fetched and fetches under way are the same, one to one. */
  ghost predicate TasksAgree(pins: PinMap, tasks: map<Task, ItemId>, nextTask: Task) {
    && (forall i | i in pins && pins[i].Fetching? :: Get(tasks, pins[i].task) == Some(i))
    && (forall t | t in tasks :: t < nextTask && IsFetchedBy(pins, tasks[t], t))
  }

  ghost predicate TurnsAgree(pins: PinMap, nextTurn: nat) {
    && (forall i | i in pins && pins[i].Queued? :: pins[i].turn < nextTurn)
    && (forall i, j | i in pins && j in pins && i != j && pins[i].Queued? :: pins[i] != pins[j])
  }

  ghost predicate LogAgrees(pins: PinMap, log: Log) {
    && (forall i :: Running(log, i) <==> i in pins && pins[i].Fetching?)
    && (forall i | i in pins :: Matches(log, i, pins[i]))
  }

  ghost predicate Sound(s: State, maxFetches: nat) {
    && TasksAgree(s.pins, s.tasks, s.nextTask) && |s.tasks| <= maxFetches
    && TurnsAgree(s.pins, s.nextTurn)
    && LogAgrees(s.pins, s.log)
  }

  /** What one more note makes of what the log says of `item`. */
  lemma OneMoreNote(log: Log, note: Note, item: ItemId)
    ensures var more := log + [note];
      && WantedSinceStart(more, item) == (note == Wants(item) || (note != Starts(item) && WantedSinceStart(log, item)))
      && HeardSinceStart(more, item) == (note == Hears || (note != Starts(item) && HeardSinceStart(log, item)))
      && HeardSinceEnd(more, item) ==
        (note == Hears || (!(note.Ends? && note.item == item) && HeardSinceEnd(log, item)))
      && RoomSinceEnd(more, item) == (note.Releases? || (!(note.Ends? && note.item == item) && RoomSinceEnd(log, item)))
      && RoomSinceStart(more, item) == (note.Releases? || (note != Starts(item) && RoomSinceStart(log, item)))
      && LastEnd(more, item) == (if note.Ends? && note.item == item then Some(note.outcome) else LastEnd(log, item))
      && Running(more, item) == (note == Starts(item) || (!(note.Ends? && note.item == item) && Running(log, item)))
  {
    assert (log + [note])[..|log|] == log;
  }

  predicate IsAbout(note: Note, item: ItemId) {
    (note.Wants? || note.Starts? || note.Ends?) && note.item == item
  }

  ghost predicate AgreeBut(a: PinMap, b: PinMap, item: ItemId) {
    forall i | i != item :: Get(a, i) == Get(b, i)
  }

  /** A note about one item, and a change to its pin alone. */
  lemma LogAgreesAfter(pins: PinMap, log: Log, note: Note, item: ItemId, after: PinMap)
    requires LogAgrees(pins, log) && IsAbout(note, item) && AgreeBut(pins, after, item)
    requires Running(log + [note], item) <==> item in after && after[item].Fetching?
    requires item in after ==> Matches(log + [note], item, after[item])
    ensures LogAgrees(after, log + [note])
  {
    forall i
      ensures Running(log + [note], i) <==> i in after && after[i].Fetching?
      ensures i in after ==> Matches(log + [note], i, after[i])
    {
      OneMoreNote(log, note, i);
      assert i != item ==> Get(pins, i) == Get(after, i);
    }
  }

  /** The queue with one pin changed to something else, or to the next turn. */
  lemma TurnsAgreeAfter(pins: PinMap, nextTurn: nat, item: ItemId, after: PinMap, next: nat)
    requires TurnsAgree(pins, nextTurn) && AgreeBut(pins, after, item) && nextTurn <= next
    requires item in after && after[item].Queued? ==>
      (after[item] == Queued(nextTurn) && nextTurn < next) || Get(pins, item) == Some(after[item])
    ensures TurnsAgree(after, next)
  {
    assert forall i | i in after && i != item :: i in pins && pins[i] == after[i] by {
      assert forall i | i in after && i != item :: Get(pins, i) == Get(after, i);
    }
  }

  lemma WantIsSound(s: State, item: ItemId, maxFetches: nat)
    requires Sound(s, maxFetches)
    ensures Sound(WantStep(s, item), maxFetches)
  {
    var after := WantStep(s, item).pins;
    OneMoreNote(s.log, Wants(item), item);
    LogAgreesAfter(s.pins, s.log, Wants(item), item, after);
    TurnsAgreeAfter(s.pins, s.nextTurn, item, after, s.nextTurn + 1);
  }

  lemma StartIsSound(s: State, item: ItemId, maxFetches: nat)
    requires Sound(s, maxFetches)
    requires item in s.pins && s.pins[item].Queued? && |s.tasks| < maxFetches
    ensures Sound(StartStep(s, item), maxFetches)
  {
    var after := StartStep(s, item).pins;
    OneMoreNote(s.log, Starts(item), item);
    LogAgreesAfter(s.pins, s.log, Starts(item), item, after);
    TurnsAgreeAfter(s.pins, s.nextTurn, item, after, s.nextTurn);
    TasksAgreeStarted(s.pins, s.tasks, s.nextTask, item);
  }

  lemma TasksAgreeStarted(pins: PinMap, tasks: map<Task, ItemId>, nextTask: Task, item: ItemId)
    requires TasksAgree(pins, tasks, nextTask) && item in pins && pins[item].Queued?
    ensures TasksAgree(pins[item := Fetching(nextTask, false, false)], tasks[nextTask := item], nextTask + 1)
    ensures |tasks[nextTask := item]| == |tasks| + 1
  {
    var after, tasks' := pins[item := Fetching(nextTask, false, false)], tasks[nextTask := item];
    assert tasks'.Keys == tasks.Keys + {nextTask};
    assert nextTask !in tasks;
    forall i | i in after && after[i].Fetching? ensures Get(tasks', after[i].task) == Some(i) {
      if i != item {
        assert Get(tasks, pins[i].task) == Some(i);
      }
    }
    forall t | t in tasks' ensures t < nextTask + 1 && IsFetchedBy(after, tasks'[t], t) {
      if t != nextTask {
        FetchedStill(pins, tasks, nextTask, item, t);
      }
    }
  }

  lemma FetchedStill(pins: PinMap, tasks: map<Task, ItemId>, nextTask: Task, item: ItemId, t: Task)
    requires TasksAgree(pins, tasks, nextTask) && item in pins && pins[item].Queued? && t in tasks
    ensures t < nextTask && IsFetchedBy(pins[item := Fetching(nextTask, false, false)], tasks[t], t)
  {
    assert IsFetchedBy(pins, tasks[t], t);
  }

  lemma TurnsAgreeRequeued(before: PinMap, first: nat, after: PinMap, next: nat, some: set<ItemId>)
    requires TurnsAgree(before, first) && Requeues(before, first, after, next, some)
    ensures TurnsAgree(after, next)
  {
  }

  lemma TasksAgreeFlagged(pins: PinMap, tasks: map<Task, ItemId>, nextTask: Task)
    requires TasksAgree(pins, tasks, nextTask)
    ensures TasksAgree(Flagged(pins), tasks, nextTask)
  {
    forall t | t in tasks ensures t < nextTask && IsFetchedBy(Flagged(pins), tasks[t], t) {
      assert IsFetchedBy(pins, tasks[t], t);
    }
  }

  lemma TasksAgreeRequeued(before: PinMap, tasks: map<Task, ItemId>, nextTask: Task, first: nat, after: PinMap,
      next: nat, some: set<ItemId>)
    requires TasksAgree(before, tasks, nextTask) && Requeues(before, first, after, next, some)
    requires forall i | i in some :: !before[i].Fetching?
    ensures TasksAgree(after, tasks, nextTask)
  {
    forall t | t in tasks ensures t < nextTask && IsFetchedBy(after, tasks[t], t) {
      assert IsFetchedBy(before, tasks[t], t);
    }
  }

  lemma HearAgreesWithLog(s: State, s': State)
    requires LogAgrees(s.pins, s.log) && HearStep(s, s')
    ensures LogAgrees(s'.pins, s'.log)
  {
    forall i
      ensures Running(s'.log, i) <==> i in s'.pins && s'.pins[i].Fetching?
      ensures i in s'.pins ==> Matches(s'.log, i, s'.pins[i])
    {
      OneMoreNote(s.log, Hears, i);
      assert i in s.pins ==> Flagged(s.pins)[i].Fetching? == s.pins[i].Fetching?;
    }
  }

  lemma HearIsSound(s: State, s': State, maxFetches: nat)
    requires Sound(s, maxFetches) && HearStep(s, s')
    ensures Sound(s', maxFetches)
  {
    HearAgreesWithLog(s, s');
    TasksAgreeFlagged(s.pins, s.tasks, s.nextTask);
    TasksAgreeRequeued(Flagged(s.pins), s.tasks, s.nextTask, s.nextTurn, s'.pins, s'.nextTurn, FailedIn(s.pins));
    TurnsAgreeRequeued(Flagged(s.pins), s.nextTurn, s'.pins, s'.nextTurn, FailedIn(s.pins));
  }

  /** Whether `s` is sound but for `item`, whose pin may be anything, and which nothing fetches. */
  ghost predicate SoundBut(s: State, item: ItemId, maxFetches: nat) {
    && TasksAgree(s.pins - {item}, s.tasks, s.nextTask) && |s.tasks| <= maxFetches
    && TurnsAgree(s.pins - {item}, s.nextTurn)
    && LogAgrees(s.pins - {item}, s.log)
  }

  lemma TasksAgreeSettled(bare: PinMap, tasks: map<Task, ItemId>, nextTask: Task, item: ItemId, after: PinMap)
    requires TasksAgree(bare, tasks, nextTask) && AgreeBut(bare, after, item) && item !in bare
    requires item in after ==> !after[item].Fetching?
    ensures TasksAgree(after, tasks, nextTask)
  {
    forall i | i in after && after[i].Fetching? ensures Get(tasks, after[i].task) == Some(i) {
      assert Get(bare, i) == Get(after, i);
    }
    forall t | t in tasks ensures t < nextTask && IsFetchedBy(after, tasks[t], t) {
      assert Get(bare, tasks[t]) == Get(after, tasks[t]);
    }
  }

  lemma LogAgreesSettled(bare: PinMap, log: Log, item: ItemId, after: PinMap)
    requires LogAgrees(bare, log) && AgreeBut(bare, after, item) && item !in bare
    requires item in after ==> !after[item].Fetching? && Matches(log, item, after[item])
    ensures LogAgrees(after, log)
  {
    forall i
      ensures Running(log, i) <==> i in after && after[i].Fetching?
      ensures i in after ==> Matches(log, i, after[i])
    {
      assert i != item ==> Get(bare, i) == Get(after, i);
    }
  }

  lemma SettledIsSound(s: State, item: ItemId, pin: Pin, nextTurn: nat, maxFetches: nat)
    requires SoundBut(s, item, maxFetches) && !pin.Fetching? && Matches(s.log, item, pin)
    requires pin.Queued? ==> pin.turn == s.nextTurn < nextTurn
    requires s.nextTurn <= nextTurn
    ensures Sound(s.(pins := s.pins[item := pin], nextTurn := nextTurn), maxFetches)
  {
    var bare, after := s.pins - {item}, s.pins[item := pin];
    TurnsAgreeAfter(bare, s.nextTurn, item, after, nextTurn);
    TasksAgreeSettled(bare, s.tasks, s.nextTask, item, after);
    LogAgreesSettled(bare, s.log, item, after);
  }

  lemma ReleaseAgreesWithLog(bare: PinMap, log: Log, item: ItemId, after: PinMap, first: nat, next: nat)
    requires LogAgrees(bare, log) && Requeues(bare, first, after, next, WaitingIn(bare))
    ensures LogAgrees(after, log + [Releases(item)])
  {
    forall i
      ensures Running(log + [Releases(item)], i) <==> i in after && after[i].Fetching?
      ensures i in after ==> Matches(log + [Releases(item)], i, after[i])
    {
      OneMoreNote(log, Releases(item), i);
    }
  }

  lemma ReleaseIsSound(s: State, item: ItemId, answer: Answer, s': State, maxFetches: nat)
    requires SoundBut(s, item, maxFetches) && ReleaseStep(s, item, answer, s')
    ensures Sound(s', maxFetches)
  {
    var bare := s.pins - {item};
    if answer.LetsGo() {
      ReleaseAgreesWithLog(bare, s.log, item, s'.pins, s.nextTurn, s'.nextTurn);
      TasksAgreeRequeued(bare, s.tasks, s.nextTask, s.nextTurn, s'.pins, s'.nextTurn, WaitingIn(bare));
      TurnsAgreeRequeued(bare, s.nextTurn, s'.pins, s'.nextTurn, WaitingIn(bare));
    } else {
      SettledIsSound(s, item, Releasing, s.nextTurn, maxFetches);
    }
  }

  lemma NotFetchedIsSoundBut(s: State, item: ItemId, maxFetches: nat)
    requires Sound(s, maxFetches) && item in s.pins && !s.pins[item].Fetching?
    ensures SoundBut(s, item, maxFetches)
  {
    var bare := s.pins - {item};
    assert AgreeBut(s.pins, bare, item);
    TasksAgreeWithout(s.pins, s.tasks, s.nextTask, item);
    TurnsAgreeAfter(s.pins, s.nextTurn, item, bare, s.nextTurn);
    LogAgreesWithout(s.pins, s.log, item);
  }

  lemma TasksAgreeWithout(pins: PinMap, tasks: map<Task, ItemId>, nextTask: Task, item: ItemId)
    requires TasksAgree(pins, tasks, nextTask) && item in pins && !pins[item].Fetching?
    ensures TasksAgree(pins - {item}, tasks, nextTask)
  {
    forall t | t in tasks ensures t < nextTask && IsFetchedBy(pins - {item}, tasks[t], t) {
      assert IsFetchedBy(pins, tasks[t], t);
    }
  }

  lemma LogAgreesWithout(pins: PinMap, log: Log, item: ItemId)
    requires LogAgrees(pins, log) && item in pins && !pins[item].Fetching?
    ensures LogAgrees(pins - {item}, log)
  {
  }

  lemma LoseIsSound(s: State, item: ItemId, answer: Answer, s': State, maxFetches: nat)
    requires Sound(s, maxFetches) && LoseStep(s, item, answer, s')
    ensures Sound(s', maxFetches)
  {
    if item in s.pins && !s.pins[item].Fetching? {
      NotFetchedIsSoundBut(s, item, maxFetches);
      ReleaseIsSound(s, item, answer, s', maxFetches);
    }
  }

  lemma JoinedIsSoundBut(s: State, task: Task, outcome: Outcome, maxFetches: nat)
    requires Sound(s, maxFetches) && task in s.tasks
    ensures IsFetchedBy(s.pins, s.tasks[task], task)
    ensures SoundBut(Joined(s, task, outcome), s.tasks[task], maxFetches)
  {
    var item, t := s.tasks[task], Joined(s, task, outcome);
    var bare := s.pins - {item};
    TasksAgreeJoined(s.pins, s.tasks, s.nextTask, task);
    assert AgreeBut(s.pins, bare, item);
    OneMoreNote(s.log, Ends(item, outcome), item);
    LogAgreesAfter(s.pins, s.log, Ends(item, outcome), item, bare);
    TurnsAgreeAfter(s.pins, s.nextTurn, item, bare, s.nextTurn);
  }

  lemma TasksAgreeJoined(pins: PinMap, tasks: map<Task, ItemId>, nextTask: Task, task: Task)
    requires TasksAgree(pins, tasks, nextTask) && task in tasks
    ensures IsFetchedBy(pins, tasks[task], task)
    ensures TasksAgree(pins - {tasks[task]}, tasks - {task}, nextTask) && |tasks - {task}| == |tasks| - 1
  {
    assert tasks.Keys == (tasks - {task}).Keys + {task};
  }

  lemma EndIsSound(s: State, task: Task, outcome: Outcome, keeps: bool, answer: Answer, s': State, maxFetches: nat)
    requires Sound(s, maxFetches) && EndStep(s, task, outcome, keeps, answer, s')
    ensures Sound(s', maxFetches)
  {
    var item, t := s.tasks[task], Joined(s, task, outcome);
    JoinedIsSoundBut(s, task, outcome, maxFetches);
    if !keeps {
      ReleaseIsSound(t, item, answer, s', maxFetches);
    } else {
      assert Matches(s.log, item, s.pins[item]);
      SettledAsIsSound(s.log, t, item, s.pins[item], outcome, maxFetches);
    }
  }

  lemma SettledAsIsSound(log: Log, t: State, item: ItemId, pin: Pin, outcome: Outcome, maxFetches: nat)
    requires SoundBut(t, item, maxFetches) && t.log == log + [Ends(item, outcome)] && !outcome.Panic?
    requires pin.Fetching? && Matches(log, item, pin)
    ensures Sound(SettledAs(t, item, pin, outcome), maxFetches)
  {
    OneMoreNote(log, Ends(item, outcome), item);
    var after := SettledAs(t, item, pin, outcome);
    SettledIsSound(t, item, after.pins[item], after.nextTurn, maxFetches);
  }

  lemma PanicIsSound(s: State, task: Task, s': State, maxFetches: nat)
    requires Sound(s, maxFetches) && PanicStep(s, task, s')
    ensures Sound(s', maxFetches)
  {
    var item, t := s.tasks[task], Joined(s, task, Panic);
    JoinedIsSoundBut(s, task, Panic, maxFetches);
    OneMoreNote(s.log, Ends(item, Panic), item);
    SettledIsSound(t, item, Failed, t.nextTurn, maxFetches);
  }

  lemma InitialIsSound(tagged: set<ItemId>, maxFetches: nat)
    ensures Sound(Initial(tagged), maxFetches)
  {
  }

  lemma StepIsSound(s: State, step: Step, s': State, maxFetches: nat)
    requires Sound(s, maxFetches) && Takes(s, step, s', maxFetches)
    ensures Sound(s', maxFetches)
  {
    match step
    case Want(item) => WantIsSound(s, item, maxFetches);
    case Lose(item, answer) => LoseIsSound(s, item, answer, s', maxFetches);
    case Start(item) => StartIsSound(s, item, maxFetches);
    case End(task, outcome, keeps, answer) => EndIsSound(s, task, outcome, keeps, answer, s', maxFetches);
    case Panicked(task) => PanicIsSound(s, task, s', maxFetches);
    case Hear => HearIsSound(s, s', maxFetches);
  }

  /** Over every interleaving of wants, losses, fetches starting and ending and availability
      changing, each pin is what the log makes of its item, and fetches are the pins being fetched. */
  lemma {:induction false} EveryRunIsSound(tagged: set<ItemId>, run: seq<State>, steps: seq<Step>, maxFetches: nat,
      k: nat)
    requires IsRun(run, steps, maxFetches) && run[0] == Initial(tagged) && k < |run|
    ensures Sound(run[k], maxFetches)
  {
    if k == 0 {
      InitialIsSound(tagged, maxFetches);
    } else {
      EveryRunIsSound(tagged, run, steps, maxFetches, k - 1);
      StepIsSound(run[k - 1], steps[k - 1], run[k], maxFetches);
    }
  }

  function FetchingIn(pins: PinMap): set<ItemId> {
    set i | i in pins && pins[i].Fetching?
  }

  lemma {:induction false} FetchingAreTheTasks(pins: PinMap, tasks: map<Task, ItemId>, nextTask: Task)
    requires TasksAgree(pins, tasks, nextTask)
    ensures |FetchingIn(pins)| == |tasks|
    decreases |tasks|
  {
    if tasks == map[] {
      assert FetchingIn(pins) == {};
    } else {
      var task :| task in tasks;
      var item := tasks[task];
      TasksAgreeJoined(pins, tasks, nextTask, task);
      FetchingAreTheTasks(pins - {item}, tasks - {task}, nextTask);
      assert FetchingIn(pins) == FetchingIn(pins - {item}) + {item};
    }
  }

  /** Never more pins are being fetched than fetches allowed, and queued ones have distinct turns. */
  lemma EveryRunIsBounded(tagged: set<ItemId>, run: seq<State>, steps: seq<Step>, maxFetches: nat, k: nat)
    requires IsRun(run, steps, maxFetches) && run[0] == Initial(tagged) && k < |run|
    ensures |FetchingIn(run[k].pins)| == |run[k].tasks| <= maxFetches
    ensures forall i, j | i in run[k].pins && j in run[k].pins && i != j && run[k].pins[i].Queued? &&
      run[k].pins[j].Queued? ::
      run[k].pins[i].turn != run[k].pins[j].turn
  {
    EveryRunIsSound(tagged, run, steps, maxFetches, k);
    FetchingAreTheTasks(run[k].pins, run[k].tasks, run[k].nextTask);
  }

  /** No change is lost: an item kept, waiting for room or failed has not been wanted since the fetch
      that made it so started, unless that fetch panicked; and one failed has not heard of a change
      in availability that might help. */
  lemma NoChangeIsLost(tagged: set<ItemId>, run: seq<State>, steps: seq<Step>, maxFetches: nat, k: nat, item: ItemId)
    requires IsRun(run, steps, maxFetches) && run[0] == Initial(tagged) && k < |run| && item in run[k].pins
    ensures var pin, log := run[k].pins[item], run[k].log;
      && (pin.Kept? ==>
        !WantedSinceStart(log, item) && (LastEnd(log, item) == Some(Done) || LastEnd(log, item) == None))
      && (pin.WaitingForRoom? ==>
        !WantedSinceStart(log, item) && LastEnd(log, item) == Some(NoRoom) && !RoomSinceEnd(log, item))
      && (pin.Failed? && WantedSinceStart(log, item) ==> LastEnd(log, item) == Some(Panic))
      && (pin.Failed? && LastEnd(log, item) != Some(Panic) ==> !HeardSinceStart(log, item))
      && (pin.Failed? ==> !HeardSinceEnd(log, item))
  {
    EveryRunIsSound(tagged, run, steps, maxFetches, k);
    var pin, log := run[k].pins[item], run[k].log;
    assert Matches(log, item, pin);
    if pin.Failed? {
      assert !Running(log, item);
      HeardSinceEndIsSinceStart(log, item);
    }
  }

  lemma {:induction false} HeardSinceEndIsSinceStart(log: Log, item: ItemId)
    requires !Running(log, item)
    ensures HeardSinceEnd(log, item) ==> HeardSinceStart(log, item)
  {
    if log != [] {
      var last, rest := log[|log| - 1], log[..|log| - 1];
      if !(last.Ends? && last.item == item) {
        HeardSinceEndIsSinceStart(rest, item);
      }
    }
  }

  /** A panic forgets exactly what it met: the item it fetched is failed, and was wanted, or
      availability had changed, since that fetch started exactly when its pin said so. */
  lemma PanicForgetsExactly(s: State, task: Task, s': State, maxFetches: nat)
    requires Sound(s, maxFetches) && PanicStep(s, task, s')
    ensures var item := s.tasks[task];
      && IsFetchedBy(s.pins, item, task) && item in s'.pins && s'.pins[item] == Failed
      && (WantedSinceStart(s'.log, item) <==> s.pins[item].wantedAgain)
      && (HeardSinceStart(s'.log, item) <==> s.pins[item].availabilityChanged)
  {
    var item := s.tasks[task];
    JoinedIsSoundBut(s, task, Panic, maxFetches);
    OneMoreNote(s.log, Ends(item, Panic), item);
    assert Matches(s.log, item, s.pins[item]);
    assert forall other | IsFetchedBy(s.pins, other, task) :: other == item;
  }

  /** Any other end of a fetch of an item this node keeps forgets nothing: the item is queued again
      exactly when it was wanted since, or failed and availability had changed since. */
  lemma EndForgetsNothing(s: State, task: Task, outcome: Outcome, answer: Answer, s': State, maxFetches: nat)
    requires Sound(s, maxFetches) && EndStep(s, task, outcome, true, answer, s')
    ensures var item := s.tasks[task];
      && item in s'.pins
      && (s'.pins[item].Queued? <==>
          WantedSinceStart(s'.log, item) || (outcome.Error? && HeardSinceStart(s'.log, item)))
      && (!s'.pins[item].Queued? ==> s'.pins[item] == Ended(outcome))
  {
    var item := s.tasks[task];
    JoinedIsSoundBut(s, task, outcome, maxFetches);
    assert Matches(s.log, item, s.pins[item]);
    SettledForgetsNothing(s.log, Joined(s, task, outcome), item, s.pins[item], outcome);
  }

  lemma SettledForgetsNothing(log: Log, t: State, item: ItemId, pin: Pin, outcome: Outcome)
    requires t.log == log + [Ends(item, outcome)] && pin.Fetching? && Matches(log, item, pin)
    ensures var after := SettledAs(t, item, pin, outcome);
      && item in after.pins
      && (after.pins[item].Queued? <==>
          WantedSinceStart(after.log, item) || (outcome.Error? && HeardSinceStart(after.log, item)))
      && (!after.pins[item].Queued? ==> after.pins[item] == Ended(outcome))
  {
    OneMoreNote(log, Ends(item, outcome), item);
  }

  /** Whether the world's answer lets an item go: this node is not behind the group, what it holds enough
      others hold, and letting go succeeds. */
  ghost predicate Safe(answer: Answer) {
    !answer.behind && (!answer.holds || answer.enough) && answer.succeeds
  }

  /** The item that a step is to let go of, if it can. */
  ghost function AtStake(s: State, step: Step): Option<ItemId> {
    match step
    case Lose(item, _) => if item in s.pins && !s.pins[item].Fetching? then Some(item) else None
    case End(task, _, keeps, _) => if task in s.tasks && !keeps then Some(s.tasks[task]) else None
    case _ => None
  }

  lemma ReleasedExactlyWhenSafe(s: State, item: ItemId, answer: Answer, s': State)
    requires ReleaseStep(s, item, answer, s')
    ensures Safe(answer) <==> item !in s'.pins
    ensures !Safe(answer) ==> s'.pins == s.pins[item := Releasing] && s'.log == s.log
    ensures Safe(answer) ==> s'.pins.Keys == s.pins.Keys - {item} && s'.log == s.log + [Releases(item)]
    ensures forall i | i != item && Get(s'.pins, i) != Get(s.pins, i) ::
      Get(s.pins, i) == Some(WaitingForRoom) && JustQueued(s, s', i)
  {
    if Safe(answer) {
      forall i | i != item && Get(s'.pins, i) != Get(s.pins, i)
        ensures Get(s.pins, i) == Some(WaitingForRoom) && JustQueued(s, s', i)
      {
        assert i in s'.pins <==> i in s.pins - {item};
      }
    }
  }

  /** Whether `i` was queued by the step from `s` to `s'`, behind everything queued before. */
  ghost predicate JustQueued(s: State, s': State, i: ItemId) {
    i in s'.pins && s'.pins[i].Queued? && s.nextTurn <= s'.pins[i].turn < s'.nextTurn
  }

  /** An item no longer this node's is let go of exactly when that is safe, be it not being fetched when it is
      lost, or its fetch having ended since; and otherwise stays, to be looked at again. */
  lemma LetGoExactlyWhenSafe(s: State, step: Step, s': State, maxFetches: nat, item: ItemId)
    requires Sound(s, maxFetches) && Takes(s, step, s', maxFetches) && AtStake(s, step) == Some(item)
    ensures item !in s'.pins <==> Safe(step.answer)
    ensures item in s'.pins ==> s'.pins[item] == Releasing
  {
    if step.End? {
      JoinedIsSoundBut(s, step.task, step.outcome, maxFetches);
      ReleasedExactlyWhenSafe(Joined(s, step.task, step.outcome), item, step.answer, s');
    } else {
      ReleasedExactlyWhenSafe(s, item, step.answer, s');
    }
  }

  /** Whether `step` may take the pin of `i` from what it is in `s` to what it is in `s'`. */
  ghost predicate MayMove(s: State, step: Step, s': State, i: ItemId) {
    var before, after := Get(s.pins, i), Get(s'.pins, i);
    match step
    case Want(item) =>
      i == item && if before.Some? && before.value.Fetching?
        then after == Some(before.value.(wantedAgain := true))
        else !(before.Some? && before.value.Queued?) && after == Some(Queued(s.nextTurn))
    case Lose(_, _) => AtStake(s, step) == Some(i) || (before == Some(WaitingForRoom) && JustQueued(s, s', i))
    case Start(item) =>
      i == item && before.Some? && before.value.Queued? && after == Some(Fetching(s.nextTask, false, false))
    case End(task, _, keeps, _) =>
      || IsFetchedBy(s.pins, i, task)
      || (!keeps && before == Some(WaitingForRoom) && JustQueued(s, s', i))
    case Panicked(task) => IsFetchedBy(s.pins, i, task) && after == Some(Failed)
    case Hear =>
      || (before == Some(Failed) && JustQueued(s, s', i))
      || (before.Some? && before.value.Fetching? && after == Some(before.value.(availabilityChanged := true)))
  }

  lemma EndMoves(s: State, task: Task, outcome: Outcome, keeps: bool, answer: Answer, s': State, maxFetches: nat,
      i: ItemId)
    requires Sound(s, maxFetches) && EndStep(s, task, outcome, keeps, answer, s')
    requires Get(s'.pins, i) != Get(s.pins, i)
    ensures MayMove(s, End(task, outcome, keeps, answer), s', i)
  {
    var item, t := s.tasks[task], Joined(s, task, outcome);
    JoinedIsSoundBut(s, task, outcome, maxFetches);
    if !keeps {
      ReleasedExactlyWhenSafe(t, item, answer, s');
    }
  }

  lemma LoseMoves(s: State, item: ItemId, answer: Answer, s': State, i: ItemId)
    requires LoseStep(s, item, answer, s') && Get(s'.pins, i) != Get(s.pins, i)
    ensures MayMove(s, Lose(item, answer), s', i)
  {
    ReleasedExactlyWhenSafe(s, item, answer, s');
  }

  lemma PanicMoves(s: State, task: Task, s': State, maxFetches: nat, i: ItemId)
    requires Sound(s, maxFetches) && PanicStep(s, task, s') && Get(s'.pins, i) != Get(s.pins, i)
    ensures MayMove(s, Panicked(task), s', i)
  {
    JoinedIsSoundBut(s, task, Panic, maxFetches);
  }

  lemma HearMoves(s: State, s': State, i: ItemId)
    requires HearStep(s, s') && Get(s'.pins, i) != Get(s.pins, i)
    ensures MayMove(s, Hear, s', i)
  {
    assert i in s'.pins <==> i in Flagged(s.pins);
  }

  /** No pin moves but by a step that may move it. In particular a queued item keeps its turn until it is
      fetched or lost, whatever is wanted or asked again meanwhile. */
  lemma NothingElseMoves(s: State, step: Step, s': State, maxFetches: nat, i: ItemId)
    requires Sound(s, maxFetches) && Takes(s, step, s', maxFetches) && Get(s'.pins, i) != Get(s.pins, i)
    ensures MayMove(s, step, s', i)
    ensures i in s.pins && s.pins[i].Queued? ==> step == Start(i) || (step.Lose? && step.item == i)
  {
    match step
    case Lose(item, answer) => LoseMoves(s, item, answer, s', i);
    case End(task, outcome, keeps, answer) => EndMoves(s, task, outcome, keeps, answer, s', maxFetches, i);
    case Panicked(task) => PanicMoves(s, task, s', maxFetches, i);
    case Hear => HearMoves(s, s', i);
    case _ =>
  }

  /** Over every run: an item leaves the pins only where that is safe, having been lost while it was not being
      fetched, or found lost when its fetch ended. */
  lemma LeavesOnlyWhenSafe(tagged: set<ItemId>, run: seq<State>, steps: seq<Step>, maxFetches: nat, k: nat,
      item: ItemId)
    requires IsRun(run, steps, maxFetches) && run[0] == Initial(tagged) && k < |steps|
    requires item in run[k].pins && item !in run[k + 1].pins
    ensures (steps[k].Lose? && steps[k].item == item && !run[k].pins[item].Fetching?) ||
      (steps[k].End? && !steps[k].keeps && IsFetchedBy(run[k].pins, item, steps[k].task))
    ensures Safe(steps[k].answer)
  {
    var s, step, s' := run[k], steps[k], run[k + 1];
    EveryRunIsSound(tagged, run, steps, maxFetches, k);
    assert Takes(s, step, s', maxFetches);
    NothingElseMoves(s, step, s', maxFetches, item);
    LeavesByBeingAtStake(s, step, s', maxFetches, item);
    LetGoExactlyWhenSafe(s, step, s', maxFetches, item);
  }

  lemma LeavesByBeingAtStake(s: State, step: Step, s': State, maxFetches: nat, item: ItemId)
    requires Sound(s, maxFetches) && Takes(s, step, s', maxFetches) && MayMove(s, step, s', item)
    requires item in s.pins && item !in s'.pins
    ensures AtStake(s, step) == Some(item)
  {
    if step.End? {
      JoinedIsSoundBut(s, step.task, step.outcome, maxFetches);
    }
  }

  /** What a step notes: who was wanted, whose fetch started or ended and how, that availability changed, and
      who was let go of, exactly when it was. */
  ghost function Notes(s: State, step: Step, s': State): Log {
    match step
    case Want(item) => [Wants(item)]
    case Start(item) => [Starts(item)]
    case Hear => [Hears]
    case Panicked(task) => if task in s.tasks then [Ends(s.tasks[task], Panic)] else []
    case Lose(item, _) => if item in s.pins && item !in s'.pins then [Releases(item)] else []
    case End(task, outcome, _, _) =>
      if task !in s.tasks then []
      else [Ends(s.tasks[task], outcome)] + if s.tasks[task] !in s'.pins then [Releases(s.tasks[task])] else []
  }

  lemma EachStepIsNoted(s: State, step: Step, s': State, maxFetches: nat)
    requires Sound(s, maxFetches) && Takes(s, step, s', maxFetches)
    ensures s'.log == s.log + Notes(s, step, s')
  {
    match step
    case Lose(item, answer) =>
      if item in s.pins && !s.pins[item].Fetching? {
        ReleasedExactlyWhenSafe(s, item, answer, s');
      }
    case End(task, outcome, keeps, answer) =>
      JoinedIsSoundBut(s, task, outcome, maxFetches);
      EndIsNoted(s, task, outcome, keeps, answer, s');
    case _ =>
  }

  lemma SettledIsNoted(t: State, item: ItemId, pin: Pin, outcome: Outcome)
    requires pin.Fetching?
    ensures SettledAs(t, item, pin, outcome).log == t.log && item in SettledAs(t, item, pin, outcome).pins
  {
  }

  lemma NotedTogether(log: Log, first: Note, second: Note)
    ensures log + [first] + [second] == log + ([first] + [second]) && log + [first] == log + ([first] + [])
  {
  }

  lemma LostEndIsNoted(log: Log, t: State, item: ItemId, outcome: Outcome, answer: Answer, s': State)
    requires t.log == log + [Ends(item, outcome)] && ReleaseStep(t, item, answer, s')
    ensures s'.log == log + ([Ends(item, outcome)] + if item !in s'.pins then [Releases(item)] else [])
  {
    ReleasedExactlyWhenSafe(t, item, answer, s');
    NotedTogether(log, Ends(item, outcome), Releases(item));
  }

  lemma KeptEndIsNoted(log: Log, t: State, item: ItemId, outcome: Outcome, pin: Pin, s': State)
    requires t.log == log + [Ends(item, outcome)] && pin.Fetching? && s' == SettledAs(t, item, pin, outcome)
    ensures s'.log == log + ([Ends(item, outcome)] + if item !in s'.pins then [Releases(item)] else [])
  {
    SettledIsNoted(t, item, pin, outcome);
    NotedTogether(log, Ends(item, outcome), Releases(item));
  }

  lemma EndIsNoted(s: State, task: Task, outcome: Outcome, keeps: bool, answer: Answer, s': State)
    requires task in s.tasks && IsFetchedBy(s.pins, s.tasks[task], task)
    requires EndStep(s, task, outcome, keeps, answer, s')
    ensures var item := s.tasks[task];
      s'.log == s.log + ([Ends(item, outcome)] + if item !in s'.pins then [Releases(item)] else [])
  {
    var item, t := s.tasks[task], Joined(s, task, outcome);
    if keeps {
      KeptEndIsNoted(s.log, t, item, outcome, s.pins[item], s');
    } else {
      LostEndIsNoted(s.log, t, item, outcome, answer, s');
    }
  }

  /** Whether something was let go of between the start and the end of the last fetch of `item`. */
  predicate RoomWhileFetching(log: Log, item: ItemId) {
    log != [] &&
    var last, rest := log[|log| - 1], log[..|log| - 1];
    if last.Ends? && last.item == item then RoomSinceStart(rest, item)
    else last != Starts(item) && RoomWhileFetching(rest, item)
  }

  lemma {:induction false} RoomBetween(log: Log, item: ItemId)
    requires !Running(log, item) && LastEnd(log, item).Some? && !RoomSinceEnd(log, item)
    ensures RoomSinceStart(log, item) <==> RoomWhileFetching(log, item)
  {
    var last, rest := log[|log| - 1], log[..|log| - 1];
    if !(last.Ends? && last.item == item) {
      RoomBetween(rest, item);
    }
  }

  /** An item waiting for room has missed something let go of since its fetch began exactly when that
      was let go of before the fetch ended. */
  lemma RoomIsMissedOnlyWhileFetching(tagged: set<ItemId>, run: seq<State>, steps: seq<Step>, maxFetches: nat,
      k: nat, item: ItemId)
    requires IsRun(run, steps, maxFetches) && run[0] == Initial(tagged) && k < |run|
    requires item in run[k].pins && run[k].pins[item] == WaitingForRoom
    ensures RoomSinceStart(run[k].log, item) <==> RoomWhileFetching(run[k].log, item)
  {
    EveryRunIsSound(tagged, run, steps, maxFetches, k);
    assert Matches(run[k].log, item, run[k].pins[item]);
    RoomBetween(run[k].log, item);
  }

  const LET_GO := Answer(false, false, false, true)

  /** Item 2 wanted and being fetched, beside whatever was tagged for custody before. */
  function BeingFetched(tagged: PinMap): State {
    State(tagged[2 := Fetching(0, false, false)], 1, map[0 := 2], 1, [Wants(2), Starts(2)])
  }

  lemma IntoFetching(tagged: set<ItemId>) returns (run: seq<State>, steps: seq<Step>)
    requires 2 !in tagged
    ensures IsRun(run, steps, 1) && |steps| == 2 && run[0] == Initial(tagged) &&
      run[2] == BeingFetched(Initial(tagged).pins)
  {
    var s0 := Initial(tagged);
    var s1 := WantStep(s0, 2);
    var s2 := StartStep(s1, 2);
    run, steps := [s0, s1, s2], [Want(2), Start(2)];
    assert s1.pins[2] == Queued(0);
    assert s2 == BeingFetched(s0.pins);
  }

  lemma TwoMore(run: seq<State>, steps: seq<Step>, a: Step, s: State, b: Step, t: State)
      returns (run': seq<State>, steps': seq<Step>)
    requires IsRun(run, steps, 1) && |steps| == 2 && Takes(run[2], a, s, 1) && Takes(s, b, t, 1)
    ensures IsRun(run', steps', 1) && run' == run + [s, t] && |steps'| == 4
  {
    run', steps' := run + [s, t], steps + [a, b];
    forall k | 0 <= k < |steps'| ensures Takes(run'[k], steps'[k], run'[k + 1], 1) {
      if k < 2 {
        assert Takes(run[k], steps[k], run[k + 1], 1);
      }
    }
  }

  lemma ReleaseMissed()
    ensures RoomSinceStart([Wants(2), Starts(2), Releases(1), Ends(2, NoRoom)], 2)
  {
    var log := [Wants(2), Starts(2), Releases(1)];
    OneMoreNote(log[..2], Releases(1), 2);
    OneMoreNote(log, Ends(2, NoRoom), 2);
    assert log[..2] + [Releases(1)] == log;
    assert log + [Ends(2, NoRoom)] == [Wants(2), Starts(2), Releases(1), Ends(2, NoRoom)];
  }

  lemma WantMissed()
    ensures WantedSinceStart([Wants(2), Starts(2), Wants(2), Ends(2, Panic)], 2)
  {
    var log := [Wants(2), Starts(2), Wants(2)];
    OneMoreNote(log[..2], Wants(2), 2);
    OneMoreNote(log, Ends(2, Panic), 2);
    assert log[..2] + [Wants(2)] == log;
    assert log + [Ends(2, Panic)] == [Wants(2), Starts(2), Wants(2), Ends(2, Panic)];
  }

  /** And it can be: an item let go of while another is being fetched, and finds no room, is room the
      other does not ask for again. */
  lemma RoomCanBeMissed() returns (run: seq<State>, steps: seq<Step>)
    ensures IsRun(run, steps, 1) && run[0] == Initial({1})
    ensures var last := run[|run| - 1];
      2 in last.pins && last.pins[2] == WaitingForRoom && RoomSinceStart(last.log, 2)
  {
    var s3 := State(map[2 := Fetching(0, false, false)], 1, map[0 := 2], 1, [Wants(2), Starts(2), Releases(1)]);
    var s4 := State(map[2 := WaitingForRoom], 1, map[], 1, [Wants(2), Starts(2), Releases(1), Ends(2, NoRoom)]);
    run, steps := IntoFetching({1});
    LetGoMeanwhile(s3);
    FindsNoRoom(s3, s4);
    run, steps := TwoMore(run, steps, Lose(1, LET_GO), s3, End(0, NoRoom, true, LET_GO), s4);
    ReleaseMissed();
  }

  lemma LetGoMeanwhile(s3: State)
    requires s3 == State(map[2 := Fetching(0, false, false)], 1, map[0 := 2], 1, [Wants(2), Starts(2), Releases(1)])
    ensures Takes(BeingFetched(Initial({1}).pins), Lose(1, LET_GO), s3, 1)
  {
    var s2 := BeingFetched(Initial({1}).pins);
    assert s2.pins - {1} == s3.pins && WaitingIn(s3.pins) == {};
  }

  lemma FindsNoRoom(s3: State, s4: State)
    requires s3 == State(map[2 := Fetching(0, false, false)], 1, map[0 := 2], 1, [Wants(2), Starts(2), Releases(1)])
    requires s4 == State(map[2 := WaitingForRoom], 1, map[], 1, s3.log + [Ends(2, NoRoom)])
    ensures Takes(s3, End(0, NoRoom, true, LET_GO), s4, 1)
  {
    var t := Joined(s3, 0, NoRoom);
    assert t.tasks == map[] && t.pins[2 := WaitingForRoom] == s4.pins;
  }

  /** A fetch that panics forgets that its item was wanted again: it waits, not queued, for
      availability to change. */
  lemma PanicForgetsAWant() returns (run: seq<State>, steps: seq<Step>)
    ensures IsRun(run, steps, 1) && run[0] == Initial({})
    ensures var last := run[|run| - 1];
      2 in last.pins && last.pins[2] == Failed && WantedSinceStart(last.log, 2)
  {
    var s2 := BeingFetched(Initial({}).pins);
    run, steps := IntoFetching({});
    var s3 := State(map[2 := Fetching(0, true, false)], 2, map[0 := 2], 1, [Wants(2), Starts(2), Wants(2)]);
    assert Takes(s2, Want(2), s3, 1);
    var s4 := State(map[2 := Failed], 2, map[], 1, [Wants(2), Starts(2), Wants(2), Ends(2, Panic)]);
    assert IsFetchedBy(s3.pins, 2, 0);
    assert Joined(s3, 0, Panic).pins[2 := Failed] == s4.pins;
    assert Takes(s3, Panicked(0), s4, 1);
    run, steps := TwoMore(run, steps, Want(2), s3, Panicked(0), s4);
    WantMissed();
  }
}
