/** Which items have been down to one live copy for too long
    (crates/distlib-custody/src/emergency.rs). */
module Emergency {
  import opened Common

  /** What is on record of an item: alone since a time, alone long enough, or in copy. */
  datatype Alone = Since(at: nat) | Due | Copying

  type Alones = map<ItemId, Alone>

  /** What is asked of it, in turn. */
  datatype Call =
    | Update(aloneNow: set<ItemId>, now: nat, delay: nat)
    | Copy(item: ItemId)
    | Copied(item: ItemId, succeeded: bool)

  /** The items alone now, as they stood or as of now, and those being copied. */
  function Brought(alones: Alones, aloneNow: set<ItemId>, now: nat): Alones {
    map i | i in aloneNow + alones.Keys && (i in aloneNow || alones[i].Copying?) ::
      if i in alones then alones[i] else Since(now)
  }

  function Ripened(alone: Alone, now: nat, delay: nat): Alone {
    if alone.Since? && now >= alone.at + delay then Due else alone
  }

  function Updated(alones: Alones, aloneNow: set<ItemId>, now: nat, delay: nat): Alones {
    var brought := Brought(alones, aloneNow, now);
    map i | i in brought :: Ripened(brought[i], now, delay)
  }

  function DueIn(alones: Alones): set<ItemId> {
    set i | i in alones && alones[i] == Due
  }

  function After(calls: seq<Call>): Alones {
    if calls == [] then map[]
    else
      var alones := After(calls[..|calls| - 1]);
      match calls[|calls| - 1]
      case Update(aloneNow, now, delay) => Updated(alones, aloneNow, now, delay)
      case Copy(item) => alones[item := Copying]
      case Copied(item, succeeded) => if succeeded then alones - {item} else alones[item := Due]
  }

  // ----- What the calls say of one item, read from their end -----

  /** Whether a copy of `item` is under way. */
  predicate InCopy(calls: seq<Call>, item: ItemId) {
    calls != [] &&
    var last, rest := calls[|calls| - 1], calls[..|calls| - 1];
    last == Copy(item) || (!(last.Copied? && last.item == item) && InCopy(rest, item))
  }

  /** Whether `last` lets go of `item`, which no copy is under way for: it has more than one live
      copy, or a copy of it succeeded. */
  predicate Drops(last: Call, item: ItemId) {
    (last.Update? && item !in last.aloneNow) || last == Copied(item, true)
  }

  /** Whether a copy of `item` was attempted since it was last let go of. */
  predicate Attempted(calls: seq<Call>, item: ItemId) {
    calls != [] &&
    var last, rest := calls[|calls| - 1], calls[..|calls| - 1];
    if last == Copy(item) || last == Copied(item, false) then true
    else if InCopy(rest, item) then last != Copied(item, true)
    else !Drops(last, item) && Attempted(rest, item)
  }

  /** Since when `item` has been alone at every update. */
  function AloneSince(calls: seq<Call>, item: ItemId): Option<nat> {
    if calls == [] then None
    else
      var last, rest := calls[|calls| - 1], calls[..|calls| - 1];
      if Drops(last, item) then None
      else if last.Update? && AloneSince(rest, item).None? then Some(last.now)
      else AloneSince(rest, item)
  }

  /** Whether at some update since then it had been alone for that update's delay. */
  predicate Ripe(calls: seq<Call>, item: ItemId) {
    calls != [] &&
    var last, rest := calls[|calls| - 1], calls[..|calls| - 1];
    && AloneSince(calls, item).Some?
    && (Ripe(rest, item) || (last.Update? && AloneSince(calls, item).value + last.delay <= last.now))
  }

  /** Where an item stands, told from the calls. */
  function Standing(calls: seq<Call>, item: ItemId): Option<Alone> {
    if InCopy(calls, item) then Some(Copying)
    else if Attempted(calls, item) then Some(Due)
    else match AloneSince(calls, item)
      case None => None
      case Some(at) => Some(if Ripe(calls, item) then Due else Since(at))
  }

  lemma UpdatedOne(alones: Alones, aloneNow: set<ItemId>, now: nat, delay: nat, item: ItemId)
    ensures Get(Updated(alones, aloneNow, now, delay), item) ==
      if item in aloneNow then Some(Ripened(if item in alones then alones[item] else Since(now), now, delay))
      else if Get(alones, item) == Some(Copying) then Some(Copying) else None
  {
    var brought := Brought(alones, aloneNow, now);
    assert item in brought <==> item in aloneNow || Get(alones, item) == Some(Copying);
  }

  /** Over every run of calls each item stands as the calls tell: being copied exactly between a copy's
      start and its end, due at once after one failed, and otherwise alone since it last was not. */
  lemma {:induction false} EachStandsAsTold(calls: seq<Call>, item: ItemId)
    ensures Get(After(calls), item) == Standing(calls, item)
  {
    if calls != [] {
      var last, rest := calls[|calls| - 1], calls[..|calls| - 1];
      EachStandsAsTold(rest, item);
      match last
      case Update(aloneNow, now, delay) =>
        UpdatedOne(After(rest), aloneNow, now, delay, item);
        assert InCopy(calls, item) == InCopy(rest, item);
        assert Attempted(calls, item) == (InCopy(rest, item) || (item in aloneNow && Attempted(rest, item)));
        assert Ripe(rest, item) ==> AloneSince(rest, item).Some?;
      case Copy(other) =>
      case Copied(other, succeeded) =>
        assert other != item ==> InCopy(calls, item) == InCopy(rest, item);
    }
  }

  lemma {:induction false} BeingCopiedIsAttempted(calls: seq<Call>, item: ItemId)
    requires InCopy(calls, item)
    ensures Attempted(calls, item)
  {
    if calls[|calls| - 1] != Copy(item) {
      BeingCopiedIsAttempted(calls[..|calls| - 1], item);
    }
  }

  /** An update returns only items that are alone now, and never one being copied; one that a failed
      copy left, and every other that has been alone for long enough at some update since it last was
      not. */
  lemma DueExactlyWhen(calls: seq<Call>, aloneNow: set<ItemId>, now: nat, delay: nat, item: ItemId)
    ensures var more := calls + [Update(aloneNow, now, delay)];
      item in DueIn(After(more)) <==>
        item in aloneNow && !InCopy(calls, item) && (Attempted(calls, item) || Ripe(more, item))
  {
    var more := calls + [Update(aloneNow, now, delay)];
    assert more[..|calls|] == calls;
    EachStandsAsTold(more, item);
    assert item in DueIn(After(more)) <==> Get(After(more), item) == Some(Due);
    assert InCopy(more, item) == InCopy(calls, item);
    assert Attempted(more, item) == (InCopy(calls, item) || (item in aloneNow && Attempted(calls, item)));
  }

  /** Whether every update so far had this delay, and came no later than `now`. */
  ghost predicate Paced(calls: seq<Call>, now: nat, delay: nat) {
    forall i | 0 <= i < |calls| && calls[i].Update? :: calls[i].delay == delay && calls[i].now <= now
  }

  lemma {:induction false} RipeForDelay(calls: seq<Call>, now: nat, delay: nat, item: ItemId)
    requires Paced(calls, now, delay) && Ripe(calls, item)
    ensures AloneSince(calls, item).value + delay <= now
  {
    var rest := calls[..|calls| - 1];
    if Ripe(rest, item) {
      RipeForDelay(rest, now, delay, item);
    }
  }

  /** With one delay throughout, an item no copy was attempted of since it was last let go of is due
      exactly when it has been alone at every update since one at least `delay` ago. */
  lemma DueExactlyWhenAloneForDelay(calls: seq<Call>, aloneNow: set<ItemId>, now: nat, delay: nat, item: ItemId)
    requires Paced(calls, now, delay) && !Attempted(calls, item)
    ensures var more := calls + [Update(aloneNow, now, delay)];
      item in DueIn(After(more)) <==> AloneSince(more, item).Some? && AloneSince(more, item).value + delay <= now
  {
    var more := calls + [Update(aloneNow, now, delay)];
    assert more[..|calls|] == calls;
    DueExactlyWhen(calls, aloneNow, now, delay, item);
    if InCopy(calls, item) {
      BeingCopiedIsAttempted(calls, item);
    }
    if Ripe(more, item) {
      assert Paced(more, now, delay);
      RipeForDelay(more, now, delay, item);
    }
  }

  /** Whether the program makes these calls: it starts a copy only of what the update just before found
      due, other starts aside, and only a copy under way ends. */
  ghost predicate Looks(calls: seq<Call>) {
    forall i | 0 <= i < |calls| :: MayCome(calls[..i], calls[i])
  }

  ghost predicate MayCome(before: seq<Call>, next: Call) {
    match next
    case Update(_, _, _) => true
    case Copy(item) => item in DueIn(After(before)) && !before[|before| - 1].Copied?
    case Copied(item, _) => InCopy(before, item)
  }

  lemma OneMoreLooked(calls: seq<Call>, next: Call)
    requires Looks(calls) && MayCome(calls, next)
    ensures Looks(calls + [next])
  {
    var more := calls + [next];
    forall i | 0 <= i < |more| ensures MayCome(more[..i], more[i]) {
      assert more[..i] == if i < |calls| then calls[..i] else calls;
    }
  }

  /** What one more call makes of what the calls say of an item. */
  lemma OneMoreTold(calls: seq<Call>, next: Call, item: ItemId)
    ensures var more := calls + [next];
      && (InCopy(more, item) <==> next == Copy(item) || (!(next.Copied? && next.item == item) && InCopy(calls, item)))
      && AloneSince(more, item) == (
           if Drops(next, item) then None
           else if next.Update? && AloneSince(calls, item).None? then Some(next.now)
           else AloneSince(calls, item))
  {
    assert (calls + [next])[..|calls|] == calls;
  }

  /** What follows when the item being copied is found with a second copy, and then the copy fails. */
  function FoundThenFailed(calls: seq<Call>, item: ItemId, at: nat, delay: nat): seq<Call> {
    calls + [Update({}, at, delay)] + [Copied(item, false)]
  }

  lemma FoundThenFailedIsLooked(calls: seq<Call>, item: ItemId, at: nat, delay: nat)
    requires Looks(calls) && InCopy(calls, item)
    ensures Looks(FoundThenFailed(calls, item, at, delay))
  {
    var found := calls + [Update({}, at, delay)];
    OneMoreTold(calls, Update({}, at, delay), item);
    OneMoreLooked(calls, Update({}, at, delay));
    OneMoreLooked(found, Copied(item, false));
  }

  lemma FoundThenFailedTells(calls: seq<Call>, item: ItemId, at: nat, delay: nat)
    ensures var more := FoundThenFailed(calls, item, at, delay);
      !InCopy(more, item) && Attempted(more, item) && AloneSince(more, item) == None
  {
    var found := calls + [Update({}, at, delay)];
    OneMoreTold(calls, Update({}, at, delay), item);
    OneMoreTold(found, Copied(item, false), item);
  }

  /** A copy that fails makes its item due at once, though it had a second copy in between and has been
      alone for no time at all. */
  lemma FailedCopyIsDueAtOnce(calls: seq<Call>, item: ItemId, at: nat, now: nat, delay: nat)
    requires Looks(calls) && InCopy(calls, item)
    ensures Looks(FoundThenFailed(calls, item, at, delay))
    ensures var more := FoundThenFailed(calls, item, at, delay) + [Update({item}, now, delay)];
      item in DueIn(After(more)) && AloneSince(more, item) == Some(now)
  {
    FoundThenFailedIsLooked(calls, item, at, delay);
    FoundThenFailedTells(calls, item, at, delay);
    OneMoreTold(FoundThenFailed(calls, item, at, delay), Update({item}, now, delay), item);
    DueExactlyWhen(FoundThenFailed(calls, item, at, delay), {item}, now, delay, item);
  }

  lemma AloneOnce(item: ItemId, at: nat, delay: nat)
    ensures var calls: seq<Call> := [Update({item}, at, delay)];
      Looks(calls) && !InCopy(calls, item) && AloneSince(calls, item) == Some(at)
  {
    assert [Call.Update({item}, at, delay)][..0] == [];
  }

  /** Any item can come to be copied: found alone, and found so again once it has been for long enough. */
  lemma CopyIsReached(item: ItemId, at: nat, now: nat, delay: nat) returns (calls: seq<Call>)
    requires at + delay <= now
    ensures Looks(calls) && InCopy(calls, item)
  {
    var once: seq<Call> := [Update({item}, at, delay)];
    AloneOnce(item, at, delay);
    var twice := once + [Update({item}, now, delay)];
    OneMoreTold(once, Update({item}, now, delay), item);
    assert twice[..|once|] == once;
    DueExactlyWhen(once, {item}, now, delay, item);
    OneMoreLooked(once, Update({item}, now, delay));
    calls := twice + [Copy(item)];
    OneMoreTold(twice, Copy(item), item);
    OneMoreLooked(twice, Copy(item));
  }

  function AsTheyStood(alones: Alones, some: set<ItemId>, now: nat): Alones {
    map i | i in some :: if i in alones then alones[i] else Since(now)
  }

  function BeingCopied(alones: Alones): Alones {
    map i | i in alones && alones[i] == Copying :: alones[i]
  }

  lemma StoodOneMore(alones: Alones, some: set<ItemId>, item: ItemId, now: nat)
    requires item !in some
    ensures AsTheyStood(alones, some + {item}, now) ==
      AsTheyStood(alones, some, now)[item := if item in alones - some then (alones - some)[item] else Since(now)]
    ensures alones - some - {item} == alones - (some + {item})
  {
  }

  /** The items with `some` of them ripened. */
  function PartlyRipened(alones: Alones, some: set<ItemId>, now: nat, delay: nat): Alones {
    map i | i in alones :: if i in some then Ripened(alones[i], now, delay) else alones[i]
  }

  ghost predicate IsPartlyRipened(alones: Alones, due: set<ItemId>, brought: Alones, some: set<ItemId>, now: nat,
      delay: nat) {
    alones == PartlyRipened(brought, some, now, delay) && due == DueIn(alones) * some
  }

  lemma RipenedNone(brought: Alones, now: nat, delay: nat)
    ensures IsPartlyRipened(brought, {}, brought, {}, now, delay)
  {
  }

  lemma RipenedOneMore(brought: Alones, some: set<ItemId>, item: ItemId, now: nat, delay: nat)
    requires item in brought && item !in some
    ensures var before, after := PartlyRipened(brought, some, now, delay),
      PartlyRipened(brought, some + {item}, now, delay);
      && before[item] == brought[item] && after == before[item := Ripened(brought[item], now, delay)]
      && DueIn(after) * (some + {item}) == DueIn(before) * some + if after[item] == Due then {item} else {}
  {
  }

  lemma RipenedAll(brought: Alones, now: nat, delay: nat)
    ensures PartlyRipened(brought, brought.Keys, now, delay) == map i | i in brought :: Ripened(brought[i], now, delay)
    ensures DueIn(PartlyRipened(brought, brought.Keys, now, delay)) * brought.Keys ==
      DueIn(PartlyRipened(brought, brought.Keys, now, delay))
  {
  }

  /** A copy that is never said to have ended keeps its item from being due for good, alone or not: so
      after a copy that panics, which ends without a word, none is made of that item again. */
  lemma {:induction false} UnendedCopyIsNeverDue(calls: seq<Call>, more: seq<Call>, item: ItemId)
    requires InCopy(calls, item) && forall i | 0 <= i < |more| :: !(more[i].Copied? && more[i].item == item)
    ensures InCopy(calls + more, item) && Get(After(calls + more), item) == Some(Copying) &&
      item !in DueIn(After(calls + more))
  {
    if more == [] {
      assert calls + more == calls;
    } else {
      var n := |more| - 1;
      UnendedCopyIsNeverDue(calls, more[..n], item);
      assert (calls + more)[..|calls + more| - 1] == calls + more[..n];
    }
    EachStandsAsTold(calls + more, item);
  }

  class AloneItems {
    var alones: Alones
    ghost var calls: seq<Call>

    /** Every item stands as the calls so far leave it. */
    ghost predicate Valid()
      reads this
    {
      alones == After(calls)
    }

    constructor ()
      ensures Valid() && calls == []
    {
      alones, calls := map[], [];
    }

    /** One look at which items are alone: what it returns is what is due, told from the calls. */
    method Update(aloneNow: set<ItemId>, now: nat, delay: nat) returns (due: set<ItemId>)
      requires Valid()
      modifies this
      ensures Valid() && calls == old(calls) + [Call.Update(aloneNow, now, delay)]
      ensures alones == Updated(old(alones), aloneNow, now, delay)
      ensures due == DueIn(alones)
      ensures forall item :: item in due <==>
        item in aloneNow && !InCopy(old(calls), item) && (Attempted(old(calls), item) || Ripe(calls, item))
    {
      alones := BringUp(aloneNow, now);
      due := RipenEach(now, delay);
      calls := calls + [Call.Update(aloneNow, now, delay)];
      assert calls[..|calls| - 1] == old(calls);
      forall item ensures item in due <==>
        item in aloneNow && !InCopy(old(calls), item) && (Attempted(old(calls), item) || Ripe(calls, item))
      {
        DueExactlyWhen(old(calls), aloneNow, now, delay, item);
      }
    }

    method RipenEach(now: nat, delay: nat) returns (due: set<ItemId>)
      modifies this`alones
      ensures alones == PartlyRipened(old(alones), old(alones).Keys, now, delay) && due == DueIn(alones)
    {
      ghost var brought := alones;
      var all := alones.Keys;
      var todo := all;
      due := {};
      assert all - todo == {};
      RipenedNone(brought, now, delay);
      while todo != {}
        invariant todo <= all && IsPartlyRipened(alones, due, brought, all - todo, now, delay)
        decreases |todo|
      {
        var item :| item in todo;
        assert all - todo + {item} == all - (todo - {item});
        due := Ripen(item, now, delay, due, brought, all - todo);
        todo := todo - {item};
      }
      assert all - todo == all;
      RipenedAll(brought, now, delay);
    }

    method Ripen(item: ItemId, now: nat, delay: nat, due: set<ItemId>, ghost brought: Alones,
        ghost some: set<ItemId>) returns (due': set<ItemId>)
      requires item in brought && item !in some && IsPartlyRipened(alones, due, brought, some, now, delay)
      modifies this`alones
      ensures IsPartlyRipened(alones, due', brought, some + {item}, now, delay)
    {
      RipenedOneMore(brought, some, item, now, delay);
      if alones[item].Since? && now >= alones[item].at + delay {
        alones := alones[item := Due];
      }
      due' := if alones[item] == Due then due + {item} else due;
    }

    /** The items alone now, as they stood or as of now, and those being copied. */
    method BringUp(aloneNow: set<ItemId>, now: nat) returns (alone: Alones)
      ensures alone == Brought(alones, aloneNow, now)
    {
      var stood, previous := TakeOut(aloneNow, now);
      alone := stood + BeingCopied(previous);
    }

    method TakeOut(aloneNow: set<ItemId>, now: nat) returns (alone: Alones, previous: Alones)
      ensures alone == AsTheyStood(alones, aloneNow, now) && previous == alones - aloneNow
    {
      alone, previous := map[], alones;
      var todo := aloneNow;
      assert aloneNow - todo == {};
      while todo != {}
        invariant todo <= aloneNow
        invariant alone == AsTheyStood(alones, aloneNow - todo, now) && previous == alones - (aloneNow - todo)
        decreases |todo|
      {
        var item :| item in todo;
        StoodOneMore(alones, aloneNow - todo, item, now);
        assert aloneNow - todo + {item} == aloneNow - (todo - {item});
        alone := alone[item := if item in previous then previous[item] else Since(now)];
        previous, todo := previous - {item}, todo - {item};
      }
      assert aloneNow - todo == aloneNow;
    }

    /** The first time at which an update would turn an item's `Since` into `Due`. */
    method NextDue(delay: nat) returns (next: Option<nat>)
      ensures next.None? <==> forall i | i in alones :: !alones[i].Since?
      ensures next.Some? ==> forall now :: next.value <= now <==> WouldBeDue(alones, now, delay)
    {
      next := None;
      var todo := alones.Keys;
      while todo != {}
        invariant todo <= alones.Keys
        invariant next.None? <==> forall i | i in alones && i !in todo :: !alones[i].Since?
        invariant next.Some? ==> exists i | i in alones && i !in todo ::
          alones[i].Since? && alones[i].at + delay == next.value
        invariant next.Some? ==> forall i | i in alones && i !in todo && alones[i].Since? ::
          next.value <= alones[i].at + delay
        decreases |todo|
      {
        var item :| item in todo;
        if alones[item].Since? && (next.None? || alones[item].at + delay < next.value) {
          next := Some(alones[item].at + delay);
        }
        todo := todo - {item};
      }
    }

    method Copy(item: ItemId)
      requires Valid()
      modifies this
      ensures Valid() && calls == old(calls) + [Call.Copy(item)] && InCopy(calls, item)
      ensures alones == old(alones)[item := Copying]
    {
      alones := alones[item := Copying];
      calls := calls + [Call.Copy(item)];
      assert calls[..|calls| - 1] == old(calls);
    }

    /** The end of a copy: the item is no longer in copy; after a success it is unknown until it is next
        alone, after a failure it is due at the next look that finds it alone. */
    method Copied(item: ItemId, succeeded: bool)
      requires Valid()
      modifies this
      ensures Valid() && calls == old(calls) + [Call.Copied(item, succeeded)]
      ensures !InCopy(calls, item) && Attempted(calls, item) == !succeeded
      ensures succeeded ==> AloneSince(calls, item) == None
      ensures forall other | other != item :: Standing(calls, other) == Standing(old(calls), other)
    {
      if succeeded {
        alones := alones - {item};
      } else {
        alones := alones[item := Due];
      }
      calls := calls + [Call.Copied(item, succeeded)];
      assert calls[..|calls| - 1] == old(calls);
      forall other | other != item ensures Standing(calls, other) == Standing(old(calls), other) {
        EachStandsAsTold(calls, other);
        EachStandsAsTold(old(calls), other);
      }
    }
  }

  ghost predicate WouldBeDue(alones: Alones, now: nat, delay: nat) {
    exists i | i in alones :: alones[i].Since? && Ripened(alones[i], now, delay) == Due
  }
}
