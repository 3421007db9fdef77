/** This node's custody and its totals, kept up as items come and change
    (crates/distlib-custody/src/view.rs). */
module CustodyViews {
  import opened Common
  import opened Custody
  import opened CustodyTold
  import opened Sums

  /** What an item adds to each total, whether it is this node's, and as of when. */
  datatype Part = Part(sizeBytes: nat, demandBytes: nat, mine: bool, since: nat)

  function CountMine(id: ItemId, part: Part): nat { if part.mine then 1 else 0 }
  function BytesMine(id: ItemId, part: Part): nat { if part.mine then part.sizeBytes else 0 }
  function Demand(id: ItemId, part: Part): nat { part.demandBytes }

  class CustodyView {
    const group: CustodyGroup
    const me: MemberId
    var items: map<ItemId, Part>
    var myItems: nat
    var myBytes: nat
    var demandBytes: nat

    /** The totals are those of the items. */
    ghost predicate Valid()
      reads this
    {
      myItems == Sum(items, CountMine) && myBytes == Sum(items, BytesMine) && demandBytes == Sum(items, Demand)
    }

    /** From nothing: each item is inserted in turn, flagged if `CustodyOf` lists it. */
    constructor Compute(group: CustodyGroup, me: MemberId, all: seq<CustodyItem>, now: nat)
      ensures this.group == group && this.me == me
      ensures Valid() && items == Pass(group, me, all, group.CustodyOf(me, all), now)
      ensures group.WellFormed() && DistinctIds(all) ==>
        Reflects(group, me, items, Latest(all)) && AddUp(group, me, Latest(all), myItems, myBytes, demandBytes)
    {
      this.group := group;
      this.me := me;
      items := map[];
      myItems, myBytes, demandBytes := 0, 0, 0;
      new;
      var mine := group.CustodyOf(me, all);
      for n := 0 to |all|
        invariant this.group == group && this.me == me
        invariant Valid() && items == Pass(group, me, all[..n], mine, now)
      {
        assert all[..n + 1][..n] == all[..n];
        Insert(all[n], all[n].item in mine, now);
      }
      assert all[..|all|] == all;
      if group.WellFormed() && DistinctIds(all) {
        PassReflectsPrefix(group, me, all, |all|, now);
        TotalsAddUp(group, me, items, Latest(all));
      }
    }

    /** A new version of one item: its part is replaced, with the flag that `IsCustodian` gives. */
    method Update(item: CustodyItem, now: nat) returns (isMine: bool)
      requires Valid()
      modifies this`items, this`myItems, this`myBytes, this`demandBytes
      ensures Valid() && items == Updated(group, me, old(items), item, now)
      ensures isMine == group.IsCustodian(item, me)
      ensures forall latest | group.WellFormed() && Reflects(group, me, old(items), latest) ::
        && Reflects(group, me, items, latest[item.item := item])
        && AddUp(group, me, latest[item.item := item], myItems, myBytes, demandBytes)
    {
      var since := now;
      if item.item in items {
        var old' := items[item.item];
        if old'.sizeBytes == item.sizeBytes && old'.demandBytes == group.DemandBytes(item) {
          since := old'.since;
        }
      }
      isMine := group.IsCustodian(item, me);
      Insert(item, isMine, since);
      forall latest | group.WellFormed() && Reflects(group, me, old(items), latest)
        ensures Reflects(group, me, items, latest[item.item := item])
        ensures AddUp(group, me, latest[item.item := item], myItems, myBytes, demandBytes)
      {
        UpdateReflects(group, me, old(items), latest, item, now);
        TotalsAddUp(group, me, items, latest[item.item := item]);
      }
    }

    /** Puts `item` in the view and its part in the totals, in place of the part it had. */
    method Insert(item: CustodyItem, mine: bool, since: nat)
      requires Valid()
      modifies this`items, this`myItems, this`myBytes, this`demandBytes
      ensures Valid()
      ensures items == old(items)[item.item := Part(item.sizeBytes, group.DemandBytes(item), mine, since)]
    {
      var part := Part(item.sizeBytes, group.DemandBytes(item), mine, since);
      ghost var rest := items - {item.item};
      if item.item in items {
        SumWithout(items, CountMine, item.item);
        SumWithout(items, BytesMine, item.item);
        SumWithout(items, Demand, item.item);
        RemoveFromTotals(items[item.item]);
      } else {
        assert rest == items;
      }
      AddToTotals(part);
      SumWith(rest, CountMine, item.item, part);
      SumWith(rest, BytesMine, item.item, part);
      SumWith(rest, Demand, item.item, part);
      items := items[item.item := part];
      assert items == rest[item.item := part];
    }

    method AddToTotals(part: Part)
      modifies this`myItems, this`myBytes, this`demandBytes
      ensures myItems == old(myItems) + CountMine(0, part)
      ensures myBytes == old(myBytes) + BytesMine(0, part)
      ensures demandBytes == old(demandBytes) + Demand(0, part)
    {
      demandBytes := demandBytes + part.demandBytes;
      if part.mine {
        myItems := myItems + 1;
        myBytes := myBytes + part.sizeBytes;
      }
    }

    /** No total goes below zero: the part was in each. */
    method RemoveFromTotals(part: Part)
      requires Demand(0, part) <= demandBytes && CountMine(0, part) <= myItems && BytesMine(0, part) <= myBytes
      modifies this`myItems, this`myBytes, this`demandBytes
      ensures old(myItems) == myItems + CountMine(0, part)
      ensures old(myBytes) == myBytes + BytesMine(0, part)
      ensures old(demandBytes) == demandBytes + Demand(0, part)
    {
      demandBytes := demandBytes - part.demandBytes;
      if part.mine {
        myItems := myItems - 1;
        myBytes := myBytes - part.sizeBytes;
      }
    }
  }

  /** What the whole pass finds, given the ids found to be this node's. */
  function Pass(group: CustodyGroup, me: MemberId, all: seq<CustodyItem>, mine: seq<ItemId>, now: nat)
    : map<ItemId, Part>
  {
    if all == [] then map[]
    else
      var last := all[|all| - 1];
      Pass(group, me, all[..|all| - 1], mine, now)
        [last.item := Part(last.sizeBytes, group.DemandBytes(last), last.item in mine, now)]
  }

  /** What an update finds: dated anew only if what keeping the item takes has changed. */
  function Updated(group: CustodyGroup, me: MemberId, items: map<ItemId, Part>, item: CustodyItem,
      now: nat): map<ItemId, Part> {
    var same := item.item in items && items[item.item].sizeBytes == item.sizeBytes &&
      items[item.item].demandBytes == group.DemandBytes(item);
    var since := if same then items[item.item].since else now;
    items[item.item := Part(item.sizeBytes, group.DemandBytes(item), group.IsCustodian(item, me), since)]
  }

  /** An item with the time it is reported at. */
  datatype Report = Report(item: CustodyItem, at: nat)

  function AfterUpdates(group: CustodyGroup, me: MemberId, items: map<ItemId, Part>,
      reports: seq<Report>): map<ItemId, Part> {
    if reports == [] then items
    else
      var last := reports[|reports| - 1];
      Updated(group, me, AfterUpdates(group, me, items, reports[..|reports| - 1]), last.item, last.at)
  }

  /** Each id's latest version. */
  function Latest(all: seq<CustodyItem>): map<ItemId, CustodyItem> {
    if all == [] then map[] else Latest(all[..|all| - 1])[all[|all| - 1].item := all[|all| - 1]]
  }

  function Items(reports: seq<Report>): seq<CustodyItem> {
    seq(|reports|, i requires 0 <= i < |reports| => reports[i].item)
  }

  ghost predicate DistinctIds(all: seq<CustodyItem>) {
    forall i, j | 0 <= i < j < |all| :: all[i].item != all[j].item
  }

  /** Whether `items` holds, for each of `latest`, the part that version has under `group`. */
  ghost predicate Reflects(group: CustodyGroup, me: MemberId, items: map<ItemId, Part>,
      latest: map<ItemId, CustodyItem>) {
    && items.Keys == latest.Keys
    && forall id | id in items ::
         && items[id].sizeBytes == latest[id].sizeBytes
         && items[id].demandBytes == group.DemandBytes(latest[id])
         && items[id].mine == (me in group.CustodiansOf(latest[id]))
  }

  /** Whether the totals are, of the versions `latest`: how many have this node as a custodian, their sizes,
      and what keeping each takes. */
  ghost predicate AddUp(group: CustodyGroup, me: MemberId, latest: map<ItemId, CustodyItem>, myItems: nat,
      myBytes: nat, demandBytes: nat) {
    && myItems == |MineIn(group, me, latest)|
    && myBytes == Sum(latest, SizeIfMine(group, me)) && demandBytes == Sum(latest, WhatItTakes(group))
  }

  ghost function MineIn(group: CustodyGroup, me: MemberId, latest: map<ItemId, CustodyItem>): set<ItemId> {
    set id | id in latest && me in group.CustodiansOf(latest[id])
  }

  ghost function SizeIfMine(group: CustodyGroup, me: MemberId): (ItemId, CustodyItem) -> nat {
    (id, item: CustodyItem) => if me in group.CustodiansOf(item) then item.sizeBytes else 0
  }

  ghost function WhatItTakes(group: CustodyGroup): (ItemId, CustodyItem) -> nat {
    (id, item) => Takes(group.replicas, group.members, item)
  }

  lemma {:induction false} CountsThose<V>(m: map<nat, V>, f: (nat, V) -> nat, those: set<nat>)
    requires those <= m.Keys && forall k | k in m :: f(k, m[k]) == if k in those then 1 else 0
    ensures Sum(m, f) == |those|
    decreases |m|
  {
    if m != map[] {
      var key := Least(m.Keys);
      assert (m - {key}).Keys == m.Keys - {key};
      CountsThose(m - {key}, f, those - {key});
      if key in those {
        assert those == (those - {key}) + {key};
      } else {
        assert those - {key} == those;
      }
    }
  }

  lemma MineAddUp(group: CustodyGroup, me: MemberId, items: map<ItemId, Part>, latest: map<ItemId, CustodyItem>)
    requires Reflects(group, me, items, latest)
    ensures Sum(items, CountMine) == |MineIn(group, me, latest)|
  {
    forall id | id in items ensures CountMine(id, items[id]) == if id in MineIn(group, me, latest) then 1 else 0 {
    }
    CountsThose(items, CountMine, MineIn(group, me, latest));
  }

  lemma SizesAddUp(group: CustodyGroup, me: MemberId, items: map<ItemId, Part>, latest: map<ItemId, CustodyItem>)
    requires Reflects(group, me, items, latest)
    ensures Sum(items, BytesMine) == Sum(latest, SizeIfMine(group, me))
  {
    forall id | id in items ensures BytesMine(id, items[id]) == SizeIfMine(group, me)(id, latest[id]) {
    }
    SameSums(items, BytesMine, latest, SizeIfMine(group, me));
  }

  lemma DemandAddsUp(group: CustodyGroup, me: MemberId, items: map<ItemId, Part>, latest: map<ItemId, CustodyItem>)
    requires Reflects(group, me, items, latest)
    ensures Sum(items, Demand) == Sum(latest, WhatItTakes(group))
  {
    forall id | id in items ensures Demand(id, items[id]) == WhatItTakes(group)(id, latest[id]) {
      DemandIsWhatItTakes(group, latest[id]);
    }
    SameSums(items, Demand, latest, WhatItTakes(group));
  }

  lemma TotalsAddUp(group: CustodyGroup, me: MemberId, items: map<ItemId, Part>, latest: map<ItemId, CustodyItem>)
    requires Reflects(group, me, items, latest)
    ensures AddUp(group, me, latest, Sum(items, CountMine), Sum(items, BytesMine), Sum(items, Demand))
  {
    MineAddUp(group, me, items, latest);
    SizesAddUp(group, me, items, latest);
    DemandAddsUp(group, me, items, latest);
  }

  lemma {:induction false} PassReflectsPrefix(group: CustodyGroup, me: MemberId, all: seq<CustodyItem>, n: nat,
      now: nat)
    requires group.WellFormed() && DistinctIds(all) && n <= |all|
    ensures Reflects(group, me, Pass(group, me, all[..n], group.CustodyOf(me, all), now), Latest(all[..n]))
  {
    if n > 0 {
      var last := all[n - 1];
      assert all[..n][..n - 1] == all[..n - 1];
      PassReflectsPrefix(group, me, all, n - 1, now);
      CustodyOfAgrees(group, me, all, last.item);
      assert last.item in group.CustodyOf(me, all) <==> me in group.CustodiansOf(last);
    }
  }

  lemma UpdateReflects(group: CustodyGroup, me: MemberId, items: map<ItemId, Part>,
      latest: map<ItemId, CustodyItem>, item: CustodyItem, now: nat)
    requires group.WellFormed() && Reflects(group, me, items, latest)
    ensures Reflects(group, me, Updated(group, me, items, item, now), latest[item.item := item])
  {
    IsCustodianAgrees(group, item, me);
  }

  lemma LatestThen(all: seq<CustodyItem>, reports: seq<Report>)
    requires reports != []
    ensures var n := |reports| - 1;
      Latest(all + Items(reports)) == Latest(all + Items(reports[..n]))[reports[n].item.item := reports[n].item]
  {
    var whole := all + Items(reports);
    assert whole[..|whole| - 1] == all + Items(reports[..|reports| - 1]);
  }

  lemma {:induction false} UpdatesReflect(group: CustodyGroup, me: MemberId, all: seq<CustodyItem>,
      items: map<ItemId, Part>, reports: seq<Report>)
    requires group.WellFormed()
    requires Reflects(group, me, items, Latest(all))
    ensures Reflects(group, me, AfterUpdates(group, me, items, reports), Latest(all + Items(reports)))
  {
    if reports == [] {
      assert all + Items(reports) == all;
    } else {
      var n := |reports| - 1;
      UpdatesReflect(group, me, all, items, reports[..n]);
      UpdateReflects(group, me, AfterUpdates(group, me, items, reports[..n]), Latest(all + Items(reports[..n])),
        reports[n].item, reports[n].at);
      LatestThen(all, reports);
    }
  }

  lemma ReflectionsAgree(group: CustodyGroup, me: MemberId, a: map<ItemId, Part>, b: map<ItemId, Part>,
      latest: map<ItemId, CustodyItem>)
    requires Reflects(group, me, a, latest) && Reflects(group, me, b, latest)
    ensures a.Keys == b.Keys && forall id | id in a :: a[id].(since := 0) == b[id].(since := 0)
    ensures Sum(a, CountMine) == Sum(b, CountMine) && Sum(a, BytesMine) == Sum(b, BytesMine) &&
      Sum(a, Demand) == Sum(b, Demand)
  {
    SameSums(a, CountMine, b, CountMine);
    SameSums(a, BytesMine, b, BytesMine);
    SameSums(a, Demand, b, Demand);
  }

  /** Keeping the view up item by item gives what a whole new pass over the latest versions would:
      the same parts, hence the same totals, whatever the updates were. */
  lemma IncrementalEqualsRecomputed(group: CustodyGroup, me: MemberId, all: seq<CustodyItem>, now: nat,
      reports: seq<Report>, again: seq<CustodyItem>, later: nat)
    requires group.WellFormed() && DistinctIds(all) && DistinctIds(again)
    requires Latest(again) == Latest(all + Items(reports))
    ensures var kept := AfterUpdates(group, me, Pass(group, me, all, group.CustodyOf(me, all), now), reports);
      var recomputed := Pass(group, me, again, group.CustodyOf(me, again), later);
      && kept.Keys == recomputed.Keys
      && (forall id | id in kept :: kept[id].(since := 0) == recomputed[id].(since := 0))
      && Sum(kept, CountMine) == Sum(recomputed, CountMine)
      && Sum(kept, BytesMine) == Sum(recomputed, BytesMine)
      && Sum(kept, Demand) == Sum(recomputed, Demand)
  {
    assert all[..|all|] == all && again[..|again|] == again;
    PassReflectsPrefix(group, me, all, |all|, now);
    PassReflectsPrefix(group, me, again, |again|, later);
    var first := Pass(group, me, all, group.CustodyOf(me, all), now);
    UpdatesReflect(group, me, all, first, reports);
    ReflectionsAgree(group, me, AfterUpdates(group, me, first, reports),
                     Pass(group, me, again, group.CustodyOf(me, again), later), Latest(again));
  }

  /** The pass, as reports of its items at `now`. */
  function Passed(all: seq<CustodyItem>, now: nat): seq<Report> {
    seq(|all|, i requires 0 <= i < |all| => Report(all[i], now))
  }

  /** Whether keeping `a` takes as much as keeping `b`. */
  ghost predicate TakesAsMuch(group: CustodyGroup, a: CustodyItem, b: CustodyItem) {
    a.sizeBytes == b.sizeBytes && Takes(group.replicas, group.members, a) == Takes(group.replicas, group.members, b)
  }

  ghost predicate IsAbout(told: seq<Report>, id: ItemId, j: int) {
    0 <= j < |told| && told[j].item.item == id
  }

  /** Whether the `k`-th report is the first of those since which keeping `id` takes what it does: every later
      one about it has it take as much, and the last before it did not. */
  ghost predicate DatesFrom(group: CustodyGroup, told: seq<Report>, id: ItemId, k: nat) {
    && IsAbout(told, id, k)
    && (forall j | k < j && IsAbout(told, id, j) :: TakesAsMuch(group, told[j].item, told[k].item))
    && (forall j | j < k && IsLastBefore(told, id, j, k) :: !TakesAsMuch(group, told[j].item, told[k].item))
  }

  ghost predicate IsLastBefore(told: seq<Report>, id: ItemId, j: int, k: int) {
    IsAbout(told, id, j) && forall h | j < h < k :: !IsAbout(told, id, h)
  }

  /** Whether `part` says of `id` what the `k`-th report does, from when it was made. */
  ghost predicate DatedBy(group: CustodyGroup, told: seq<Report>, id: ItemId, part: Part, k: nat) {
    && DatesFrom(group, told, id, k) && part.since == told[k].at
    && part.sizeBytes == told[k].item.sizeBytes && part.demandBytes == group.DemandBytes(told[k].item)
  }

  lemma {:induction false} PassDates(group: CustodyGroup, me: MemberId, all: seq<CustodyItem>, mine: seq<ItemId>,
      now: nat, id: ItemId) returns (k: nat)
    requires DistinctIds(all) && id in Pass(group, me, all, mine, now)
    ensures DatedBy(group, Passed(all, now), id, Pass(group, me, all, mine, now)[id], k)
  {
    var n := |all| - 1;
    if all[n].item == id {
      k := n;
      assert forall j | 0 <= j < n :: !IsAbout(Passed(all, now), id, j);
    } else {
      k := PassDates(group, me, all[..n], mine, now, id);
      StillDatesFrom(group, Passed(all[..n], now), id, k, Report(all[n], now));
      assert Passed(all[..n], now) + [Report(all[n], now)] == Passed(all, now);
    }
  }

  /** One more report leaves the date of an item that takes as much by it, or that it is not about. */
  lemma StillDatesFrom(group: CustodyGroup, told: seq<Report>, id: ItemId, k: nat, more: Report)
    requires DatesFrom(group, told, id, k)
    requires more.item.item == id ==> TakesAsMuch(group, more.item, told[k].item)
    ensures DatesFrom(group, told + [more], id, k)
  {
    var longer := told + [more];
    forall j | k < j && IsAbout(longer, id, j) ensures TakesAsMuch(group, longer[j].item, longer[k].item) {
      assert j < |told| ==> IsAbout(told, id, j);
    }
    forall j | j < k && IsLastBefore(longer, id, j, k) ensures !TakesAsMuch(group, longer[j].item, longer[k].item) {
      StillLastBefore(told, id, j, k, more);
    }
  }

  lemma StillLastBefore(told: seq<Report>, id: ItemId, j: int, k: int, more: Report)
    requires 0 <= j < k <= |told|
    ensures IsLastBefore(told + [more], id, j, k) <==> IsLastBefore(told, id, j, k)
  {
    assert forall h | 0 <= h < |told| :: IsAbout(told + [more], id, h) <==> IsAbout(told, id, h);
  }

  /** One that has it take another amount dates it anew. */
  lemma NowDatesFrom(group: CustodyGroup, told: seq<Report>, id: ItemId, k: nat, more: Report)
    requires DatesFrom(group, told, id, k)
    requires more.item.item == id && !TakesAsMuch(group, more.item, told[k].item)
    ensures DatesFrom(group, told + [more], id, |told|)
  {
    var n := |told|;
    forall j | j < n && IsLastBefore(told + [more], id, j, n)
      ensures !TakesAsMuch(group, (told + [more])[j].item, more.item)
    {
      StillLastBefore(told, id, j, n, more);
      assert j < k ==> IsAbout(told, id, k);
    }
  }

  lemma FirstDatesFrom(group: CustodyGroup, told: seq<Report>, id: ItemId, more: Report)
    requires more.item.item == id && forall j :: !IsAbout(told, id, j)
    ensures DatesFrom(group, told + [more], id, |told|)
  {
    forall j | 0 <= j < |told| ensures !IsLastBefore(told + [more], id, j, |told|) {
      StillLastBefore(told, id, j, |told|, more);
    }
  }

  /** Whether every item in the view, and no other, has been reported, and is dated as the reports say. */
  ghost predicate AllDated(group: CustodyGroup, told: seq<Report>, items: map<ItemId, Part>) {
    && (forall id | id in items :: exists k :: DatedBy(group, told, id, items[id], k))
    && (forall id, j | IsAbout(told, id, j) :: id in items)
  }

  lemma UpdateDates(group: CustodyGroup, me: MemberId, told: seq<Report>, items: map<ItemId, Part>, more: Report)
    requires AllDated(group, told, items)
    ensures AllDated(group, told + [more], Updated(group, me, items, more.item, more.at))
  {
    var after := Updated(group, me, items, more.item, more.at);
    forall id | id in after ensures exists k :: DatedBy(group, told + [more], id, after[id], k) {
      var k := DateAfter(group, me, told, items, more, id);
    }
    forall id, j | IsAbout(told + [more], id, j) ensures id in after {
      assert j < |told| ==> IsAbout(told, id, j);
    }
  }

  lemma DateAfter(group: CustodyGroup, me: MemberId, told: seq<Report>, items: map<ItemId, Part>, more: Report,
      id: ItemId) returns (k: nat)
    requires AllDated(group, told, items) && id in Updated(group, me, items, more.item, more.at)
    ensures DatedBy(group, told + [more], id, Updated(group, me, items, more.item, more.at)[id], k)
  {
    DemandIsWhatItTakes(group, more.item);
    if id in items {
      k :| DatedBy(group, told, id, items[id], k);
      DemandIsWhatItTakes(group, told[k].item);
      if more.item.item == id && !TakesAsMuch(group, more.item, told[k].item) {
        NowDatesFrom(group, told, id, k, more);
        k := |told|;
      } else {
        StillDatesFrom(group, told, id, k, more);
      }
    } else {
      FirstDatesFrom(group, told, id, more);
      k := |told|;
    }
  }

  /** An item is dated from the first report since which keeping it takes what it does: a change of its
      creators or its size that comes to the same leaves the date, and any other makes it new. */
  lemma {:induction false} EachIsDatedFromItsLastChange(group: CustodyGroup, me: MemberId, all: seq<CustodyItem>,
      now: nat, reports: seq<Report>)
    requires DistinctIds(all)
    ensures AllDated(group, Passed(all, now) + reports,
      AfterUpdates(group, me, Pass(group, me, all, group.CustodyOf(me, all), now), reports))
  {
    if reports == [] {
      var items := Pass(group, me, all, group.CustodyOf(me, all), now);
      assert Passed(all, now) + reports == Passed(all, now);
      forall id | id in items ensures exists k :: DatedBy(group, Passed(all, now), id, items[id], k) {
        var k := PassDates(group, me, all, group.CustodyOf(me, all), now, id);
      }
      PassHasAll(group, me, all, group.CustodyOf(me, all), now);
    } else {
      var n := |reports| - 1;
      EachIsDatedFromItsLastChange(group, me, all, now, reports[..n]);
      assert Passed(all, now) + reports == Passed(all, now) + reports[..n] + [reports[n]];
      UpdateDates(group, me, Passed(all, now) + reports[..n],
        AfterUpdates(group, me, Pass(group, me, all, group.CustodyOf(me, all), now), reports[..n]), reports[n]);
    }
  }

  lemma {:induction false} PassHasAll(group: CustodyGroup, me: MemberId, all: seq<CustodyItem>, mine: seq<ItemId>,
      now: nat)
    ensures forall i | 0 <= i < |all| :: all[i].item in Pass(group, me, all, mine, now)
  {
    if all != [] {
      PassHasAll(group, me, all[..|all| - 1], mine, now);
      assert forall i | 0 <= i < |all| - 1 :: all[..|all| - 1][i] == all[i];
    }
  }
}
