/** What this node keeps and why, and which cached items to let go of for room
    (crates/distlib-core/src/keeping.rs). */
module Keeping {
  import opened Common
  import opened Sums

  /** The three kinds of tag. The first two are mandatory. */
  datatype KeepReason = Own | Custody | Cache {
    predicate IsMandatory() {
      this != Cache
    }

    predicate StrongerThan(other: KeepReason) {
      (Own? && !other.Own?) || (Custody? && other.Cache?)
    }
  }

  type Tag = (KeepReason, ItemId)

  datatype KeptBlob = KeptBlob(bytes: nat, tags: seq<Tag>)

  type Blobs = map<ContentHash, KeptBlob>

  datatype StorageUse = StorageUse(ownBytes: nat, custodyBytes: nat, cacheBytes: nat) {
    function MandatoryBytes(): nat {
      ownBytes + custodyBytes
    }

    function TotalBytes(): nat {
      MandatoryBytes() + cacheBytes
    }
  }

  datatype Evictions = Evictions(items: seq<ItemId>, shortBy: nat)

  /** A time for each item, or none, which comes before every time. */
  type LastUsed = ItemId -> Option<nat>

  function Strongest(tags: seq<Tag>): (reason: Option<KeepReason>)
    ensures reason.None? <==> tags == []
  {
    if tags == [] then None
    else
      var rest := Strongest(tags[1..]);
      if rest.Some? && rest.value.StrongerThan(tags[0].0) then rest else Some(tags[0].0)
  }

  /** What one blob adds to the bytes kept: its size, once, while any tag keeps it. */
  function KeptBytes(hash: ContentHash, kept: KeptBlob): nat {
    if kept.tags == [] then 0 else kept.bytes
  }

  function BytesKept(blobs: Blobs): nat {
    Sum(blobs, KeptBytes)
  }

  function OwnBytes(hash: ContentHash, kept: KeptBlob): nat {
    if Strongest(kept.tags) == Some(Own) then kept.bytes else 0
  }

  function CustodyBytes(hash: ContentHash, kept: KeptBlob): nat {
    if Strongest(kept.tags) == Some(Custody) then kept.bytes else 0
  }

  function CacheBytes(hash: ContentHash, kept: KeptBlob): nat {
    if Strongest(kept.tags) == Some(Cache) then kept.bytes else 0
  }

  /** The tags left once the cache tags of `items` are dropped. */
  function Remaining(tags: seq<Tag>, items: set<ItemId>): seq<Tag> {
    if tags == [] then []
    else
      var n := |tags| - 1;
      Remaining(tags[..n], items) + if tags[n].0.Cache? && tags[n].1 in items then [] else [tags[n]]
  }

  /** The blobs once the cache tags of `items` are dropped. */
  function Dropped(blobs: Blobs, items: set<ItemId>): Blobs {
    map h | h in blobs :: blobs[h].(tags := Remaining(blobs[h].tags, items))
  }

  function MandatoryIn(tags: seq<Tag>): set<ItemId> {
    set i | 0 <= i < |tags| && tags[i].0.IsMandatory() :: tags[i].1
  }

  function CachedIn(tags: seq<Tag>): set<ItemId> {
    set i | 0 <= i < |tags| && tags[i].0.Cache? :: tags[i].1
  }

  /** The items that some mandatory tag names. */
  function MandatoryItems(blobs: Blobs): set<ItemId> {
    set h, item | h in blobs && item in MandatoryIn(blobs[h].tags) :: item
  }

  function CachedItems(blobs: Blobs): set<ItemId> {
    set h, item | h in blobs && item in CachedIn(blobs[h].tags) :: item
  }

  /** The items that may go to make room for `keeping`. */
  function Evictable(blobs: Blobs, keeping: ItemId): set<ItemId> {
    CachedItems(blobs) - MandatoryItems(blobs) - {keeping}
  }

  /** Whether `a` goes before `b`: used longer ago, and at the same time the lower id. */
  predicate GoesBefore(lastUsed: LastUsed, a: ItemId, b: ItemId) {
    match (lastUsed(a), lastUsed(b))
    case (None, None) => a < b
    case (None, Some(_)) => true
    case (Some(_), None) => false
    case (Some(s), Some(t)) => s < t || (s == t && a < b)
  }

  ghost predicate LeastRecentFirst(lastUsed: LastUsed, order: seq<ItemId>) {
    forall i, j | 0 <= i < j < |order| :: GoesBefore(lastUsed, order[i], order[j])
  }

  /** Whether `order` lists exactly `items`, the least recently used first. */
  ghost predicate Lists(lastUsed: LastUsed, order: seq<ItemId>, items: set<ItemId>) {
    LeastRecentFirst(lastUsed, order) && Elements(order) == items
  }

  /** The bytes kept with the first `n` of `order` let go of, and `needed` more. */
  ghost function TotalAfter(blobs: Blobs, order: seq<ItemId>, n: nat, needed: nat): nat
    requires n <= |order|
  {
    BytesKept(Dropped(blobs, Elements(order[..n]))) + needed
  }

  /** Whether `plan` is the shortest prefix of `order` that makes room, or all of it, and says how
      much is missing. */
  ghost predicate IsPlan(blobs: Blobs, order: seq<ItemId>, needed: nat, limit: nat, plan: Evictions) {
    var n := |plan.items|;
    && n <= |order| && plan.items == order[..n]
    && AllOver(blobs, order, n, needed, limit)
    && (n < |order| ==> TotalAfter(blobs, order, n, needed) <= limit)
    && plan.shortBy == SaturatingSub(TotalAfter(blobs, order, n, needed), limit)
  }

  /** How many cache tags `item` has among `tags`. */
  function CacheTags(tags: seq<Tag>, item: ItemId): nat {
    if tags == [] then 0
    else CacheTags(tags[..|tags| - 1], item) + if tags[|tags| - 1] == (Cache, item) then 1 else 0
  }

  function Count(hashes: seq<ContentHash>, h: ContentHash): nat {
    if hashes == [] then 0
    else Count(hashes[..|hashes| - 1], h) + if hashes[|hashes| - 1] == h then 1 else 0
  }

  lemma {:induction false} RemainingLess(tags: seq<Tag>, items: set<ItemId>, item: ItemId)
    requires item !in items
    ensures |Remaining(tags, items)| == |Remaining(tags, items + {item})| + CacheTags(tags, item)
  {
    if tags != [] {
      RemainingLess(tags[..|tags| - 1], items, item);
    }
  }

  lemma {:induction false} RemainingAll(tags: seq<Tag>)
    ensures Remaining(tags, {}) == tags
  {
    if tags != [] {
      RemainingAll(tags[..|tags| - 1]);
    }
  }

  lemma {:induction false} RemainingShrinks(tags: seq<Tag>, few: set<ItemId>, many: set<ItemId>)
    requires few <= many
    ensures Remaining(tags, few) == [] ==> Remaining(tags, many) == []
  {
    if tags != [] {
      RemainingShrinks(tags[..|tags| - 1], few, many);
    }
  }

  lemma {:induction false} CountIs(hashes: seq<ContentHash>, h: ContentHash)
    ensures Count(hashes, h) > 0 <==> h in hashes
  {
    if hashes != [] {
      CountIs(hashes[..|hashes| - 1], h);
      assert hashes == hashes[..|hashes| - 1] + [hashes[|hashes| - 1]];
    }
  }

  lemma {:induction false} CountGrows(hashes: seq<ContentHash>, n: nat, h: ContentHash)
    requires n <= |hashes|
    ensures Count(hashes[..n], h) <= Count(hashes, h)
  {
    if n == |hashes| {
      assert hashes[..n] == hashes;
    } else {
      CountGrows(hashes[..|hashes| - 1], n, h);
      assert hashes[..|hashes| - 1][..n] == hashes[..n];
    }
  }

  /** The more is let go of, the less is kept. */
  lemma DroppingMoreKeepsLess(blobs: Blobs, few: set<ItemId>, many: set<ItemId>)
    requires few <= many
    ensures BytesKept(Dropped(blobs, many)) <= BytesKept(Dropped(blobs, few))
  {
    forall h | h in blobs
      ensures KeptBytes(h, Dropped(blobs, many)[h]) <= KeptBytes(h, Dropped(blobs, few)[h])
    {
      RemainingShrinks(blobs[h].tags, few, many);
    }
    SmallerSums(Dropped(blobs, many), KeptBytes, Dropped(blobs, few), KeptBytes);
  }

  /** The plan is exact: bytes are missing exactly when no set of the items that may go would make
      room. */
  lemma ShortExactlyWhenNothingHelps(blobs: Blobs, order: seq<ItemId>, needed: nat, limit: nat, plan: Evictions)
    requires IsPlan(blobs, order, needed, limit, plan)
    ensures plan.shortBy > 0 <==>
      forall some: set<ItemId> | some <= Elements(order) :: BytesKept(Dropped(blobs, some)) + needed > limit
  {
    var n := |plan.items|;
    assert order[..|order|] == order;
    if plan.shortBy > 0 {
      forall some: set<ItemId> | some <= Elements(order) ensures BytesKept(Dropped(blobs, some)) + needed > limit {
        DroppingMoreKeepsLess(blobs, some, Elements(order));
      }
    } else {
      assert Elements(order[..n]) <= Elements(order);
    }
  }

  /** A sorted order is the only one of its items, so there is one plan. */
  lemma OneOrder(lastUsed: LastUsed, a: seq<ItemId>, b: seq<ItemId>)
    requires LeastRecentFirst(lastUsed, a) && LeastRecentFirst(lastUsed, b)
    requires forall x :: x in a <==> x in b
    ensures a == b
  {
    OneArrangement((x, y) => GoesBefore(lastUsed, x, y), a, b);
  }

  /** So what may go, the bytes needed and the limit determine the plan. */
  lemma OnePlan(blobs: Blobs, lastUsed: LastUsed, items: set<ItemId>, needed: nat, limit: nat,
                a: seq<ItemId>, plan: Evictions, b: seq<ItemId>, other: Evictions)
    requires Lists(lastUsed, a, items) && IsPlan(blobs, a, needed, limit, plan)
    requires Lists(lastUsed, b, items) && IsPlan(blobs, b, needed, limit, other)
    ensures plan == other
  {
    forall x ensures x in a <==> x in b {
      assert x in Elements(a) <==> x in Elements(b);
    }
    OneOrder(lastUsed, a, b);
    NoShorterPlan(blobs, a, needed, limit, plan, other);
    NoShorterPlan(blobs, a, needed, limit, other, plan);
  }

  /** Of what a plan lets go of, each was last used before anything else that may go and that it keeps, or
      lets go of later: never, where the other was; earlier; or at the same time, if at any, with the lower
      id. */
  lemma LeastRecentlyUsedGo(blobs: Blobs, lastUsed: LastUsed, items: set<ItemId>, needed: nat, limit: nat,
      plan: Evictions, n: nat, other: ItemId)
    requires exists order :: Lists(lastUsed, order, items) && IsPlan(blobs, order, needed, limit, plan)
    requires n < |plan.items| && other in items && other !in plan.items[..n + 1]
    ensures plan.items[n] in items
    ensures var one := plan.items[n];
      || (lastUsed(one).None? && lastUsed(other).Some?)
      || (lastUsed(one).Some? && lastUsed(other).Some? && lastUsed(one).value < lastUsed(other).value)
      || (lastUsed(one) == lastUsed(other) && one < other)
  {
    var order :| Lists(lastUsed, order, items) && IsPlan(blobs, order, needed, limit, plan);
    assert other in Elements(order) && order[n] in Elements(order);
    var k :| 0 <= k < |order| && order[k] == other;
    forall i | 0 <= i <= n ensures order[i] != other {
      assert plan.items[..n + 1][i] == order[i];
    }
    assert GoesBefore(lastUsed, order[n], order[k]);
  }

  /** A plan stops as soon as it can: with fewer of its items gone there is not room yet, and it leaves
      nothing that may go while there is not. */
  lemma NoFewerWouldDo(blobs: Blobs, lastUsed: LastUsed, items: set<ItemId>, needed: nat, limit: nat,
      plan: Evictions)
    requires exists order :: Lists(lastUsed, order, items) && IsPlan(blobs, order, needed, limit, plan)
    ensures forall n | 0 <= n < |plan.items| ::
      BytesKept(Dropped(blobs, Elements(plan.items[..n]))) + needed > limit
    ensures plan.shortBy > 0 ==> Elements(plan.items) == items
    ensures var left := BytesKept(Dropped(blobs, Elements(plan.items))) + needed;
      plan.shortBy == if left > limit then left - limit else 0
  {
    var order :| Lists(lastUsed, order, items) && IsPlan(blobs, order, needed, limit, plan);
    forall n | 0 <= n < |plan.items|
      ensures BytesKept(Dropped(blobs, Elements(plan.items[..n]))) + needed > limit
    {
      assert plan.items[..n] == order[..n];
      assert TotalAfter(blobs, order, n, needed) > limit;
    }
    if plan.shortBy > 0 {
      assert order[..|order|] == order;
    }
  }

  lemma NoShorterPlan(blobs: Blobs, order: seq<ItemId>, needed: nat, limit: nat, plan: Evictions, other: Evictions)
    requires IsPlan(blobs, order, needed, limit, plan) && IsPlan(blobs, order, needed, limit, other)
    ensures |plan.items| >= |other.items|
  {
  }

  /** Each blob with its size and how many of its tags are left. */
  function Counted(blobs: Blobs, left: map<ContentHash, nat>): map<ContentHash, (nat, nat)>
    requires left.Keys == blobs.Keys
  {
    map h | h in blobs :: (blobs[h].bytes, left[h])
  }

  function LiveBytes(hash: ContentHash, counted: (nat, nat)): nat {
    if counted.1 == 0 then 0 else counted.0
  }

  /** The bytes of the blobs with a tag left. */
  function Live(blobs: Blobs, left: map<ContentHash, nat>): nat
    requires left.Keys == blobs.Keys
  {
    Sum(Counted(blobs, left), LiveBytes)
  }

  lemma LiveAfterOne(blobs: Blobs, left: map<ContentHash, nat>, h: ContentHash)
    requires left.Keys == blobs.Keys && h in blobs && left[h] > 0
    ensures Live(blobs, left) == Live(blobs, left[h := left[h] - 1]) + if left[h] == 1 then blobs[h].bytes else 0
  {
    var before, after := Counted(blobs, left), Counted(blobs, left[h := left[h] - 1]);
    SumWithout(before, LiveBytes, h);
    SumWithout(after, LiveBytes, h);
    assert before - {h} == after - {h};
  }

  class KeptBlobs {
    var blobs: Blobs

    constructor ()
      ensures blobs == map[]
    {
      blobs := map[];
    }

    /** One more tag on `blob`, which enters the map with size `bytes` if it is new; a size once in
        the map stands. */
    method Add(reason: KeepReason, item: ItemId, blob: ContentHash, bytes: nat)
      modifies this
      ensures blobs == Tagged(old(blobs), reason, item, blob, bytes)
    {
      var entry := if blob in blobs then blobs[blob] else KeptBlob(bytes, []);
      blobs := blobs[blob := entry.(tags := entry.tags + [(reason, item)])];
      assert [] + [(reason, item)] == [(reason, item)];
    }

    /** Three sums over the blobs, each blob in one of them; together, `BytesKept`. */
    method Usage() returns (usage: StorageUse)
      ensures usage == StorageUse(Sum(blobs, OwnBytes), Sum(blobs, CustodyBytes), Sum(blobs, CacheBytes))
      ensures usage.TotalBytes() == BytesKept(blobs)
    {
      usage := StorageUse(0, 0, 0);
      var todo := blobs.Keys;
      while todo != {}
        invariant todo <= blobs.Keys
        invariant Accounted(Part(blobs, blobs.Keys - todo), usage)
        decreases |todo|
      {
        var h :| h in todo;
        ghost var done := Part(blobs, blobs.Keys - todo);
        var kept := blobs[h];
        match Strongest(kept.tags) {
          case None =>
          case Some(Own) => usage := usage.(ownBytes := usage.ownBytes + kept.bytes);
          case Some(Custody) => usage := usage.(custodyBytes := usage.custodyBytes + kept.bytes);
          case Some(Cache) => usage := usage.(cacheBytes := usage.cacheBytes + kept.bytes);
        }
        AccountOne(done, h, kept);
        todo := todo - {h};
        assert Part(blobs, blobs.Keys - todo) == done[h := kept];
      }
      assert Part(blobs, blobs.Keys - todo) == blobs;
    }

    /** Takes items that may go, least recently used first, and stops as soon as what is kept and
        `needed` more come to `limit` or less. */
    method Plan(keeping: ItemId, needed: nat, limit: nat, lastUsed: LastUsed) returns (plan: Evictions)
      ensures exists order ::
        Lists(lastUsed, order, Evictable(blobs, keeping)) && IsPlan(blobs, order, needed, limit, plan)
    {
      var cached, mandatory := Index(blobs);
      var candidates := Ordered(cached.Keys - mandatory - {keeping}, lastUsed);
      ListedOnce(lastUsed, candidates, Evictable(blobs, keeping));
      var usage := Usage();
      plan := Pick(blobs, cached, candidates, usage.TotalBytes() + needed, needed, limit);
    }
  }

  /** Whether `cached` lists each item's blobs as often as they have its cache tag. */
  ghost predicate Faithful(blobs: Blobs, cached: map<ItemId, seq<ContentHash>>) {
    forall item | item in cached :: FaithfulFor(blobs, cached[item], item)
  }

  ghost predicate FaithfulFor(blobs: Blobs, hashes: seq<ContentHash>, item: ItemId) {
    && (forall h | h in hashes :: h in blobs)
    && (forall h | h in blobs :: Count(hashes, h) == CacheTags(blobs[h].tags, item))
  }

  /** Whether `cached` has what it takes to let go of each of `order` in turn. */
  ghost predicate Ready(blobs: Blobs, cached: map<ItemId, seq<ContentHash>>, order: seq<ItemId>) {
    Faithful(blobs, cached) && NoRepeats(order) && forall item | item in order :: item in cached
  }

  /** Which reason is the strongest: own over custody over cache. */
  lemma {:induction false} StrongestIs(tags: seq<Tag>)
    ensures Strongest(tags) == Some(Own) <==> HasReason(tags, Own)
    ensures Strongest(tags) == Some(Custody) <==> HasReason(tags, Custody) && !HasReason(tags, Own)
    ensures Strongest(tags) == Some(Cache) <==>
      HasReason(tags, Cache) && !HasReason(tags, Custody) && !HasReason(tags, Own)
  {
    if tags != [] {
      StrongestIs(tags[1..]);
      HasReasonFirst(tags);
    }
  }

  ghost predicate HasReason(tags: seq<Tag>, reason: KeepReason) {
    exists i | 0 <= i < |tags| :: tags[i].0 == reason
  }

  lemma HasReasonFirst(tags: seq<Tag>)
    requires tags != []
    ensures forall reason :: HasReason(tags, reason) <==> tags[0].0 == reason || HasReason(tags[1..], reason)
  {
    assert forall i | 0 <= i < |tags| - 1 :: tags[1..][i] == tags[i + 1];
    forall reason | HasReason(tags[1..], reason) ensures HasReason(tags, reason) {
      var i :| 0 <= i < |tags[1..]| && tags[1..][i].0 == reason;
      assert tags[i + 1].0 == reason;
    }
  }

  /** The blobs that some tag of `reason` keeps, and no stronger one. */
  ghost function KeptFirstFor(blobs: Blobs, reason: KeepReason): Blobs {
    map h | h in blobs && HasReason(blobs[h].tags, reason) &&
      (reason.Own? || !HasReason(blobs[h].tags, Own)) && (!reason.Cache? || !HasReason(blobs[h].tags, Custody)) ::
      blobs[h]
  }

  function Bytes(hash: ContentHash, kept: KeptBlob): nat {
    kept.bytes
  }

  lemma {:induction false} SumOfThose(blobs: Blobs, f: (ContentHash, KeptBlob) -> nat, those: set<ContentHash>)
    requires those <= blobs.Keys
    requires forall h | h in blobs :: f(h, blobs[h]) == if h in those then blobs[h].bytes else 0
    ensures Sum(blobs, f) == Sum(Part(blobs, those), Bytes)
    decreases |blobs|
  {
    if blobs != map[] {
      var key := Least(blobs.Keys);
      assert (blobs - {key}).Keys == blobs.Keys - {key};
      SumOfThose(blobs - {key}, f, those - {key});
      if key in those {
        SumWithout(Part(blobs, those), Bytes, key);
        assert Part(blobs, those) - {key} == Part(blobs - {key}, those - {key});
      } else {
        assert Part(blobs, those) == Part(blobs - {key}, those - {key});
      }
    }
  }

  /** So each figure of the usage is the bytes of the blobs first kept for that reason: a blob tagged for
      several counts for the strongest alone. */
  lemma UsageIsByTheStrongest(blobs: Blobs)
    ensures Sum(blobs, OwnBytes) == Sum(KeptFirstFor(blobs, Own), Bytes)
    ensures Sum(blobs, CustodyBytes) == Sum(KeptFirstFor(blobs, Custody), Bytes)
    ensures Sum(blobs, CacheBytes) == Sum(KeptFirstFor(blobs, Cache), Bytes)
  {
    forall h | h in blobs ensures Strongest(blobs[h].tags).None? ||
      h in KeptFirstFor(blobs, Strongest(blobs[h].tags).value)
    {
      StrongestIs(blobs[h].tags);
    }
    forall h, reason | h in KeptFirstFor(blobs, reason) ensures Strongest(blobs[h].tags) == Some(reason) {
      StrongestIs(blobs[h].tags);
    }
    assert forall reason :: Part(blobs, KeptFirstFor(blobs, reason).Keys) == KeptFirstFor(blobs, reason);
    SumOfThose(blobs, OwnBytes, KeptFirstFor(blobs, Own).Keys);
    SumOfThose(blobs, CustodyBytes, KeptFirstFor(blobs, Custody).Keys);
    SumOfThose(blobs, CacheBytes, KeptFirstFor(blobs, Cache).Keys);
  }

  /** One call of `Add`. */
  datatype Addition = Addition(reason: KeepReason, item: ItemId, blob: ContentHash, bytes: nat)

  function AfterAdds(adds: seq<Addition>): Blobs {
    if adds == [] then map[]
    else
      var last := adds[|adds| - 1];
      Tagged(AfterAdds(adds[..|adds| - 1]), last.reason, last.item, last.blob, last.bytes)
  }

  /** The additions to one blob, in order. */
  function To(adds: seq<Addition>, blob: ContentHash): seq<Addition> {
    if adds == [] then []
    else To(adds[..|adds| - 1], blob) + if adds[|adds| - 1].blob == blob then [adds[|adds| - 1]] else []
  }

  /** After any additions each blob has a tag for each addition to it, in order, and the size the first gave
      it. */
  lemma {:induction false} FirstSizeStands(adds: seq<Addition>, blob: ContentHash)
    ensures blob in AfterAdds(adds) <==> To(adds, blob) != []
    ensures To(adds, blob) != [] ==>
      var kept := AfterAdds(adds)[blob];
      && kept.bytes == To(adds, blob)[0].bytes
      && |kept.tags| == |To(adds, blob)|
      && forall i | 0 <= i < |kept.tags| :: kept.tags[i] == (To(adds, blob)[i].reason, To(adds, blob)[i].item)
  {
    if adds != [] {
      FirstSizeStands(adds[..|adds| - 1], blob);
    }
  }

  lemma ListedOnce(lastUsed: LastUsed, order: seq<ItemId>, items: set<ItemId>)
    requires Lists(lastUsed, order, items)
    ensures NoRepeats(order) && forall item | item in order :: item in items
  {
    forall item | item in order ensures item in items {
      assert item in Elements(order);
    }
  }

  /** Takes candidates in turn until the rest fits. */
  method Pick(blobs: Blobs, cached: map<ItemId, seq<ContentHash>>, candidates: seq<ItemId>, kept: nat,
      ghost needed: nat, limit: nat)
    returns (plan: Evictions)
    requires Ready(blobs, cached, candidates)
    requires kept == BytesKept(blobs) + needed
    ensures IsPlan(blobs, candidates, needed, limit, plan)
  {
    var left: map<ContentHash, nat> := map h | h in blobs :: |blobs[h].tags|;
    NothingDropped(blobs, left);
    assert candidates[..0] == [];
    plan := PickFrom(blobs, cached, candidates, left, kept, needed, limit);
  }

  method PickFrom(blobs: Blobs, cached: map<ItemId, seq<ContentHash>>, candidates: seq<ItemId>,
      tagsLeft: map<ContentHash, nat>, kept: nat, ghost needed: nat, limit: nat)
    returns (plan: Evictions)
    requires Ready(blobs, cached, candidates)
    requires InHand(blobs, candidates, 0, needed, tagsLeft, kept)
    ensures IsPlan(blobs, candidates, needed, limit, plan)
  {
    var left, total: nat := tagsLeft, kept;
    var n: nat := 0;
    while n < |candidates| && total > limit
      invariant n <= |candidates|
      invariant Picking(blobs, candidates, n, needed, limit, left, total)
    {
      left, total := LetGoOf(blobs, cached, candidates, n, needed, limit, left, total);
      n := n + 1;
    }
    plan := Evictions(candidates[..n], SaturatingSub(total, limit));
    Planned(blobs, candidates, n, needed, limit, left, total, plan);
  }

  /** What holds with the first `n` of `order` let go of, none of them needlessly. */
  ghost predicate Picking(blobs: Blobs, order: seq<ItemId>, n: nat, needed: nat, limit: nat,
      left: map<ContentHash, nat>, total: nat)
    requires n <= |order|
  {
    InHand(blobs, order, n, needed, left, total) && AllOver(blobs, order, n, needed, limit)
  }

  lemma Planned(blobs: Blobs, order: seq<ItemId>, n: nat, needed: nat, limit: nat, left: map<ContentHash, nat>,
      total: nat, plan: Evictions)
    requires n <= |order| && Picking(blobs, order, n, needed, limit, left, total) && (n < |order| ==> total <= limit)
    requires plan == Evictions(order[..n], SaturatingSub(total, limit))
    ensures IsPlan(blobs, order, needed, limit, plan)
  {
  }

  /** Whether `left` and `total` are what they should be with the first `n` of `order` let go of. */
  ghost predicate InHand(blobs: Blobs, order: seq<ItemId>, n: nat, needed: nat, left: map<ContentHash, nat>, total: nat)
    requires n <= |order|
  {
    LeftAfter(blobs, order[..n], left) && total == TotalAfter(blobs, order, n, needed)
  }

  ghost predicate AllOver(blobs: Blobs, order: seq<ItemId>, n: nat, needed: nat, limit: nat)
    requires n <= |order|
  {
    forall k | 0 <= k < n :: TotalAfter(blobs, order, k, needed) > limit
  }

  lemma OneMoreOver(blobs: Blobs, order: seq<ItemId>, n: nat, needed: nat, limit: nat)
    requires n < |order| && AllOver(blobs, order, n, needed, limit) && TotalAfter(blobs, order, n, needed) > limit
    ensures AllOver(blobs, order, n + 1, needed, limit)
  {
  }

  method LetGoOf(blobs: Blobs, cached: map<ItemId, seq<ContentHash>>, candidates: seq<ItemId>, n: nat,
      ghost needed: nat, ghost limit: nat, left: map<ContentHash, nat>, total: nat)
    returns (left': map<ContentHash, nat>, total': nat)
    requires Ready(blobs, cached, candidates) && n < |candidates| && total > limit
    requires Picking(blobs, candidates, n, needed, limit, left, total)
    ensures Picking(blobs, candidates, n + 1, needed, limit, left', total')
  {
    OneMoreOver(blobs, candidates, n, needed, limit);
    assert candidates[n] in candidates;
    var hashes := cached[candidates[n]];
    OneMoreDropped(blobs, hashes, candidates, n, left);
    LiveIsKept(blobs, left, candidates[..n]);
    left', total' := LetGo(blobs, hashes, left, total);
    LiveIsKept(blobs, left', candidates[..n + 1]);
  }

  function Part(blobs: Blobs, hashes: set<ContentHash>): Blobs
    requires hashes <= blobs.Keys
  {
    map h | h in hashes :: blobs[h]
  }

  ghost predicate Accounted(blobs: Blobs, usage: StorageUse) {
    && usage == StorageUse(Sum(blobs, OwnBytes), Sum(blobs, CustodyBytes), Sum(blobs, CacheBytes))
    && usage.TotalBytes() == BytesKept(blobs)
  }

  lemma AccountOne(done: Blobs, h: ContentHash, kept: KeptBlob)
    requires h !in done
    ensures Sum(done[h := kept], OwnBytes) == Sum(done, OwnBytes) + OwnBytes(h, kept)
    ensures Sum(done[h := kept], CustodyBytes) == Sum(done, CustodyBytes) + CustodyBytes(h, kept)
    ensures Sum(done[h := kept], CacheBytes) == Sum(done, CacheBytes) + CacheBytes(h, kept)
    ensures BytesKept(done[h := kept]) == BytesKept(done) + KeptBytes(h, kept)
  {
    SumWith(done, OwnBytes, h, kept);
    SumWith(done, CustodyBytes, h, kept);
    SumWith(done, CacheBytes, h, kept);
    SumWith(done, KeptBytes, h, kept);
  }

  /** Whether `left` counts each blob's tags with `items` let go of. */
  ghost predicate LeftAfter(blobs: Blobs, items: seq<ItemId>, left: map<ContentHash, nat>) {
    left.Keys == blobs.Keys && forall h | h in blobs :: left[h] == |Remaining(blobs[h].tags, Elements(items))|
  }

  lemma LiveIsKept(blobs: Blobs, left: map<ContentHash, nat>, items: seq<ItemId>)
    requires LeftAfter(blobs, items, left)
    ensures Live(blobs, left) == BytesKept(Dropped(blobs, Elements(items)))
  {
    SameSums(Counted(blobs, left), LiveBytes, Dropped(blobs, Elements(items)), KeptBytes);
  }

  lemma NothingDropped(blobs: Blobs, left: map<ContentHash, nat>)
    requires left.Keys == blobs.Keys && forall h | h in blobs :: left[h] == |blobs[h].tags|
    ensures LeftAfter(blobs, [], left)
    ensures BytesKept(Dropped(blobs, Elements([]))) == BytesKept(blobs)
  {
    assert Elements([]) == {};
    forall h | h in blobs ensures left[h] == |Remaining(blobs[h].tags, Elements([]))| {
      RemainingAll(blobs[h].tags);
    }
    SameSums(Dropped(blobs, Elements([])), KeptBytes, blobs, KeptBytes);
  }

  /** Letting go of the `n`-th candidate too takes off each blob as many tags as it has there. */
  lemma OneMoreDropped(blobs: Blobs, hashes: seq<ContentHash>, order: seq<ItemId>, n: nat, left: map<ContentHash, nat>)
    requires NoRepeats(order) && n < |order| && FaithfulFor(blobs, hashes, order[n])
    requires LeftAfter(blobs, order[..n], left)
    ensures forall h | h in blobs ::
      left[h] == |Remaining(blobs[h].tags, Elements(order[..n + 1]))| + Count(hashes, h)
  {
    assert order[..n + 1] == order[..n] + [order[n]];
    assert order[n] !in order[..n];
    assert Elements(order[..n + 1]) == Elements(order[..n]) + {order[n]};
    forall h | h in blobs
      ensures left[h] == |Remaining(blobs[h].tags, Elements(order[..n + 1]))| + Count(hashes, h)
    {
      RemainingLess(blobs[h].tags, Elements(order[..n]), order[n]);
    }
  }

  /** Whether `left'` is `left` with as many tags off each blob as `hashes` names it. */
  ghost predicate TakenOff(blobs: Blobs, hashes: seq<ContentHash>, left: map<ContentHash, nat>,
      left': map<ContentHash, nat>)
  {
    left.Keys == left'.Keys == blobs.Keys && forall h | h in blobs :: left'[h] + Count(hashes, h) == left[h]
  }

  lemma TakesOneOff(blobs: Blobs, hashes: seq<ContentHash>, n: nat, left: map<ContentHash, nat>,
      left': map<ContentHash, nat>)
    requires n < |hashes| && hashes[n] in blobs && TakenOff(blobs, hashes[..n], left, left')
    requires Count(hashes, hashes[n]) <= left[hashes[n]]
    ensures left'[hashes[n]] > 0
    ensures TakenOff(blobs, hashes[..n + 1], left, left'[hashes[n] := left'[hashes[n]] - 1])
  {
    CountGrows(hashes, n + 1, hashes[n]);
    assert hashes[..n + 1][..n] == hashes[..n];
  }

  /** Takes a tag off each of `hashes`, and off `total` the bytes of each blob that loses its last. */
  method LetGo(blobs: Blobs, hashes: seq<ContentHash>, left: map<ContentHash, nat>, total: nat)
    returns (left': map<ContentHash, nat>, total': nat)
    requires left.Keys == blobs.Keys && forall h | h in hashes :: h in blobs
    requires forall h | h in blobs :: Count(hashes, h) <= left[h]
    requires Live(blobs, left) <= total
    ensures left'.Keys == blobs.Keys
    ensures forall h | h in blobs :: left'[h] + Count(hashes, h) == left[h]
    ensures total' - Live(blobs, left') == total - Live(blobs, left)
  {
    left', total' := left, total;
    for n := 0 to |hashes|
      invariant TakenOff(blobs, hashes[..n], left, left')
      invariant total' - Live(blobs, left') == total - Live(blobs, left)
    {
      var h := hashes[n];
      TakesOneOff(blobs, hashes, n, left, left');
      LiveAfterOne(blobs, left', h);
      left' := left'[h := left'[h] - 1];
      if left'[h] == 0 {
        total' := total' - blobs[h].bytes;
      }
    }
    assert hashes[..|hashes|] == hashes;
  }

  function Of(cached: map<ItemId, seq<ContentHash>>, item: ItemId): seq<ContentHash> {
    if item in cached then cached[item] else []
  }

  /** `h` pushed once for each of its cache tags. */
  function Pushed(cached: map<ItemId, seq<ContentHash>>, h: ContentHash, tags: seq<Tag>)
    : map<ItemId, seq<ContentHash>>
  {
    if tags == [] then cached
    else
      var rest, (reason, item) := Pushed(cached, h, tags[..|tags| - 1]), tags[|tags| - 1];
      if reason.Cache? then rest[item := Of(rest, item) + [h]] else rest
  }

  lemma {:induction false} PushedCounts(cached: map<ItemId, seq<ContentHash>>, h: ContentHash, tags: seq<Tag>,
      item: ItemId, g: ContentHash)
    ensures Count(Of(Pushed(cached, h, tags), item), g) ==
      Count(Of(cached, item), g) + if g == h then CacheTags(tags, item) else 0
    ensures item in Pushed(cached, h, tags) <==> item in cached || item in CachedIn(tags)
  {
    if tags != [] {
      var n := |tags| - 1;
      var rest := Pushed(cached, h, tags[..n]);
      PushedCounts(cached, h, tags[..n], item, g);
      assert CachedIn(tags) == CachedIn(tags[..n]) + if tags[n].0.Cache? then {tags[n].1} else {};
      if tags[n] == (Cache, item) {
        var more := Of(rest, item) + [h];
        assert more[..|more| - 1] == Of(rest, item);
      }
    }
  }

  /** What is indexed once the blobs in `done` are. */
  ghost predicate Indexed(blobs: Blobs, done: set<ContentHash>, cached: map<ItemId, seq<ContentHash>>,
      mandatory: set<ItemId>)
    requires done <= blobs.Keys
  {
    && (forall item, h :: Count(Of(cached, item), h) == if h in done then CacheTags(blobs[h].tags, item) else 0)
    && cached.Keys == CachedItems(Part(blobs, done))
    && mandatory == MandatoryItems(Part(blobs, done))
  }

  lemma ItemsOfOneMore(done: Blobs, h: ContentHash, kept: KeptBlob)
    requires h !in done
    ensures CachedItems(done[h := kept]) == CachedItems(done) + CachedIn(kept.tags)
    ensures MandatoryItems(done[h := kept]) == MandatoryItems(done) + MandatoryIn(kept.tags)
  {
    var more := done[h := kept];
    assert more[h] == kept;
    forall item | item in CachedItems(done) ensures item in CachedItems(more) {
      var g :| g in done && item in CachedIn(done[g].tags);
      assert item in CachedIn(more[g].tags);
    }
    forall item | item in MandatoryItems(done) ensures item in MandatoryItems(more) {
      var g :| g in done && item in MandatoryIn(done[g].tags);
      assert item in MandatoryIn(more[g].tags);
    }
    forall item | item in CachedItems(more) ensures item in CachedItems(done) + CachedIn(kept.tags) {
      var g :| g in more && item in CachedIn(more[g].tags);
      assert g != h ==> item in CachedIn(done[g].tags);
    }
    forall item | item in MandatoryItems(more) ensures item in MandatoryItems(done) + MandatoryIn(kept.tags) {
      var g :| g in more && item in MandatoryIn(more[g].tags);
      assert g != h ==> item in MandatoryIn(done[g].tags);
    }
    forall item | item in CachedIn(kept.tags) ensures item in CachedItems(more) {
      assert item in CachedIn(more[h].tags);
    }
    forall item | item in MandatoryIn(kept.tags) ensures item in MandatoryItems(more) {
      assert item in MandatoryIn(more[h].tags);
    }
  }

  lemma IndexOne(blobs: Blobs, done: set<ContentHash>, h: ContentHash, cached: map<ItemId, seq<ContentHash>>,
      mandatory: set<ItemId>)
    requires done <= blobs.Keys && h in blobs && h !in done && Indexed(blobs, done, cached, mandatory)
    ensures Indexed(blobs, done + {h}, Pushed(cached, h, blobs[h].tags), mandatory + MandatoryIn(blobs[h].tags))
  {
    var tags := blobs[h].tags;
    forall item, g
      ensures Count(Of(Pushed(cached, h, tags), item), g) ==
        if g in done + {h} then CacheTags(blobs[g].tags, item) else 0
    {
      PushedCounts(cached, h, tags, item, g);
    }
    forall item ensures item in Pushed(cached, h, tags) <==> item in cached || item in CachedIn(tags) {
      PushedCounts(cached, h, tags, item, h);
    }
    assert Part(blobs, done + {h}) == Part(blobs, done)[h := blobs[h]];
    ItemsOfOneMore(Part(blobs, done), h, blobs[h]);
  }

  lemma IndexedNone(blobs: Blobs)
    ensures Indexed(blobs, {}, map[], {})
  {
  }

  /** Each cached item's blobs, one for each of its cache tags, and the items kept otherwise. */
  method Index(blobs: Blobs) returns (cached: map<ItemId, seq<ContentHash>>, mandatory: set<ItemId>)
    ensures cached.Keys == CachedItems(blobs) && mandatory == MandatoryItems(blobs)
    ensures Faithful(blobs, cached)
  {
    cached, mandatory := map[], {};
    var todo := blobs.Keys;
    ghost var done := {};
    IndexedNone(blobs);
    while todo != {}
      invariant done !! todo && done + todo == blobs.Keys
      invariant Indexed(blobs, done, cached, mandatory)
      decreases |todo|
    {
      var h :| h in todo;
      IndexOne(blobs, done, h, cached, mandatory);
      cached, mandatory := IndexTags(h, blobs[h].tags, cached, mandatory);
      done, todo := done + {h}, todo - {h};
    }
    assert done == blobs.Keys;
    IndexedAll(blobs, cached, mandatory);
  }

  method IndexTags(h: ContentHash, tags: seq<Tag>, cached: map<ItemId, seq<ContentHash>>, mandatory: set<ItemId>)
    returns (cached': map<ItemId, seq<ContentHash>>, mandatory': set<ItemId>)
    ensures cached' == Pushed(cached, h, tags) && mandatory' == mandatory + MandatoryIn(tags)
  {
    cached', mandatory' := cached, mandatory;
    for n := 0 to |tags|
      invariant cached' == Pushed(cached, h, tags[..n]) && mandatory' == mandatory + MandatoryIn(tags[..n])
    {
      var (reason, item) := tags[n];
      assert tags[..n + 1][..n] == tags[..n];
      if reason.IsMandatory() {
        mandatory' := mandatory' + {item};
      } else {
        cached' := cached'[item := Of(cached', item) + [h]];
      }
      assert MandatoryIn(tags[..n + 1]) == MandatoryIn(tags[..n]) + if reason.IsMandatory() then {item} else {};
    }
    assert tags[..|tags|] == tags;
  }

  lemma IndexedAll(blobs: Blobs, cached: map<ItemId, seq<ContentHash>>, mandatory: set<ItemId>)
    requires Indexed(blobs, blobs.Keys, cached, mandatory)
    ensures cached.Keys == CachedItems(blobs) && mandatory == MandatoryItems(blobs)
    ensures Faithful(blobs, cached)
  {
    assert Part(blobs, blobs.Keys) == blobs;
    forall item | item in cached ensures FaithfulFor(blobs, cached[item], item) {
      forall h | h in cached[item] ensures h in blobs {
        CountIs(cached[item], h);
        assert Count(Of(cached, item), h) > 0;
      }
      forall h | h in blobs ensures Count(cached[item], h) == CacheTags(blobs[h].tags, item) {
        assert Count(Of(cached, item), h) == CacheTags(blobs[h].tags, item);
      }
    }
  }

  /** Sorting: the items, least recently used first. */
  method Ordered(items: set<ItemId>, lastUsed: LastUsed) returns (order: seq<ItemId>)
    ensures Lists(lastUsed, order, items)
  {
    order := [];
    var todo := items;
    while todo != {}
      invariant todo <= items && Lists(lastUsed, order, items - todo)
      decreases |todo|
    {
      var item :| item in todo;
      var at := 0;
      while at < |order| && GoesBefore(lastUsed, order[at], item)
        invariant at <= |order| && forall i | 0 <= i < at :: GoesBefore(lastUsed, order[i], item)
      {
        at := at + 1;
      }
      assert item !in Elements(order);
      InsertedInOrder(lastUsed, order, at, item);
      order := order[..at] + [item] + order[at..];
      todo := todo - {item};
    }
  }

  lemma InsertedInOrder(lastUsed: LastUsed, order: seq<ItemId>, at: nat, item: ItemId)
    requires LeastRecentFirst(lastUsed, order) && at <= |order| && item !in order
    requires forall i | 0 <= i < at :: GoesBefore(lastUsed, order[i], item)
    requires at < |order| ==> !GoesBefore(lastUsed, order[at], item)
    ensures Lists(lastUsed, order[..at] + [item] + order[at..], Elements(order) + {item})
  {
    var inserted := order[..at] + [item] + order[at..];
    assert order == order[..at] + order[at..];
    forall i | at <= i < |order| ensures GoesBefore(lastUsed, item, order[i]) {
      assert order[i] in order && order[at] in order;
    }
    forall i, j | 0 <= i < j < |inserted| ensures GoesBefore(lastUsed, inserted[i], inserted[j]) {
      var a := if i < at then i else i - 1;
      var b := if j < at then j else j - 1;
      assert i != at ==> inserted[i] == order[a];
      assert j != at ==> inserted[j] == order[b];
    }
    assert Elements(inserted) == Elements(order) + {item};
  }

  /** The sizes of those of `files` that `BytesKept` has nothing for. */
  function UncountedBytes(blobs: Blobs, files: seq<(ContentHash, nat)>): nat {
    if files == [] then 0
    else
      var (hash, bytes) := files[|files| - 1];
      UncountedBytes(blobs, files[..|files| - 1]) + if Uncounted(blobs, hash) then bytes else 0
  }

  /** Whether `BytesKept` has nothing for `hash`: no entry, or one of size zero. */
  predicate Uncounted(blobs: Blobs, hash: ContentHash) {
    hash !in blobs || blobs[hash].bytes == 0
  }

  predicate Stays(blobs: Blobs, hash: ContentHash) {
    hash in blobs && Strongest(blobs[hash].tags).Some? && Strongest(blobs[hash].tags).value.IsMandatory()
  }

  /** The sizes of those of `files` that no mandatory tag keeps. */
  function MandatoryGrowth(blobs: Blobs, files: seq<(ContentHash, nat)>): nat {
    if files == [] then 0
    else
      var (hash, bytes) := files[|files| - 1];
      MandatoryGrowth(blobs, files[..|files| - 1]) + if Stays(blobs, hash) then 0 else bytes
  }

  /** The bytes of the blobs whose strongest tag is mandatory. */
  function MandatoryBytes(blobs: Blobs): nat {
    Sum(blobs, OwnBytes) + Sum(blobs, CustodyBytes)
  }

  function Tagged(blobs: Blobs, reason: KeepReason, item: ItemId, hash: ContentHash, bytes: nat): Blobs {
    blobs[hash := if hash in blobs then blobs[hash].(tags := blobs[hash].tags + [(reason, item)])
      else KeptBlob(bytes, [(reason, item)])]
  }

  function Owned(blobs: Blobs, item: ItemId, files: seq<(ContentHash, nat)>): Blobs {
    if files == [] then blobs
    else Tagged(Owned(blobs, item, files[..|files| - 1]), Own, item, files[|files| - 1].0, files[|files| - 1].1)
  }

  ghost predicate NamedOnce(files: seq<(ContentHash, nat)>) {
    forall i, j | 0 <= i < j < |files| :: files[i].0 != files[j].0
  }

  /** Whether each of `files` is counted at its size, if kept at all. */
  ghost predicate Sized(blobs: Blobs, files: seq<(ContentHash, nat)>) {
    forall i | 0 <= i < |files| && files[i].0 in blobs :: blobs[files[i].0].bytes == files[i].1
  }

  lemma {:induction false} OwnIsStrongest(tags: seq<Tag>, item: ItemId)
    ensures Strongest(tags + [(Own, item)]) == Some(Own)
  {
    if tags != [] {
      assert (tags + [(Own, item)])[1..] == tags[1..] + [(Own, item)];
      OwnIsStrongest(tags[1..], item);
    }
  }

  lemma OneMoreOwned(blobs: Blobs, item: ItemId, hash: ContentHash, bytes: nat)
    requires hash in blobs ==> blobs[hash].bytes == bytes
    ensures MandatoryBytes(Tagged(blobs, Own, item, hash, bytes)) ==
      MandatoryBytes(blobs) + if Stays(blobs, hash) then 0 else bytes
  {
    var after := Tagged(blobs, Own, item, hash, bytes);
    OwnIsStrongest(if hash in blobs then blobs[hash].tags else [], item);
    assert [] + [(Own, item)] == [(Own, item)];
    SumWithout(after, OwnBytes, hash);
    SumWithout(after, CustodyBytes, hash);
    if hash in blobs {
      SumWithout(blobs, OwnBytes, hash);
      SumWithout(blobs, CustodyBytes, hash);
      assert after - {hash} == blobs - {hash};
    } else {
      assert after - {hash} == blobs;
    }
  }

  lemma {:induction false} OwnedElsewhere(blobs: Blobs, item: ItemId, files: seq<(ContentHash, nat)>, hash: ContentHash)
    requires forall i | 0 <= i < |files| :: files[i].0 != hash
    ensures Get(Owned(blobs, item, files), hash) == Get(blobs, hash)
  {
    if files != [] {
      OwnedElsewhere(blobs, item, files[..|files| - 1], hash);
    }
  }

  /** The growth is exact: keeping files named once each as this node's own adds that many bytes to
      what stays. */
  lemma {:induction false} GrowthIsExact(blobs: Blobs, item: ItemId, files: seq<(ContentHash, nat)>)
    requires NamedOnce(files) && Sized(blobs, files)
    ensures MandatoryBytes(Owned(blobs, item, files)) == MandatoryBytes(blobs) + MandatoryGrowth(blobs, files)
  {
    if files != [] {
      var n := |files| - 1;
      GrowthIsExact(blobs, item, files[..n]);
      OwnedElsewhere(blobs, item, files[..n], files[n].0);
      OneMoreOwned(Owned(blobs, item, files[..n]), item, files[n].0, files[n].1);
    }
  }
}
