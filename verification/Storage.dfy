/** The storage limit, kept by evicting the cache (crates/distlib-custody/src/storage.rs), and the
    move of an item from custody to the cache (crates/distlib-custody/src/pins.rs). */
module StorageLimit {
  import opened Common
  import opened Sums
  import opened Keeping

  /** A named tag of the blob store. */
  datatype TagName = TagName(reason: KeepReason, item: ItemId, blob: ContentHash)

  type Tags = set<TagName>

  /** The bytes the store knows of each blob. */
  type Sizes = map<ContentHash, nat>

  type Files = seq<(ContentHash, nat)>

  datatype Room = Made | Short(bytes: nat)

  datatype WhenShort = EvictAnyway | EvictNothing

  function SizeOf(sizes: Sizes, h: ContentHash): nat {
    if h in sizes then sizes[h] else 0
  }

  /** The blobs that some tag keeps: all that garbage collection spares. */
  function BlobsOf(tags: Tags): set<ContentHash> {
    set t | t in tags :: t.blob
  }

  function Plain(h: ContentHash, n: nat): nat {
    n
  }

  function SizesOf(hashes: set<ContentHash>, sizes: Sizes): map<ContentHash, nat> {
    map h | h in hashes :: SizeOf(sizes, h)
  }

  /** The bytes of every blob some tag keeps, each once. */
  function TaggedBytes(tags: Tags, sizes: Sizes): nat {
    Sum(SizesOf(BlobsOf(tags), sizes), Plain)
  }

  /** The tags left once `items` are evicted. */
  function Without(tags: Tags, items: set<ItemId>): Tags {
    set t | t in tags && !(t.reason.Cache? && t.item in items)
  }

  predicate HasTag(tags: Tags, reason: KeepReason, item: ItemId, h: ContentHash) {
    TagName(reason, item, h) in tags
  }

  /** Whether `kept` is one blob's entry for `tags`. */
  ghost predicate EntryFor(tags: Tags, h: ContentHash, kept: seq<Tag>) {
    forall reason, item: ItemId :: (reason, item) in kept <==> HasTag(tags, reason, item, h)
  }

  /** Whether `blobs` says of each tagged blob its size and its tags. */
  ghost predicate Reflects(blobs: Blobs, tags: Tags, sizes: Sizes) {
    && blobs.Keys == BlobsOf(tags)
    && (forall h | h in blobs :: blobs[h].bytes == SizeOf(sizes, h))
    && (forall h | h in blobs :: EntryFor(tags, h, blobs[h].tags))
  }

  /** The items with a cache tag and no other kind, but for `keeping`. */
  ghost predicate MayGo(tags: Tags, keeping: ItemId, item: ItemId) {
    && item != keeping
    && (exists h :: HasTag(tags, Cache, item, h))
    && (forall h, reason | HasTag(tags, reason, item, h) :: reason.Cache?)
  }

  function LastUsedIn(times: map<ItemId, nat>): LastUsed {
    item => Get(times, item)
  }

  /** Making room, from what the store held to what it holds `after`: `blobs` is what was read from
      it, `order` the items that may go, `plan` what was planned. */
  datatype Making = Making(
    limit: Positive, tags: Tags, sizes: Sizes, times: map<ItemId, nat>, item: ItemId, files: Files,
    whenShort: WhenShort, blobs: Blobs, order: seq<ItemId>, plan: Evictions, room: Room, after: Tags)
  {
    ghost predicate Happens() {
      && Reflects(blobs, tags, sizes)
      && Lists(LastUsedIn(times), order, Evictable(blobs, item))
      && IsPlan(blobs, order, UncountedBytes(blobs, files), limit, plan)
      && room == (if plan.shortBy == 0 then Made else Short(plan.shortBy))
      && after == Without(tags, Gone(plan, whenShort))
    }
  }

  /** The items a plan lets go of. */
  ghost function Gone(plan: Evictions, whenShort: WhenShort): set<ItemId> {
    if plan.shortBy > 0 && whenShort.EvictNothing? then {} else Elements(plan.items)
  }

  lemma {:induction false} RemainingHas(tags: seq<Tag>, items: set<ItemId>, tag: Tag)
    ensures tag in Remaining(tags, items) <==> tag in tags && !(tag.0.Cache? && tag.1 in items)
  {
    if tags != [] {
      var n := |tags| - 1;
      RemainingHas(tags[..n], items, tag);
      assert tags == tags[..n] + [tags[n]];
    }
  }

  lemma RemainsExactlyWhenTagged(tags: Tags, items: set<ItemId>, h: ContentHash, kept: seq<Tag>)
    requires EntryFor(tags, h, kept)
    ensures Remaining(kept, items) != [] <==> h in BlobsOf(Without(tags, items))
  {
    var left := Remaining(kept, items);
    if left != [] {
      RemainingHas(kept, items, left[0]);
      var (reason, item) := left[0];
      assert HasTag(tags, reason, item, h);
      assert TagName(reason, item, h) in Without(tags, items);
    }
    if h in BlobsOf(Without(tags, items)) {
      var t :| t in Without(tags, items) && t.blob == h;
      assert HasTag(tags, t.reason, t.item, h);
      RemainingHas(kept, items, (t.reason, t.item));
    }
  }

  lemma {:induction false} SumOfNonZero<V>(m: map<nat, V>, f: (nat, V) -> nat, some: set<nat>)
    requires forall k | k in m && k !in some :: f(k, m[k]) == 0
    ensures Sum(m, f) == Sum(map k | k in m && k in some :: m[k], f)
    decreases |m|
  {
    if m != map[] {
      var key := Least(m.Keys);
      var part := map k | k in m && k in some :: m[k];
      assert (m - {key}).Keys == m.Keys - {key};
      SumOfNonZero(m - {key}, f, some);
      var rest := map k | k in m - {key} && k in some :: (m - {key})[k];
      if key in some {
        assert part - {key} == rest;
        SumWithout(part, f, key);
      } else {
        assert part == rest;
      }
    }
  }

  /** What the planner counts is what the store would hold. */
  lemma CountsWhatIsTagged(blobs: Blobs, tags: Tags, sizes: Sizes, items: set<ItemId>)
    requires Reflects(blobs, tags, sizes)
    ensures BytesKept(Dropped(blobs, items)) == TaggedBytes(Without(tags, items), sizes)
  {
    var left := Dropped(blobs, items);
    var some := BlobsOf(Without(tags, items));
    assert some <= BlobsOf(tags);
    forall h | h in blobs ensures left[h].tags != [] <==> h in some {
      RemainsExactlyWhenTagged(tags, items, h, blobs[h].tags);
    }
    SumOfNonZero(left, KeptBytes, some);
    SumOfSizes(map h | h in left && h in some :: left[h], some, sizes);
  }

  lemma SumOfSizes(part: Blobs, hashes: set<ContentHash>, sizes: Sizes)
    requires part.Keys == hashes && forall h | h in part :: part[h].tags != [] && part[h].bytes == SizeOf(sizes, h)
    ensures BytesKept(part) == Sum(SizesOf(hashes, sizes), Plain)
  {
    SameSums(part, KeptBytes, SizesOf(hashes, sizes), Plain);
  }

  /** The planner lets go only of what has a cache tag and no other kind. */
  lemma EvictableIsWhatMayGo(blobs: Blobs, tags: Tags, sizes: Sizes, keeping: ItemId, item: ItemId)
    requires Reflects(blobs, tags, sizes)
    ensures item in Evictable(blobs, keeping) <==> MayGo(tags, keeping, item)
  {
    forall h, reason | HasTag(tags, reason, item, h)
      ensures (reason.Cache? ==> item in CachedItems(blobs)) && (reason.IsMandatory() ==> item in MandatoryItems(blobs))
    {
      assert h in BlobsOf(tags);
      assert (reason, item) in blobs[h].tags;
      var i :| 0 <= i < |blobs[h].tags| && blobs[h].tags[i] == (reason, item);
      assert reason.Cache? ==> item in CachedIn(blobs[h].tags);
      assert reason.IsMandatory() ==> item in MandatoryIn(blobs[h].tags);
    }
    if item in CachedItems(blobs) {
      var h :| h in blobs && item in CachedIn(blobs[h].tags);
      assert HasTag(tags, Cache, item, h);
    }
    if item in MandatoryItems(blobs) {
      var h :| h in blobs && item in MandatoryIn(blobs[h].tags);
      var i :| 0 <= i < |blobs[h].tags| && blobs[h].tags[i].1 == item && blobs[h].tags[i].0.IsMandatory();
      assert (blobs[h].tags[i].0, item) in blobs[h].tags;
      assert HasTag(tags, blobs[h].tags[i].0, item, h);
    }
  }

  /** The tags once each of `files` is tagged for `item`. */
  function TaggedFor(tags: Tags, reason: KeepReason, item: ItemId, files: Files): Tags {
    if files == [] then tags
    else TaggedFor(tags, reason, item, files[..|files| - 1]) + {TagName(reason, item, files[|files| - 1].0)}
  }

  /** The sizes once each of `files` that was not counted has arrived in full. */
  function Arrived(blobs: Blobs, sizes: Sizes, files: Files): Sizes {
    if files == [] then sizes
    else
      var rest, (h, bytes) := Arrived(blobs, sizes, files[..|files| - 1]), files[|files| - 1];
      if Uncounted(blobs, h) then rest[h := bytes] else rest
  }

  /** The bytes of those of `files` that were counted and that no tag keeps any more. */
  function FreedBytes(blobs: Blobs, tags: Tags, files: Files): nat {
    if files == [] then 0
    else
      var h := files[|files| - 1].0;
      FreedBytes(blobs, tags, files[..|files| - 1]) +
        if !Uncounted(blobs, h) && h !in BlobsOf(tags) then blobs[h].bytes else 0
  }

  lemma {:induction false} NotYet(blobs: Blobs, tags: Tags, sizes: Sizes, reason: KeepReason, item: ItemId,
      files: Files, h: ContentHash)
    requires forall i | 0 <= i < |files| :: files[i].0 != h
    ensures h in BlobsOf(TaggedFor(tags, reason, item, files)) <==> h in BlobsOf(tags)
    ensures SizeOf(Arrived(blobs, sizes, files), h) == SizeOf(sizes, h)
  {
    if files != [] {
      NotYet(blobs, tags, sizes, reason, item, files[..|files| - 1], h);
      var rest := TaggedFor(tags, reason, item, files[..|files| - 1]);
      assert BlobsOf(rest + {TagName(reason, item, files[|files| - 1].0)}) == BlobsOf(rest) + {files[|files| - 1].0};
    }
  }

  lemma OneMoreTagged(tags: Tags, sizes: Sizes, tag: TagName, sizes': Sizes)
    requires forall h | h != tag.blob :: SizeOf(sizes', h) == SizeOf(sizes, h)
    ensures TaggedBytes(tags + {tag}, sizes') ==
      TaggedBytes(tags, sizes) +
        SizeOf(sizes', tag.blob) - if tag.blob in BlobsOf(tags) then SizeOf(sizes, tag.blob) else 0
  {
    var h := tag.blob;
    var before, after := SizesOf(BlobsOf(tags), sizes), SizesOf(BlobsOf(tags + {tag}), sizes');
    assert BlobsOf(tags + {tag}) == BlobsOf(tags) + {h};
    SumWithout(after, Plain, h);
    if h in BlobsOf(tags) {
      SumWithout(before, Plain, h);
    }
    assert after - {h} == before - {h};
    assert h !in before ==> before - {h} == before;
  }

  /** What is kept once `files`, each named once, are tagged and here: what was kept, what was not
      counted, and whatever of them had been counted and was freed meanwhile. */
  lemma {:induction false} KeptOnceHere(blobs: Blobs, all: Tags, tags: Tags, sizes: Sizes, reason: KeepReason,
      item: ItemId, files: Files)
    requires Reflects(blobs, all, sizes) && tags <= all && NamedOnce(files)
    ensures TaggedBytes(TaggedFor(tags, reason, item, files), Arrived(blobs, sizes, files)) ==
      TaggedBytes(tags, sizes) + UncountedBytes(blobs, files) + FreedBytes(blobs, tags, files)
  {
    if files != [] {
      var n := |files| - 1;
      var (h, bytes) := files[n];
      KeptOnceHere(blobs, all, tags, sizes, reason, item, files[..n]);
      NotYet(blobs, tags, sizes, reason, item, files[..n], h);
      assert BlobsOf(tags) <= BlobsOf(all);
      OneMoreTagged(TaggedFor(tags, reason, item, files[..n]), Arrived(blobs, sizes, files[..n]),
        TagName(reason, item, h),
                    Arrived(blobs, sizes, files));
    }
  }

  /** Whether some tag of `h` is of an item that may not go to make room for `item`. */
  ghost predicate IsHeld(tags: Tags, item: ItemId, h: ContentHash) {
    exists t :: t in tags && t.blob == h && !MayGo(tags, item, t.item)
  }

  /** Whether each of `files` that is counted is held by what may not go. */
  ghost predicate AllHeld(blobs: Blobs, tags: Tags, item: ItemId, files: Files) {
    forall i | 0 <= i < |files| && !Uncounted(blobs, files[i].0) :: IsHeld(tags, item, files[i].0)
  }

  lemma {:induction false} NothingFreed(blobs: Blobs, tags: Tags, files: Files)
    requires forall i | 0 <= i < |files| && !Uncounted(blobs, files[i].0) :: files[i].0 in BlobsOf(tags)
    ensures FreedBytes(blobs, tags, files) == 0
  {
    if files != [] {
      NothingFreed(blobs, tags, files[..|files| - 1]);
    }
  }

  lemma GoneMayGo(m: Making, gone: ItemId)
    requires m.Happens()
    requires gone in Gone(m.plan, m.whenShort)
    ensures MayGo(m.tags, m.item, gone)
  {
    assert gone in m.plan.items && gone in Elements(m.order);
    EvictableIsWhatMayGo(m.blobs, m.tags, m.sizes, m.item, gone);
  }

  /** No own or custody tag is released, nor any tag of the item room is made for, nor of an item
      that is also kept as own or custody. */
  lemma OnlyTheCacheGoes(m: Making, tag: TagName)
    requires m.Happens()
    requires tag in m.tags && !MayGo(m.tags, m.item, tag.item)
    ensures tag in m.after
  {
    if tag.item in Gone(m.plan, m.whenShort) {
      GoneMayGo(m, tag.item);
    }
  }

  /** The bytes kept after making room, with those still to arrive: exactly the limit and what is
      short when short, and within it otherwise. */
  lemma RoomIsWhatItSays(m: Making)
    requires m.Happens()
    ensures m.room.Made? ==> TaggedBytes(m.after, m.sizes) + UncountedBytes(m.blobs, m.files) <= m.limit
    ensures m.room.Short? && m.whenShort.EvictAnyway? ==>
      TaggedBytes(m.after, m.sizes) + UncountedBytes(m.blobs, m.files) == m.limit + m.room.bytes
    ensures m.room.Short? && m.whenShort.EvictNothing? ==> m.after == m.tags
    ensures m.room.Short? ==> forall some: set<ItemId> | (forall i | i in some :: MayGo(m.tags, m.item, i)) ::
      TaggedBytes(Without(m.tags, some), m.sizes) + UncountedBytes(m.blobs, m.files) > m.limit
  {
    var n := |m.plan.items|;
    assert m.order[..n] == m.plan.items;
    CountsWhatIsTagged(m.blobs, m.tags, m.sizes, Elements(m.plan.items));
    if m.room.Short? {
      assert m.tags == Without(m.tags, {});
      ShortExactlyWhenNothingHelps(m.blobs, m.order, UncountedBytes(m.blobs, m.files), m.limit, m.plan);
      forall some: set<ItemId> | forall i | i in some :: MayGo(m.tags, m.item, i)
        ensures TaggedBytes(Without(m.tags, some), m.sizes) + UncountedBytes(m.blobs, m.files) > m.limit
      {
        forall i | i in some ensures i in Elements(m.order) {
          EvictableIsWhatMayGo(m.blobs, m.tags, m.sizes, m.item, i);
        }
        CountsWhatIsTagged(m.blobs, m.tags, m.sizes, some);
      }
    }
  }

  /** Of what goes, each was last used, by the recorded times, before anything else that may go and that
      stays, or goes later: never, where the other was; earlier; or at the same time with the lower id. */
  lemma LeastRecentlyUsedGoFirst(m: Making, n: nat, other: ItemId)
    requires m.Happens() && n < |m.plan.items| && MayGo(m.tags, m.item, other) && other !in m.plan.items[..n + 1]
    ensures var one := m.plan.items[n];
      || (one !in m.times && other in m.times)
      || (one in m.times && other in m.times && m.times[one] < m.times[other])
      || (Get(m.times, one) == Get(m.times, other) && one < other)
  {
    EvictableIsWhatMayGo(m.blobs, m.tags, m.sizes, m.item, other);
    LeastRecentlyUsedGo(m.blobs, LastUsedIn(m.times), Evictable(m.blobs, m.item),
      UncountedBytes(m.blobs, m.files), m.limit, m.plan, n, other);
  }

  lemma HeldFilesStay(m: Making)
    requires m.Happens()
    requires AllHeld(m.blobs, m.tags, m.item, m.files)
    ensures FreedBytes(m.blobs, m.after, m.files) == 0
  {
    forall i | 0 <= i < |m.files| && !Uncounted(m.blobs, m.files[i].0) ensures m.files[i].0 in BlobsOf(m.after) {
      assert IsHeld(m.tags, m.item, m.files[i].0);
      var t :| t in m.tags && t.blob == m.files[i].0 && !MayGo(m.tags, m.item, t.item);
      OnlyTheCacheGoes(m, t);
    }
    NothingFreed(m.blobs, m.after, m.files);
  }

  /** Room made holds once the files are tagged and here in full, when each file already counted is
      held by something that may not go: a tag of the item itself is such, and so is any own or
      custody tag. */
  lemma RoomHoldsTheLimit(m: Making, reason: KeepReason)
    requires m.Happens()
    requires m.room.Made? && NamedOnce(m.files) && AllHeld(m.blobs, m.tags, m.item, m.files)
    ensures TaggedBytes(TaggedFor(m.after, reason, m.item, m.files), Arrived(m.blobs, m.sizes, m.files)) <= m.limit
  {
    KeptOnceHere(m.blobs, m.tags, m.after, m.sizes, reason, m.item, m.files);
    HeldFilesStay(m);
    RoomIsWhatItSays(m);
  }

  /** For whoever tags the files first, making room holds the limit, and no file is let go of. */
  lemma TaggingFirstHoldsTheLimit(m: Making, reason: KeepReason)
    requires m.Happens()
    requires m.room.Made? && NamedOnce(m.files) && TaggedFor(m.tags, reason, m.item, m.files) == m.tags
    ensures TaggedFor(m.after, reason, m.item, m.files) == m.after
    ensures TaggedBytes(m.after, Arrived(m.blobs, m.sizes, m.files)) <= m.limit
  {
    forall i | 0 <= i < |m.files|
      ensures HasTag(m.after, reason, m.item, m.files[i].0) && IsHeld(m.tags, m.item, m.files[i].0)
    {
      TaggedForHas(m.tags, reason, m.item, m.files, i);
      OnlyTheCacheGoes(m, TagName(reason, m.item, m.files[i].0));
    }
    NothingMoreToTag(m.after, reason, m.item, m.files);
    RoomHoldsTheLimit(m, reason);
  }

  lemma {:induction false} TaggedForHas(tags: Tags, reason: KeepReason, item: ItemId, files: Files, i: nat)
    requires i < |files|
    ensures HasTag(TaggedFor(tags, reason, item, files), reason, item, files[i].0)
  {
    if i < |files| - 1 {
      TaggedForHas(tags, reason, item, files[..|files| - 1], i);
    }
  }

  lemma {:induction false} NothingMoreToTag(tags: Tags, reason: KeepReason, item: ItemId, files: Files)
    requires forall i | 0 <= i < |files| :: HasTag(tags, reason, item, files[i].0)
    ensures TaggedFor(tags, reason, item, files) == tags
  {
    if files != [] {
      NothingMoreToTag(tags, reason, item, files[..|files| - 1]);
      assert HasTag(tags, reason, item, files[|files| - 1].0);
    }
  }

  /** What is kept once `files`, tagged for `item`, are here in full beside what `tags` keeps. */
  function KeptWith(m: Making, reason: KeepReason, tags: Tags): nat {
    TaggedBytes(TaggedFor(tags, reason, m.item, m.files), Arrived(m.blobs, m.sizes, m.files))
  }

  lemma {:induction false} TaggedForMore(few: Tags, many: Tags, reason: KeepReason, item: ItemId, files: Files)
    requires few <= many
    ensures TaggedFor(few, reason, item, files) <= TaggedFor(many, reason, item, files)
  {
    if files != [] {
      TaggedForMore(few, many, reason, item, files[..|files| - 1]);
    }
  }

  lemma FewerTagsKeepLess(few: Tags, many: Tags, sizes: Sizes)
    requires few <= many
    ensures TaggedBytes(few, sizes) <= TaggedBytes(many, sizes)
  {
    assert BlobsOf(few) <= BlobsOf(many);
    SumOfPart(SizesOf(BlobsOf(few), sizes), SizesOf(BlobsOf(many), sizes), Plain);
  }

  /** What is left of the tags when the whole cache that may go has gone. */
  ghost function Uncached(m: Making): Tags {
    Without(m.tags, Evictable(m.blobs, m.item))
  }

  /** The bytes of those of `files` that are counted and that nothing holds which may not go. */
  ghost function UnheldBytes(blobs: Blobs, tags: Tags, item: ItemId, files: Files): nat {
    if files == [] then 0
    else
      var h := files[|files| - 1].0;
      UnheldBytes(blobs, tags, item, files[..|files| - 1]) +
        if !Uncounted(blobs, h) && !IsHeld(tags, item, h) then blobs[h].bytes else 0
  }

  lemma HeldExactlyWhenUncached(tags: Tags, sizes: Sizes, blobs: Blobs, item: ItemId, h: ContentHash)
    requires Reflects(blobs, tags, sizes)
    ensures IsHeld(tags, item, h) <==> h in BlobsOf(Without(tags, Evictable(blobs, item)))
  {
    var left := Without(tags, Evictable(blobs, item));
    if t :| t in left && t.blob == h {
      assert MayGo(tags, item, t.item) ==> HasTag(tags, t.reason, t.item, h);
      EvictableIsWhatMayGo(blobs, tags, sizes, item, t.item);
    }
    if t :| t in tags && t.blob == h && !MayGo(tags, item, t.item) {
      EvictableIsWhatMayGo(blobs, tags, sizes, item, t.item);
      assert t in left;
    }
  }

  lemma {:induction false} UnheldIsFreed(tags: Tags, sizes: Sizes, blobs: Blobs, item: ItemId, files: Files)
    requires Reflects(blobs, tags, sizes)
    ensures UnheldBytes(blobs, tags, item, files) ==
      FreedBytes(blobs, Without(tags, Evictable(blobs, item)), files)
  {
    if files != [] {
      UnheldIsFreed(tags, sizes, blobs, item, files[..|files| - 1]);
      HeldExactlyWhenUncached(tags, sizes, blobs, item, files[|files| - 1].0);
    }
  }

  /** All that is counted is held exactly when no bytes are unheld. */
  lemma {:induction false} AllHeldExactlyWhenNoneUnheld(blobs: Blobs, tags: Tags, item: ItemId, files: Files)
    ensures AllHeld(blobs, tags, item, files) <==> UnheldBytes(blobs, tags, item, files) == 0
  {
    if files != [] {
      var n := |files| - 1;
      AllHeldExactlyWhenNoneUnheld(blobs, tags, item, files[..n]);
      var lastIsHeld := !Uncounted(blobs, files[n].0) ==> IsHeld(tags, item, files[n].0);
      assert AllHeld(blobs, tags, item, files) <==> AllHeld(blobs, tags, item, files[..n]) && lastIsHeld;
    }
  }

  lemma UncachedIsLeft(m: Making)
    requires m.Happens()
    ensures Uncached(m) <= m.after
  {
    forall t | t in Uncached(m) ensures t in m.after {
      if t.item in Gone(m.plan, m.whenShort) {
        assert t.item in Elements(m.order);
      }
    }
  }

  /** Whatever goes, what stays and the files are kept in the end. */
  lemma KeepsAtLeast(m: Making, reason: KeepReason)
    requires m.Happens() && NamedOnce(m.files)
    ensures TaggedBytes(Uncached(m), m.sizes) + UncountedBytes(m.blobs, m.files) +
      UnheldBytes(m.blobs, m.tags, m.item, m.files) <= KeptWith(m, reason, m.after)
  {
    UnheldIsFreed(m.tags, m.sizes, m.blobs, m.item, m.files);
    KeptOnceHere(m.blobs, m.tags, Uncached(m), m.sizes, reason, m.item, m.files);
    UncachedIsLeft(m);
    TaggedForMore(Uncached(m), m.after, reason, m.item, m.files);
    FewerTagsKeepLess(TaggedFor(Uncached(m), reason, m.item, m.files), TaggedFor(m.after, reason, m.item, m.files),
      Arrived(m.blobs, m.sizes, m.files));
  }

  lemma MadeExactlyWhenUncachedFits(m: Making)
    requires m.Happens()
    ensures m.room.Made? <==> TaggedBytes(Uncached(m), m.sizes) + UncountedBytes(m.blobs, m.files) <= m.limit
  {
    RoomIsWhatItSays(m);
    if m.room.Made? {
      UncachedIsLeft(m);
      FewerTagsKeepLess(Uncached(m), m.after, m.sizes);
    } else {
      forall i | i in Evictable(m.blobs, m.item) ensures MayGo(m.tags, m.item, i) {
        EvictableIsWhatMayGo(m.blobs, m.tags, m.sizes, m.item, i);
      }
    }
  }

  /** Without that, it need not: at every limit that what must stay and the files still to come fit
      under, and the unheld files besides do not, room is made, and tagging the files passes it. */
  lemma MakingRoomFirstPassesTheLimit(m: Making, reason: KeepReason)
    requires m.Happens() && NamedOnce(m.files)
    requires var least := TaggedBytes(Uncached(m), m.sizes) + UncountedBytes(m.blobs, m.files);
      least <= m.limit < least + UnheldBytes(m.blobs, m.tags, m.item, m.files)
    ensures m.room.Made?
    ensures TaggedBytes(TaggedFor(m.after, reason, m.item, m.files), Arrived(m.blobs, m.sizes, m.files)) > m.limit
  {
    MadeExactlyWhenUncachedFits(m);
    KeepsAtLeast(m, reason);
  }

  /** The tags left when the first `n` of the items that may go have gone. */
  ghost function Left(m: Making, n: nat): Tags
    requires n <= |m.order|
  {
    Without(m.tags, Elements(m.order[..n]))
  }

  /** What is kept then, with what is still to come. */
  ghost function Total(m: Making, n: nat): nat
    requires n <= |m.order|
  {
    TotalAfter(m.blobs, m.order, n, UncountedBytes(m.blobs, m.files))
  }

  /** What of the files is then freed. */
  ghost function Freed(m: Making, n: nat): nat
    requires n <= |m.order|
  {
    FreedBytes(m.blobs, Left(m, n), m.files)
  }

  /** Whether letting go of the first `n` frees one of the files, and leaves more than one byte to be
      kept with the files back. */
  ghost predicate Risks(m: Making, n: nat) {
    n <= |m.order| && Freed(m, n) > 0 && Total(m, n) + Freed(m, n) > 1
  }

  /** Whether room is made at `m`'s limit, and the files, tagged afterwards, pass it. */
  ghost predicate Passes(m: Making, reason: KeepReason) {
    m.Happens() && m.room.Made? && KeptWith(m, reason, m.after) > m.limit
  }

  /** `m` at another limit. */
  ghost function At(m: Making, limit: Positive, plan: Evictions): Making {
    var room := if plan.shortBy == 0 then Made else Short(plan.shortBy);
    m.(limit := limit, plan := plan, room := room, after := Without(m.tags, Gone(plan, m.whenShort)))
  }

  lemma KeptWithLeft(m: Making, reason: KeepReason, n: nat)
    requires m.Happens() && NamedOnce(m.files) && n <= |m.order|
    ensures KeptWith(m, reason, Left(m, n)) == Total(m, n) + Freed(m, n)
  {
    CountsWhatIsTagged(m.blobs, m.tags, m.sizes, Elements(m.order[..n]));
    KeptOnceHere(m.blobs, m.tags, Left(m, n), m.sizes, reason, m.item, m.files);
  }

  lemma LeftShrinks(m: Making, reason: KeepReason, n: nat)
    requires n < |m.order|
    ensures KeptWith(m, reason, Left(m, n + 1)) <= KeptWith(m, reason, Left(m, n))
  {
    assert Left(m, n + 1) <= Left(m, n);
    TaggedForMore(Left(m, n + 1), Left(m, n), reason, m.item, m.files);
    FewerTagsKeepLess(TaggedFor(Left(m, n + 1), reason, m.item, m.files),
      TaggedFor(Left(m, n), reason, m.item, m.files), Arrived(m.blobs, m.sizes, m.files));
  }

  /** With more let go of, no more is kept with the files back. */
  ghost predicate Falls(m: Making) {
    Freed(m, 0) == 0 && forall n | 0 <= n < |m.order| :: Total(m, n + 1) + Freed(m, n + 1) <= Total(m, n) + Freed(m, n)
  }

  lemma ItFalls(m: Making)
    requires m.Happens() && NamedOnce(m.files)
    ensures Falls(m)
  {
    assert Left(m, 0) == m.tags;
    NothingFreed(m.blobs, m.tags, m.files);
    forall n | 0 <= n < |m.order| ensures Total(m, n + 1) + Freed(m, n + 1) <= Total(m, n) + Freed(m, n) {
      LeftShrinks(m, Cache, n);
      KeptWithLeft(m, Cache, n);
      KeptWithLeft(m, Cache, n + 1);
    }
  }

  lemma {:induction false} FirstAbove(freed: seq<nat>, all: seq<nat>, n: nat) returns (first: nat)
    requires n < |freed| == |all| && freed[0] == 0 < freed[n]
    requires forall k | 0 < k <= n :: all[k] <= all[k - 1]
    ensures 0 < first <= n && freed[first - 1] == 0 < freed[first] && all[n] <= all[first]
    decreases n
  {
    if freed[n - 1] == 0 {
      first := n;
    } else {
      first := FirstAbove(freed, all, n - 1);
    }
  }

  /** Among the prefixes at risk is one that frees the first of the files. */
  lemma FirstAtRisk(m: Making, n: nat) returns (first: nat)
    requires Falls(m) && Risks(m, n)
    ensures 0 < first && Risks(m, first) && Freed(m, first - 1) == 0
  {
    var freed := seq(n + 1, k requires 0 <= k <= n => Freed(m, k));
    var all := seq(n + 1, k requires 0 <= k <= n => Total(m, k) + Freed(m, k));
    forall k | 0 < k <= n ensures all[k] <= all[k - 1] {
      assert Total(m, k - 1 + 1) + Freed(m, k - 1 + 1) <= Total(m, k - 1) + Freed(m, k - 1);
    }
    first := FirstAbove(freed, all, n);
  }

  lemma IsPlanAt(blobs: Blobs, order: seq<ItemId>, needed: nat, limit: nat, n: nat)
    requires 0 < n <= |order| && TotalAfter(blobs, order, n, needed) <= limit < TotalAfter(blobs, order, n - 1, needed)
    ensures IsPlan(blobs, order, needed, limit, Evictions(order[..n], 0))
  {
    forall k | 0 <= k < n ensures TotalAfter(blobs, order, k, needed) > limit {
      assert Elements(order[..k]) <= Elements(order[..n - 1]);
      DroppingMoreKeepsLess(blobs, Elements(order[..k]), Elements(order[..n - 1]));
    }
  }

  lemma HappensAt(m: Making, limit: Positive, n: nat)
    requires m.Happens() && 0 < n <= |m.order| && Total(m, n) <= limit < Total(m, n - 1)
    ensures At(m, limit, Evictions(m.order[..n], 0)).Happens()
  {
    IsPlanAt(m.blobs, m.order, UncountedBytes(m.blobs, m.files), limit, n);
  }

  /** Freeing the first of the files, that prefix comes under a limit that the one before does not: it is
      the plan there, and the files pass it. */
  lemma PassesThere(m: Making, reason: KeepReason, n: nat) returns (limit: Positive)
    requires m.Happens() && NamedOnce(m.files) && Falls(m)
    requires 0 < n && Risks(m, n) && Freed(m, n - 1) == 0
    ensures Passes(At(m, limit, Evictions(m.order[..n], 0)), reason)
  {
    assert Total(m, n - 1 + 1) + Freed(m, n - 1 + 1) <= Total(m, n - 1) + Freed(m, n - 1);
    limit := if Total(m, n) == 0 then 1 else Total(m, n);
    HappensAt(m, limit, n);
    KeptWithLeft(m, reason, n);
  }

  /** Which stores are safe, exactly: some limit is passed if and only if letting the cache go in its
      order frees one of the files while more than one byte is left to be kept with them. A single byte
      is no risk, since a limit is at least one. */
  lemma PassesSomeLimitExactlyWhenAtRisk(m: Making, reason: KeepReason)
    requires m.Happens() && NamedOnce(m.files)
    ensures (exists limit, plan :: Passes(At(m, limit, plan), reason)) <==> exists n :: Risks(m, n)
  {
    if limit, plan :| Passes(At(m, limit, plan), reason) {
      PassingIsARisk(m, reason, At(m, limit, plan));
    }
    if n :| Risks(m, n) {
      ItFalls(m);
      var first := FirstAtRisk(m, n);
      var limit := PassesThere(m, reason, first);
    }
  }

  lemma PassingIsARisk(m: Making, reason: KeepReason, there: Making)
    requires m.Happens() && NamedOnce(m.files)
    requires there == At(m, there.limit, there.plan) && Passes(there, reason)
    ensures Risks(m, |there.plan.items|)
  {
    KeptWithLeft(m, reason, |there.plan.items|);
  }

  /** A store is at risk as soon as some file counted is not held, unless that file is a single byte and
      there is nothing else to come or that must stay. */
  lemma UnheldIsARisk(m: Making)
    requires m.Happens() && !AllHeld(m.blobs, m.tags, m.item, m.files)
    requires TaggedBytes(Uncached(m), m.sizes) + UncountedBytes(m.blobs, m.files) +
      UnheldBytes(m.blobs, m.tags, m.item, m.files) != 1
    ensures Risks(m, |m.order|)
  {
    AllHeldExactlyWhenNoneUnheld(m.blobs, m.tags, m.item, m.files);
    UnheldIsFreed(m.tags, m.sizes, m.blobs, m.item, m.files);
    CountsWhatIsTagged(m.blobs, m.tags, m.sizes, Evictable(m.blobs, m.item));
    assert m.order[..|m.order|] == m.order;
  }

  /** Five bytes that only item 2's cache tag keeps, to be had for item 1 under a limit of one byte. */
  function SharedBlob(): Making {
    Making(1, {TagName(Cache, 2, 7)}, map[7 := 5], map[], 1, [(7, 5)], EvictNothing,
      map[7 := KeptBlob(5, [(Cache, 2)])], [2], Evictions([2], 0), Made, {})
  }

  lemma SharedBlobIsPlanned(tags: Tags, sizes: Sizes, blobs: Blobs, order: seq<ItemId>)
    requires Reflects(blobs, tags, sizes) && order == [2]
    requires TaggedBytes(tags, sizes) == 5 && TaggedBytes({}, sizes) == 0
    requires Without(tags, {}) == tags && Without(tags, {2}) == {}
    ensures IsPlan(blobs, order, 0, 1, Evictions([2], 0))
  {
    assert order[..0] == [] && order[..1] == order;
    assert Elements([]) == {} && Elements(order) == {2};
    CountsWhatIsTagged(blobs, tags, sizes, {});
    CountsWhatIsTagged(blobs, tags, sizes, {2});
    IsPlanAt(blobs, order, 0, 1, 1);
  }

  lemma SharedBlobGoes(tags: Tags)
    requires tags == {TagName(Cache, 2, 7)}
    ensures Without(tags, {}) == tags && Without(tags, {2}) == {}
  {
  }

  lemma OneIsListed(lastUsed: LastUsed, item: ItemId)
    ensures Elements([item]) == {item} && Lists(lastUsed, [item], {item})
  {
  }

  lemma SharedBlobIsCounted(m: Making)
    requires m == SharedBlob()
    ensures UncountedBytes(m.blobs, m.files) == 0
  {
    assert m.files[..0] == [];
  }

  lemma SharedBlobHappens(m: Making)
    requires m == SharedBlob()
    ensures m.Happens()
  {
    SharedBlobIsRead(m.tags, m.sizes, m.blobs);
    SharedBlobGoes(m.tags);
    SharedBlobIsPlanned(m.tags, m.sizes, m.blobs, m.order);
    SharedBlobIsCounted(m);
    OneIsListed(LastUsedIn(m.times), 2);
  }

  lemma SharedBlobComesBack(m: Making, reason: KeepReason)
    requires m == SharedBlob()
    ensures KeptWith(m, reason, {}) == 5
  {
    OneMoreTagged({}, m.sizes, TagName(reason, 1, 7), m.sizes);
    assert m.files[..0] == [];
    assert TaggedFor({}, reason, 1, m.files) == {} + {TagName(reason, 1, 7)};
  }

  /** For instance: the room is made by letting go of the very bytes that are to come, and they pass
      the limit. */
  lemma SharedBlobPassesTheLimit(reason: KeepReason)
    ensures Passes(SharedBlob(), reason)
  {
    SharedBlobHappens(SharedBlob());
    SharedBlobComesBack(SharedBlob(), reason);
  }

  lemma SharedBlobIsRead(tags: Tags, sizes: Sizes, blobs: Blobs)
    requires tags == {TagName(Cache, 2, 7)} && sizes == map[7 := 5] && blobs == map[7 := KeptBlob(5, [(Cache, 2)])]
    ensures Reflects(blobs, tags, sizes) && Evictable(blobs, 1) == {2}
    ensures TaggedBytes(tags, sizes) == 5 && TaggedBytes({}, sizes) == 0
  {
    assert BlobsOf(tags) == {7};
    assert Reflects(blobs, tags, sizes);
    assert HasTag(tags, Cache, 2, 7);
    forall item ensures item in Evictable(blobs, 1) <==> item == 2 {
      EvictableIsWhatMayGo(blobs, tags, sizes, 1, item);
    }
    OneMoreTagged({}, sizes, TagName(Cache, 2, 7), sizes);
    assert {} + tags == tags;
  }

  lemma {:induction false} SumOfPart<V>(a: map<nat, V>, b: map<nat, V>, f: (nat, V) -> nat)
    requires a.Keys <= b.Keys && forall k | k in a :: a[k] == b[k]
    ensures Sum(a, f) <= Sum(b, f)
    decreases |b|
  {
    if b != map[] {
      var key := Least(b.Keys);
      assert (b - {key}).Keys == b.Keys - {key};
      if key in a {
        SumWithout(a, f, key);
        SumOfPart(a - {key}, b - {key}, f);
      } else {
        SumOfPart(a, b - {key}, f);
      }
    }
  }

  /** The tags with this reason and item. */
  function KeptFor(tags: Tags, reason: KeepReason, item: ItemId): Tags {
    set t | t in tags && t.reason == reason && t.item == item
  }

  lemma WithoutOne(tags: Tags, item: ItemId)
    ensures Without(tags, {item}) == tags - KeptFor(tags, Cache, item)
  {
  }

  lemma OneMoreReflected(blobs: Blobs, done: Tags, sizes: Sizes, t: TagName)
    requires Reflects(blobs, done, sizes)
    ensures Reflects(Tagged(blobs, t.reason, t.item, t.blob, SizeOf(sizes, t.blob)), done + {t}, sizes)
  {
    var after := Tagged(blobs, t.reason, t.item, t.blob, SizeOf(sizes, t.blob));
    assert BlobsOf(done + {t}) == BlobsOf(done) + {t.blob};
    forall h | h in after ensures EntryFor(done + {t}, h, after[h].tags) {
      if h in blobs {
        assert EntryFor(done, h, blobs[h].tags);
      } else {
        forall reason, item: ItemId ensures !HasTag(done, reason, item, h) {
          assert HasTag(done, reason, item, h) ==> h in BlobsOf(done);
        }
      }
    }
  }

  /** The tags with those in `done` moved to the cache. */
  function PartlyMoved(tags: Tags, done: Tags): Tags {
    (tags - done) + set t | t in done :: t.(reason := Cache)
  }

  /** The tags once `item`'s custody tags are cache tags. */
  function Moved(tags: Tags, item: ItemId): Tags {
    PartlyMoved(tags, KeptFor(tags, Custody, item))
  }

  function OfReasons(tags: Tags, reasons: seq<KeepReason>): Tags {
    set t | t in tags && t.reason in reasons
  }

  lemma AllReasons(tags: Tags, reasons: seq<KeepReason>)
    requires reasons == [Own, Custody, Cache]
    ensures OfReasons(tags, reasons[..|reasons|]) == tags
  {
    assert reasons[..|reasons|] == reasons;
    forall reason: KeepReason ensures reason in reasons {
      assert reason == reasons[0] || reason == reasons[1] || reason == reasons[2];
    }
  }

  /** Whether at each of `states` some tag keeps each of `hashes`, and nothing else. */
  ghost predicate EachKeeps(states: seq<Tags>, hashes: set<ContentHash>) {
    forall i | 0 <= i < |states| :: BlobsOf(states[i]) == hashes
  }

  lemma TwoMoreKeep(states: seq<Tags>, hashes: set<ContentHash>, a: Tags, b: Tags)
    requires EachKeeps(states, hashes) && BlobsOf(a) == hashes == BlobsOf(b)
    ensures EachKeeps(states + [a, b], hashes) && |states + [a, b]| == |states| + 2
  {
  }

  class Storage {
    const limit: Option<Positive>
    var tags: Tags
    var sizes: Sizes
    var times: map<ItemId, nat>
    var held: set<ItemId>

    constructor (limit: Option<Positive>, tags: Tags, sizes: Sizes, times: map<ItemId, nat>, held: set<ItemId>)
      ensures this.limit == limit && this.tags == tags && this.sizes == sizes && this.times == times &&
        this.held == held
    {
      this.limit, this.tags, this.sizes, this.times, this.held := limit, tags, sizes, times, held;
    }

    /** Reads the tags, one kind after another, into a map that `Reflects` them. */
    method ReadKept() returns (kept: KeptBlobs)
      ensures fresh(kept) && Reflects(kept.blobs, tags, sizes)
    {
      kept := new KeptBlobs();
      ghost var done: Tags := {};
      var reasons := [Own, Custody, Cache];
      for n := 0 to |reasons|
        invariant done == OfReasons(tags, reasons[..n])
        invariant fresh(kept) && Reflects(kept.blobs, done, sizes)
      {
        var todo := set t | t in tags && t.reason == reasons[n];
        assert reasons[..n + 1] == reasons[..n] + [reasons[n]];
        AddEach(kept, todo, done);
        done := done + todo;
      }
      AllReasons(tags, reasons);
    }

    method AddEach(kept: KeptBlobs, listed: Tags, ghost before: Tags)
      requires Reflects(kept.blobs, before, sizes)
      modifies kept
      ensures Reflects(kept.blobs, before + listed, sizes)
    {
      var todo := listed;
      while todo != {}
        invariant todo <= listed && Reflects(kept.blobs, before + (listed - todo), sizes)
        decreases |todo|
      {
        var t :| t in todo;
        OneMoreReflected(kept.blobs, before + (listed - todo), sizes, t);
        assert before + (listed - todo) + {t} == before + (listed - (todo - {t}));
        kept.Add(t.reason, t.item, t.blob, SizeOf(sizes, t.blob));
        todo := todo - {t};
      }
      assert listed - todo == listed;
    }

    /** Deletes the item's cache tags one by one, and then its holding. */
    method Evict(item: ItemId)
      modifies this`tags, this`held
      ensures tags == Without(old(tags), {item}) && held == old(held) - {item}
    {
      ghost var before := tags;
      var going := KeptFor(tags, Cache, item);
      var todo := going;
      assert before - (going - todo) == before;
      while todo != {}
        invariant todo <= going && held == old(held) && tags == before - (going - todo)
        decreases |todo|
      {
        var t :| t in todo;
        OneMoreDone(going, todo, t);
        tags, todo := tags - {t}, todo - {t};
      }
      assert going - todo == going;
      WithoutOne(before, item);
      held := held - {item};
    }

    method EvictAll(items: seq<ItemId>)
      modifies this`tags, this`held
      ensures tags == Without(old(tags), Elements(items)) && held == old(held) - Elements(items)
    {
      for n := 0 to |items|
        invariant tags == Without(old(tags), Elements(items[..n])) && held == old(held) - Elements(items[..n])
      {
        Evict(items[n]);
        assert items[..n + 1] == items[..n] + [items[n]];
        assert Elements(items[..n + 1]) == Elements(items[..n]) + {items[n]};
      }
      assert items[..|items|] == items;
    }

    /** Reads, plans and releases: a `Making` that `Happens`, if there is a limit. */
    method EvictFor(item: ItemId, files: Files, whenShort: WhenShort)
        returns (room: Room, ghost blobs: Blobs, ghost order: seq<ItemId>, ghost plan: Evictions)
      modifies this`tags, this`held
      ensures limit.None? ==> room == Made && tags == old(tags) && held == old(held)
      ensures limit.Some? ==> held == old(held) - Gone(plan, whenShort)
      ensures limit.Some? ==>
        Making(limit.value, old(tags), sizes, times, item, files, whenShort, blobs, order, plan, room, tags).Happens()
    {
      blobs, order, plan := map[], [], Evictions([], 0);
      if limit.None? {
        return Made, blobs, order, plan;
      }
      var kept := ReadKept();
      blobs := kept.blobs;
      var planned := kept.Plan(item, UncountedBytes(kept.blobs, files), limit.value, LastUsedIn(times));
      plan := planned;
      order :| Lists(LastUsedIn(times), order, Evictable(blobs, item)) &&
        IsPlan(blobs, order, UncountedBytes(blobs, files), limit.value, plan);
      room := if planned.shortBy == 0 then Made else Short(planned.shortBy);
      if planned.shortBy > 0 && whenShort.EvictNothing? {
        assert Without(tags, {}) == tags;
      } else {
        EvictAll(planned.items);
      }
    }

    method MoveOne(t: TagName, ghost before: Tags, ghost item: ItemId, ghost done: Tags) returns (ghost between: Tags)
      requires done <= KeptFor(before, Custody, item) && t in KeptFor(before, Custody, item) && t !in done
      requires tags == PartlyMoved(before, done) && BlobsOf(tags) == BlobsOf(before)
      modifies this`tags
      ensures tags == PartlyMoved(before, done + {t})
      ensures BlobsOf(between) == BlobsOf(before) && BlobsOf(tags) == BlobsOf(before)
    {
      MovesOne(before, item, done, t);
      tags := tags + {t.(reason := Cache)};
      between := tags;
      tags := tags - {t};
    }

    /** Replaces each custody tag of `item` by a cache tag, in two changes. `states` is what the
        store held after each change: at none of them is a blob left that no tag keeps. */
    method Release(item: ItemId, now: nat) returns (ghost states: seq<Tags>)
      modifies this`tags, this`times
      ensures tags == Moved(old(tags), item) && times == old(times)[item := now]
      ensures BlobsOf(tags) == BlobsOf(old(tags))
      ensures EachKeeps(states, BlobsOf(old(tags)))
      ensures |states| == 2 * |KeptFor(old(tags), Custody, item)|
    {
      states := [];
      ghost var before := tags;
      var moving := KeptFor(tags, Custody, item);
      assert PartlyMoved(before, {}) == before;
      var todo := moving;
      while todo != {}
        invariant todo <= moving && times == old(times)
        invariant tags == PartlyMoved(before, moving - todo)
        invariant BlobsOf(tags) == BlobsOf(before)
        invariant EachKeeps(states, BlobsOf(before))
        invariant |states| + 2 * |todo| == 2 * |moving|
        decreases |todo|
      {
        var t :| t in todo;
        assert moving - todo + {t} == moving - (todo - {t});
        ghost var between := MoveOne(t, before, item, moving - todo);
        TwoMoreKeep(states, BlobsOf(before), between, tags);
        states := states + [between, tags];
        todo := todo - {t};
      }
      assert moving - todo == moving;
      times := times[item := now];
    }
  }

  lemma MovesOne(tags: Tags, item: ItemId, done: Tags, t: TagName)
    requires done <= KeptFor(tags, Custody, item) && t in KeptFor(tags, Custody, item) && t !in done
    requires BlobsOf(PartlyMoved(tags, done)) == BlobsOf(tags)
    ensures var added := PartlyMoved(tags, done) + {t.(reason := Cache)};
      && BlobsOf(added) == BlobsOf(tags)
      && added - {t} == PartlyMoved(tags, done + {t})
      && BlobsOf(added - {t}) == BlobsOf(tags)
  {
    var here := PartlyMoved(tags, done);
    var copy := t.(reason := Cache);
    var added := here + {copy};
    assert t in here;
    assert BlobsOf(added) == BlobsOf(here) + {copy.blob};
    assert copy in added - {t};
    forall h | h in BlobsOf(added) ensures h in BlobsOf(added - {t}) {
      var u :| u in added && u.blob == h;
      assert u == t || u in added - {t};
    }
  }

  /** After `Moved`, exactly the item's custody tags are gone, and each of their blobs has its cache tag. */
  lemma MovedIs(tags: Tags, item: ItemId, reason: KeepReason, i: ItemId, h: ContentHash)
    ensures HasTag(Moved(tags, item), reason, i, h) <==>
      if i == item && reason.Custody? then false
      else HasTag(tags, reason, i, h) || (i == item && reason.Cache? && HasTag(tags, Custody, i, h))
  {
    if i == item && reason.Cache? && HasTag(tags, Custody, i, h) {
      assert TagName(Custody, i, h) in KeptFor(tags, Custody, item);
      assert TagName(Custody, i, h).(reason := Cache) == TagName(Cache, i, h);
    }
  }

  /** After `Moved`, an item with no own tag is among those that may go for another's sake. */
  lemma ReleasedMayGo(tags: Tags, item: ItemId, other: ItemId)
    requires item != other && KeptFor(tags, Custody, item) != {} && KeptFor(tags, Own, item) == {}
    ensures MayGo(Moved(tags, item), other, item)
  {
    var t :| t in KeptFor(tags, Custody, item);
    assert HasTag(Moved(tags, item), Cache, item, t.blob);
    forall h, reason | HasTag(Moved(tags, item), reason, item, h) ensures reason.Cache? {
      if TagName(reason, item, h) in tags {
        assert reason.Own? ==> TagName(reason, item, h) in KeptFor(tags, Own, item);
        assert reason.Custody? ==> TagName(reason, item, h) in KeptFor(tags, Custody, item);
      }
    }
  }
}
