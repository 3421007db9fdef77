# distlib: membership, custody and their small machines, verified

distlib is a library shared by a group of nodes. This project models, in Dafny, the parts of it
whose guarantees are not written on any one line, and proves those guarantees.

* **Who the group is.** A replicated log of signed entries is folded into the membership: members, the
  voting core with its addresses, pledges, the protocol version, and proposals waiting for approvals.
  `Membership.dfy` is the fold on values, `MembershipState.dfy` the same rules in place, field by field.
  What those rules mean is said apart from them: who is who after any log, told from the changes that took
  effect (`MembershipTold`), and what each entry comes to, why it is refused, and what waits afterwards
  (`MembershipRules`). The theorems are about whole logs: what every reachable state satisfies
  (`MembershipInvariants`), who can change the voters (`MembershipQuorum`), what a late approval or a
  replayed entry can do (`MembershipHistory`), and how long a proposal waits (`MembershipDeadline`).
* **Who keeps what.** Weighted rendezvous ranking (`Custody`, `CustodyChoice`; told from the pledges in
  `CustodyTold`), the totals kept up item by item (`CustodyView`), the eviction planner over blobs that
  several tags share (`Keeping`), the storage limit (`Storage`), the pin manager with its fetches in flight
  (`Pins`, `PinManager`), and two machines driven by time (`Settling`, `Emergency`).
* **Smaller pieces.** The rate limiter (`Pacer`), the address directory and the announcements that answer
  one another (`Directory`, `Gossip`), and the keys members write under (`Community`).

How it is laid out: state that the program changes in place is a class; each of its methods is
proved against a function or relation on values, and the theorems are lemmas about those. Things the
program asks the world for (time, who is online, whether a signature verifies, a float score, what a
relay's url reads as) are parameters. Where a claim one would expect is false of the program, the
model keeps the program's behaviour, a lemma shows the failure, and another says exactly when the
claim holds:

* a waiting proposal is not always short of approvals, as the comment at
  `crates/distlib-consensus/src/state.rs:416` says: `ShrinkingCoreLeavesOneDecided` gives the log. A
  proposal comes to wait decided exactly when an entry enacts a change to other voters, among whom those
  that approved it are enough: `DecidedExactlyWhenTipped`, and over whole logs
  `DecidedInTheEndExactlyWhenTipped` and `EveryWaitIsUndecidedExactlyWhenNoneTipped`;
* an entry can be accepted when its log is folded again, if it states a membership from after itself:
  `StatedAfterItselfReplays`; otherwise never: `ReplayedEntryIsRefused`, `ReplayChangesNothing`;
* making room before tagging can pass the storage limit: `SharedBlobPassesTheLimit` is an example,
  `MakingRoomFirstPassesTheLimit` gives limits at which it always does, and
  `PassesSomeLimitExactlyWhenAtRisk` says which stores have such a limit at all. None does where each file
  counted already is held by something that must stay (`RoomHoldsTheLimit`); any other does
  (`UnheldIsARisk`), but for the corner where the file not held is one byte long, nothing else is to come and
  nothing must stay, which the exact condition decides as well;
* an item waiting for room can miss room that came up: `RoomCanBeMissed`; only while its fetch runs:
  `RoomIsMissedOnlyWhileFetching`;
* a fetch that panics forgets that its item was wanted again: `PanicForgetsAWant`; it forgets exactly
  what the pin had noted (`PanicForgetsExactly`), and no other end of a fetch of an item still kept
  forgets anything (`EndForgetsNothing`, `NoChangeIsLost`);
* a failed emergency copy makes its item due at once, from whatever run a copy is under way in:
  `FailedCopyIsDueAtOnce`, `CopyIsReached`; every other item exactly when it has been alone long enough:
  `DueExactlyWhenAloneForDelay`. An item whose copy
  panicked is not made again when it is next alone, as the log line at
  `crates/distlib-custody/src/emergency.rs:148` says, but never: `UnendedCopyIsNeverDue`;
* past 64 bits of nanoseconds the rate limiter lets bytes through early: `TooLongPassesTheRate`; it is
  exact to the nanosecond otherwise: `TimeForIsExactUnlessTooLong`;
* the directory does not converge if a member's statements at its highest log position disagree:
  `OtherwiseTheLastDecides`; it does if they agree: `AnyOrderEndsTheSame`.

## Model

| member | source | states |
|---|---|---|
| MembershipInPlace.MembershipState.Apply | crates/distlib-consensus/src/state.rs:229-291 | Folds one signed entry at its index; on any refusal every field is as it was and the error is the rules' own, otherwise the state is the one the rules give, swept of what the log has left behind |
| MembershipInPlace.MembershipState.Submit | crates/distlib-consensus/src/state.rs:468-504 | Applies a submitted change at once if its proposer's own approval is enough, else records it unless its subject is taken, naming the lowest proposal in the way |
| MembershipInPlace.MembershipState.Approve | crates/distlib-consensus/src/state.rs:509-548 | Judges an approval with its proposal taken out, as the source does, and comes to what the rules say with it in; every refusal puts it back |
| MembershipInPlace.MembershipState.Withdraw | crates/distlib-consensus/src/state.rs:558-566 | Only its proposer takes a waiting proposal back |
| MembershipInPlace.MembershipState.Enact | crates/distlib-consensus/src/state.rs:622-644 | The change, and of those waiting exactly the ones it does not make stale: other subjects, and sets of voters it does not supersede |
| MembershipInPlace.MembershipState.ApplyToFoundedGroup | crates/distlib-consensus/src/state.rs:824-919 | Each kind of change on a founded group, with its refusals, leaving the rest alone |
| MembershipInPlace.MembershipState.Found | crates/distlib-consensus/src/state.rs:779-822 | Founding, with its refusals in order; the members and voters are the founders |
| MembershipInPlace.CheckedIds | crates/distlib-consensus/src/event.rs:286-300 | The scan of neighbours in the sorted list finds a repeat exactly when there is one, and reports the least |
| MembershipInPlace.ApproveIs | crates/distlib-consensus/src/state.rs:509-548 | Taking the proposal out while it is judged changes neither whether the approval is allowed nor whether it decides |
| MembershipTold.EachStandsAsTold | crates/distlib-consensus/src/state.rs:779-919 | Over every log, who is a member, under what name, with what pledge and protocol, who votes and at what address, and the group, its settings and its protocol, are what the changes that took effect tell, read from the last of them: admitted and not expelled since, the pledge last made since, the address in the last set of voters |
| MembershipRules.EachEntryComesTo | crates/distlib-consensus/src/state.rs:229-566 | An entry founds, enacts, is recorded, is noted or takes back exactly when: it is really signed against the last change by a member (a founder), its author may ask for that, the voters for it are more than half where voters or the protocol would change and one or none else, nothing in force is about the same matter, and it can be done; and is refused exactly when none of these is so |
| MembershipRules.EachWaitsExactlyWhen | crates/distlib-consensus/src/state.rs:622-644 | After each accepted entry exactly these wait: what it recorded, and what waited short of its deadline and was neither taken back, nor completed, nor about the matter just enacted, nor, a set of voters, naming one that has just moved elsewhere; with the approvals they had, and the one just noted |
| MembershipRules.EachMatterWaitsOnce | crates/distlib-consensus/src/state.rs:163-182 | Over every log no two waiting proposals are about the same member's place, about who votes, or about the protocol |
| MembershipRules.EachRefusalIsSo | crates/distlib-consensus/src/state.rs:229-604 | Whatever an entry is refused for is so: of its signature, its author, the proposal it names, the limits and the members the refusal names; and signature, staleness, founding and membership are complained of in this order |
| MembershipInvariants.StepDoes | crates/distlib-consensus/src/state.rs:229-291 | Every entry changes nothing, or does exactly one of: found, record, note an approval, take back, enact; with what each demands of the state |
| MembershipInvariants.ApprovalEnacts | crates/distlib-consensus/src/state.rs:509-548 | An approval that is allowed and decides a valid change enacts it |
| MembershipInvariants.VoterExpelledFromThreeOrMore | crates/distlib-consensus/src/state.rs:378-434 | In any sound state, an entry that expels a voter finds three voters or more: the expelled one's approval is never among those that decide |
| MembershipInvariants.EveryVoterExpelledFromThreeOrMore | crates/distlib-consensus/src/state.rs:378-434 | So along every log from the empty state |
| MembershipInvariants.EveryRunIsSound | crates/distlib-consensus/src/state.rs:229-291 | Over every log: the core of a founded group is never empty and consists of members, each speaks the group's protocol, a waiting raise is to the next version, every pledge is zero or at least the minimum, and nobody approves their own expulsion |
| MembershipInvariants.EveryRunKeepsOneSlotEach | crates/distlib-consensus/src/state.rs:478-504 | Over every log, no two waiting proposals have the same subject |
| MembershipInvariants.EveryLogIsSound | crates/distlib-consensus/src/state.rs:213-215 | Both, from the empty state |
| MembershipInvariants.StandingChangesByOnesOwnHand | crates/distlib-consensus/src/state.rs:311-347 | A member's pledge and the protocol it speaks change only by an entry it signed itself, and never to less than the minimum, or than the group's protocol |
| MembershipInvariants.EnactedIsStillAuthorised | crates/distlib-consensus/src/state.rs:586-604 | Whoever proposed what is enacted is still a member, and of a change of voters still a voter; a raise is by one, to what every voter speaks |
| MembershipQuorum.EveryApprovalIsSigned | crates/distlib-consensus/src/state.rs:509-548 | Over every log, each waiting proposal was made by a signed entry in it, and each of its approvals was signed there |
| MembershipQuorum.ChangesNeedAMajority | crates/distlib-consensus/src/state.rs:378-452 | An entry that changes who votes, or the protocol, enacts a change that a majority of the voters as they stood approved |
| MembershipQuorum.EveryVoterChangeIsSignedByAMajority | crates/distlib-consensus/src/state.rs:378-452 | Over every log, whenever the voters or the protocol change the log holds the signed proposal for that very change and a majority's signatures on it |
| MembershipQuorum.MinorityChangesNoVoters | crates/distlib-consensus/src/state.rs:378-452 | Entries signed only by a coalition short of a majority never change the voters or the protocol, however many |
| MembershipQuorum.OutsidersChangeNobody | crates/distlib-consensus/src/state.rs:311-347 | A coalition with no core member never admits, expels, renames or moves anyone |
| MembershipQuorum.MajorityChangesTheVoters | crates/distlib-consensus/src/state.rs:378-452 | The bound is tight: a majority of distinct voters, each signing one entry, installs any valid set of voters |
| MembershipHistory.SurvivingIsCurrent | crates/distlib-consensus/src/state.rs:197-209 | A waiting set of voters that a change does not supersede still reverts nothing after it |
| MembershipHistory.EveryWaitingCoreIsCurrent | crates/distlib-consensus/src/state.rs:622-642 | Over every log, each member that a waiting set of voters names is where it was when that was proposed, or already where it is asked to be |
| MembershipHistory.LateApprovalRevertsNothing | crates/distlib-consensus/src/state.rs:622-642 | Completing a set of voters, however late, leaves every member that moved since the entry that proposed that very set where it moved to, or drops it |
| MembershipHistory.ChangedAtNamesTheState | crates/distlib-consensus/src/state.rs:229-291 | Along a log in order, `changed_at` never goes back and names the state: equal values, equal states |
| MembershipHistory.SignedAgainstOnce | crates/distlib-consensus/src/state.rs:229-291 | Of the entries signed against one `changed_at`, one at most is accepted; so no entry twice |
| MembershipHistory.ReplayedIsStatedAfterItself | crates/distlib-consensus/src/node.rs:1431-1434 | An entry of a log in order that the log's final state accepts states a membership from after its own index |
| MembershipHistory.ReplayedEntryIsRefused | crates/distlib-consensus/src/node.rs:1431-1434 | So an entry of the log that does not is refused when it is folded again |
| MembershipHistory.ReplayChangesNothing | crates/distlib-consensus/src/node.rs:1431-1434 | Folding any of a log's entries again, in any order and number, is refused entry by entry and changes nothing, if none of those folded again states a membership from after itself |
| MembershipHistory.StatedAfterItselfReplays | crates/distlib-consensus/src/state.rs:229-291 | Without that condition an entry refused at first is accepted when folded again |
| MembershipDeadline.WaitsUntilItsDeadline | crates/distlib-consensus/src/state.rs:574-595 | Whatever entries come between, refused or not, a proposal that none of them enacts, takes back or supersedes still waits with every approval it had before the entry at its deadline |
| MembershipDeadline.DeadlineIsExact | crates/distlib-consensus/src/state.rs:574-595 | An approval is refused as expired exactly past the deadline, and past it the proposal is in nobody's way |
| MembershipDeadline.ClearedAtItsDeadline | crates/distlib-consensus/src/state.rs:282-290 | An accepted entry at or past the deadline clears the proposal |
| MembershipDeadline.DecidedExactlyWhenTipped | crates/distlib-consensus/src/state.rs:416-423 | Whatever else waits, an entry leaves waiting decided what did not before exactly when that waited, the entry enacts a change to other voters that it outlasts, and its approvals by those voters reach their threshold |
| MembershipDeadline.UndecidedExactlyWhenNoneTipped | crates/distlib-consensus/src/state.rs:416-423 | So everything stays short of its approvals exactly when an entry tips none of it |
| MembershipDeadline.EveryWaitIsUndecidedExactlyWhenNoneTipped | crates/distlib-consensus/src/state.rs:416-423 | The same at every point of every log from the empty state |
| MembershipDeadline.DecidedInTheEndExactlyWhenTipped | crates/distlib-consensus/src/state.rs:416-423 | Over every log, a proposal waits decided in the end exactly when one of the entries tipped it and it has waited decided since |
| MembershipDeadline.BeforeDemotionIsOrdinary | crates/distlib-consensus/src/state.rs:527-531 | A founding and two proposals lead from the empty state to the state of the example below, which is sound, with one slot each and everything in it undecided |
| MembershipDeadline.ShrinkingCoreLeavesOneDecided | crates/distlib-consensus/src/state.rs:527-531 | A log of four entries after which a proposal waits with all the approvals it needs, a voter having been demoted |
| Custody.WeightRule.Weight | crates/distlib-core/src/custody.rs:33-42 | Nothing below the minimum, else the most whole steps that fit in the pledge and the cap |
| Custody.HighestFirstSorts | crates/distlib-core/src/custody.rs:265-271 | Sorting by score, ties to the lower id, gives a strict order of the same candidates |
| Custody.SortedIsUnique | crates/distlib-core/src/custody.rs:265-271 | There is one ranking of a set of candidates |
| Custody.IsCustodianAgrees | crates/distlib-core/src/custody.rs:122-136 | The test that counts who ranks above a member and stops early agrees with the full ranking |
| Custody.CustodyOfIsInOrder | crates/distlib-core/src/custody.rs:139-148 | A node's custody is, in the order given, the items whose custodians it is among |
| Custody.CustodiansByPlace | crates/distlib-core/src/custody.rs:101-114 | The custodians are those at the first `slots` places of the ranking |
| CustodyTold.CustodianExactlyWhen | crates/distlib-core/src/custody.rs:101-114 | A member is a custodian exactly when its pledge weighs something, it is no creator, and fewer such members than copies are wanted score higher, or as high with a lower id: told from the pledges the group is made of |
| CustodyTold.CustodiansInOrder | crates/distlib-core/src/custody.rs:101-114 | Each custodian scores higher than those named after it, or as high with a lower id |
| CustodyTold.HowManyCustodians | crates/distlib-core/src/custody.rs:192-199 | As many as copies are wanted, the replicas less one if some creator pledged, or as many as can be |
| CustodyTold.WeighedHas | crates/distlib-core/src/custody.rs:80-85 | Ranked are exactly the members whose pledge weighs something, with that weight |
| CustodyTold.DemandIsWhatItTakes | crates/distlib-core/src/custody.rs:171-175 | The demand of an item is its size for each copy wanted, and with enough members to rank its size for each of its custodians, or the largest 64-bit number if that is more |
| CustodyChoice.New | crates/distlib-core/src/custody.rs:74-94 | Sorting and deduplicating gives every member once, in order, with a pledge it made, and ranks exactly those with a weight |
| CustodyChoice.Custodians | crates/distlib-core/src/custody.rs:101-114 | Selecting, truncating and sorting only the top gives the top of the whole ranking |
| CustodyChoice.FirstAfterCustodians | crates/distlib-core/src/custody.rs:154-169 | Returns the first eligible one past the slots in the ranking, and none exactly when there is none |
| CustodyChoice.FirstAfterIsBest | crates/distlib-core/src/custody.rs:154-169 | That one is no custodian, and ranks above every other eligible candidate that is none |
| CustodyChoice.AfterIsTheGroupOfTheOthers | crates/distlib-core/src/custody.rs:74-94 | Taking a member out of the group that `New` makes gives the group that `New` makes of what the others pledge, each of whom pledges one thing |
| CustodyChoice.RankingAfter | crates/distlib-core/src/custody.rs:202-210 | A departure takes one name out of each ranking and reorders nothing |
| CustodyChoice.SlotsAfter | crates/distlib-core/src/custody.rs:192-199 | It adds a slot exactly when the only creator present leaves |
| CustodyChoice.UninvolvedDisturbsNothing | crates/distlib-core/src/custody.rs:101-114 | The departure of one that was no custodian and not the only creator present leaves the custodians as they were |
| CustodyChoice.CustodianIsReplacedByNext | crates/distlib-core/src/custody.rs:101-114 | When a custodian leaves, the others stay in order and at most the next in rank joins |
| CustodyChoice.CreatorIsMadeUpForByNext | crates/distlib-core/src/custody.rs:101-114 | When the only creator present leaves, all custodians stay and at most the next in rank joins |
| CustodyViews.CustodyView.Compute | crates/distlib-custody/src/view.rs:50-65 | The whole pass; its totals are, told from the items: how many have this node as custodian, their sizes, and each one's size for each copy wanted |
| CustodyViews.CustodyView.Update | crates/distlib-custody/src/view.rs:69-82 | One item changed; the totals go on being those told from the versions, and an item is dated anew only if what it takes changed |
| CustodyViews.CustodyView.Insert | crates/distlib-custody/src/view.rs:120-131 | Replaces an item's part and keeps the totals |
| CustodyViews.CustodyView.RemoveFromTotals | crates/distlib-custody/src/view.rs:141-147 | Takes a part out of totals it is in; none goes below zero |
| CustodyViews.TotalsAddUp | crates/distlib-custody/src/view.rs:112-147 | The totals of a view that reflects some versions are, told from those: how many have this node as custodian, the sum of their sizes, and the sum of what keeping each takes |
| CustodyViews.EachIsDatedFromItsLastChange | crates/distlib-custody/src/view.rs:69-82 | After a pass and any updates each item is dated from the first report since which its size and what keeping it takes are what they are |
| CustodyViews.IncrementalEqualsRecomputed | crates/distlib-custody/src/view.rs:50-82 | After a pass and any updates, flags, sizes, demand and totals are those of a pass over each item's last version |
| Keeping.KeptBlobs.Add | crates/distlib-core/src/keeping.rs:101-110 | Adds one tag; the size first recorded stands |
| Keeping.KeptBlobs.Usage | crates/distlib-core/src/keeping.rs:114-126 | Each blob counted once, under its strongest reason; in all, every byte some tag keeps |
| Keeping.KeptBlobs.Plan | crates/distlib-core/src/keeping.rs:162-213 | The plan is the shortest sufficient prefix of the items that may go, least recently used first, never the item room is made for nor one kept as own or custody; the missing bytes are those really left over |
| Keeping.LeastRecentlyUsedGo | crates/distlib-core/src/keeping.rs:180-185 | What a plan lets go of was last used before whatever may go and stays, or goes later: never where the other was, or earlier, or at the same time with the lower id |
| Keeping.NoFewerWouldDo | crates/distlib-core/src/keeping.rs:196-213 | With fewer of its items gone there is not room yet; if there is not with all, all that may go are in it; what is missing is what is kept and needed less the limit |
| Keeping.UsageIsByTheStrongest | crates/distlib-core/src/keeping.rs:85-126 | The figure for own is the bytes of the blobs with an own tag, for custody of those with a custody tag and no own one, for the cache of those with cache tags alone |
| Keeping.FirstSizeStands | crates/distlib-core/src/keeping.rs:101-110 | After any additions each blob has the size its first addition gave and a tag for each, in order |
| Keeping.LetGo | crates/distlib-core/src/keeping.rs:198-206 | The running total falls by a shared blob's bytes exactly when its last tag goes, and no count or total underflows |
| Keeping.DroppingMoreKeepsLess | crates/distlib-core/src/keeping.rs:162-213 | Letting more items go never keeps more bytes |
| Keeping.ShortExactlyWhenNothingHelps | crates/distlib-core/src/keeping.rs:162-213 | Bytes are missing exactly when no set of the items that may go would make room |
| Keeping.OnePlan | crates/distlib-core/src/keeping.rs:180-213 | The order by last use and id is the only one, and with it the plan |
| Keeping.GrowthIsExact | crates/distlib-core/src/keeping.rs:131-143 | The growth foretold is what keeping those files as own adds to what stays when space is short |
| StorageLimit.Storage.ReadKept | crates/distlib-net/src/blobs.rs:186-200 | What is read is, for each tagged blob, its size and exactly its tags |
| StorageLimit.Storage.Evict | crates/distlib-custody/src/storage.rs:129-136 | Exactly the item's cache tags go, and it is no longer held |
| StorageLimit.Storage.EvictFor | crates/distlib-custody/src/storage.rs:101-126 | Plans against the limit with what is not counted yet and releases the planned items, or nothing when short and asked to; no limit, no change |
| StorageLimit.Storage.Release | crates/distlib-custody/src/pins.rs:686-693 | Custody tags become cache tags, and after each single change every blob is still kept by some tag |
| StorageLimit.CountsWhatIsTagged | crates/distlib-core/src/keeping.rs:162-213 | What the planner counts after letting items go is what the store's remaining tags keep |
| StorageLimit.EvictableIsWhatMayGo | crates/distlib-core/src/keeping.rs:169-185 | The items that may go are those with cache tags and no other kind |
| StorageLimit.OnlyTheCacheGoes | crates/distlib-custody/src/storage.rs:77-81 | Making room releases no own or custody tag, and none of the item it is made for |
| StorageLimit.LeastRecentlyUsedGoFirst | crates/distlib-custody/src/storage.rs:112-114 | What goes was, by the recorded times, never used where the rest was, or used earlier, or at the same time with the lower id |
| StorageLimit.RoomIsWhatItSays | crates/distlib-custody/src/storage.rs:101-126 | Room made means what is kept and still to come fit; short by some bytes means exactly that many too many, and that no eviction would have helped; short and told to evict nothing releases nothing |
| StorageLimit.RoomHoldsTheLimit | crates/distlib-custody/src/storage.rs:101-126 | If each file counted before is held by something that must stay, then at whatever limit room is made, the limit holds once the files are tagged and here in full |
| StorageLimit.TaggingFirstHoldsTheLimit | crates/distlib-custody/src/pins.rs:621-629 | So for callers that tag first: the limit holds and none of the files loses its tag |
| StorageLimit.MakingRoomFirstPassesTheLimit | crates/distlib-api/src/methods.rs:1243-1245 | At every limit that what must stay and what is to come fit under, and the files held by nothing that must stay besides do not, room is made, and tagging the files afterwards passes it |
| StorageLimit.PassesSomeLimitExactlyWhenAtRisk | crates/distlib-custody/src/storage.rs:101-126 | There is a limit, of one byte or more, that making room first passes, exactly when letting the cache go in its order at some point frees one of the files and leaves more than one byte to be kept with them |
| StorageLimit.UnheldIsARisk | crates/distlib-custody/src/storage.rs:101-126 | That is so of every store in which some file counted is held by nothing that must stay, unless what stays, what is to come and what is not held are one byte in all |
| StorageLimit.SharedBlobPassesTheLimit | crates/distlib-api/src/methods.rs:1243-1245 | A store of five bytes that passes its limit of one |
| StorageLimit.ReleasedMayGo | crates/distlib-custody/src/pins.rs:508-518 | An item let go of into the cache, and not this node's own, is room that can be evicted |
| StorageLimit.MovedIs | crates/distlib-custody/src/pins.rs:686-693 | After the move exactly the item's custody tags are gone, each of their blobs has its cache tag, and every other tag stands |
| Pins.EveryRunIsSound | crates/distlib-custody/src/pins.rs:310-518 | Over every interleaving: pins being fetched and fetches in flight correspond one to one, and each pin is what its item's history makes it |
| Pins.EveryRunIsBounded | crates/distlib-custody/src/pins.rs:361-380 | Never more than `max_fetches` at once, and queued turns are distinct |
| Pins.LeavesOnlyWhenSafe | crates/distlib-custody/src/pins.rs:487-506 | Over every run, an item leaves the pins only when it is lost while not being fetched, or found lost when its fetch ends, and this node is not behind the group, holds nothing of it that not enough others hold, and letting go succeeds |
| Pins.LetGoExactlyWhenSafe | crates/distlib-custody/src/pins.rs:487-506 | In either case it leaves exactly then, and otherwise stays, to be looked at again |
| Pins.NothingElseMoves | crates/distlib-custody/src/pins.rs:310-518 | The pin of an item changes only by its own want, loss, start, end or panic, by a change of availability if it failed or is being fetched, or by another being let go of if it waits for room, and to just that; a queued one keeps its turn until it is fetched or lost |
| Pins.EachStepIsNoted | crates/distlib-custody/src/pins.rs:310-518 | The history the other theorems speak of notes who was wanted, started, ended how and let go of, as it happened |
| Pins.NoChangeIsLost | crates/distlib-custody/src/pins.rs:399-444 | An item kept or waiting for room was so made by a fetch that started after it was last wanted; one failed has heard of no availability change since its fetch started; a panic is the one exception |
| Pins.RoomIsMissedOnlyWhileFetching | crates/distlib-custody/src/pins.rs:510-518 | An item waiting for room has missed a release since its fetch began exactly when that came before the fetch ended |
| Pins.RoomCanBeMissed | crates/distlib-custody/src/pins.rs:422-428 | A run in which it does |
| Pins.PanicForgetsAWant | crates/distlib-custody/src/pins.rs:446-455 | A run in which a panic leaves an item failed that was wanted again |
| Pins.PanicForgetsExactly | crates/distlib-custody/src/pins.rs:446-455 | After a panic the item it fetched is failed, and was wanted, or availability had changed, since the fetch started exactly when its pin said so |
| Pins.EndForgetsNothing | crates/distlib-custody/src/pins.rs:399-444 | After any other end of a fetch of an item still kept, it is queued exactly when it was wanted since the fetch started, or the fetch failed and availability had changed; else it is as the outcome says |
| PinManagers.PinManager.Want | crates/distlib-custody/src/pins.rs:340-343 | Queued behind all others, unless queued already or being fetched, which is then fetched again |
| PinManagers.PinManager.Lose | crates/distlib-custody/src/pins.rs:354-359 | Let go of if safe; one being fetched is decided when that ends |
| PinManagers.PinManager.ReleaseIfSafe | crates/distlib-custody/src/pins.rs:487-506 | Held back while behind the group or short of copies elsewhere or on failure; otherwise gone, with everything that waits for room queued again |
| PinManagers.PinManager.AskAgainForRoom | crates/distlib-custody/src/pins.rs:510-518 | Exactly the items waiting for room are queued, each with a turn of its own |
| PinManagers.PinManager.Fetched | crates/distlib-custody/src/pins.rs:399-444 | How a fetch's end, with what happened meanwhile, settles its pin |
| PinManagers.PinManager.FetchPanicked | crates/distlib-custody/src/pins.rs:446-455 | The pin fetched by that task, and no other, fails |
| PinManagers.PinManager.AvailabilityChanged | crates/distlib-custody/src/pins.rs:459-479 | What failed is queued again, what is being fetched remembers, and each pin being released, and no other, is looked at once more; a run of steps |
| PinManagers.PinManager.ReadCustodyAgain | crates/distlib-custody/src/pins.rs:310-336 | Wants exactly those of this node's items that are unknown, on their way out, or said to be kept and not here, then loses exactly the pins of no such item, once each; afterwards each item of this node's is looked after and any other is on its way out or being fetched |
| PinManagers.PinManager.NextToFetch | crates/distlib-custody/src/pins.rs:545-562 | As many queued items as there is room for, and none passed over for one with more copies, or as many and a later turn |
| PinManagers.FewestCopiesFirst | crates/distlib-custody/src/pins.rs:545-562 | Those picked are queued, as many as asked for or all; none has more copies than one passed over, or as many and a later turn |
| PinManagers.PinManager.StartFetches | crates/distlib-custody/src/pins.rs:361-380 | Exactly those are fetched, in the free slots |
| PinManagers.StartedIsARun | crates/distlib-custody/src/pins.rs:361-380 | Each of them has a slot when it starts |
| PinManagers.NoneIsLeftIdle | crates/distlib-custody/src/pins.rs:361-380 | Afterwards as many run as may, or nothing is left queued |
| SettlingDown.Settling.Change | crates/distlib-custody/src/settling.rs:42-61 | The same value changes nothing, a new one restarts the wait but not the limit, the adopted one ends it |
| SettlingDown.Settling.Deadline | crates/distlib-custody/src/settling.rs:64-68 | The first time at which settling would adopt, and none exactly when no time would |
| SettlingDown.Settling.Settle | crates/distlib-custody/src/settling.rs:71-77 | Adopts and returns the value waiting from its deadline on |
| SettlingDown.WaitsForWhatIsReported | crates/distlib-custody/src/settling.rs:42-77 | Over every run of calls, the value last reported is the one waiting, if any, else the adopted one, and the times on record are since when it is the same and since when values are away |
| SettlingDown.AdoptedExactlyWhenDue | crates/distlib-custody/src/settling.rs:64-77 | Settling adopts exactly when the value has been the same for `settle`, or values away for `max_settle` |
| SettlingDown.NeverAwayTooLong | crates/distlib-custody/src/settling.rs:64-77 | After a call to settle nothing has been away for `max_settle` |
| Emergency.AloneItems.Update | crates/distlib-custody/src/emergency.rs:48-77 | Keeps the record what the calls so far make it, and returns exactly the items alone now, not in copy, that are ripe or were left by a failed copy |
| Emergency.AloneItems.NextDue | crates/distlib-custody/src/emergency.rs:80-88 | The first time at which an item on record would become due |
| Emergency.AloneItems.Copied | crates/distlib-custody/src/emergency.rs:95-101 | Ends the copy of that item and of no other: after a success it is as if never seen alone, after a failure it counts as attempted, which the next update that finds it alone returns |
| Emergency.UnendedCopyIsNeverDue | crates/distlib-custody/src/emergency.rs:144-150 | From a copy under way, without word of its end, the item stays in copy through any further calls and is never due |
| Emergency.EachStandsAsTold | crates/distlib-custody/src/emergency.rs:48-101 | Over every run of calls each item stands as the calls read backwards tell |
| Emergency.DueExactlyWhen | crates/distlib-custody/src/emergency.rs:48-77 | An update returns only items alone now, never one being copied, and exactly the ripe ones and those a failed copy left |
| Emergency.DueExactlyWhenAloneForDelay | crates/distlib-custody/src/emergency.rs:48-77 | With one delay, an item no copy was attempted of is due exactly when alone at every update since one at least that long ago |
| Emergency.FailedCopyIsDueAtOnce | crates/distlib-custody/src/emergency.rs:95-101 | From any run of calls the program makes with a copy under way: a second copy found, then that copy failed, and the item is due at the next update that finds it alone, having been alone for no time |
| Emergency.CopyIsReached | crates/distlib-custody/src/emergency.rs:166-193 | Any item comes to be copied by calls the program makes: found alone, and found so again when it has been for long enough |
| Pacer.BytePacer.Pace | crates/distlib-net/src/pacer.rs:50-62 | Keeps the time caught up with at what all calls so far come to; without a limit, nothing |
| Pacer.CaughtUpIsTheLatest | crates/distlib-net/src/pacer.rs:50-62 | That time is the latest of the start plus all costs and each call's earliest plus the costs from it on, at any times and rates |
| Pacer.BurstGoesOutAtOnce | crates/distlib-net/src/pacer.rs:50-62 | After a pause of a tenth of a second, what takes no longer goes out at once |
| Pacer.TimeForIsExactUnlessTooLong | crates/distlib-net/src/pacer.rs:70-73 | Never too long, and exact to the nanosecond below exactly when it fits 64 bits |
| Pacer.WindowIsWithinTheRate | crates/distlib-net/src/pacer.rs:50-73 | In every window the bytes are at most the rate times its length and the burst, and a nanosecond's worth a call |
| Pacer.TooLongPassesTheRate | crates/distlib-net/src/pacer.rs:70-73 | A call past 64 bits of nanoseconds for which they are more |
| Directories.Directory.Learn | crates/distlib-net/src/directory.rs:132-204 | Unverified, empty, unreadable or older statements change nothing; a restatement advances the position without being news; anything else replaces the address and counts |
| Directories.UsableExactlyWhen | crates/distlib-net/src/directory.rs:132-160 | What can be used is signed, not empty, and names no relay or one that reads; its member is dialled at just that |
| Directories.NewsExactlyWhenAnotherAnswer | crates/distlib-net/src/directory.rs:162-204 | It is news exactly when the lookup answers another address, only for its member, and an error exactly when it does not verify |
| Directories.CounterCountsNewAnswers | crates/distlib-net/src/directory.rs:196-204 | The counter is how often the lookup came to answer anew, in 64 bits |
| Directories.LatestIsHeld | crates/distlib-net/src/directory.rs:132-204 | Over everything heard, what is held for a member is the last usable statement at its highest position, and the lookup answers its address |
| Directories.PositionNeverGoesBack | crates/distlib-net/src/directory.rs:162-167 | The position held never decreases |
| Directories.AnyOrderEndsTheSame | crates/distlib-net/src/directory.rs:132-204 | The same statements in any order with any repeats end with the same answer, where those at the highest position agree |
| Directories.OtherwiseTheLastDecides | crates/distlib-net/src/directory.rs:162-167 | Any statement at the highest position, said once more, becomes the answer |
| Gossip.EveryRunIsSound | crates/distlib-consensus/src/gossip.rs:198-251 | Over every run of announcements, arrivals and answers, a node's lookup is where members are, and it has had news once for each |
| Gossip.NewsOnce | crates/distlib-consensus/src/gossip.rs:365-383 | A member a node has heard of is never news to it again |
| Gossip.CascadeEnds | crates/distlib-consensus/src/gossip.rs:179-185 | With n nodes that do not move, at most n times n statements are ever news, and no more announcements answer them |
| Community.RoundTrip | crates/distlib-core/src/community.rs:75-131 | What is written reads back as the same key |
| Community.ReadsExactlyWhatIsWritten | crates/distlib-core/src/community.rs:92-131 | A text reads as a key exactly when it is that key written and the members it names read as written |
| Community.WrittenAs | crates/distlib-core/src/community.rs:75-90 | A key is the word for its kind, what it is about, whose it is, and for a bookmark which, with slashes between |
| Community.HexIs | crates/distlib-core/src/community.rs:75-90 | Two lower-case digits a byte, the high one first |
| Community.OneSpelling | crates/distlib-core/src/community.rs:92-131 | Two texts that read as one key are the same text, the one written |
| Community.PrefixFree | crates/distlib-core/src/community.rs:10-12 | No key of any kind is a proper prefix of another |
| Community.PrefixFindsExactly | crates/distlib-core/src/community.rs:146-173 | Reading by a kind and an id finds the keys of that kind about that id and no others |
| Community.CapitalsWouldReadToo | crates/distlib-core/src/community.rs:92-131 | Without the check that a key encodes back to itself, capitals would be a second spelling |

## Left out

- Consensus, storage engines and transport: openraft, redb, the Raft and memberlog network code, iroh's endpoints, blobs and gossip are libraries or I/O around this logic.
- Cryptography and encodings: that a signature verifies is a flag on the entry, hashes and ids are numbers, postcard and JSON are not modelled.
- Floating point: a score is any function into the integers, ordered as a float's total order is; `load_factor` and the score's formula are not modelled, nor is rayon's parallel filter, which is sequential here.
- Integer widths: indices, byte counts, turns, task numbers and times are unbounded, except where the width is the point (the pacer's nanoseconds, the directory's change counter); adding to an `Instant` does not overflow.
- Names and texts in membership events: the length limits of `within_limits` are checked where an event is made and not modelled; settings that the fold does not read are reduced to those that custody does.
- Errors of the blob store and the database, which make `evict_for`, `keep` and `release` stop half-way, are only modelled where the pin manager decides by them (a release that fails, a fetch that ends in an error or a panic).
- CustodyChoice.New: of one member's several different pledges, which one stays is not stated; the sort it depends on is unstable in the source. Where they agree, that one stays.
- Accessors (`pending`, `expires_after`, `allowlist`, `members` and the like): they only read.
- StorageLimit.Storage.EvictFor: reads, plans and releases in one step. In the source only others making room are locked out meanwhile, so tags and sizes can change between the read and the releases; what is proved is about the tags as read.
- The API, uploads, downloads, search, web UI, configuration, tickets, probes, coverage and suspects: request plumbing, or filters and sorts with easy properties.
- How a member's id is read other than as it is written (base32, and whether the bytes are a point on the curve) is any function that reads what is written.
- Whether the emergency copy is this node's to make, which depends on who is online, beyond the choice of the first after the custodians.
