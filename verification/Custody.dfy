/** Who keeps which item (crates/distlib-core/src/custody.rs): the members ranked highest for it.
    A score is any function of the item, the member and its weight; as with a float's total order,
    only how scores compare matters. */
module Custody {
  import opened Common

  ghost predicate WholeSteps(weight: nat, step: nat) {
    exists n: nat :: weight == n * step
  }

  lemma StepsThatFit(bytes: nat, step: nat)
    requires 0 < step
    ensures bytes % step < step && bytes % step <= bytes && WholeSteps(bytes - bytes % step, step)
  {
    var n := bytes / step;
    assert bytes == n * step + bytes % step;
  }

  datatype WeightRule = WeightRule(capBytes: nat, stepBytes: nat, minBytes: nat) {
    /** The weight of a pledge: nothing below the minimum, else the most whole steps that fit in both
        the pledge and the cap. */
    function Weight(pledgeBytes: nat): (weight: nat)
      ensures pledgeBytes < minBytes ==> weight == 0
      ensures weight <= pledgeBytes && weight <= capBytes
      ensures minBytes <= pledgeBytes && stepBytes == 0 ==> weight == pledgeBytes || weight == capBytes
      ensures minBytes <= pledgeBytes && 0 < stepBytes ==>
        WholeSteps(weight, stepBytes) && (pledgeBytes < weight + stepBytes || capBytes < weight + stepBytes)
    {
      if pledgeBytes < minBytes then 0
      else
        var capped := if pledgeBytes < capBytes then pledgeBytes else capBytes;
        if stepBytes == 0 then capped
        else
          StepsThatFit(capped, stepBytes);
          capped - capped % stepBytes
    }
  }

  datatype CustodyItem = CustodyItem(item: ItemId, creators: seq<MemberId>, sizeBytes: nat)

  /** One candidate's entry in a ranking. */
  datatype Ranked = Ranked(score: int, member: MemberId)

  /** Whether `a` ranks before `b`: a higher score first, and of equal scores the lower id. */
  predicate Above(a: Ranked, b: Ranked) {
    a.score > b.score || (a.score == b.score && a.member < b.member)
  }

  type Score = (ItemId, MemberId, nat) -> int

  ghost predicate StrictlyById(pledges: seq<(MemberId, nat)>) {
    forall i, j | 0 <= i < j < |pledges| :: pledges[i].0 < pledges[j].0
  }

  predicate Holds(pledges: seq<(MemberId, nat)>, member: MemberId) {
    exists i | 0 <= i < |pledges| :: pledges[i].0 == member
  }

  /** The members custody is shared among, and those of them with a weight: both sorted by id. */
  datatype CustodyGroup = CustodyGroup(replicas: nat, score: Score, members: seq<(MemberId, nat)>,
      weighted: seq<(MemberId, nat)>)
  {
    ghost predicate WellFormed() {
      StrictlyById(members) && StrictlyById(weighted)
    }

    /** The length of the part of a ranking that counts: `replicas`, less one if some creator is in
        `members`. */
    function Slots(item: CustodyItem): nat {
      var createdHere := exists c | c in item.creators :: Holds(members, c);
      SaturatingSub(replicas, if createdHere then 1 else 0)
    }

    function RankOf(item: CustodyItem, member: (MemberId, nat)): Ranked {
      Ranked(score(item.item, member.0, member.1), member.0)
    }

    /** The entries to rank: one for each of `weighted` whose id is not in `creators`, in the order
        of ids. */
    function Candidates(item: CustodyItem): seq<Ranked> {
      CandidatesOf(weighted, item)
    }

    function CandidatesOf(from: seq<(MemberId, nat)>, item: CustodyItem): seq<Ranked> {
      if from == [] then []
      else if from[0].0 in item.creators then CandidatesOf(from[1..], item)
      else [RankOf(item, from[0])] + CandidatesOf(from[1..], item)
    }

    /** The same entries in the order `Above`. */
    function Ranking(item: CustodyItem): seq<Ranked> {
      HighestFirst(Candidates(item))
    }

    /** The custodians of `item`: the top of the ranking, as many as there are slots. */
    function CustodiansOf(item: CustodyItem): seq<MemberId> {
      Members(Top(Ranking(item), Slots(item)))
    }

    function WeightOf(member: MemberId): Option<nat> {
      WeightIn(weighted, member)
    }

    /** Whether `me` is a custodian of `item`, looking at no more candidates than it takes to find
        as many above `me` as there are slots. */
    function IsCustodian(item: CustodyItem, me: MemberId): bool {
      var weight := WeightOf(me);
      if weight.None? || Slots(item) == 0 || me in item.creators then false
      else
        var mine := RankOf(item, (me, weight.value));
        !Outranked(Candidates(item), mine, Slots(item))
    }

    function CustodyOf(me: MemberId, items: seq<CustodyItem>): seq<ItemId> {
      if WeightOf(me).None? then [] else Kept(me, items)
    }

    function Kept(me: MemberId, items: seq<CustodyItem>): seq<ItemId> {
      if items == [] then []
      else (if IsCustodian(items[0], me) then [items[0].item] else []) + Kept(me, items[1..])
    }

    /** Its size for each of its slots, in 64 bits. */
    function DemandBytes(item: CustodyItem): nat {
      SaturatingMul(item.sizeBytes, Slots(item))
    }
  }

  function WeightIn(weighted: seq<(MemberId, nat)>, member: MemberId): Option<nat> {
    if weighted == [] then None
    else if weighted[0].0 == member then Some(weighted[0].1)
    else WeightIn(weighted[1..], member)
  }

  /** Whether `n` of `candidates` other than `mine` rank above it. */
  predicate Outranked(candidates: seq<Ranked>, mine: Ranked, n: nat) {
    if n == 0 then true
    else if candidates == [] then false
    else if candidates[0].member != mine.member && Above(candidates[0], mine) then
      Outranked(candidates[1..], mine, n - 1)
    else Outranked(candidates[1..], mine, n)
  }

  function Members(ranked: seq<Ranked>): (members: seq<MemberId>)
    ensures |members| == |ranked|
    ensures forall i | 0 <= i < |ranked| :: members[i] == ranked[i].member
  {
    seq(|ranked|, i requires 0 <= i < |ranked| => ranked[i].member)
  }

  function Top<T>(s: seq<T>, n: nat): seq<T> {
    if |s| <= n then s else s[..n]
  }

  ghost predicate Sorted(s: seq<Ranked>) {
    forall i, j | 0 <= i < j < |s| :: Above(s[i], s[j])
  }

  ghost predicate Distinct(s: seq<Ranked>) {
    forall i, j | 0 <= i < j < |s| :: s[i].member != s[j].member
  }

  function Insert(s: seq<Ranked>, r: Ranked): seq<Ranked> {
    if s == [] then [r]
    else if Above(r, s[0]) then [r] + s
    else [s[0]] + Insert(s[1..], r)
  }

  function HighestFirst(s: seq<Ranked>): seq<Ranked> {
    if s == [] then [] else Insert(HighestFirst(s[1..]), s[0])
  }

  lemma {:induction false} InsertHolds(s: seq<Ranked>, r: Ranked)
    ensures multiset(Insert(s, r)) == multiset(s) + multiset{r}
  {
    if s != [] {
      assert s == [s[0]] + s[1..];
      InsertHolds(s[1..], r);
    }
  }

  lemma {:induction false} InsertedIn(s: seq<Ranked>, r: Ranked, x: Ranked)
    requires x in Insert(s, r)
    ensures x == r || x in s
  {
    if s != [] && !Above(r, s[0]) && x != s[0] {
      InsertedIn(s[1..], r, x);
    }
  }

  lemma {:induction false} InsertSorts(s: seq<Ranked>, r: Ranked)
    requires Sorted(s) && (forall i | 0 <= i < |s| :: s[i].member != r.member)
    ensures Sorted(Insert(s, r)) && multiset(Insert(s, r)) == multiset(s) + multiset{r}
  {
    InsertHolds(s, r);
    if s != [] && !Above(r, s[0]) {
      InsertSorts(s[1..], r);
      var rest := Insert(s[1..], r);
      forall i | 0 <= i < |rest| ensures Above(s[0], rest[i]) {
        InsertedIn(s[1..], r, rest[i]);
      }
    }
  }

  lemma SameElements(a: seq<Ranked>, b: seq<Ranked>)
    requires multiset(a) == multiset(b)
    ensures |a| == |b| && forall r :: r in a <==> r in b
  {
    assert |a| == |multiset(a)| && |b| == |multiset(b)|;
    forall r ensures r in a <==> r in b {
      assert r in a <==> r in multiset(a);
      assert r in b <==> r in multiset(b);
    }
  }

  lemma {:induction false} HighestFirstSorts(s: seq<Ranked>)
    requires Distinct(s)
    ensures Sorted(HighestFirst(s)) && multiset(HighestFirst(s)) == multiset(s)
  {
    if s != [] {
      var rest := HighestFirst(s[1..]);
      assert s == [s[0]] + s[1..];
      HighestFirstSorts(s[1..]);
      SameElements(rest, s[1..]);
      forall i | 0 <= i < |rest| ensures rest[i].member != s[0].member {
        assert rest[i] in rest;
        assert rest[i] in s[1..];
        var j :| 0 <= j < |s[1..]| && s[1..][j] == rest[i];
        assert s[j + 1] == rest[i];
      }
      InsertSorts(rest, s[0]);
    }
  }

  /** A ranking is the only sorted arrangement of its elements. */
  lemma SortedIsUnique(a: seq<Ranked>, b: seq<Ranked>)
    requires Sorted(a) && Sorted(b) && multiset(a) == multiset(b)
    ensures a == b
  {
    SameElements(a, b);
    OneArrangement(Above, a, b);
  }

  lemma {:induction false} CandidatesAre(g: CustodyGroup, from: seq<(MemberId, nat)>, item: CustodyItem)
    requires StrictlyById(from)
    ensures Distinct(g.CandidatesOf(from, item))
    ensures forall r :: r in g.CandidatesOf(from, item) <==>
      exists i | 0 <= i < |from| :: r == g.RankOf(item, from[i]) && from[i].0 !in item.creators
  {
    if from != [] {
      var rest := from[1..];
      CandidatesAre(g, rest, item);
      var tail := g.CandidatesOf(rest, item);
      assert forall i | 0 <= i < |rest| :: rest[i] == from[i + 1];
      forall k | 0 <= k < |tail| ensures tail[k].member != from[0].0 {
        assert tail[k] in tail;
      }
      forall r ensures r in g.CandidatesOf(from, item) <==>
        exists i | 0 <= i < |from| :: r == g.RankOf(item, from[i]) && from[i].0 !in item.creators
      {
        if i :| 0 <= i < |from| && r == g.RankOf(item, from[i]) && from[i].0 !in item.creators {
          if i > 0 {
            assert r == g.RankOf(item, rest[i - 1]);
          }
        }
        if r in tail {
          var i :| 0 <= i < |rest| && r == g.RankOf(item, rest[i]) && rest[i].0 !in item.creators;
          assert from[i + 1] == rest[i];
        }
      }
    }
  }

  lemma RankingIs(g: CustodyGroup, item: CustodyItem)
    requires g.WellFormed()
    ensures Distinct(g.Candidates(item))
    ensures Sorted(g.Ranking(item)) && multiset(g.Ranking(item)) == multiset(g.Candidates(item))
  {
    CandidatesAre(g, g.weighted, item);
    HighestFirstSorts(g.Candidates(item));
  }

  /** Those of `s` other than `mine` that rank above it. */
  ghost function Rivals(s: seq<Ranked>, mine: Ranked): set<Ranked> {
    set r | r in s && r.member != mine.member && Above(r, mine)
  }

  lemma OneMoreRival(first: Ranked, rest: seq<Ranked>, mine: Ranked)
    requires first !in rest
    ensures Rivals([first] + rest, mine) ==
      Rivals(rest, mine) + if first.member != mine.member && Above(first, mine) then {first} else {}
    ensures first !in Rivals(rest, mine)
  {
  }

  lemma {:induction false} OutrankedCounts(s: seq<Ranked>, mine: Ranked, n: nat)
    requires Distinct(s)
    ensures Outranked(s, mine, n) <==> n <= |Rivals(s, mine)|
  {
    if n > 0 && s != [] {
      var first, rest := s[0], s[1..];
      assert s == [first] + rest;
      assert forall i | 0 <= i < |rest| :: rest[i] == s[i + 1];
      OneMoreRival(first, rest, mine);
      OutrankedCounts(rest, mine, if first.member != mine.member && Above(first, mine) then n - 1 else n);
    }
  }

  lemma {:induction false} FirstFew(s: seq<Ranked>)
    requires Sorted(s)
    ensures |set r | r in s| == |s|
  {
    if s != [] {
      var rest, last := s[..|s| - 1], s[|s| - 1];
      FirstFew(rest);
      assert s == rest + [last];
      assert (set r | r in s) == (set r | r in rest) + {last};
    }
  }

  /** In a ranking, the `k`-th has exactly `k` above it. */
  lemma PlaceInRanking(ranking: seq<Ranked>, k: nat)
    requires Sorted(ranking) && Distinct(ranking) && k < |ranking|
    ensures |Rivals(ranking, ranking[k])| == k
  {
    var before, mine := ranking[..k], ranking[k];
    forall r ensures r in Rivals(ranking, mine) <==> r in before {
      if r in Rivals(ranking, mine) {
        var i :| 0 <= i < |ranking| && ranking[i] == r;
        assert i < k && before[i] == r;
      }
      if r in before {
        var i :| 0 <= i < |before| && before[i] == r;
        assert ranking[i] == r;
      }
    }
    assert Rivals(ranking, mine) == set r | r in before;
    FirstFew(before);
  }

  lemma SameMembers(a: seq<Ranked>, b: seq<Ranked>)
    requires multiset(a) == multiset(b) && Distinct(b) && Sorted(a)
    ensures Distinct(a)
  {
    SameElements(a, b);
    forall i, j | 0 <= i < j < |a| ensures a[i].member != a[j].member {
      assert a[i] in b && a[j] in b;
      assert a[i] != a[j];
    }
  }

  lemma {:induction false} WeightInFinds(weighted: seq<(MemberId, nat)>, member: MemberId)
    requires StrictlyById(weighted)
    ensures WeightIn(weighted, member).Some? <==> Holds(weighted, member)
    ensures forall i | 0 <= i < |weighted| && weighted[i].0 == member ::
      WeightIn(weighted, member) == Some(weighted[i].1)
  {
    if weighted != [] {
      var rest := weighted[1..];
      assert forall i | 0 <= i < |rest| :: rest[i] == weighted[i + 1];
      WeightInFinds(rest, member);
      if weighted[0].0 != member && Holds(weighted, member) {
        var i :| 0 <= i < |weighted| && weighted[i].0 == member;
        assert rest[i - 1].0 == member;
      }
    }
  }

  lemma CandidateIff(g: CustodyGroup, item: CustodyItem, me: MemberId)
    requires g.WellFormed()
    ensures (exists r | r in g.Candidates(item) :: r.member == me) <==> g.WeightOf(me).Some? && me !in item.creators
    ensures forall r | r in g.Candidates(item) && r.member == me ::
      g.WeightOf(me).Some? && r == g.RankOf(item, (me, g.WeightOf(me).value))
  {
    CandidatesAre(g, g.weighted, item);
    WeightInFinds(g.weighted, me);
    if g.WeightOf(me).Some? && me !in item.creators {
      var i :| 0 <= i < |g.weighted| && g.weighted[i].0 == me;
      assert g.RankOf(item, g.weighted[i]) in g.Candidates(item);
    }
  }

  lemma CustodianByPlace(g: CustodyGroup, item: CustodyItem, k: nat)
    requires g.WellFormed() && k < |g.Ranking(item)|
    ensures g.IsCustodian(item, g.Ranking(item)[k].member) <==> k < g.Slots(item)
  {
    var ranking, candidates := g.Ranking(item), g.Candidates(item);
    var mine := ranking[k];
    RankingIs(g, item);
    SameElements(ranking, candidates);
    SameMembers(ranking, candidates);
    assert mine in ranking && mine in candidates;
    CandidateIff(g, item, mine.member);
    PlaceInRanking(ranking, k);
    OutrankedCounts(candidates, mine, g.Slots(item));
    assert Rivals(ranking, mine) == Rivals(candidates, mine);
  }

  lemma CustodiansByPlace(g: CustodyGroup, item: CustodyItem, me: MemberId)
    ensures me in g.CustodiansOf(item) <==>
      exists k :: 0 <= k < |g.Ranking(item)| && k < g.Slots(item) && g.Ranking(item)[k].member == me
  {
    var ranking, custodians := g.Ranking(item), g.CustodiansOf(item);
    if k :| 0 <= k < |ranking| && k < g.Slots(item) && ranking[k].member == me {
      assert custodians[k] == me;
    }
    if me in custodians {
      var k :| 0 <= k < |custodians| && custodians[k] == me;
      assert ranking[k].member == me;
    }
  }

  /** The early exit agrees with the ranking: a member is found to be a custodian exactly when it is
      one of the top of the whole ranking. */
  lemma IsCustodianAgrees(g: CustodyGroup, item: CustodyItem, me: MemberId)
    requires g.WellFormed()
    ensures g.IsCustodian(item, me) <==> me in g.CustodiansOf(item)
  {
    var ranking, candidates := g.Ranking(item), g.Candidates(item);
    CustodiansByPlace(g, item, me);
    forall k | 0 <= k < |ranking| && ranking[k].member == me ensures g.IsCustodian(item, me) <==> k < g.Slots(item) {
      CustodianByPlace(g, item, k);
    }
    if g.IsCustodian(item, me) {
      RankingIs(g, item);
      SameElements(ranking, candidates);
      CandidateIff(g, item, me);
      var r :| r in candidates && r.member == me;
      var k :| 0 <= k < |ranking| && ranking[k] == r;
      assert ranking[k].member == me;
    }
  }

  lemma {:induction false} KeptAgrees(g: CustodyGroup, me: MemberId, items: seq<CustodyItem>, id: ItemId)
    requires g.WellFormed()
    ensures id in g.Kept(me, items) <==>
      exists i | 0 <= i < |items| :: items[i].item == id && me in g.CustodiansOf(items[i])
  {
    if items != [] {
      var rest := items[1..];
      KeptAgrees(g, me, rest, id);
      IsCustodianAgrees(g, items[0], me);
      if i :| 0 <= i < |items| && items[i].item == id && me in g.CustodiansOf(items[i]) {
        assert i > 0 ==> rest[i - 1] == items[i];
      }
      if i :| 0 <= i < |rest| && rest[i].item == id && me in g.CustodiansOf(rest[i]) {
        assert items[i + 1] == rest[i];
      }
    }
  }

  lemma {:induction false} NothingWithoutWeight(g: CustodyGroup, me: MemberId, items: seq<CustodyItem>)
    requires g.WeightOf(me).None?
    ensures g.Kept(me, items) == []
  {
    if items != [] {
      NothingWithoutWeight(g, me, items[1..]);
    }
  }

  /** So the items a member finds it keeps are those whose custodians name it. */
  lemma CustodyOfAgrees(g: CustodyGroup, me: MemberId, items: seq<CustodyItem>, id: ItemId)
    requires g.WellFormed()
    ensures id in g.CustodyOf(me, items) <==>
      exists i | 0 <= i < |items| :: items[i].item == id && me in g.CustodiansOf(items[i])
  {
    KeptAgrees(g, me, items, id);
    if g.WeightOf(me).None? {
      NothingWithoutWeight(g, me, items);
    }
  }

  /** The ids of those of `items` whose custodians name `me`, in the order given. */
  ghost function KeptInOrder(g: CustodyGroup, me: MemberId, items: seq<CustodyItem>): seq<ItemId> {
    if items == [] then []
    else
      var last := items[|items| - 1];
      KeptInOrder(g, me, items[..|items| - 1]) + if me in g.CustodiansOf(last) then [last.item] else []
  }

  lemma {:induction false} KeptInOrderFrom(g: CustodyGroup, me: MemberId, items: seq<CustodyItem>)
    requires items != []
    ensures KeptInOrder(g, me, items) ==
      (if me in g.CustodiansOf(items[0]) then [items[0].item] else []) + KeptInOrder(g, me, items[1..])
  {
    var n := |items| - 1;
    if n > 0 {
      KeptInOrderFrom(g, me, items[..n]);
      assert items[..n][1..] == items[1..][..n - 1];
    } else {
      assert items[..0] == [] == items[1..];
    }
  }

  lemma {:induction false} KeptIsInOrder(g: CustodyGroup, me: MemberId, items: seq<CustodyItem>)
    requires g.WellFormed()
    ensures g.Kept(me, items) == KeptInOrder(g, me, items)
  {
    if items != [] {
      KeptIsInOrder(g, me, items[1..]);
      KeptInOrderFrom(g, me, items);
      IsCustodianAgrees(g, items[0], me);
    }
  }

  /** And it finds them in the order the items were given. */
  lemma CustodyOfIsInOrder(g: CustodyGroup, me: MemberId, items: seq<CustodyItem>)
    requires g.WellFormed()
    ensures g.CustodyOf(me, items) == KeptInOrder(g, me, items)
  {
    KeptIsInOrder(g, me, items);
    if g.WeightOf(me).None? {
      NothingWithoutWeight(g, me, items);
    }
  }
}
