/** Custody's vectors, sorted and cut in place, and what a departure does to the choice. */
module CustodyChoice {
  import opened Common
  import opened Custody

  ghost predicate ById(pledges: seq<(MemberId, nat)>) {
    forall i, j | 0 <= i < j < |pledges| :: pledges[i].0 <= pledges[j].0
  }

  function InsertById(s: seq<(MemberId, nat)>, p: (MemberId, nat)): seq<(MemberId, nat)> {
    if s == [] then [p]
    else if p.0 <= s[0].0 then [p] + s
    else [s[0]] + InsertById(s[1..], p)
  }

  /** Sorting by id. */
  function SortById(pledges: seq<(MemberId, nat)>): seq<(MemberId, nat)> {
    if pledges == [] then [] else InsertById(SortById(pledges[1..]), pledges[0])
  }

  lemma {:induction false} InsertByIdIs(s: seq<(MemberId, nat)>, p: (MemberId, nat))
    requires ById(s)
    ensures ById(InsertById(s, p))
    ensures forall q :: q in InsertById(s, p) <==> q == p || q in s
  {
    if s != [] {
      var first, rest := s[0], s[1..];
      assert s == [first] + rest;
      assert forall q | q in rest :: first.0 <= q.0;
      if first.0 < p.0 {
        InsertByIdIs(rest, p);
        assert forall q | q in InsertById(rest, p) :: first.0 <= q.0;
      }
    }
  }

  lemma {:induction false} SortByIdIs(pledges: seq<(MemberId, nat)>)
    ensures ById(SortById(pledges))
    ensures forall q :: q in SortById(pledges) <==> q in pledges
  {
    if pledges != [] {
      assert pledges == [pledges[0]] + pledges[1..];
      SortByIdIs(pledges[1..]);
      InsertByIdIs(SortById(pledges[1..]), pledges[0]);
    }
  }

  /** Dropping each pledge whose member is that of the one before it. */
  function Deduped(sorted: seq<(MemberId, nat)>): seq<(MemberId, nat)> {
    if |sorted| < 2 then sorted
    else
      var n := |sorted| - 1;
      Deduped(sorted[..n]) + if sorted[n - 1].0 == sorted[n].0 then [] else [sorted[n]]
  }

  /** The last of what is left is of the last member. */
  lemma {:induction false} DedupedKeepsLast(sorted: seq<(MemberId, nat)>)
    requires sorted != []
    ensures Deduped(sorted) != [] && Deduped(sorted)[|Deduped(sorted)| - 1].0 == sorted[|sorted| - 1].0
  {
    if |sorted| > 1 {
      DedupedKeepsLast(sorted[..|sorted| - 1]);
    }
  }

  lemma {:induction false} DedupedIsSorted(sorted: seq<(MemberId, nat)>)
    requires ById(sorted)
    ensures StrictlyById(Deduped(sorted))
  {
    if |sorted| > 1 {
      var n := |sorted| - 1;
      DedupedIsSorted(sorted[..n]);
      DedupedKeepsLast(sorted[..n]);
    }
  }

  lemma {:induction false} DedupedIsPart(sorted: seq<(MemberId, nat)>, p: (MemberId, nat))
    requires p in Deduped(sorted)
    ensures p in sorted
  {
    if |sorted| > 1 {
      var n := |sorted| - 1;
      assert sorted == sorted[..n] + [sorted[n]];
      if p in Deduped(sorted[..n]) {
        DedupedIsPart(sorted[..n], p);
      }
    }
  }

  lemma {:induction false} DedupedHoldsAll(sorted: seq<(MemberId, nat)>, i: nat)
    requires i < |sorted|
    ensures Holds(Deduped(sorted), sorted[i].0)
  {
    var all, n := Deduped(sorted), |sorted| - 1;
    if i == n {
      DedupedKeepsLast(sorted);
    } else {
      DedupedHoldsAll(sorted[..n], i);
      var rest := Deduped(sorted[..n]);
      var k :| 0 <= k < |rest| && rest[k].0 == sorted[i].0;
      assert all[k] == rest[k];
    }
  }

  /** Sorts, drops repeats and weighs: `members` has every id in `pledges` once, `weighted` those of
      them that `rule` gives a weight. */
  method New(replicas: nat, rule: WeightRule, score: Score, pledges: seq<(MemberId, nat)>) returns (g: CustodyGroup)
    ensures IsGroupOf(g, replicas, rule, score, pledges)
  {
    var sorted := SortById(pledges);
    SortByIdIs(pledges);
    var members := Deduped(sorted);
    DedupedIsSorted(sorted);
    forall p | p in members ensures p in pledges {
      DedupedIsPart(sorted, p);
    }
    forall p | p in pledges ensures Holds(members, p.0) {
      assert p in sorted;
      var i :| 0 <= i < |sorted| && sorted[i] == p;
      DedupedHoldsAll(sorted, i);
    }
    forall p | p in pledges && OnlyPledge(pledges, p) ensures p in members {
      var i :| 0 <= i < |members| && members[i].0 == p.0;
      assert members[i] in members;
    }
    var weighted := Weighed(rule, members);
    WeighedIsSorted(rule, members);
    g := CustodyGroup(replicas, score, members, weighted);
  }

  /** Whether `g` has every id in `pledges` once, with a pledge of its, and weighs them by `rule`. */
  ghost predicate IsGroupOf(g: CustodyGroup, replicas: nat, rule: WeightRule, score: Score,
      pledges: seq<(MemberId, nat)>) {
    && g.WellFormed() && g.replicas == replicas && g.score == score
    && (forall p | p in g.members :: p in pledges)
    && (forall p | p in pledges :: Holds(g.members, p.0))
    && (forall p | p in pledges && OnlyPledge(pledges, p) :: p in g.members)
    && g.weighted == Weighed(rule, g.members)
  }

  /** Whether `p` is all that its member pledges. */
  ghost predicate OnlyPledge(pledges: seq<(MemberId, nat)>, p: (MemberId, nat)) {
    forall q | q in pledges && q.0 == p.0 :: q == p
  }

  function Weighed(rule: WeightRule, members: seq<(MemberId, nat)>): seq<(MemberId, nat)> {
    if members == [] then []
    else
      var weight := rule.Weight(members[0].1);
      (if weight > 0 then [(members[0].0, weight)] else []) + Weighed(rule, members[1..])
  }

  lemma {:induction false} WeighedIsSorted(rule: WeightRule, members: seq<(MemberId, nat)>)
    requires StrictlyById(members)
    ensures StrictlyById(Weighed(rule, members))
    ensures forall i | 0 <= i < |Weighed(rule, members)| :: Holds(members, Weighed(rule, members)[i].0)
  {
    if members != [] {
      var rest := members[1..];
      assert forall k | 0 <= k < |rest| :: rest[k] == members[k + 1];
      WeighedIsSorted(rule, rest);
      var tail := Weighed(rule, rest);
      forall i | 0 <= i < |tail| ensures members[0].0 < tail[i].0 && Holds(members, tail[i].0) {
        assert Holds(rest, tail[i].0);
        var k :| 0 <= k < |rest| && rest[k].0 == tail[i].0;
        assert members[k + 1].0 == tail[i].0;
      }
    }
  }

  /** Sorting, highest first. */
  method SortHighestFirst(ranked: seq<Ranked>) returns (sorted: seq<Ranked>)
    requires Distinct(ranked)
    ensures Sorted(sorted) && multiset(sorted) == multiset(ranked)
  {
    sorted := HighestFirst(ranked);
    HighestFirstSorts(ranked);
  }

  /** What selecting the `n`-th does: it is in its place, and all before it rank above all after. */
  method SelectNth(ranked: seq<Ranked>, n: nat) returns (selected: seq<Ranked>)
    requires Distinct(ranked) && n < |ranked|
    ensures multiset(selected) == multiset(ranked)
    ensures |selected| == |ranked|
    ensures forall i, j | 0 <= i < n <= j < |selected| :: Above(selected[i], selected[j])
  {
    selected := HighestFirst(ranked);
    HighestFirstSorts(ranked);
    SameElements(selected, ranked);
  }

  lemma StillDistinct(a: seq<Ranked>, b: seq<Ranked>)
    requires multiset(a) == multiset(b) && Distinct(b)
    ensures Distinct(a)
  {
    SameElements(a, b);
    forall i, j | 0 <= i < j < |a| ensures a[i].member != a[j].member {
      assert a[i] in b && a[j] in b;
      if a[i] == a[j] {
        TwiceCounted(a, i, j);
        NoTwice(b, a[i]);
      }
    }
  }

  lemma TwiceCounted(s: seq<Ranked>, i: nat, j: nat)
    requires i < j < |s| && s[i] == s[j]
    ensures multiset(s)[s[i]] >= 2
  {
    assert s == s[..i] + [s[i]] + s[i + 1..j] + [s[j]] + s[j + 1..];
  }

  lemma {:induction false} NoTwice(s: seq<Ranked>, r: Ranked)
    requires Distinct(s)
    ensures multiset(s)[r] <= 1
  {
    if s != [] {
      var rest, last := s[..|s| - 1], s[|s| - 1];
      assert s == rest + [last];
      NoTwice(rest, r);
      if r == last {
        assert r !in rest;
      }
    }
  }

  /** Selects before sorting, so that only the slots are sorted; the result is the top of the whole
      ranking all the same. */
  method Custodians(g: CustodyGroup, item: CustodyItem) returns (custodians: seq<MemberId>)
    requires g.WellFormed()
    ensures custodians == g.CustodiansOf(item)
  {
    var slots := g.Slots(item);
    var ranked := g.Candidates(item);
    RankingIs(g, item);
    ghost var rest := [];
    if |ranked| > slots {
      ranked := SelectNth(ranked, slots);
      StillDistinct(ranked, g.Candidates(item));
      rest := ranked[slots..];
      assert ranked == ranked[..slots] + rest;
      ranked := ranked[..slots];
    } else {
      assert ranked + rest == ranked;
    }
    var sorted := SortHighestFirst(ranked);
    TopIsSorted(g.Ranking(item), ranked, sorted, rest, slots);
    custodians := Members(sorted);
  }

  lemma TopIsSorted(ranking: seq<Ranked>, few: seq<Ranked>, sorted: seq<Ranked>, rest: seq<Ranked>, slots: nat)
    requires Sorted(ranking) && multiset(ranking) == multiset(few + rest)
    requires Sorted(sorted) && multiset(sorted) == multiset(few) && Distinct(few) && Distinct(rest)
    requires forall i, j | 0 <= i < |few| && 0 <= j < |rest| :: Above(few[i], rest[j])
    requires |few| <= slots && (rest != [] ==> |few| == slots)
    ensures sorted == Top(ranking, slots)
  {
    HighestFirstSorts(rest);
    var whole := sorted + HighestFirst(rest);
    SameElements(sorted, few);
    SameElements(HighestFirst(rest), rest);
    forall i, j | 0 <= i < j < |whole| ensures Above(whole[i], whole[j]) {
      if i < |sorted| <= j {
        assert whole[i] in sorted && whole[i] in few;
        assert HighestFirst(rest)[j - |sorted|] == whole[j];
        assert whole[j] in HighestFirst(rest) && whole[j] in rest;
      } else if |sorted| <= i {
        assert Above(HighestFirst(rest)[i - |sorted|], HighestFirst(rest)[j - |sorted|]);
      }
    }
    SortedIsUnique(ranking, whole);
    assert whole[..|sorted|] == sorted;
  }

  /** Whether the `k`-th of the ranking is the first past the slots that `eligible` admits. */
  ghost predicate FirstEligible(g: CustodyGroup, item: CustodyItem, eligible: MemberId -> bool, k: nat) {
    && g.Slots(item) <= k < |g.Ranking(item)|
    && eligible(g.Ranking(item)[k].member)
    && forall j | g.Slots(item) <= j < k :: !eligible(g.Ranking(item)[j].member)
  }

  /** Sorts the candidates, passes over the slots, and returns the next one that `eligible` holds
      of. */
  method FirstAfterCustodians(g: CustodyGroup, item: CustodyItem, eligible: MemberId -> bool)
      returns (first: Option<MemberId>)
    requires g.WellFormed()
    ensures first.Some? ==> exists k: nat ::
      FirstEligible(g, item, eligible, k) && g.Ranking(item)[k].member == first.value
    ensures first.None? ==> forall j | g.Slots(item) <= j < |g.Ranking(item)| :: !eligible(g.Ranking(item)[j].member)
  {
    RankingIs(g, item);
    var ranked := SortHighestFirst(g.Candidates(item));
    SortedIsUnique(ranked, g.Ranking(item));
    var found, k := FirstFrom(ranked, g.Slots(item), eligible);
    if !found {
      return None;
    }
    assert FirstEligible(g, item, eligible, k);
    first := Some(ranked[k].member);
  }

  method FirstFrom(ranked: seq<Ranked>, slots: nat, eligible: MemberId -> bool) returns (found: bool, k: nat)
    ensures found ==> slots <= k < |ranked| && eligible(ranked[k].member) && forall j | slots <= j < k ::
      !eligible(ranked[j].member)
    ensures !found ==> forall j | slots <= j < |ranked| :: !eligible(ranked[j].member)
  {
    k := slots;
    while k < |ranked|
      invariant slots <= k
      invariant forall j | slots <= j < k && j < |ranked| :: !eligible(ranked[j].member)
    {
      if eligible(ranked[k].member) {
        return true, k;
      }
      k := k + 1;
    }
    found := false;
  }

  /** In terms of members: the `k`-th of the ranking past the slots is the best-ranked eligible
      candidate that is not a custodian, when no eligible one comes between. */
  lemma FirstAfterIsBest(g: CustodyGroup, item: CustodyItem, eligible: MemberId -> bool, k: nat)
    requires g.WellFormed() && FirstEligible(g, item, eligible, k)
    ensures g.Ranking(item)[k] in g.Candidates(item) && g.Ranking(item)[k].member !in g.CustodiansOf(item)
    ensures forall r | r in g.Candidates(item) && eligible(r.member) && r.member !in g.CustodiansOf(item) ::
      r == g.Ranking(item)[k] || Above(g.Ranking(item)[k], r)
  {
    var ranking := g.Ranking(item);
    RankingIs(g, item);
    SameElements(ranking, g.Candidates(item));
    SameMembers(ranking, g.Candidates(item));
    assert ranking[k] in ranking;
    CustodiansByPlace(g, item, ranking[k].member);
    forall r | r in g.Candidates(item) && eligible(r.member) && r.member !in g.CustodiansOf(item)
      ensures r == ranking[k] || Above(ranking[k], r)
    {
      assert r in ranking;
      NoBetterThanFirst(g, item, eligible, k, r);
    }
  }

  lemma NoBetterThanFirst(g: CustodyGroup, item: CustodyItem, eligible: MemberId -> bool, k: nat, r: Ranked)
    requires g.WellFormed() && FirstEligible(g, item, eligible, k)
    requires r in g.Ranking(item) && eligible(r.member) && r.member !in g.CustodiansOf(item)
    ensures r == g.Ranking(item)[k] || Above(g.Ranking(item)[k], r)
  {
    var ranking := g.Ranking(item);
    RankingIs(g, item);
    var j :| 0 <= j < |ranking| && ranking[j] == r;
    CustodiansByPlace(g, item, r.member);
  }

  function WithoutMember(pledges: seq<(MemberId, nat)>, gone: MemberId): seq<(MemberId, nat)> {
    if pledges == [] then []
    else (if pledges[0].0 == gone then [] else [pledges[0]]) + WithoutMember(pledges[1..], gone)
  }

  lemma {:induction false} WithoutMemberHas(pledges: seq<(MemberId, nat)>, gone: MemberId, p: (MemberId, nat))
    ensures p in WithoutMember(pledges, gone) <==> p in pledges && p.0 != gone
  {
    if pledges != [] {
      assert pledges == [pledges[0]] + pledges[1..];
      WithoutMemberHas(pledges[1..], gone, p);
    }
  }

  lemma FirstAscends(first: (MemberId, nat), rest: seq<(MemberId, nat)>)
    requires StrictlyById(rest) && forall p | p in rest :: first.0 < p.0
    ensures StrictlyById([first] + rest)
  {
  }

  lemma {:induction false} WithoutMemberAscends(pledges: seq<(MemberId, nat)>, gone: MemberId)
    requires StrictlyById(pledges)
    ensures StrictlyById(WithoutMember(pledges, gone))
  {
    if pledges != [] {
      var first, rest := pledges[0], pledges[1..];
      assert forall i | 0 <= i < |rest| :: rest[i] == pledges[i + 1];
      WithoutMemberAscends(rest, gone);
      forall p | p in WithoutMember(rest, gone) ensures first.0 < p.0 {
        WithoutMemberHas(rest, gone, p);
      }
      FirstAscends(first, WithoutMember(rest, gone));
    }
  }

  lemma WithoutMemberIs(pledges: seq<(MemberId, nat)>, gone: MemberId)
    requires StrictlyById(pledges)
    ensures StrictlyById(WithoutMember(pledges, gone))
    ensures forall p :: p in WithoutMember(pledges, gone) <==> p in pledges && p.0 != gone
  {
    WithoutMemberAscends(pledges, gone);
    forall p ensures p in WithoutMember(pledges, gone) <==> p in pledges && p.0 != gone {
      WithoutMemberHas(pledges, gone, p);
    }
  }

  /** The group once `gone` has left it. */
  function After(g: CustodyGroup, gone: MemberId): CustodyGroup {
    g.(members := WithoutMember(g.members, gone), weighted := WithoutMember(g.weighted, gone))
  }

  lemma {:induction false} WeighedWithout(rule: WeightRule, members: seq<(MemberId, nat)>, gone: MemberId)
    ensures Weighed(rule, WithoutMember(members, gone)) == WithoutMember(Weighed(rule, members), gone)
  {
    if members != [] {
      WeighedWithout(rule, members[1..], gone);
      var first := if rule.Weight(members[0].1) > 0 then [(members[0].0, rule.Weight(members[0].1))] else [];
      assert Weighed(rule, members) == first + Weighed(rule, members[1..]);
      if first != [] {
        assert (first + Weighed(rule, members[1..]))[1..] == Weighed(rule, members[1..]);
      } else {
        assert first + Weighed(rule, members[1..]) == Weighed(rule, members[1..]);
      }
      if members[0].0 == gone {
        assert WithoutMember(members, gone) == WithoutMember(members[1..], gone);
      } else {
        assert WithoutMember(members, gone)[1..] == WithoutMember(members[1..], gone);
      }
    }
  }

  predicate LowerId(p: (MemberId, nat), q: (MemberId, nat)) {
    p.0 < q.0
  }

  /** Of members that pledge one thing each, the group has exactly their pledges. */
  lemma HasExactly(g: CustodyGroup, replicas: nat, rule: WeightRule, score: Score, pledges: seq<(MemberId, nat)>,
      p: (MemberId, nat))
    requires IsGroupOf(g, replicas, rule, score, pledges) && (p in pledges ==> OnlyPledge(pledges, p))
    ensures p in g.members <==> p in pledges
  {
  }

  /** Whether `others` are the pledges but for those of `gone`. */
  ghost predicate AreOthers(others: seq<(MemberId, nat)>, pledges: seq<(MemberId, nat)>, gone: MemberId) {
    forall p :: p in others <==> p in pledges && p.0 != gone
  }

  /** It is the group of what the others pledge, when each of them pledges one thing: `New` comes to the
      same whether a member is taken out before or after. */
  lemma AfterIsTheGroupOfTheOthers(g: CustodyGroup, h: CustodyGroup, replicas: nat, rule: WeightRule, score: Score,
      pledges: seq<(MemberId, nat)>, others: seq<(MemberId, nat)>, gone: MemberId)
    requires IsGroupOf(g, replicas, rule, score, pledges) && IsGroupOf(h, replicas, rule, score, others)
    requires AreOthers(others, pledges, gone)
    requires forall p | p in pledges && p.0 != gone :: OnlyPledge(pledges, p)
    ensures h == After(g, gone)
  {
    WithoutMemberIs(g.members, gone);
    forall p ensures p in h.members <==> p in WithoutMember(g.members, gone) {
      if p.0 != gone {
        HasExactly(g, replicas, rule, score, pledges, p);
      }
      HasExactly(h, replicas, rule, score, others, p);
    }
    OneArrangement(LowerId, h.members, WithoutMember(g.members, gone));
    WeighedWithout(rule, g.members, gone);
  }

  function Less(ranked: seq<Ranked>, gone: MemberId): seq<Ranked> {
    if ranked == [] then []
    else (if ranked[0].member == gone then [] else [ranked[0]]) + Less(ranked[1..], gone)
  }

  lemma {:induction false} LessIs(ranked: seq<Ranked>, gone: MemberId)
    requires Sorted(ranked)
    ensures Sorted(Less(ranked, gone))
    ensures forall r :: r in Less(ranked, gone) <==> r in ranked && r.member != gone
  {
    if ranked != [] {
      var rest := ranked[1..];
      assert ranked == [ranked[0]] + rest;
      LessIs(rest, gone);
      forall r | r in Less(rest, gone) ensures Above(ranked[0], r) {
        assert r in rest;
      }
    }
  }

  lemma SortedSetsAreEqual(a: seq<Ranked>, b: seq<Ranked>)
    requires Sorted(a) && Sorted(b) && forall r :: r in a <==> r in b
    ensures a == b
  {
    OneArrangement(Above, a, b);
  }

  lemma StaysWellFormed(g: CustodyGroup, gone: MemberId)
    requires g.WellFormed()
    ensures After(g, gone).WellFormed()
  {
    WithoutMemberIs(g.members, gone);
    WithoutMemberIs(g.weighted, gone);
  }

  /** A departure takes one name out of every ranking, and reorders nothing. */
  lemma RankingAfter(g: CustodyGroup, item: CustodyItem, gone: MemberId)
    requires g.WellFormed()
    ensures After(g, gone).Ranking(item) == Less(g.Ranking(item), gone)
  {
    var h := After(g, gone);
    StaysWellFormed(g, gone);
    RankingIs(g, item);
    RankingIs(h, item);
    LessIs(g.Ranking(item), gone);
    SameElements(g.Ranking(item), g.Candidates(item));
    SameElements(h.Ranking(item), h.Candidates(item));
    CandidatesAfter(g, item, gone);
    SortedSetsAreEqual(h.Ranking(item), Less(g.Ranking(item), gone));
  }

  lemma CandidatesAfter(g: CustodyGroup, item: CustodyItem, gone: MemberId)
    requires g.WellFormed()
    ensures forall r :: r in After(g, gone).Candidates(item) <==> r in g.Candidates(item) && r.member != gone
  {
    var h := After(g, gone);
    StaysWellFormed(g, gone);
    WithoutMemberIs(g.weighted, gone);
    forall r ensures r in h.Candidates(item) <==> r in g.Candidates(item) && r.member != gone {
      if r in h.Candidates(item) {
        CandidateOfMore(h, g, item, r);
        HoldsAfter(g.weighted, gone, r.member);
      }
      if r in g.Candidates(item) && r.member != gone {
        CandidateOfMore(g, h, item, r);
      }
    }
  }

  /** A candidate of one group is one of another that weighs its member the same. */
  lemma CandidateOfMore(g: CustodyGroup, h: CustodyGroup, item: CustodyItem, r: Ranked)
    requires g.WellFormed() && h.WellFormed() && g.score == h.score && r in g.Candidates(item)
    requires forall p | p in g.weighted && p.0 == r.member :: p in h.weighted
    ensures Holds(g.weighted, r.member) && r in h.Candidates(item)
  {
    CandidatesAre(g, g.weighted, item);
    CandidatesAre(h, h.weighted, item);
    var i :| 0 <= i < |g.weighted| && r == g.RankOf(item, g.weighted[i]) && g.weighted[i].0 !in item.creators;
    assert g.weighted[i] in g.weighted && g.weighted[i] in h.weighted;
    var j :| 0 <= j < |h.weighted| && h.weighted[j] == g.weighted[i];
    assert r == h.RankOf(item, h.weighted[j]);
  }

  /** Whether `gone` created `item` and is a member, and no other creator of it is. */
  ghost predicate OnlyCreatorHere(g: CustodyGroup, item: CustodyItem, gone: MemberId) {
    && gone in item.creators && Holds(g.members, gone)
    && forall c | c in item.creators && Holds(g.members, c) :: c == gone
  }

  lemma HoldsAfter(pledges: seq<(MemberId, nat)>, gone: MemberId, c: MemberId)
    requires StrictlyById(pledges)
    ensures Holds(WithoutMember(pledges, gone), c) <==> Holds(pledges, c) && c != gone
  {
    WithoutMemberIs(pledges, gone);
    var less := WithoutMember(pledges, gone);
    if i :| 0 <= i < |less| && less[i].0 == c {
      assert less[i] in less && less[i] in pledges;
    }
    if i :| 0 <= i < |pledges| && pledges[i].0 == c && c != gone {
      assert pledges[i] in pledges && pledges[i] in less;
    }
  }

  lemma SlotsAfter(g: CustodyGroup, item: CustodyItem, gone: MemberId)
    requires g.WellFormed()
    ensures After(g, gone).Slots(item) ==
      g.Slots(item) + if OnlyCreatorHere(g, item, gone) && g.replicas > 0 then 1 else 0
  {
    var h := After(g, gone);
    forall c ensures Holds(h.members, c) <==> Holds(g.members, c) && c != gone {
      HoldsAfter(g.members, gone, c);
    }
    if OnlyCreatorHere(g, item, gone) {
      assert gone in item.creators;
    } else if c :| c in item.creators && Holds(g.members, c) {
      if c == gone {
        var d :| d in item.creators && Holds(g.members, d) && d != gone;
        assert Holds(h.members, d);
      } else {
        assert Holds(h.members, c);
      }
    }
  }

  lemma {:induction false} LessWithout(s: seq<Ranked>, gone: MemberId)
    requires forall i | 0 <= i < |s| :: s[i].member != gone
    ensures Less(s, gone) == s
  {
    if s != [] {
      LessWithout(s[1..], gone);
    }
  }

  /** The candidate next in line after the slots, if there is one. */
  ghost function NextInLine(g: CustodyGroup, item: CustodyItem): seq<Ranked> {
    if g.Slots(item) < |g.Ranking(item)| then [g.Ranking(item)[g.Slots(item)]] else []
  }

  lemma {:induction false} LessWithOne(ranking: seq<Ranked>, k: nat, gone: MemberId)
    requires Distinct(ranking) && k < |ranking| && ranking[k].member == gone
    ensures Less(ranking, gone) == ranking[..k] + ranking[k + 1..]
  {
    var rest := ranking[1..];
    if k == 0 {
      assert forall i | 0 <= i < |rest| :: rest[i] == ranking[i + 1];
      LessWithout(rest, gone);
    } else {
      LessWithOne(rest, k - 1, gone);
      assert ranking[..k] == [ranking[0]] + rest[..k - 1];
      assert ranking[k + 1..] == rest[k..];
    }
  }

  /** Removing one member disturbs an item's custodians as little as can be. If it was none of them
      and not the item's only creator here, not at all. */
  lemma UninvolvedDisturbsNothing(g: CustodyGroup, item: CustodyItem, gone: MemberId)
    requires g.WellFormed()
    requires gone !in g.CustodiansOf(item) && !OnlyCreatorHere(g, item, gone)
    ensures After(g, gone).CustodiansOf(item) == g.CustodiansOf(item)
  {
    var ranking := g.Ranking(item);
    SlotsAfter(g, item, gone);
    RankingAfter(g, item, gone);
    if k :| 0 <= k < |ranking| && ranking[k].member == gone {
      RankingIs(g, item);
      SameMembers(ranking, g.Candidates(item));
      CustodiansByPlace(g, item, gone);
      LessWithOne(ranking, k, gone);
      TopWithOneLess(ranking, k, gone, g.Slots(item));
    } else {
      LessWithout(ranking, gone);
    }
  }

  /** If it was one of them, the others stay, in order, and one at most joins: the next in line. */
  lemma CustodianIsReplacedByNext(g: CustodyGroup, item: CustodyItem, gone: MemberId)
    requires g.WellFormed()
    requires gone in g.CustodiansOf(item)
    ensures After(g, gone).CustodiansOf(item) ==
      Members(Less(Top(g.Ranking(item), g.Slots(item)), gone) + NextInLine(g, item))
  {
    var ranking := g.Ranking(item);
    CustodiansByPlace(g, item, gone);
    var k :| 0 <= k < |ranking| && k < g.Slots(item) && ranking[k].member == gone;
    CandidateIsNoCreator(g, item, k);
    SlotsAfter(g, item, gone);
    RankingAfter(g, item, gone);
    RankingIs(g, item);
    SameMembers(ranking, g.Candidates(item));
    LessWithOne(ranking, k, gone);
    TopWithOneLess(ranking, k, gone, g.Slots(item));
  }

  /** If it was the item's only creator here, all of them stay, and the next in line joins. */
  lemma CreatorIsMadeUpForByNext(g: CustodyGroup, item: CustodyItem, gone: MemberId)
    requires g.WellFormed() && g.replicas > 0
    requires OnlyCreatorHere(g, item, gone)
    ensures After(g, gone).CustodiansOf(item) == g.CustodiansOf(item) + Members(NextInLine(g, item))
  {
    SlotsAfter(g, item, gone);
    RankingAfter(g, item, gone);
    CreatorHasNoPlace(g, item, gone);
    OneMoreSlot(g.Ranking(item), g.Slots(item));
  }

  lemma CreatorHasNoPlace(g: CustodyGroup, item: CustodyItem, creator: MemberId)
    requires g.WellFormed() && creator in item.creators
    ensures Less(g.Ranking(item), creator) == g.Ranking(item)
  {
    forall k | 0 <= k < |g.Ranking(item)| ensures g.Ranking(item)[k].member != creator {
      CandidateIsNoCreator(g, item, k);
    }
    LessWithout(g.Ranking(item), creator);
  }

  lemma OneMoreSlot(ranking: seq<Ranked>, slots: nat)
    ensures Members(Top(ranking, slots + 1)) ==
      Members(Top(ranking, slots)) + Members(if slots < |ranking| then [ranking[slots]] else [])
  {
    if slots < |ranking| {
      assert ranking[..slots + 1] == ranking[..slots] + [ranking[slots]];
    }
  }

  lemma CandidateIsNoCreator(g: CustodyGroup, item: CustodyItem, k: nat)
    requires g.WellFormed() && k < |g.Ranking(item)|
    ensures g.Ranking(item)[k].member !in item.creators
  {
    RankingIs(g, item);
    SameElements(g.Ranking(item), g.Candidates(item));
    assert g.Ranking(item)[k] in g.Ranking(item);
    CandidateIff(g, item, g.Ranking(item)[k].member);
  }

  lemma CutOut(s: seq<Ranked>, k: nat, slots: nat)
    requires k < slots < |s|
    ensures (s[..k] + s[k + 1..])[..slots] == s[..k] + s[k + 1..slots] + [s[slots]]
    ensures s[..slots][..k] + s[..slots][k + 1..] == s[..k] + s[k + 1..slots]
  {
  }

  lemma TopWithOneLess(ranking: seq<Ranked>, k: nat, gone: MemberId, slots: nat)
    requires Distinct(ranking) && k < |ranking| && ranking[k].member == gone
    ensures k < slots ==>
      Top(ranking[..k] + ranking[k + 1..], slots) ==
      Less(Top(ranking, slots), gone) + if slots < |ranking| then [ranking[slots]] else []
    ensures slots <= k ==> Top(ranking[..k] + ranking[k + 1..], slots) == Top(ranking, slots)
  {
    var less, top := ranking[..k] + ranking[k + 1..], Top(ranking, slots);
    if k < slots {
      LessWithOne(top, k, gone);
      if slots < |ranking| {
        CutOut(ranking, k, slots);
      } else {
        assert top == ranking;
      }
    } else {
      SameStart(ranking, k, slots);
    }
  }

  lemma SameStart(s: seq<Ranked>, k: nat, slots: nat)
    requires slots <= k < |s|
    ensures (s[..k] + s[k + 1..])[..slots] == s[..slots]
  {
  }
}
