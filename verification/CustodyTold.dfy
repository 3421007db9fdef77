/** Who keeps an item, and what keeping it takes, told from what the members pledge. */
module CustodyTold {
  import opened Common
  import opened Custody
  import opened CustodyChoice

  type Pledge = (MemberId, nat)

  ghost predicate OnePledgeEach(pledges: seq<Pledge>) {
    forall p | p in pledges :: OnlyPledge(pledges, p)
  }

  /** How many copies are wanted of `item` besides its creators' own: one fewer if a creator is a member. */
  ghost function Wanted(replicas: nat, pledges: seq<Pledge>, item: CustodyItem): nat {
    if (exists p :: p in pledges && p.0 in item.creators) && replicas > 0 then replicas - 1 else replicas
  }

  /** Whether `p` is a pledge that weighs something, of a member that did not create `item`. */
  ghost predicate Stands(rule: WeightRule, pledges: seq<Pledge>, item: CustodyItem, p: Pledge) {
    p in pledges && rule.Weight(p.1) > 0 && p.0 !in item.creators
  }

  /** Whether `p` scores higher for `item` than `q`, or as high with the lower id. */
  ghost predicate Outranks(rule: WeightRule, score: Score, item: CustodyItem, p: Pledge, q: Pledge) {
    var a, b := score(item.item, p.0, rule.Weight(p.1)), score(item.item, q.0, rule.Weight(q.1));
    a > b || (a == b && p.0 < q.0)
  }

  ghost function Standing(rule: WeightRule, pledges: seq<Pledge>, item: CustodyItem): set<Pledge> {
    set p | p in pledges && Stands(rule, pledges, item, p)
  }

  ghost function Better(rule: WeightRule, score: Score, pledges: seq<Pledge>, item: CustodyItem,
      q: Pledge): set<Pledge> {
    set p | p in pledges && Stands(rule, pledges, item, p) && Outranks(rule, score, item, p, q)
  }

  /** The entry a pledge has in a ranking. */
  ghost function EntryOf(rule: WeightRule, score: Score, item: CustodyItem, p: Pledge): Ranked {
    Ranked(score(item.item, p.0, rule.Weight(p.1)), p.0)
  }

  /** Each pledge that weighs something is among those ranked, with that weight, and nothing else is. */
  lemma {:induction false} WeighedHas(rule: WeightRule, members: seq<Pledge>, p: Pledge)
    ensures p in Weighed(rule, members) <==>
      p.1 > 0 && exists q :: q in members && q.0 == p.0 && rule.Weight(q.1) == p.1
  {
    if members != [] {
      assert members == [members[0]] + members[1..];
      WeighedHas(rule, members[1..], p);
    }
  }

  lemma SlotsAreWanted(g: CustodyGroup, item: CustodyItem)
    ensures g.Slots(item) == Wanted(g.replicas, g.members, item)
  {
    forall c ensures Holds(g.members, c) <==> exists p :: p in g.members && p.0 == c {
      if p :| p in g.members && p.0 == c {
        var i :| 0 <= i < |g.members| && g.members[i] == p;
      }
      if i :| 0 <= i < |g.members| && g.members[i].0 == c {
        assert g.members[i] in g.members;
      }
    }
  }

  /** In a group made of pledges, as many are wanted as the pledges say. */
  lemma WantedOfPledges(g: CustodyGroup, rule: WeightRule, pledges: seq<Pledge>, item: CustodyItem)
    requires IsGroupOf(g, g.replicas, rule, g.score, pledges)
    ensures g.Slots(item) == Wanted(g.replicas, pledges, item)
  {
    SlotsAreWanted(g, item);
    if p :| p in pledges && p.0 in item.creators {
      assert Holds(g.members, p.0);
      var i :| 0 <= i < |g.members| && g.members[i].0 == p.0;
      assert g.members[i] in g.members;
    }
  }

  lemma CandidateStands(g: CustodyGroup, rule: WeightRule, pledges: seq<Pledge>, item: CustodyItem, r: Ranked)
    returns (p: Pledge)
    requires IsGroupOf(g, g.replicas, rule, g.score, pledges) && r in g.Candidates(item)
    ensures Stands(rule, pledges, item, p) && r == EntryOf(rule, g.score, item, p)
  {
    CandidatesAre(g, g.weighted, item);
    var i :| 0 <= i < |g.weighted| && r == g.RankOf(item, g.weighted[i]) && g.weighted[i].0 !in item.creators;
    assert g.weighted[i] in g.weighted;
    WeighedHas(rule, g.members, g.weighted[i]);
    p :| p in g.members && p.0 == g.weighted[i].0 && rule.Weight(p.1) == g.weighted[i].1;
  }

  lemma StandingIsCandidate(g: CustodyGroup, rule: WeightRule, pledges: seq<Pledge>, item: CustodyItem, p: Pledge)
    requires IsGroupOf(g, g.replicas, rule, g.score, pledges) && OnePledgeEach(pledges)
    requires Stands(rule, pledges, item, p)
    ensures EntryOf(rule, g.score, item, p) in g.Candidates(item) && g.WeightOf(p.0) == Some(rule.Weight(p.1))
  {
    var weighted := (p.0, rule.Weight(p.1));
    assert p in g.members;
    WeighedHas(rule, g.members, weighted);
    var i :| 0 <= i < |g.weighted| && g.weighted[i] == weighted;
    CandidatesAre(g, g.weighted, item);
    assert EntryOf(rule, g.score, item, p) == g.RankOf(item, g.weighted[i]);
    WeightInFinds(g.weighted, p.0);
  }

  lemma {:induction false} AsManyEntries(rule: WeightRule, score: Score, item: CustodyItem, some: set<Pledge>)
    requires forall p, q | p in some && q in some && p.0 == q.0 :: p == q
    ensures |set p | p in some :: EntryOf(rule, score, item, p)| == |some|
    decreases |some|
  {
    if some != {} {
      var p :| p in some;
      AsManyEntries(rule, score, item, some - {p});
      assert (set q | q in some :: EntryOf(rule, score, item, q)) ==
        (set q | q in some - {p} :: EntryOf(rule, score, item, q)) + {EntryOf(rule, score, item, p)};
    }
  }

  lemma RivalIsBetter(g: CustodyGroup, rule: WeightRule, pledges: seq<Pledge>, item: CustodyItem, mine: Pledge,
      r: Ranked) returns (p: Pledge)
    requires IsGroupOf(g, g.replicas, rule, g.score, pledges)
    requires r in Rivals(g.Candidates(item), EntryOf(rule, g.score, item, mine))
    ensures p in Better(rule, g.score, pledges, item, mine) && r == EntryOf(rule, g.score, item, p)
  {
    p := CandidateStands(g, rule, pledges, item, r);
  }

  lemma BetterIsRival(g: CustodyGroup, rule: WeightRule, pledges: seq<Pledge>, item: CustodyItem, mine: Pledge,
      p: Pledge)
    requires IsGroupOf(g, g.replicas, rule, g.score, pledges) && OnePledgeEach(pledges) && mine in pledges
    requires p in Better(rule, g.score, pledges, item, mine)
    ensures EntryOf(rule, g.score, item, p) in Rivals(g.Candidates(item), EntryOf(rule, g.score, item, mine))
  {
    StandingIsCandidate(g, rule, pledges, item, p);
  }

  lemma RivalsAreBetter(g: CustodyGroup, rule: WeightRule, pledges: seq<Pledge>, item: CustodyItem, mine: Pledge)
    requires IsGroupOf(g, g.replicas, rule, g.score, pledges) && OnePledgeEach(pledges) && mine in pledges
    ensures |Rivals(g.Candidates(item), EntryOf(rule, g.score, item, mine))| ==
      |Better(rule, g.score, pledges, item, mine)|
  {
    var better, rivals := Better(rule, g.score, pledges, item, mine),
      Rivals(g.Candidates(item), EntryOf(rule, g.score, item, mine));
    forall r | r in rivals ensures exists p :: p in better && r == EntryOf(rule, g.score, item, p) {
      var p := RivalIsBetter(g, rule, pledges, item, mine, r);
    }
    forall p | p in better ensures EntryOf(rule, g.score, item, p) in rivals {
      BetterIsRival(g, rule, pledges, item, mine, p);
    }
    assert rivals == set p | p in better :: EntryOf(rule, g.score, item, p);
    AsManyEntries(rule, g.score, item, better);
  }

  /** A member is a custodian exactly when what it pledged stands, and fewer stand above it than copies are
      wanted. */
  lemma CustodianExactlyWhen(g: CustodyGroup, rule: WeightRule, pledges: seq<Pledge>, item: CustodyItem,
      mine: Pledge)
    requires IsGroupOf(g, g.replicas, rule, g.score, pledges) && OnePledgeEach(pledges) && mine in pledges
    ensures mine.0 in g.CustodiansOf(item) <==>
      Stands(rule, pledges, item, mine) &&
        |Better(rule, g.score, pledges, item, mine)| < Wanted(g.replicas, pledges, item)
  {
    IsCustodianAgrees(g, item, mine.0);
    WantedOfPledges(g, rule, pledges, item);
    if Stands(rule, pledges, item, mine) {
      StandingIsCandidate(g, rule, pledges, item, mine);
      CandidatesAre(g, g.weighted, item);
      OutrankedCounts(g.Candidates(item), EntryOf(rule, g.score, item, mine), g.Slots(item));
      RivalsAreBetter(g, rule, pledges, item, mine);
    } else {
      NobodyElse(g, rule, pledges, item, mine);
    }
  }

  lemma NobodyElse(g: CustodyGroup, rule: WeightRule, pledges: seq<Pledge>, item: CustodyItem, mine: Pledge)
    requires IsGroupOf(g, g.replicas, rule, g.score, pledges) && OnePledgeEach(pledges) && mine in pledges
    requires !Stands(rule, pledges, item, mine)
    ensures !g.IsCustodian(item, mine.0)
  {
    if g.WeightOf(mine.0).Some? && mine.0 !in item.creators {
      CandidateIff(g, item, mine.0);
      var r :| r in g.Candidates(item) && r.member == mine.0;
      var p := CandidateStands(g, rule, pledges, item, r);
    }
  }

  /** Only members that pledged are custodians. */
  lemma CustodianPledged(g: CustodyGroup, rule: WeightRule, pledges: seq<Pledge>, item: CustodyItem, k: nat)
      returns (p: Pledge)
    requires IsGroupOf(g, g.replicas, rule, g.score, pledges) && k < |g.CustodiansOf(item)|
    ensures Stands(rule, pledges, item, p) && p.0 == g.CustodiansOf(item)[k]
    ensures g.Ranking(item)[k] == EntryOf(rule, g.score, item, p)
  {
    var ranking := g.Ranking(item);
    RankingIs(g, item);
    SameElements(ranking, g.Candidates(item));
    assert ranking[k] in ranking;
    p := CandidateStands(g, rule, pledges, item, ranking[k]);
  }

  /** Whether what `a` pledged outranks what `b` did. */
  ghost predicate IsAhead(rule: WeightRule, score: Score, pledges: seq<Pledge>, item: CustodyItem, a: MemberId,
      b: MemberId) {
    exists p, q ::
      p in pledges && q in pledges && p.0 == a && q.0 == b && Outranks(rule, score, item, p, q)
  }

  /** They come with the one that outranks the others first. */
  lemma CustodiansInOrder(g: CustodyGroup, rule: WeightRule, pledges: seq<Pledge>, item: CustodyItem, i: nat, j: nat)
    requires IsGroupOf(g, g.replicas, rule, g.score, pledges) && i < j < |g.CustodiansOf(item)|
    ensures IsAhead(rule, g.score, pledges, item, g.CustodiansOf(item)[i], g.CustodiansOf(item)[j])
  {
    RankingIs(g, item);
    var p := CustodianPledged(g, rule, pledges, item, i);
    var q := CustodianPledged(g, rule, pledges, item, j);
    assert Above(g.Ranking(item)[i], g.Ranking(item)[j]);
    assert Outranks(rule, g.score, item, p, q);
  }

  lemma AsManyCandidates(g: CustodyGroup, rule: WeightRule, pledges: seq<Pledge>, item: CustodyItem)
    requires IsGroupOf(g, g.replicas, rule, g.score, pledges) && OnePledgeEach(pledges)
    ensures |g.Ranking(item)| == |Standing(rule, pledges, item)|
  {
    var ranking, standing := g.Ranking(item), Standing(rule, pledges, item);
    RankingIs(g, item);
    SameElements(ranking, g.Candidates(item));
    FirstFew(ranking);
    var entries := set p | p in standing :: EntryOf(rule, g.score, item, p);
    forall r ensures r in ranking <==> r in entries {
      if r in ranking {
        var p := CandidateStands(g, rule, pledges, item, r);
        assert p in standing;
      }
      if r in entries {
        var p :| p in standing && r == EntryOf(rule, g.score, item, p);
        StandingIsCandidate(g, rule, pledges, item, p);
      }
    }
    assert (set r | r in ranking) == entries;
    AsManyEntries(rule, g.score, item, standing);
  }

  /** There are as many custodians as copies are wanted, or as many as stand if those are fewer. */
  lemma HowManyCustodians(g: CustodyGroup, rule: WeightRule, pledges: seq<Pledge>, item: CustodyItem)
    requires IsGroupOf(g, g.replicas, rule, g.score, pledges) && OnePledgeEach(pledges)
    ensures var wanted, standing := Wanted(g.replicas, pledges, item), |Standing(rule, pledges, item)|;
      |g.CustodiansOf(item)| == if standing < wanted then standing else wanted
  {
    WantedOfPledges(g, rule, pledges, item);
    AsManyCandidates(g, rule, pledges, item);
  }

  /** What keeping `item` takes of all members together: its size for each copy wanted, in 64 bits. */
  ghost function Takes(replicas: nat, pledges: seq<Pledge>, item: CustodyItem): nat {
    var bytes := item.sizeBytes * Wanted(replicas, pledges, item);
    if bytes <= 0xFFFF_FFFF_FFFF_FFFF then bytes else 0xFFFF_FFFF_FFFF_FFFF
  }

  /** So the demand of an item is what it takes; with as many standing as are wanted, its size for each of its
      custodians. */
  lemma DemandIsWhatItTakes(g: CustodyGroup, item: CustodyItem)
    ensures g.DemandBytes(item) == Takes(g.replicas, g.members, item)
    ensures |g.Ranking(item)| >= Wanted(g.replicas, g.members, item) ==>
      var bytes := item.sizeBytes * |g.CustodiansOf(item)|;
      g.DemandBytes(item) == if bytes <= 0xFFFF_FFFF_FFFF_FFFF then bytes else 0xFFFF_FFFF_FFFF_FFFF
  {
    SlotsAreWanted(g, item);
  }
}
