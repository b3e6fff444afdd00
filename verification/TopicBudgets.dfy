/**
 * When a larger weak-pair budget joins at least what a smaller one joined: the suggestions
 * live on what the weak table leaves over (`derived/topics.py`, `_join_extra`).
 */
module TopicBudgets {
  import opened Order
  import opened Closure
  import opened Buckets
  import opened Facts
  import opened TopicRules
  import opened WeakSignals
  import opened Topics
  import opened TopicClaims

  /** What the facts alone join. */
  ghost function FactLinks(facts: set<MessageFacts>, config: Config): set<Link> {
    CliqueLinks(Strong(facts, config)) + WeakLinks(ScoredOf(facts, config), config)
  }

  ghost function Spent(facts: set<MessageFacts>, config: Config): nat {
    |Covered(ScoredOf(facts, config))|
  }

  /** How many suggestions the weak table leaves room for. */
  ghost function Room(facts: set<MessageFacts>, config: Config): nat {
    Max0(config.maxWeakPairs - Spent(facts, config))
  }

  /** What the one budget joins, the other joins. */
  ghost predicate Refines(facts: set<MessageFacts>, offered: map<Link, Reason>, config: Config, richer: Config) {
    forall x, y | Connected(TopicLinks(facts, offered, config), x, y) ::
      Connected(TopicLinks(facts, offered, richer), x, y)
  }

  lemma FactsRefine(facts: set<MessageFacts>, config: Config, more: int)
    requires config.maxWeakPairs <= more
    ensures FactLinks(facts, config) <= FactLinks(facts, config.(maxWeakPairs := more))
  {
    var richer := config.(maxWeakPairs := more);
    assert Kept(facts, config) == Kept(facts, richer);
    assert Strong(facts, config) == Strong(facts, richer) && Weak(facts, config) == Weak(facts, richer);
    WeakLinksMore(facts, config, more);
  }

  /** The suggestions applied are the first of one ranking, whatever the budget. */
  lemma AppliedWithin(offered: map<Link, Reason>, spent: nat, config: Config, spent': nat, config': Config)
    requires |Applied(offered, spent, config)| <= |Applied(offered, spent', config')|
    ensures AppliedSet(offered, spent, config) <= AppliedSet(offered, spent', config')
  {
    var few, many := Applied(offered, spent, config), Applied(offered, spent', config');
    forall p | p in few ensures p in many {
      var i :| 0 <= i < |few| && few[i] == p;
      assert many[i] == p;
    }
  }

  /** With as many suggestions applied as before, a larger budget only joins more. */
  lemma RoomRefines(facts: set<MessageFacts>, offered: map<Link, Reason>, config: Config, more: int)
    requires config.maxWeakPairs <= more
    requires |Applied(offered, Spent(facts, config), config)|
          <= |Applied(offered, Spent(facts, config.(maxWeakPairs := more)), config.(maxWeakPairs := more))|
    ensures Refines(facts, offered, config, config.(maxWeakPairs := more))
  {
    var richer := config.(maxWeakPairs := more);
    FactsRefine(facts, config, more);
    AppliedWithin(offered, Spent(facts, config), config, Spent(facts, richer), richer);
    MonotoneAll(TopicLinks(facts, offered, config), TopicLinks(facts, offered, richer));
  }

  // ----- Which suggestions there can be

  /** What some list of suggestions for this archive folds to. */
  ghost predicate Suggestable(offered: map<Link, Reason>, known: set<nat>, config: Config) {
    forall pair {:trigger offered[pair]} | pair in offered ::
      pair.0 < pair.1 && pair.0 in known && pair.1 in known && offered[pair].score >= config.minScore
  }

  ghost function ItemsOf(offered: map<Link, Reason>): set<(Link, Reason)> {
    set pair | pair in offered :: (pair, offered[pair])
  }

  lemma ItemsSplit(offered: map<Link, Reason>, rest: map<Link, Reason>, pair: Link)
    requires pair in offered && rest == offered - {pair}
    ensures ItemsOf(offered) == ItemsOf(rest) + {(pair, offered[pair])}
  {
    forall other | other in offered
      ensures (other, offered[other]) in ItemsOf(rest) + {(pair, offered[pair])}
    {
      if other != pair { assert other in rest; }
    }
  }

  lemma ItemProposed(before: seq<SimilarityEdge>, pair: Link, reason: Reason, known: set<nat>, config: Config)
    requires pair.0 < pair.1 && pair.0 in known && pair.1 in known && reason.score >= config.minScore
    ensures Proposals(before + [SimilarityEdge(pair.0, pair.1, reason.how, reason.score)], config, known)
         == Proposals(before, config, known) + {(pair, reason)}
  {
    var edges := before + [SimilarityEdge(pair.0, pair.1, reason.how, reason.score)];
    ProposalsGrow(edges, |before|, config, known);
    assert edges[..|before|] == before && edges[..|before| + 1] == edges;
  }

  lemma {:induction false} EdgesFor(offered: map<Link, Reason>, known: set<nat>, config: Config)
    returns (edges: seq<SimilarityEdge>)
    requires Suggestable(offered, known, config)
    ensures Proposals(edges, config, known) == ItemsOf(offered)
    decreases offered
  {
    edges := [];
    if offered != map[] {
      var pair :| pair in offered;
      var reason, rest := offered[pair], offered - {pair};
      assert forall other | other in rest :: rest[other] == offered[other];
      var before := EdgesFor(rest, known, config);
      ItemProposed(before, pair, reason, known, config);
      ItemsSplit(offered, rest, pair);
      edges := before + [SimilarityEdge(pair.0, pair.1, reason.how, reason.score)];
    }
  }

  /** They are exactly the suggestions a list of edges can fold to. */
  lemma SuggestableIsFolded(offered: map<Link, Reason>, known: set<nat>, config: Config)
    ensures Suggestable(offered, known, config)
       <==> exists edges :: Folded(offered, Proposals(edges, config, known))
  {
    if Suggestable(offered, known, config) {
      var edges := EdgesFor(offered, known, config);
      assert Folded(offered, Proposals(edges, config, known));
    }
    if edges :| Folded(offered, Proposals(edges, config, known)) {
      forall pair | pair in offered
        ensures pair.0 < pair.1 && pair.0 in known && pair.1 in known && offered[pair].score >= config.minScore
      {
        assert (pair, offered[pair]) in Proposals(edges, config, known);
      }
    }
  }

  // ----- The ranking

  lemma {:induction false} FewMembers(s: seq<Link>)
    ensures |set p | p in s| <= |s|
  {
    if s != [] {
      FewMembers(s[1..]);
      assert (set p | p in s) == (set p | p in s[1..]) + {s[0]};
    }
  }

  /** A list as long as its set of members repeats none of them. */
  lemma PrefixSize(s: seq<Link>, all: set<Link>, n: nat)
    requires |s| == |all| && n <= |s| && forall p :: p in s <==> p in all
    ensures |set p | p in s[..n]| == n
  {
    var few, others := set p | p in s[..n], set p | p in s[n..];
    FewMembers(s[..n]);
    FewMembers(s[n..]);
    assert s == s[..n] + s[n..];
    assert all == few + others;
    assert |few + others| + |few * others| == |few| + |others|;
  }

  /** A pair weaker than all others is ranked last. */
  lemma {:induction false} WeakestIsLast(offered: map<Link, Reason>, strong: set<Link>, last: Link, p: Link)
    requires strong <= offered.Keys && last in offered && last !in strong
    requires forall q | q in strong :: offered[q].score > offered[last].score
    requires p in Ranked(offered, strong + {last})[..|strong|]
    ensures p in strong
    decreases |strong|
  {
    var pairs := strong + {last};
    var ranked := Ranked(offered, pairs);
    var first := ranked[0];
    assert RanksFirst(offered, first, pairs);
    assert first != last by {
      var other :| other in strong;
      assert other in pairs;
    }
    if p != first {
      assert pairs - {first} == (strong - {first}) + {last};
      assert p in ranked[1..][..|strong| - 1];
      WeakestIsLast(offered, strong - {first}, last, p);
    }
  }

  // ----- Sides no fact joins

  ghost predicate NothingCrosses(links: set<Link>, side: set<nat>) {
    forall a, b {:trigger (a, b) in links} | (a, b) in links :: a in side <==> b in side
  }

  /** Some of the messages, not all, with no fact between them and the rest. */
  ghost predicate Side(facts: set<MessageFacts>, config: Config, side: set<nat>) {
    side < IdSet(facts) && side != {} && NothingCrosses(FactLinks(facts, config), side)
  }

  ghost predicate Within(pairs: set<Link>, side: set<nat>, rest: set<nat>) {
    pairs <= PairsOf(side) + PairsOf(rest)
  }

  /** How many different pairs there are that do not cross from one side to the other. */
  ghost function Uncrossed(side: set<nat>, rest: set<nat>): nat {
    Pairs(|side|) + Pairs(|rest|)
  }

  /**
   * Too little room on any two sides: as many suggestions as the budget applies cannot all
   * keep clear of the gap between them.
   */
  ghost predicate Crowded(facts: set<MessageFacts>, config: Config) {
    forall side {:trigger Side(facts, config, side)} | Side(facts, config, side) ::
      Uncrossed(side, IdSet(facts) - side) < Room(facts, config)
  }

  lemma {:induction false} WalkStays(links: set<Link>, side: set<nat>, p: seq<nat>)
    requires NothingCrosses(links, side) && Walk(links, p)
    ensures p[0] in side <==> p[|p| - 1] in side
    decreases |p|
  {
    if |p| > 1 {
      WalkShorter(links, p);
      WalkStays(links, side, p[..|p| - 1]);
      assert Hop(links, p, |p| - 1);
    }
  }

  lemma ConnectionStays(links: set<Link>, side: set<nat>, x: nat, y: nat)
    requires NothingCrosses(links, side) && Connected(links, x, y)
    ensures x in side <==> y in side
  {
    var p :| Walk(links, p) && p[0] == x && p[|p| - 1] == y;
    WalkStays(links, side, p);
  }

  /** What a message reaches is a side, unless it is everything. */
  lemma ReachIsClosed(links: set<Link>, ids: set<nat>, x: nat, side: set<nat>)
    requires forall a, b {:trigger (a, b) in links} | (a, b) in links :: a in ids && b in ids
    requires side == set z | z in ids && Connected(links, x, z)
    ensures NothingCrosses(links, side)
  {
    forall a, b | (a, b) in links ensures a in side <==> b in side {
      Step(links, a, b);
      Step(links, b, a);
      if Connected(links, x, a) { Transitive(links, x, a, b); }
      if Connected(links, x, b) { Transitive(links, x, b, a); }
    }
  }

  lemma UncrossedSize(pairs: set<Link>, side: set<nat>, rest: set<nat>)
    requires Within(pairs, side, rest)
    ensures |pairs| <= Uncrossed(side, rest)
  {
    PairsOfSize(side);
    PairsOfSize(rest);
    var all := PairsOf(side) + PairsOf(rest);
    SubsetSize(pairs, all);
    assert |all| + |PairsOf(side) * PairsOf(rest)| == |PairsOf(side)| + |PairsOf(rest)|;
  }

  lemma PairsApart(side: set<nat>, rest: set<nat>)
    requires side !! rest
    ensures |PairsOf(side) + PairsOf(rest)| == Uncrossed(side, rest)
  {
    PairsOfSize(side);
    PairsOfSize(rest);
    assert PairsOf(side) !! PairsOf(rest);
    DisjointSize(PairsOf(side) + PairsOf(rest), PairsOf(side), PairsOf(rest));
  }

  lemma {:induction false} SubsetOfSize(all: set<Link>, n: nat) returns (some: set<Link>)
    requires n <= |all|
    ensures some <= all && |some| == n
  {
    if n == 0 {
      some := {};
    } else {
      var p :| p in all;
      var others := SubsetOfSize(all - {p}, n - 1);
      some := others + {p};
    }
  }

  lemma FactsKnown(facts: set<MessageFacts>, config: Config, a: nat, b: nat)
    requires (a, b) in FactLinks(facts, config)
    ensures a in IdSet(facts) && b in IdSet(facts)
  {
    if (a, b) in WeakLinks(ScoredOf(facts, config), config) {
      PendingKnown(facts, config);
      CoveredKnown(ScoredOf(facts, config), IdSet(facts), (a, b));
    } else {
      BucketMembersKnown(facts, config);
      var bucket :| bucket in Strong(facts, config) && a in bucket.members && b in bucket.members;
    }
  }

  lemma LinksKnown(facts: set<MessageFacts>, offered: map<Link, Reason>, config: Config)
    requires Suggestable(offered, IdSet(facts), config)
    ensures forall a, b {:trigger (a, b) in TopicLinks(facts, offered, config)} |
              (a, b) in TopicLinks(facts, offered, config) :: a in IdSet(facts) && b in IdSet(facts)
  {
    forall a, b | (a, b) in TopicLinks(facts, offered, config) ensures a in IdSet(facts) && b in IdSet(facts) {
      if (a, b) in FactLinks(facts, config) {
        FactsKnown(facts, config, a, b);
      }
    }
  }

  lemma AppliedSize(offered: map<Link, Reason>, spent: nat, config: Config)
    ensures |Applied(offered, spent, config)| == |AppliedSet(offered, spent, config)|
    ensures |Applied(offered, spent, config)|
         == if |offered| <= Max0(config.maxWeakPairs - spent) then |offered| else Max0(config.maxWeakPairs - spent)
  {
    var ranked, applied := Ranked(offered, offered.Keys), Applied(offered, spent, config);
    assert |offered.Keys| == |offered|;
    PrefixSize(ranked, offered.Keys, |applied|);
    assert applied == ranked[..|applied|];
  }

  // ----- When the room suffices

  lemma FewerStay(few: set<Link>, links: set<Link>, side: set<nat>)
    requires few <= links && NothingCrosses(links, side)
    ensures NothingCrosses(few, side)
  {}

  lemma StayingWithin(pairs: set<Link>, offered: map<Link, Reason>, known: set<nat>, config: Config, side: set<nat>)
    requires pairs <= offered.Keys && Suggestable(offered, known, config) && NothingCrosses(pairs, side)
    ensures Within(pairs, side, known - side)
  {
    forall pair | pair in pairs ensures pair in PairsOf(side) + PairsOf(known - side) {
      assert (pair.0, pair.1) in pairs && offered[pair].score >= config.minScore;
    }
  }

  lemma ClosedPairs(facts: set<MessageFacts>, offered: map<Link, Reason>, config: Config, side: set<nat>)
    requires Suggestable(offered, IdSet(facts), config)
    requires side < IdSet(facts) && side != {} && NothingCrosses(TopicLinks(facts, offered, config), side)
    ensures Side(facts, config, side)
    ensures |Applied(offered, Spent(facts, config), config)| <= Uncrossed(side, IdSet(facts) - side)
  {
    var links, applied := TopicLinks(facts, offered, config), AppliedSet(offered, Spent(facts, config), config);
    assert FactLinks(facts, config) <= links && applied <= links;
    FewerStay(FactLinks(facts, config), links, side);
    FewerStay(applied, links, side);
    StayingWithin(applied, offered, IdSet(facts), config, side);
    UncrossedSize(applied, side, IdSet(facts) - side);
    AppliedSize(offered, Spent(facts, config), config);
  }

  /** Where it is too crowded to keep clear of any gap, a spent room joins everything. */
  lemma CrowdedJoinsAll(facts: set<MessageFacts>, offered: map<Link, Reason>, config: Config, x: nat, y: nat)
    requires Suggestable(offered, IdSet(facts), config) && Crowded(facts, config)
    requires |Applied(offered, Spent(facts, config), config)| >= Room(facts, config)
    requires x in IdSet(facts) && y in IdSet(facts)
    ensures Connected(TopicLinks(facts, offered, config), x, y)
  {
    var links, ids := TopicLinks(facts, offered, config), IdSet(facts);
    if !Connected(links, x, y) {
      var side := set z | z in ids && Connected(links, x, z);
      LinksKnown(facts, offered, config);
      ReachIsClosed(links, ids, x, side);
      Reflexive(links, x);
      assert x in side && y !in side;
      ClosedPairs(facts, offered, config, side);
      assert false;
    }
  }

  lemma EndsKnown(facts: set<MessageFacts>, offered: map<Link, Reason>, config: Config, x: nat, y: nat)
    requires Suggestable(offered, IdSet(facts), config)
    requires Connected(TopicLinks(facts, offered, config), x, y) && x != y
    ensures x in IdSet(facts) && y in IdSet(facts)
  {
    LinksKnown(facts, offered, config);
    var links := TopicLinks(facts, offered, config);
    ConnectionStays(links, IdSet(facts), x, y);
    if x !in IdSet(facts) {
      assert NothingCrosses(links, {x});
      ConnectionStays(links, {x}, x, y);
    }
  }

  /** Room for as much as before, or for so much that nothing stays apart. */
  lemma RoomSuffices(facts: set<MessageFacts>, offered: map<Link, Reason>, config: Config, more: int)
    requires config.maxWeakPairs <= more && Suggestable(offered, IdSet(facts), config)
    requires Room(facts, config) <= Room(facts, config.(maxWeakPairs := more))
          || Crowded(facts, config.(maxWeakPairs := more))
    ensures Refines(facts, offered, config, config.(maxWeakPairs := more))
  {
    var richer := config.(maxWeakPairs := more);
    AppliedSize(offered, Spent(facts, config), config);
    AppliedSize(offered, Spent(facts, richer), richer);
    if |Applied(offered, Spent(facts, config), config)| <= |Applied(offered, Spent(facts, richer), richer)| {
      RoomRefines(facts, offered, config, more);
    } else {
      forall x, y | Connected(TopicLinks(facts, offered, config), x, y)
        ensures Connected(TopicLinks(facts, offered, richer), x, y)
      {
        if x == y {
          Reflexive(TopicLinks(facts, offered, richer), x);
        } else {
          EndsKnown(facts, offered, config, x, y);
          CrowdedJoinsAll(facts, offered, richer, x, y);
        }
      }
    }
  }

  // ----- And when it does not

  /** Some pairs that cross no gap at full weight, and one across it at the threshold. */
  ghost function Crossing(kept: set<Link>, last: Link, config: Config): map<Link, Reason> {
    map pair | pair in kept + {last} ::
      Reason(if pair == last then config.minScore else config.minScore + 1.0, EMBEDDING)
  }

  lemma KeptStays(kept: set<Link>, side: set<nat>, rest: set<nat>)
    requires Within(kept, side, rest) && side !! rest
    ensures NothingCrosses(kept, side)
  {
    forall a, b | (a, b) in kept ensures a in side <==> b in side {
      assert (a, b) in PairsOf(side) || (a, b) in PairsOf(rest);
    }
  }

  lemma BothStay(facts: set<Link>, applied: set<Link>, side: set<nat>)
    requires NothingCrosses(facts, side) && NothingCrosses(applied, side)
    ensures NothingCrosses(facts + applied, side)
  {}

  lemma OnlyKept(kept: set<Link>, last: Link, spent: nat, config: Config)
    requires last !in kept && |kept| == Max0(config.maxWeakPairs - spent)
    ensures AppliedSet(Crossing(kept, last, config), spent, config) <= kept
  {
    var offered := Crossing(kept, last, config);
    assert offered.Keys == kept + {last};
    forall p | p in AppliedSet(offered, spent, config) ensures p in kept {
      WeakestIsLast(offered, kept, last, p);
    }
  }

  /** With room for the kept ones only, the gap stays. */
  lemma GapStays(facts: set<MessageFacts>, config: Config, side: set<nat>, kept: set<Link>, x: nat, y: nat)
    requires Side(facts, config, side) && Within(kept, side, IdSet(facts) - side)
    requires (x in side) != (y in side)
    requires |kept| == Room(facts, config)
    ensures !Connected(TopicLinks(facts, Crossing(kept, (x, y), config), config), x, y)
  {
    var offered := Crossing(kept, (x, y), config);
    var links, applied := TopicLinks(facts, offered, config), AppliedSet(offered, Spent(facts, config), config);
    KeptStays(kept, side, IdSet(facts) - side);
    OnlyKept(kept, (x, y), Spent(facts, config), config);
    BothStay(FactLinks(facts, config), applied, side);
    if Connected(links, x, y) {
      ConnectionStays(links, side, x, y);
    }
  }

  /** With room for one more it closes. */
  lemma GapCloses(facts: set<MessageFacts>, config: Config, kept: set<Link>, x: nat, y: nat)
    requires (x, y) !in kept && |kept| < Room(facts, config)
    ensures Connected(TopicLinks(facts, Crossing(kept, (x, y), config), config), x, y)
  {
    var offered := Crossing(kept, (x, y), config);
    assert offered.Keys == kept + {(x, y)};
    assert (x, y) in Ranked(offered, offered.Keys);
    assert (x, y) in AppliedSet(offered, Spent(facts, config), config);
    Step(TopicLinks(facts, offered, config), x, y);
  }

  /** One pair across the gap between two sides. */
  lemma PairAcross(ids: set<nat>, side: set<nat>) returns (x: nat, y: nat)
    requires side < ids && side != {}
    ensures x in ids && y in ids && x < y && (x in side) != (y in side)
  {
    var rest := ids - side;
    assert ids == side + rest && (rest == {} ==> side + rest == side);
    var a, b :| a in side && b in rest;
    x, y := if a < b then a else b, if a < b then b else a;
  }

  /** As many pairs as there is room for, none of them across. */
  lemma KeptPairs(ids: set<nat>, side: set<nat>, n: nat) returns (kept: set<Link>)
    requires side <= ids && n <= Uncrossed(side, ids - side)
    ensures |kept| == n && Within(kept, side, ids - side)
  {
    PairsApart(side, ids - side);
    kept := SubsetOfSize(PairsOf(side) + PairsOf(ids - side), n);
  }

  lemma CrossingSuggestable(known: set<nat>, config: Config, side: set<nat>, kept: set<Link>, x: nat, y: nat)
    requires side <= known && Within(kept, side, known - side) && x in known && y in known && x < y
    ensures Suggestable(Crossing(kept, (x, y), config), known, config)
  {}

  lemma SameCrossing(kept: set<Link>, last: Link, config: Config, richer: Config)
    requires config.minScore == richer.minScore
    ensures Crossing(kept, last, config) == Crossing(kept, last, richer)
  {}

  lemma GapMatters(facts: set<MessageFacts>, config: Config, richer: Config, side: set<nat>, kept: set<Link>,
                   x: nat, y: nat)
    requires config.minScore == richer.minScore
    requires Side(facts, richer, side) && Within(kept, side, IdSet(facts) - side)
    requires |kept| == Room(facts, richer) < Room(facts, config)
    requires x in IdSet(facts) && y in IdSet(facts) && x < y && (x in side) != (y in side)
    ensures Suggestable(Crossing(kept, (x, y), config), IdSet(facts), config)
    ensures !Refines(facts, Crossing(kept, (x, y), config), config, richer)
  {
    CrossingSuggestable(IdSet(facts), config, side, kept, x, y);
    SameCrossing(kept, (x, y), config, richer);
    assert (x, y) !in PairsOf(side) && (x, y) !in PairsOf(IdSet(facts) - side);
    GapCloses(facts, config, kept, x, y);
    GapStays(facts, richer, side, kept, x, y);
  }

  lemma RoomNeeded(facts: set<MessageFacts>, config: Config, more: int) returns (offered: map<Link, Reason>)
    requires Room(facts, config) > Room(facts, config.(maxWeakPairs := more))
    requires !Crowded(facts, config.(maxWeakPairs := more))
    ensures Suggestable(offered, IdSet(facts), config)
    ensures !Refines(facts, offered, config, config.(maxWeakPairs := more))
  {
    var richer := config.(maxWeakPairs := more);
    var side :| Side(facts, richer, side) && Uncrossed(side, IdSet(facts) - side) >= Room(facts, richer);
    var x, y := PairAcross(IdSet(facts), side);
    var kept := KeptPairs(IdSet(facts), side, Room(facts, richer));
    offered := Crossing(kept, (x, y), config);
    GapMatters(facts, config, richer, side, kept, x, y);
  }

  /**
   * A larger budget joins at least what a smaller one joined, whatever is suggested, exactly
   * when it leaves no less room for suggestions, or so much that they can leave no gap.
   */
  lemma LargerBudgetRefines(facts: set<MessageFacts>, config: Config, more: int)
    requires config.maxWeakPairs <= more
    ensures (forall offered: map<Link, Reason>
               {:trigger Refines(facts, offered, config, config.(maxWeakPairs := more))} |
               Suggestable(offered, IdSet(facts), config) ::
               Refines(facts, offered, config, config.(maxWeakPairs := more)))
       <==> (|| Room(facts, config) <= Room(facts, config.(maxWeakPairs := more))
             || Crowded(facts, config.(maxWeakPairs := more)))
  {
    var richer := config.(maxWeakPairs := more);
    if Room(facts, config) <= Room(facts, richer) || Crowded(facts, richer) {
      forall offered | Suggestable(offered, IdSet(facts), config) ensures Refines(facts, offered, config, richer) {
        RoomSuffices(facts, offered, config, more);
      }
    } else {
      var offered := RoomNeeded(facts, config, more);
    }
  }

  // ----- Less room that is still enough

  const QUARTET := Bucket(PARTICIPANTS, TEAM, {1, 2, 3, 4})

  /** Four messages of one team. */
  function Quartet(): set<MessageFacts> {
    {Plain(1, TEAM), Plain(2, TEAM), Plain(3, TEAM), Plain(4, TEAM)}
  }

  lemma QuartetShares()
    ensures Sharing(Quartet(), PARTICIPANTS, TEAM) == {1, 2, 3, 4} && IdSet(Quartet()) == {1, 2, 3, 4}
  {
    var facts := Quartet();
    forall id | id in {1, 2, 3, 4} ensures id in IdSet(facts) && id in Sharing(facts, PARTICIPANTS, TEAM) {
      assert Plain(id, TEAM) in facts && TEAM in Carries(Plain(id, TEAM), PARTICIPANTS);
    }
    assert forall one | one in facts :: one.id in {1, 2, 3, 4};
  }

  lemma QuartetIndex()
    ensures Index(Quartet()) == {(PARTICIPANTS, TEAM)}
  {
    var facts := Quartet();
    forall one | one in facts ensures KeysOf(one) == {(PARTICIPANTS, TEAM)} {
      assert one == Plain(one.id, TEAM);
    }
    assert Plain(1, TEAM) in facts;
  }

  lemma FourPairs()
    ensures |{1, 2, 3, 4}| == 4 && Pairs(1) == 0 && Pairs(2) == 1 && Pairs(3) == 3 && Pairs(4) == 6
  {
    PairsClosedForm(1);
    PairsClosedForm(2);
    PairsClosedForm(3);
    PairsClosedForm(4);
  }

  lemma QuartetRoom(config: Config)
    requires config.minScore == 0.5 && config.bucketCap == 200 && config.maxWeakPairs >= 0
    ensures Room(Quartet(), config) == if config.maxWeakPairs < 6 then config.maxWeakPairs else config.maxWeakPairs - 6
  {
    QuartetScored(config);
    QuartetCovered();
  }

  lemma QuartetScored(config: Config)
    requires config.minScore == 0.5 && config.bucketCap == 200
    ensures ScoredOf(Quartet(), config) == if config.maxWeakPairs < 6 then [] else [QUARTET]
  {
    QuartetKept(config);
    QuartetIsWeak(config);
    OneScored(Quartet(), config, QUARTET, 6);
  }

  lemma QuartetKept(config: Config)
    requires config.bucketCap == 200
    ensures Kept(Quartet(), config) == {QUARTET}
  {
    QuartetShares();
    QuartetIndex();
    FourPairs();
    OneKept(Quartet(), config, (PARTICIPANTS, TEAM));
  }

  lemma QuartetIsWeak(config: Config)
    requires config.minScore == 0.5
    ensures !IsStrong(QUARTET.major, config) && Pairs(|QUARTET.members|) == 6
  {
    FourPairs();
  }

  lemma QuartetCovered()
    ensures |Covered([])| == 0 && |Covered([QUARTET])| == 6
  {
    assert [QUARTET][..0] == [] && Covered([]) == {};
    assert Covered([QUARTET]) == PairsOf(QUARTET.members);
    PairsOfSize(QUARTET.members);
    FourPairs();
  }

  /** Two sides of four messages hold at most three pairs between them. */
  lemma FewUncrossed(side: set<nat>)
    requires side < {1, 2, 3, 4} && side != {}
    ensures Uncrossed(side, {1, 2, 3, 4} - side) <= 3
  {
    var rest := {1, 2, 3, 4} - side;
    FourPairs();
    DisjointSize({1, 2, 3, 4}, side, rest);
    assert |side| == 1 || |side| == 2 || |side| == 3 || rest == {};
  }

  /**
   * A budget of five leaves the team's four messages room for five suggestions and one of ten
   * for four, and still joins whatever the smaller one does: four pairs leave no gap.
   */
  lemma LessRoomCanSuffice(config: Config)
    requires config == Config(0.5, 200, 5)
    ensures var richer := config.(maxWeakPairs := 10);
            && Room(Quartet(), config) > Room(Quartet(), richer)
            && forall offered: map<Link, Reason> {:trigger Refines(Quartet(), offered, config, richer)} |
                 Suggestable(offered, IdSet(Quartet()), config) :: Refines(Quartet(), offered, config, richer)
  {
    var richer := config.(maxWeakPairs := 10);
    QuartetRoom(config);
    QuartetRoom(richer);
    QuartetShares();
    forall side | Side(Quartet(), richer, side) ensures Uncrossed(side, IdSet(Quartet()) - side) < 4 {
      FewUncrossed(side);
    }
    LargerBudgetRefines(Quartet(), config, 10);
  }
}
