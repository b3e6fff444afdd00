/** What A2 promises about its findings, over every archive and every budget. */
module TopicClaims {
  import opened Order
  import opened Closure
  import opened Buckets
  import opened Facts
  import opened TopicRules
  import opened WeakSignals
  import opened Topics

  // ----- Order, repeats, directions

  /** One suggestion twice, from whichever end. */
  predicate SameSuggestion(a: SimilarityEdge, b: SimilarityEdge) {
    && ((a.left == b.left && a.right == b.right) || (a.left == b.right && a.right == b.left))
    && a.weight == b.weight && a.how == b.how
  }

  /** Every edge of the one list is a self-pair or a suggestion of the other. */
  ghost predicate SaysNoMore(a: seq<SimilarityEdge>, b: seq<SimilarityEdge>) {
    forall edge | edge in a :: edge.left == edge.right || exists other :: other in b && SameSuggestion(edge, other)
  }

  lemma ProposalsWithin(a: seq<SimilarityEdge>, b: seq<SimilarityEdge>, config: Config, known: set<nat>)
    requires SaysNoMore(a, b)
    ensures Proposals(a, config, known) <= Proposals(b, config, known)
  {
    forall proposal | proposal in Proposals(a, config, known) ensures proposal in Proposals(b, config, known) {
      var edge :| edge in a && Acceptable(edge, config, known)
                  && proposal == (Canonical(edge), Reason(edge.weight, edge.how));
      var other :| other in b && SameSuggestion(edge, other);
      assert Acceptable(other, config, known) && Canonical(other) == Canonical(edge);
    }
  }

  /** One archive and one set of suggestions, however they are listed. */
  lemma SameQuestion(facts: seq<MessageFacts>, facts': seq<MessageFacts>, edges: seq<SimilarityEdge>,
                     edges': seq<SimilarityEdge>, config: Config)
    requires multiset(facts) == multiset(facts') && SaysNoMore(edges, edges') && SaysNoMore(edges', edges)
    ensures SetOf(facts) == SetOf(facts')
    ensures Proposals(edges, config, Ids(facts)) == Proposals(edges', config, Ids(facts'))
  {
    SameFacts(facts, facts');
    ProposalsWithin(edges, edges', config, Ids(facts));
    ProposalsWithin(edges', edges, config, Ids(facts));
  }

  /** The findings of a rebuild over messages and suggestions in the order they came. */
  ghost predicate FindingsOf(facts: seq<MessageFacts>, edges: seq<SimilarityEdge>, config: Config, r: TopicFindings) {
    IsFindings(SetOf(facts), Proposals(edges, config, Ids(facts)), config, r)
  }

  lemma SameFindings(facts: set<MessageFacts>, facts': set<MessageFacts>, proposals: set<(Link, Reason)>,
                     proposals': set<(Link, Reason)>, config: Config, r: TopicFindings, r': TopicFindings)
    requires facts == facts' && proposals == proposals'
    requires IsFindings(facts, proposals, config, r) && IsFindings(facts', proposals', config, r')
    ensures r == r'
  {
    FindingsUnique(facts, proposals, config, r, r');
  }

  /**
   * Permuting the messages, and permuting, repeating or turning round the suggestions or
   * adding self-pairs to them, changes no cluster, no reason, no score and no drop count.
   */
  lemma OrderIndependent(facts: seq<MessageFacts>, facts': seq<MessageFacts>,
                         edges: seq<SimilarityEdge>, edges': seq<SimilarityEdge>, config: Config,
                         r: TopicFindings, r': TopicFindings)
    requires multiset(facts) == multiset(facts')
    requires SaysNoMore(edges, edges') && SaysNoMore(edges', edges)
    requires FindingsOf(facts, edges, config, r) && FindingsOf(facts', edges', config, r')
    ensures r == r'
  {
    SameQuestion(facts, facts', edges, edges', config);
    SameFindings(SetOf(facts), SetOf(facts'), Proposals(edges, config, Ids(facts)), Proposals(edges', config,
          Ids(facts')),
                 config, r, r');
  }

  lemma SameFacts(facts: seq<MessageFacts>, facts': seq<MessageFacts>)
    requires multiset(facts) == multiset(facts')
    ensures SetOf(facts) == SetOf(facts') && Ids(facts) == Ids(facts')
  {
    forall one ensures one in facts <==> one in facts' {
      assert one in facts <==> one in multiset(facts);
      assert one in facts' <==> one in multiset(facts');
    }
  }

  // ----- The budget

  /** The weak table and the applied suggestions share one ceiling. */
  lemma BudgetShared(facts: set<MessageFacts>, offered: map<Link, Reason>, config: Config)
    ensures var spent := |Covered(ScoredOf(facts, config))|;
            spent + |Applied(offered, spent, config)| <= Max0(config.maxWeakPairs)
  {
    var pending := Pending(facts, config);
    assert pending[..0] == [];
    TableWithinBudget(pending, 0, config);
  }

  /** No budget and no suggestion separates two messages of one strong bucket. */
  lemma FactsStayJoined(facts: set<MessageFacts>, offered: map<Link, Reason>, config: Config, x: nat, y: nat)
    requires exists b :: b in Strong(facts, config) && x in b.members && y in b.members
    ensures Connected(TopicLinks(facts, offered, config), x, y)
  {
    var b :| b in Strong(facts, config) && x in b.members && y in b.members;
    assert (x, y) in CliqueLinks(Strong(facts, config));
    Step(TopicLinks(facts, offered, config), x, y);
  }

  lemma FittingMore(pending: seq<Bucket>, n: nat, config: Config, more: int)
    requires n <= |pending| && config.maxWeakPairs <= more
    ensures Fitting(pending, n, config) <= Fitting(pending, n, config.(maxWeakPairs := more))
    decreases |pending| - n
  {
    if n < |pending| && |Covered(pending[..n])| + Pairs(|pending[n].members|) <= config.maxWeakPairs {
      FittingMore(pending, n + 1, config, more);
    }
  }

  lemma {:induction false} MoreBucketsMoreSignals(pending: seq<Bucket>, m: nat, n: nat, pair: Link)
    requires m <= n <= |pending|
    ensures SharedSignals(pending[..m], pair) <= SharedSignals(pending[..n], pair)
    ensures pair in Covered(pending[..m]) ==> pair in Covered(pending[..n])
    decreases n
  {
    if m < n {
      MoreBucketsMoreSignals(pending, m, n - 1, pair);
      assert pending[..n][..n - 1] == pending[..n - 1];
    }
  }

  lemma MoreSignalsMoreWeight(few: set<Text>, many: set<Text>)
    requires few <= many
    ensures TotalWeight(few) <= TotalWeight(many)
  {}

  lemma WeakLinksMore(facts: set<MessageFacts>, config: Config, more: int)
    requires config.maxWeakPairs <= more
    requires Weak(facts, config) == Weak(facts, config.(maxWeakPairs := more))
    ensures WeakLinks(ScoredOf(facts, config), config)
         <= WeakLinks(ScoredOf(facts, config.(maxWeakPairs := more)), config.(maxWeakPairs := more))
  {
    var richer := config.(maxWeakPairs := more);
    var pending := Pending(facts, config);
    FittingMore(pending, 0, config, more);
    forall pair | pair in WeakLinks(ScoredOf(facts, config), config)
      ensures pair in WeakLinks(ScoredOf(facts, richer), richer)
    {
      MoreBucketsMoreSignals(pending, Fitting(pending, 0, config), Fitting(pending, 0, richer), pair);
      MoreSignalsMoreWeight(SharedSignals(ScoredOf(facts, config), pair), SharedSignals(ScoredOf(facts, richer), pair));
    }
  }

  /** Without suggestions a smaller budget only ever splits what a larger one joins. */
  lemma BudgetRefines(facts: set<MessageFacts>, config: Config, more: int, x: nat, y: nat)
    requires config.maxWeakPairs <= more
    requires Connected(TopicLinks(facts, map[], config), x, y)
    ensures Connected(TopicLinks(facts, map[], config.(maxWeakPairs := more)), x, y)
  {
    var richer := config.(maxWeakPairs := more);
    assert Kept(facts, config) == Kept(facts, richer);
    assert Strong(facts, config) == Strong(facts, richer) && Weak(facts, config) == Weak(facts, richer);
    WeakLinksMore(facts, config, more);
    Monotone(TopicLinks(facts, map[], config), TopicLinks(facts, map[], richer), x, y);
  }

  // ----- With suggestions the same is false

  const TEAM: Text := 7

  /** A message that carries nothing but, possibly, a participant key. */
  function Plain(id: nat, key: Text): MessageFacts {
    MessageFacts(id, EMPTY, key, 0, {}, None, {}, {}, false, None)
  }

  /** Three messages of one team, and two messages that share nothing. */
  function TeamAndTwo(): set<MessageFacts> {
    {Plain(1, TEAM), Plain(2, TEAM), Plain(3, TEAM), Plain(4, EMPTY), Plain(5, EMPTY)}
  }

  function OneSuggestion(): map<Link, Reason> {
    map[(4, 5) := Reason(0.95, EMBEDDING)]
  }

  const TEAM_BUCKET := Bucket(PARTICIPANTS, TEAM, {1, 2, 3})

  lemma TeamSharing()
    ensures Sharing(TeamAndTwo(), PARTICIPANTS, TEAM) == {1, 2, 3}
  {
    var facts := TeamAndTwo();
    assert Plain(1, TEAM) in facts && Plain(2, TEAM) in facts && Plain(3, TEAM) in facts;
    var sharing := Sharing(facts, PARTICIPANTS, TEAM);
    forall id | id in sharing ensures id in {1, 2, 3} {
      var one :| one in facts && TEAM in Carries(one, PARTICIPANTS) && one.id == id;
    }
    assert 1 in sharing && 2 in sharing && 3 in sharing;
  }

  lemma TeamIndex()
    ensures Index(TeamAndTwo()) == {(PARTICIPANTS, TEAM)}
  {
    var facts := TeamAndTwo();
    assert Plain(1, TEAM) in facts && (PARTICIPANTS, TEAM) in KeysOf(Plain(1, TEAM));
    forall key | key in Index(facts) ensures key == (PARTICIPANTS, TEAM) {
      var one :| one in facts && key in KeysOf(one);
    }
  }

  lemma TeamSize()
    ensures |TEAM_BUCKET.members| == 3 && Pairs(3) == 3
  {
    assert |{1, 2, 3}| == 3;
    PairsClosedForm(3);
  }

  lemma TeamKept(config: Config)
    requires config.minScore == 0.5 && config.bucketCap == 200
    ensures Kept(TeamAndTwo(), config) == {TEAM_BUCKET}
  {
    var facts := TeamAndTwo();
    TeamSharing();
    TeamIndex();
    TeamSize();
    OneKept(facts, config, (PARTICIPANTS, TEAM));
  }

  /** One key in the index, and its bucket of a size to keep. */
  lemma OneKept(facts: set<MessageFacts>, config: Config, key: (Text, Text))
    requires Index(facts) == {key} && 1 < |Sharing(facts, key.0, key.1)| <= config.bucketCap
    ensures Kept(facts, config) == {Bucket(key.0, key.1, Sharing(facts, key.0, key.1))}
  {
    assert key in Index(facts);
  }

  lemma OnlyWeak(facts: set<MessageFacts>, config: Config, b: Bucket)
    requires Kept(facts, config) == {b} && !IsStrong(b.major, config)
    ensures Strong(facts, config) == {} && Weak(facts, config) == {b}
  {}

  lemma OnlyBucket(b: Bucket)
    ensures SortedBuckets({b}) == [b]
  {
    var r := SortedBuckets({b});
    assert b in r;
    forall i | 0 <= i < |r| ensures r[i] == b {
      assert r[i] in r;
    }
    assert |r| > 1 ==> Before(r[0], r[1]);
  }

  lemma FittingOne(b: Bucket, config: Config)
    ensures Fitting([b], 0, config) == if Pairs(|b.members|) > config.maxWeakPairs then 0 else 1
  {
    assert [b][..0] == [];
    assert Covered([]) == {};
    assert Fitting([b], 1, config) == 1;
  }

  lemma TeamScored(facts: set<MessageFacts>, config: Config)
    requires config.minScore == 0.5 && Kept(facts, config) == {TEAM_BUCKET}
    ensures Strong(facts, config) == {}
    ensures ScoredOf(facts, config) == if config.maxWeakPairs < 3 then [] else [TEAM_BUCKET]
  {
    TeamIsWeak(config);
    OneScored(facts, config, TEAM_BUCKET, 3);
  }

  lemma TeamIsWeak(config: Config)
    requires config.minScore == 0.5
    ensures !IsStrong(TEAM_BUCKET.major, config) && Pairs(|TEAM_BUCKET.members|) == 3
  {
    TeamSize();
  }

  lemma OneScored(facts: set<MessageFacts>, config: Config, b: Bucket, cost: nat)
    requires Kept(facts, config) == {b} && !IsStrong(b.major, config) && Pairs(|b.members|) == cost
    ensures Strong(facts, config) == {}
    ensures ScoredOf(facts, config) == if config.maxWeakPairs < cost then [] else [b]
  {
    OnlyWeak(facts, config, b);
    OnlyBucket(b);
    FittingOne(b, config);
    Prefixes(b);
  }

  lemma Prefixes(b: Bucket)
    ensures [b][..0] == [] && [b][..1] == [b]
  {}

  lemma OneApplied(spent: nat, config: Config)
    ensures AppliedSet(OneSuggestion(), spent, config) == if config.maxWeakPairs - spent >= 1 then {(4, 5)} else {}
  {
    var offered := OneSuggestion();
    var ranked := Ranked(offered, offered.Keys);
    assert offered.Keys == {(4, 5)};
    assert |ranked| == 1 && ranked[0] in ranked;
    assert ranked == [(4, 5)];
    assert ranked[..0] == [];
  }

  lemma BudgetOfOne(facts: set<MessageFacts>, config: Config)
    requires config == Config(0.5, 200, 1) && Kept(facts, config) == {TEAM_BUCKET}
    ensures Connected(TopicLinks(facts, OneSuggestion(), config), 4, 5)
  {
    TeamScored(facts, config);
    OneApplied(0, config);
    assert |Covered([])| == 0;
    Step(TopicLinks(facts, OneSuggestion(), config), 4, 5);
  }

  lemma BudgetOfThree(facts: set<MessageFacts>, config: Config)
    requires config == Config(0.5, 200, 3) && Kept(facts, config) == {TEAM_BUCKET}
    ensures TopicLinks(facts, OneSuggestion(), config) == {}
  {
    TeamScored(facts, config);
    TeamTable();
    OneApplied(3, config);
  }

  /**
   * Two messages a suggestion joins on a budget of one pair fall apart on a budget of three:
   * the larger budget pays for a bucket of three pairs that joins nobody and leaves the
   * suggestion unapplied.
   */
  lemma LargerBudgetCanSplit(config: Config)
    requires config == Config(0.5, 200, 1)
    ensures Connected(TopicLinks(TeamAndTwo(), OneSuggestion(), config), 4, 5)
    ensures !Connected(TopicLinks(TeamAndTwo(), OneSuggestion(), config.(maxWeakPairs := 3)), 4, 5)
  {
    TeamKept(config);
    BudgetOfOne(TeamAndTwo(), config);
    TeamKept(config.(maxWeakPairs := 3));
    BudgetOfThree(TeamAndTwo(), config.(maxWeakPairs := 3));
    Unlinked(4, 5);
  }

  /** The team's three pairs fill the table and none of them reaches the threshold. */
  lemma TeamTable()
    ensures |Covered([TEAM_BUCKET])| == 3
    ensures forall config: Config | config.minScore == 0.5 :: WeakLinks([TEAM_BUCKET], config) == {}
  {
    var scored := [TEAM_BUCKET];
    assert scored[..0] == [] && Covered([]) == {};
    assert Covered(scored) == PairsOf(TEAM_BUCKET.members);
    PairsOfSize(TEAM_BUCKET.members);
    TeamSize();
    forall pair | pair in Covered(scored) ensures TotalWeight(SharedSignals(scored, pair)) < 0.5 {
      assert SharedSignals(scored[..0], pair) == {};
      assert SharedSignals(scored, pair) == {PARTICIPANTS};
    }
  }

  // ----- Facts before suggestions

  /** A message with any exact reason offered carries an exact reason, whatever the scores. */
  lemma FactBeatsSuggestion(best: map<nat, Reason>, offers: set<(nat, Reason)>, m: nat, fact: Reason)
    requires BestOf(best, offers) && (m, fact) in offers && IsExact(fact.how)
    ensures m in best && IsExact(best[m].how)
  {
    assert !Better(fact, best[m]);
  }

  /**
   * Before that, two suggestions for one pair are folded by weight alone: a conversation
   * survives the fold exactly when no other proposal for the pair comes first.
   */
  lemma ConversationSurvives(offered: map<Link, Reason>, proposals: set<(Link, Reason)>, pair: Link, exchange: Reason)
    requires Folded(offered, proposals) && (pair, exchange) in proposals
    ensures pair in offered
    ensures offered[pair] == exchange
       <==> forall other {:trigger (pair, other) in proposals} | (pair, other) in proposals ::
             !FoldsBefore(other, exchange)
  {
    assert (pair, offered[pair]) in proposals;
    if offered[pair] == exchange {
      forall other | (pair, other) in proposals ensures !FoldsBefore(other, exchange) {}
    }
    if forall other {:trigger (pair, other) in proposals} | (pair, other) in proposals ::
         !FoldsBefore(other, exchange)
    {
      assert !FoldsBefore(offered[pair], exchange) && !FoldsBefore(exchange, offered[pair]);
    }
  }

  /** An embedding at 0.95 hides a conversation at 0.9: the pair is then reported as a suggestion. */
  lemma EmbeddingHidesConversation(offered: map<Link, Reason>, config: Config)
    requires config.minScore == 0.5
    requires Folded(offered, Proposals([SimilarityEdge(1, 2, CONVERSATION, 0.9), SimilarityEdge(2, 1, EMBEDDING, 0.95)],
                                       config, {1, 2}))
    ensures (1, 2) in offered && offered[(1, 2)] == Reason(0.95, EMBEDDING) && !IsExact(offered[(1, 2)].how)
  {
    var edges := [SimilarityEdge(1, 2, CONVERSATION, 0.9), SimilarityEdge(2, 1, EMBEDDING, 0.95)];
    assert edges[1] in edges && Acceptable(edges[1], config, {1, 2}) && Canonical(edges[1]) == (1, 2);
    assert ((1, 2), Reason(0.95, EMBEDDING)) in Proposals(edges, config, {1, 2});
    assert ((1, 2), offered[(1, 2)]) in Proposals(edges, config, {1, 2});
  }

  // ----- Every membership is explained

  lemma LinkExplained(facts: set<MessageFacts>, offered: map<Link, Reason>, config: Config, link: Link)
    requires link in TopicLinks(facts, offered, config)
    ensures exists reason :: (link.0, reason) in TopicOffers(facts, offered, config)
    ensures exists reason :: (link.1, reason) in TopicOffers(facts, offered, config)
  {
    var scored := ScoredOf(facts, config);
    var applied := AppliedSet(offered, |Covered(scored)|, config);
    var reason;
    if link in CliqueLinks(Strong(facts, config)) {
      var b :| b in Strong(facts, config) && link.0 in b.members && link.1 in b.members;
      reason := Reason(WeightOf(b.major), b.major);
      assert (link.0, reason) in StrongOffers(Strong(facts, config));
      assert (link.1, reason) in StrongOffers(Strong(facts, config));
    } else if link in WeakLinks(scored, config) {
      reason := PairReason(SharedSignals(scored, link));
      assert (link.0, reason) in WeakOffers(scored, config) && (link.1, reason) in WeakOffers(scored, config);
    } else {
      reason := Reason(Capped(offered[link].score), offered[link].how);
      assert (link.0, reason) in ExtraOffers(applied, offered) && (link.1, reason) in ExtraOffers(applied, offered);
    }
    assert (link.0, reason) in TopicOffers(facts, offered, config);
    assert (link.1, reason) in TopicOffers(facts, offered, config);
  }

  /** Nobody is in a topic of two or more without a reason: the empty default is never used. */
  lemma MembersExplained(facts: set<MessageFacts>, offered: map<Link, Reason>, config: Config,
                         best: map<nat, Reason>, x: nat, y: nat)
    requires BestOf(best, TopicOffers(facts, offered, config))
    requires x != y && Connected(TopicLinks(facts, offered, config), x, y)
    ensures x in best && (x, best[x]) in TopicOffers(facts, offered, config)
  {
    var links := TopicLinks(facts, offered, config);
    var p :| Walk(links, p) && p[0] == x && p[|p| - 1] == y;
    assert Hop(links, p, 1);
    var link := if (p[0], p[1]) in links then (p[0], p[1]) else (p[1], p[0]);
    LinkExplained(facts, offered, config, link);
    var reason :| (x, reason) in TopicOffers(facts, offered, config);
  }
}
