/**
 * Which reason the findings report for a message (`derived/topics.py`, `_offer` and
 * `_reason_rank`), and where a suggestion takes the place of a fact.
 */
module TopicReasons {
  import opened Order
  import opened Closure
  import opened Partition
  import opened Buckets
  import opened Facts
  import opened TopicRules
  import opened Topics
  import opened TopicClaims

  ghost predicate Holds(cluster: TopicCluster, m: nat, how: Text) {
    exists i :: 0 <= i < |cluster.members| && cluster.members[i].messageId == m && cluster.members[i].how == how
  }

  /** A message stands in a reported topic, with this method. */
  ghost predicate Reported(clusters: seq<TopicCluster>, m: nat, how: Text) {
    exists k :: 0 <= k < |clusters| && Holds(clusters[k], m, how)
  }

  /** Something joins the message to another one. */
  ghost predicate Joined(ids: set<nat>, links: set<Link>, m: nat) {
    m in ids && exists other :: other in ids && other != m && Connected(links, m, other)
  }

  ghost predicate Together(components: seq<seq<nat>>, m: nat) {
    exists k :: 0 <= k < |components| && |components[k]| > 1 && m in components[k]
  }

  lemma ClusterHolds(members: seq<nat>, best: map<nat, Reason>, m: nat, how: Text)
    requires members != []
    ensures Holds(ClusterOf(members, best), m, how) <==> m in members && how == ReasonOf(best, m).how
  {
    var cluster := ClusterOf(members, best);
    if m in members {
      var i :| 0 <= i < |members| && members[i] == m;
      assert cluster.members[i].messageId == m;
    }
  }

  lemma {:induction false} ClustersHold(components: seq<seq<nat>>, best: map<nat, Reason>, m: nat, how: Text)
    ensures Reported(ClustersOf(components, best), m, how)
       <==> Together(components, m) && how == ReasonOf(best, m).how
  {
    if components != [] {
      var first, rest := components[0], components[1..];
      ClustersHold(rest, best, m, how);
      var some := if |first| > 1 then [ClusterOf(first, best)] else [];
      ReportedSplit(some, ClustersOf(rest, best), m, how);
      TogetherSplit(components, m);
      if |first| > 1 {
        ClusterHolds(first, best, m, how);
        assert Reported(some, m, how) <==> Holds(some[0], m, how);
      }
    }
  }

  lemma ReportedSplit(a: seq<TopicCluster>, b: seq<TopicCluster>, m: nat, how: Text)
    ensures Reported(a + b, m, how) <==> Reported(a, m, how) || Reported(b, m, how)
  {
    if Reported(a, m, how) {
      var k :| 0 <= k < |a| && Holds(a[k], m, how);
      assert (a + b)[k] == a[k];
    }
    if Reported(b, m, how) {
      var k :| 0 <= k < |b| && Holds(b[k], m, how);
      assert (a + b)[|a| + k] == b[k];
    }
  }

  lemma TogetherSplit(components: seq<seq<nat>>, m: nat)
    requires components != []
    ensures Together(components, m)
       <==> Together(components[1..], m) || (|components[0]| > 1 && m in components[0])
  {
    if Together(components[1..], m) {
      var k :| 0 <= k < |components[1..]| && |components[1..][k]| > 1 && m in components[1..][k];
      assert components[k + 1] == components[1..][k];
    }
    if Together(components, m) {
      var k :| 0 <= k < |components| && |components[k]| > 1 && m in components[k];
      assert k > 0 ==> components[1..][k - 1] == components[k];
    }
  }

  lemma TogetherJoined(ids: set<nat>, links: set<Link>, m: nat)
    requires Together(ComponentsOf(ids, links), m)
    ensures Joined(ids, links, m)
  {
    var components := ComponentsOf(ids, links);
    var k :| 0 <= k < |components| && |components[k]| > 1 && m in components[k];
    ComponentsWhole(ids, links, k, m);
    var list := Sorted(Component(ids, links, m));
    var other := if list[0] == m then list[1] else list[0];
    assert other in list;
  }

  lemma JoinedTogether(ids: set<nat>, links: set<Link>, m: nat)
    requires Joined(ids, links, m)
    ensures Together(ComponentsOf(ids, links), m)
  {
    var other :| other in ids && other != m && Connected(links, m, other);
    var k := ComponentsCover(ids, links, m);
    var list := ComponentsOf(ids, links)[k];
    assert other in Component(ids, links, m);
    assert m in list && other in list;
  }

  ghost predicate ExactOffered(offers: set<(nat, Reason)>, m: nat) {
    exists reason :: (m, reason) in offers && IsExact(reason.how)
  }

  lemma BestIsExact(best: map<nat, Reason>, offers: set<(nat, Reason)>, m: nat)
    requires BestOf(best, offers)
    ensures IsExact(ReasonOf(best, m).how) <==> ExactOffered(offers, m)
  {
    if ExactOffered(offers, m) {
      var fact :| (m, fact) in offers && IsExact(fact.how);
      FactBeatsSuggestion(best, offers, m, fact);
    }
    if m in best {
      assert (m, best[m]) in offers;
    }
  }

  /**
   * Who is reported, and as what: a message is in a topic exactly when something joins it to
   * another, and its method is a fact exactly when a fact was among the reasons offered to it.
   */
  lemma ReportedMethod(facts: set<MessageFacts>, proposals: set<(Link, Reason)>, config: Config,
                       offered: map<Link, Reason>, r: TopicFindings, m: nat)
    requires IsFindings(facts, proposals, config, r) && Folded(offered, proposals)
    ensures (exists how :: Reported(r.clusters, m, how))
       <==> Joined(IdSet(facts), TopicLinks(facts, offered, config), m)
    ensures forall how | Reported(r.clusters, m, how) ::
              IsExact(how) <==> ExactOffered(TopicOffers(facts, offered, config), m)
  {
    var folded, best :| FoundWith(facts, proposals, config, folded, best, r);
    FoldedUnique(folded, offered, proposals);
    BestIsExact(best, TopicOffers(facts, offered, config), m);
    MethodsOf(IdSet(facts), TopicLinks(facts, offered, config), best, m);
    assert Joined(IdSet(facts), TopicLinks(facts, offered, config), m)
        ==> Reported(r.clusters, m, ReasonOf(best, m).how);
  }

  lemma MethodsOf(ids: set<nat>, links: set<Link>, best: map<nat, Reason>, m: nat)
    ensures forall how :: Reported(ClustersOf(ComponentsOf(ids, links), best), m, how)
                     <==> Joined(ids, links, m) && how == ReasonOf(best, m).how
  {
    var components := ComponentsOf(ids, links);
    if Together(components, m) { TogetherJoined(ids, links, m); }
    if Joined(ids, links, m) { JoinedTogether(ids, links, m); }
    forall how
      ensures Reported(ClustersOf(components, best), m, how) <==> Joined(ids, links, m) && how == ReasonOf(best, m).how
    {
      ClustersHold(components, best, m, how);
    }
  }

  // ----- An embedding in the place of a conversation

  /** Two messages that carry nothing. */
  function TwoPlain(): seq<MessageFacts> {
    [Plain(1, EMPTY), Plain(2, EMPTY)]
  }

  const EXCHANGE := SimilarityEdge(1, 2, CONVERSATION, 0.9)
  const LOOKALIKE := SimilarityEdge(2, 1, EMBEDDING, 0.95)

  lemma NoFacts(config: Config)
    ensures Strong(SetOf(TwoPlain()), config) == {} && ScoredOf(SetOf(TwoPlain()), config) == []
    ensures IdSet(SetOf(TwoPlain())) == {1, 2} == Ids(TwoPlain())
  {
    var facts := SetOf(TwoPlain());
    assert TwoPlain()[0] == Plain(1, EMPTY) && TwoPlain()[1] == Plain(2, EMPTY);
    assert Plain(1, EMPTY) in facts && Plain(2, EMPTY) in facts;
    assert forall one | one in facts :: KeysOf(one) == {};
    assert Index(facts) == {};
    assert Kept(facts, config) == {};
    assert SortedBuckets({}) == [];
  }

  lemma OnePair(reason: Reason, config: Config)
    requires config.maxWeakPairs >= 1
    ensures AppliedSet(map[(1, 2) := reason], 0, config) == {(1, 2)}
  {
    var offered: map<Link, Reason> := map[(1, 2) := reason];
    var ranked := Ranked(offered, offered.Keys);
    assert offered.Keys == {(1, 2)};
    assert |ranked| == 1 && ranked[0] in ranked;
    assert ranked == [(1, 2)];
  }

  lemma NothingFrom(config: Config)
    ensures CliqueLinks({}) == {} && WeakLinks([], config) == {}
    ensures StrongOffers({}) == {} && WeakOffers([], config) == {}
    ensures |Covered([])| == 0
  {}

  /** With no fact anywhere the suggestions are all there is. */
  lemma OnlySuggestions(facts: set<MessageFacts>, offered: map<Link, Reason>, config: Config)
    requires Strong(facts, config) == {} && ScoredOf(facts, config) == []
    ensures TopicLinks(facts, offered, config) == AppliedSet(offered, 0, config)
    ensures TopicOffers(facts, offered, config) == ExtraOffers(AppliedSet(offered, 0, config), offered)
  {
    NothingFrom(config);
  }

  lemma PairOffered(reason: Reason, best: map<nat, Reason>)
    requires BestOf(best, ExtraOffers({(1, 2)}, map[(1, 2) := reason]))
    ensures ReasonOf(best, 1).how == reason.how
  {
    var offered: map<Link, Reason> := map[(1, 2) := reason];
    assert (1, 2) in offered && (1, Reason(Capped(reason.score), reason.how)) in ExtraOffers({(1, 2)}, offered);
    assert (1, best[1]) in ExtraOffers({(1, 2)}, offered);
  }

  lemma PairJoined(best: map<nat, Reason>, how: Text)
    requires ReasonOf(best, 1).how == how
    ensures forall other :: Reported(ClustersOf(ComponentsOf({1, 2}, {(1, 2)}), best), 1, other) <==> other == how
  {
    Step({(1, 2)}, 1, 2);
    MethodsOf({1, 2}, {(1, 2)}, best, 1);
  }

  /** A single suggestion for two messages that share nothing gives them its method. */
  lemma OnlyReason(proposals: set<(Link, Reason)>, reason: Reason, config: Config, r: TopicFindings)
    requires config.maxWeakPairs >= 1 && Folded(map[(1, 2) := reason], proposals)
    requires IsFindings(SetOf(TwoPlain()), proposals, config, r)
    ensures forall how :: Reported(r.clusters, 1, how) <==> how == reason.how
  {
    var folded, best :| FoundWith(SetOf(TwoPlain()), proposals, config, folded, best, r);
    FoldedUnique(folded, map[(1, 2) := reason], proposals);
    NoFacts(config);
    OnePair(reason, config);
    OnlySuggestions(SetOf(TwoPlain()), folded, config);
    PairOffered(reason, best);
    PairJoined(best, reason.how);
  }

  /**
   * The conversation alone names the topic of two messages; with an embedding of a greater
   * weight beside it the rebuild reports the suggestion, and the fact is gone.
   */
  lemma ConversationHidden(config: Config, r: TopicFindings, r': TopicFindings)
    requires config.minScore == 0.5 && config.maxWeakPairs >= 1
    requires FindingsOf(TwoPlain(), [EXCHANGE], config, r)
    requires FindingsOf(TwoPlain(), [EXCHANGE, LOOKALIKE], config, r')
    ensures Reported(r.clusters, 1, CONVERSATION) && IsExact(CONVERSATION)
    ensures Reported(r'.clusters, 1, EMBEDDING) && !Reported(r'.clusters, 1, CONVERSATION)
  {
    NoFacts(config);
    ExchangeProposed(config);
    BothProposed(config);
    OnlyReason(Proposals([EXCHANGE], config, {1, 2}), Reason(0.9, CONVERSATION), config, r);
    OnlyReason(Proposals([EXCHANGE, LOOKALIKE], config, {1, 2}), Reason(0.95, EMBEDDING), config, r');
  }

  lemma ExchangeProposed(config: Config)
    requires config.minScore == 0.5
    ensures Folded(map[(1, 2) := Reason(0.9, CONVERSATION)], Proposals([EXCHANGE], config, {1, 2}))
  {
    assert [EXCHANGE][0] in [EXCHANGE] && Acceptable(EXCHANGE, config, {1, 2}) && Canonical(EXCHANGE) == (1, 2);
    assert Proposals([EXCHANGE], config, {1, 2}) == {((1, 2), Reason(0.9, CONVERSATION))};
  }

  lemma BothProposed(config: Config)
    requires config.minScore == 0.5
    ensures Folded(map[(1, 2) := Reason(0.95, EMBEDDING)], Proposals([EXCHANGE, LOOKALIKE], config, {1, 2}))
  {
    var edges := [EXCHANGE, LOOKALIKE];
    assert edges[0] in edges && edges[1] in edges;
    assert Canonical(EXCHANGE) == (1, 2) == Canonical(LOOKALIKE);
    assert Proposals(edges, config, {1, 2})
        == {((1, 2), Reason(0.9, CONVERSATION)), ((1, 2), Reason(0.95, EMBEDDING))};
  }
}
