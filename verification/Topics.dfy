/** A2, topics: the passes that compute the relation (`derived/topics.py`). */
module Topics {
  import opened Order
  import opened Closure
  import opened Partition
  import opened Joining
  import opened Buckets
  import opened Facts
  import opened TopicRules
  import opened WeakSignals

  // ----- `_buckets`

  ghost function SetOf(facts: seq<MessageFacts>): set<MessageFacts> {
    set one | one in facts
  }

  /** The inverted index of a set of messages. */
  ghost predicate Indexed(found: map<(Text, Text), set<nat>>, facts: set<MessageFacts>) {
    && found.Keys == Index(facts)
    && forall key {:trigger found[key]} | key in found :: found[key] == Sharing(facts, key.0, key.1)
  }

  /** The index while one message's keys are being entered. */
  ghost predicate Entering(found: map<(Text, Text), set<nat>>, facts: set<MessageFacts>,
                           one: MessageFacts, done: set<(Text, Text)>)
  {
    && found.Keys == Index(facts) + done
    && forall key {:trigger found[key]} | key in found ::
         found[key] == Sharing(facts, key.0, key.1) + if key in done then {one.id} else {}
  }

  lemma IndexGrows(facts: set<MessageFacts>, one: MessageFacts)
    ensures Index(facts + {one}) == Index(facts) + KeysOf(one)
  {
    forall key | key in Index(facts + {one}) ensures key in Index(facts) + KeysOf(one) {
      var m :| m in facts + {one} && key in KeysOf(m);
    }
  }

  lemma Entered(found: map<(Text, Text), set<nat>>, facts: set<MessageFacts>, one: MessageFacts)
    requires Entering(found, facts, one, KeysOf(one))
    ensures Indexed(found, facts + {one})
  {
    IndexGrows(facts, one);
    forall key | key in found ensures found[key] == Sharing(facts + {one}, key.0, key.1) {
      KeysAreCarried(one, key);
      SharingGrows(facts, one, key.0, key.1);
    }
  }

  lemma SharingGrows(facts: set<MessageFacts>, one: MessageFacts, name: Text, value: Text)
    ensures Sharing(facts + {one}, name, value)
         == Sharing(facts, name, value) + if value in Carries(one, name) then {one.id} else {}
  {
    forall id | id in Sharing(facts + {one}, name, value)
      ensures id in Sharing(facts, name, value) || (value in Carries(one, name) && id == one.id)
    {
      var m :| m in facts + {one} && value in Carries(m, name) && m.id == id;
    }
  }

  lemma EnterStep(found: map<(Text, Text), set<nat>>, facts: set<MessageFacts>, one: MessageFacts,
                  done: set<(Text, Text)>, key: (Text, Text))
    requires Entering(found, facts, one, done)
    ensures Entering(found[key := (if key in found then found[key] else {}) + {one.id}], facts, one, done + {key})
  {
    if key !in Index(facts) {
      Unindexed(facts, key);
    }
  }

  method Enter(found: map<(Text, Text), set<nat>>, ghost facts: set<MessageFacts>, one: MessageFacts)
    returns (r: map<(Text, Text), set<nat>>)
    requires Indexed(found, facts)
    ensures Indexed(r, facts + {one})
  {
    r := found;
    var keys := KeysOf(one);
    var todo := keys;
    ghost var done: set<(Text, Text)> := {};
    while todo != {}
      invariant done + todo == keys && Entering(r, facts, one, done)
      decreases todo
    {
      var key :| key in todo;
      EnterStep(r, facts, one, done, key);
      todo, done := todo - {key}, done + {key};
      r := r[key := (if key in r then r[key] else {}) + {one.id}];
    }
    assert done == keys;
    Entered(r, facts, one);
  }

  lemma Unindexed(facts: set<MessageFacts>, key: (Text, Text))
    requires key !in Index(facts)
    ensures Sharing(facts, key.0, key.1) == {}
  {
    forall one | one in facts ensures key.1 !in Carries(one, key.0) {
      KeysAreCarried(one, key);
    }
  }

  /** The buckets worth joining, and how many were dropped as boilerplate. */
  method BuildBuckets(facts: seq<MessageFacts>, config: Config) returns (kept: set<Bucket>, dropped: nat)
    ensures kept == Kept(SetOf(facts), config)
    ensures dropped == |Oversized(SetOf(facts), config)|
  {
    var found: map<(Text, Text), set<nat>> := map[];
    for i := 0 to |facts|
      invariant Indexed(found, SetOf(facts[..i]))
    {
      found := Enter(found, SetOf(facts[..i]), facts[i]);
      assert SetOf(facts[..i + 1]) == SetOf(facts[..i]) + {facts[i]};
    }
    assert facts[..|facts|] == facts;
    var over := set key | key in found && |found[key]| > config.bucketCap;
    dropped := |over|;
    kept := set key | key in found && 1 < |found[key]| <= config.bucketCap :: Bucket(key.0, key.1, found[key]);
    KeptFrom(found, SetOf(facts), config);
  }

  lemma KeptFrom(found: map<(Text, Text), set<nat>>, facts: set<MessageFacts>, config: Config)
    requires Indexed(found, facts)
    ensures (set key | key in found && |found[key]| > config.bucketCap) == Oversized(facts, config)
    ensures (set key | key in found && 1 < |found[key]| <= config.bucketCap :: Bucket(key.0, key.1, found[key]))
         == Kept(facts, config)
  {
    forall key | key in found ensures found[key] == Sharing(facts, key.0, key.1) {}
  }

  // ----- `_join_strong`

  method OfferAll(best: map<nat, Reason>, members: set<nat>, reason: Reason, ghost offers: set<(nat, Reason)>)
    returns (r: map<nat, Reason>)
    requires BestOf(best, offers)
    ensures BestOf(r, offers + (set m | m in members :: (m, reason)))
  {
    r := best;
    var todo := members;
    while todo != {}
      invariant todo <= members
      invariant BestOf(r, offers + (set m | m in members - todo :: (m, reason)))
      decreases todo
    {
      var m :| m in todo;
      ghost var before := offers + (set n | n in members - todo :: (n, reason));
      OfferKeepsBest(r, before, m, reason);
      r := Offer(r, m, reason);
      todo := todo - {m};
      assert before + {(m, reason)} == offers + (set n | n in members - todo :: (n, reason));
    }
    assert members - todo == members;
  }

  /** Every bucket of a set but those still to come is chained. */
  ghost predicate ChainedBuckets(buckets: set<Bucket>, links: set<Link>) {
    forall b {:trigger b in buckets} | b in buckets :: Chain(Sorted(b.members)) <= links
  }

  lemma {:induction false} ChainInClique(members: seq<nat>, b: Bucket, buckets: set<Bucket>)
    requires b in buckets && forall i | 0 <= i < |members| :: members[i] in b.members
    ensures Chain(members) <= CliqueLinks(buckets)
    decreases |members|
  {
    var n := |members|;
    if n >= 2 {
      ChainInClique(members[..n - 1], b, buckets);
      assert (members[n - 2], members[n - 1]) in CliqueLinks(buckets);
    }
  }

  lemma BucketChain(b: Bucket, buckets: set<Bucket>)
    requires b in buckets
    ensures Chain(Sorted(b.members)) <= CliqueLinks(buckets)
    ensures forall i | 0 <= i < |Sorted(b.members)| :: Sorted(b.members)[i] in b.members
  {
    var members := Sorted(b.members);
    forall i | 0 <= i < |members| ensures members[i] in b.members { assert members[i] in members; }
    ChainInClique(members, b, buckets);
  }

  /** After the buckets dealt with: their chains drawn, their reasons offered, nothing else. */
  ghost predicate StrongDone(strong: set<Bucket>, done: set<Bucket>, was: set<Link>, links: set<Link>,
                             best: map<nat, Reason>)
  {
    && Grown(was, links, CliqueLinks(strong))
    && ChainedBuckets(done, links)
    && BestOf(best, StrongOffers(done))
  }

  lemma StrongStep(strong: set<Bucket>, done: set<Bucket>, was: set<Link>, links: set<Link>,
                   best: map<nat, Reason>, after: map<nat, Reason>, b: Bucket)
    requires StrongDone(strong, done, was, links, best) && b in strong
    requires BestOf(after, StrongOffers(done) + (set m | m in b.members :: (m, Reason(WeightOf(b.major), b.major))))
    ensures StrongDone(strong, done + {b}, was, links + Chain(Sorted(b.members)), after)
  {
    BucketChain(b, strong);
    StrongOffersGrow(done, b);
    ChainedMore(done, links, b);
  }

  lemma ChainedMore(done: set<Bucket>, links: set<Link>, b: Bucket)
    requires ChainedBuckets(done, links)
    ensures ChainedBuckets(done + {b}, links + Chain(Sorted(b.members)))
  {
    forall other {:trigger other in done + {b}} | other in done + {b}
      ensures Chain(Sorted(other.members)) <= links + Chain(Sorted(b.members))
    {
      if other != b {
        assert other in done;
        assert Chain(Sorted(other.members)) <= links;
      }
    }
  }

  lemma StrongOffersGrow(done: set<Bucket>, b: Bucket)
    ensures StrongOffers(done + {b})
         == StrongOffers(done) + (set m | m in b.members :: (m, Reason(WeightOf(b.major), b.major)))
  {}

  /** k - 1 consecutive unions per bucket, whatever order the buckets come in. */
  method JoinStrong(partition: DisjointSet, strong: set<Bucket>) returns (best: map<nat, Reason>)
    requires partition.Valid() && forall b | b in strong :: b.members <= partition.roots.Keys
    modifies partition
    ensures partition.Valid() && partition.roots.Keys == old(partition.roots.Keys)
    ensures StrongDone(strong, strong, old(partition.links), partition.links, best)
  {
    best := map[];
    var todo := strong;
    ghost var done: set<Bucket> := {};
    assert StrongOffers({}) == {};
    while todo != {}
      invariant done + todo == strong
      invariant partition.Valid() && partition.roots.Keys == old(partition.roots.Keys)
      invariant StrongDone(strong, done, old(partition.links), partition.links, best)
      decreases todo
    {
      var b :| b in todo;
      BucketChain(b, strong);
      ghost var links, before := partition.links, best;
      UnionChain(partition, Sorted(b.members));
      best := OfferAll(best, b.members, Reason(WeightOf(b.major), b.major), StrongOffers(done));
      StrongStep(strong, done, old(partition.links), links, before, best, b);
      todo, done := todo - {b}, done + {b};
    }
    assert done == strong;
  }

  /** A chain per bucket connects what the clique per bucket does. */
  lemma ChainsAreCliques(strong: set<Bucket>, links: set<Link>, a: nat, b: nat)
    requires ChainedBuckets(strong, links) && (a, b) in CliqueLinks(strong)
    ensures Connected(links, a, b)
  {
    var bucket :| bucket in strong && a in bucket.members && b in bucket.members;
    ChainJoins(Sorted(bucket.members), links, a, b);
  }

  // ----- `_join_weak`

  /** A pair joined, and both ends told why. */
  method JoinPair(partition: DisjointSet, best: map<nat, Reason>, pair: Link, reason: Reason,
                  ghost offers: set<(nat, Reason)>)
    returns (r: map<nat, Reason>)
    requires partition.Valid() && pair.0 in partition.roots && pair.1 in partition.roots
    requires BestOf(best, offers)
    modifies partition
    ensures partition.Valid() && partition.roots.Keys == old(partition.roots.Keys)
    ensures partition.links == old(partition.links) + {pair}
    ensures BestOf(r, offers + {(pair.0, reason), (pair.1, reason)})
  {
    partition.Union(pair.0, pair.1);
    OfferKeepsBest(best, offers, pair.0, reason);
    r := Offer(best, pair.0, reason);
    OfferKeepsBest(r, offers + {(pair.0, reason)}, pair.1, reason);
    r := Offer(r, pair.1, reason);
    assert offers + {(pair.0, reason)} + {(pair.1, reason)} == offers + {(pair.0, reason), (pair.1, reason)};
  }

  /** What the pairs dealt with were offered. */
  ghost function PairOffers(pairs: set<Link>, why: map<Link, Reason>): set<(nat, Reason)> {
    (set pair | pair in pairs && pair in why :: (pair.0, why[pair]))
    + (set pair | pair in pairs && pair in why :: (pair.1, why[pair]))
  }

  lemma PairOffersGrow(pairs: set<Link>, why: map<Link, Reason>, pair: Link, offers: set<(nat, Reason)>)
    requires pair in why
    ensures PairOffers(pairs + {pair}, why) == PairOffers(pairs, why) + {(pair.0, why[pair]), (pair.1, why[pair])}
    ensures offers + PairOffers(pairs + {pair}, why)
         == offers + PairOffers(pairs, why) + {(pair.0, why[pair]), (pair.1, why[pair])}
  {}

  /** Every pair of a set joined, each for its own reason. */
  method JoinPairs(partition: DisjointSet, best: map<nat, Reason>, why: map<Link, Reason>,
                   ghost offers: set<(nat, Reason)>)
    returns (r: map<nat, Reason>)
    requires partition.Valid() && BestOf(best, offers)
    requires AllKnown(why, partition.roots.Keys)
    modifies partition
    ensures partition.Valid() && partition.roots.Keys == old(partition.roots.Keys)
    ensures partition.links == old(partition.links) + why.Keys
    ensures BestOf(r, offers + PairOffers(why.Keys, why))
  {
    r := best;
    var todo := why.Keys;
    ghost var done: set<Link> := {};
    ghost var was, known := partition.links, partition.roots.Keys;
    NothingJoined(was, why, offers);
    while todo != {}
      invariant done + todo == why.Keys
      invariant partition.Valid() && partition.roots.Keys == known
      invariant PairsJoined(was, done, why, offers, partition.links, r)
      decreases todo
    {
      var pair :| pair in todo;
      ghost var links := partition.links;
      r := JoinPair(partition, r, pair, why[pair], offers + PairOffers(done, why));
      OneJoined(was, done, why, offers, links, partition.links, r, pair);
      todo, done := todo - {pair}, done + {pair};
    }
    assert done == why.Keys;
  }

  /** Some of the pairs are linked, and their ends have been offered the reasons. */
  ghost predicate PairsJoined(was: set<Link>, done: set<Link>, why: map<Link, Reason>, offers: set<(nat, Reason)>,
                              links: set<Link>, best: map<nat, Reason>)
  {
    links == was + done && BestOf(best, offers + PairOffers(done, why))
  }

  lemma NothingJoined(was: set<Link>, why: map<Link, Reason>, offers: set<(nat, Reason)>)
    ensures was == was + {} && offers + PairOffers({}, why) == offers
  {}

  lemma OneJoined(was: set<Link>, done: set<Link>, why: map<Link, Reason>, offers: set<(nat, Reason)>,
                  links: set<Link>, links': set<Link>, best: map<nat, Reason>, pair: Link)
    requires pair in why && links == was + done && links' == links + {pair}
    requires BestOf(best, offers + PairOffers(done, why) + {(pair.0, why[pair]), (pair.1, why[pair])})
    ensures PairsJoined(was, done + {pair}, why, offers, links', best)
  {
    PairOffersGrow(done, why, pair, offers);
  }

  /** The scored pairs that add up, each with its capped total and its heaviest signal. */
  function Reaching(t: Table, config: Config): (why: map<Link, Reason>)
    requires t.score.Keys == t.carrier.Keys
  {
    map pair | pair in t.score && t.score[pair] >= config.minScore ::
      Reason(Capped(t.score[pair]), t.carrier[pair])
  }

  lemma ReachingIsWeak(t: Table, scored: seq<Bucket>, config: Config)
    requires Scores(t, scored)
    ensures Reaching(t, config).Keys == WeakLinks(scored, config)
    ensures PairOffers(Reaching(t, config).Keys, Reaching(t, config)) == WeakOffers(scored, config)
  {
    TallyKeys(t, scored, EMPTY);
    var why := Reaching(t, config);
    forall pair | pair in t.score
      ensures t.score[pair] == TotalWeight(SharedSignals(scored, pair))
      ensures t.carrier[pair] == Heaviest(SharedSignals(scored, pair))
    {
      assert Entry(t, pair);
      assert t.counted[pair] == SharedSignals(scored, pair);
    }
    assert t.score.Keys == Covered(scored);
    forall pair ensures pair in why <==> pair in WeakLinks(scored, config) {}
    forall pair | pair in why ensures why[pair] == PairReason(SharedSignals(scored, pair)) {}
  }

  // ----- `_join_extra`

  lemma FoldStep(found: map<Link, Reason>, proposals: set<(Link, Reason)>, pair: Link, reason: Reason)
    requires Folded(found, proposals)
    ensures Folded(if pair !in found || FoldsBefore(reason, found[pair]) then found[pair := reason] else found,
                   proposals + {(pair, reason)})
  {
    var after := if pair !in found || FoldsBefore(reason, found[pair]) then found[pair := reason] else found;
    forall p, other | (p, other) in proposals + {(pair, reason)} ensures p in after && !FoldsBefore(other, after[p]) {
      if (p, other) != (pair, reason) {
        assert (p, other) in proposals;
      }
    }
    forall p | p in after ensures (p, after[p]) in proposals + {(pair, reason)} {
      if p in found { assert (p, found[p]) in proposals; }
    }
  }

  /** The distinct pairs the suggestions propose, each with the first of its reasons. */
  method ExtraPairs(edges: seq<SimilarityEdge>, config: Config, known: set<nat>) returns (found: map<Link, Reason>)
    ensures Folded(found, Proposals(edges, config, known))
  {
    found := map[];
    for i := 0 to |edges|
      invariant Folded(found, Proposals(edges[..i], config, known))
    {
      var edge := edges[i];
      ProposalsGrow(edges, i, config, known);
      if !Acceptable(edge, config, known) {
        continue;
      }
      var pair, reason := Canonical(edge), Reason(edge.weight, edge.how);
      FoldStep(found, Proposals(edges[..i], config, known), pair, reason);
      if pair !in found || FoldsBefore(reason, found[pair]) {
        found := found[pair := reason];
      }
    }
    assert edges[..|edges|] == edges;
  }

  lemma ProposalsGrow(edges: seq<SimilarityEdge>, i: nat, config: Config, known: set<nat>)
    requires i < |edges|
    ensures Proposals(edges[..i + 1], config, known)
         == Proposals(edges[..i], config, known)
            + if Acceptable(edges[i], config, known)
              then {(Canonical(edges[i]), Reason(edges[i].weight, edges[i].how))} else {}
  {
    assert edges[..i + 1] == edges[..i] + [edges[i]];
  }

  /** The pairs the budget applies, with their capped weights. */
  function Suggested(offered: map<Link, Reason>, applied: set<Link>): map<Link, Reason>
    requires applied <= offered.Keys
  {
    map pair | pair in applied :: Reason(Capped(offered[pair].score), offered[pair].how)
  }

  lemma SuggestedOffers(offered: map<Link, Reason>, applied: set<Link>)
    requires applied <= offered.Keys
    ensures Suggested(offered, applied).Keys == applied
    ensures PairOffers(applied, Suggested(offered, applied)) == ExtraOffers(applied, offered)
  {}

  ghost function LeftOut(offered: map<Link, Reason>, spent: nat, config: Config): nat {
    Max0(|offered| - Max0(config.maxWeakPairs - spent))
  }

  /** The suggestions, after the facts have settled, on what the weak table left of the budget. */
  method JoinExtra(partition: DisjointSet, best: map<nat, Reason>, offered: map<Link, Reason>, config: Config,
                   spent: nat, ghost offers: set<(nat, Reason)>)
    returns (r: map<nat, Reason>, dropped: nat)
    requires partition.Valid() && BestOf(best, offers)
    requires forall pair {:trigger pair in offered} | pair in offered ::
               pair.0 in partition.roots && pair.1 in partition.roots
    modifies partition
    ensures partition.Valid() && partition.roots.Keys == old(partition.roots.Keys)
    ensures partition.links == old(partition.links) + AppliedSet(offered, spent, config)
    ensures BestOf(r, offers + ExtraOffers(AppliedSet(offered, spent, config), offered))
    ensures dropped == LeftOut(offered, spent, config)
  {
    var applied := AppliedSet(offered, spent, config);
    var why := Suggested(offered, applied);
    SuggestedOffers(offered, applied);
    r := JoinPairs(partition, best, why, offers);
    dropped := Max0(|offered| - Max0(config.maxWeakPairs - spent));
  }

  // ----- The clusters

  datatype TopicMember = TopicMember(messageId: nat, score: real, how: Text)

  /** A topic, known by its messages. */
  datatype TopicCluster = TopicCluster(members: seq<TopicMember>, how: Text, score: real)

  datatype TopicFindings = TopicFindings(clusters: seq<TopicCluster>, droppedBuckets: nat, droppedPairs: nat)

  function ReasonOf(best: map<nat, Reason>, m: nat): Reason {
    if m in best then best[m] else Reason(0.0, EMPTY)
  }

  function MembersOf(members: seq<nat>, best: map<nat, Reason>): (r: seq<TopicMember>)
    ensures |r| == |members|
    ensures forall i | 0 <= i < |r| ::
              r[i] == TopicMember(members[i], ReasonOf(best, members[i]).score, ReasonOf(best, members[i]).how)
  {
    if members == [] then []
    else
      [TopicMember(members[0], ReasonOf(best, members[0]).score, ReasonOf(best, members[0]).how)]
      + MembersOf(members[1..], best)
  }

  /** `_method_rank` compared: exact first, then the calibrated weight, then the name. */
  predicate StrongerMethod(a: Text, b: Text) {
    || (IsExact(a) && !IsExact(b))
    || (IsExact(a) == IsExact(b) && WeightOf(a) > WeightOf(b))
    || (IsExact(a) == IsExact(b) && WeightOf(a) == WeightOf(b) && a < b)
  }

  /** What names a component: the strongest method any member was joined by. */
  function Strongest(members: seq<TopicMember>): (how: Text)
    requires members != []
    ensures exists i :: 0 <= i < |members| && members[i].how == how
    ensures forall i | 0 <= i < |members| :: !StrongerMethod(members[i].how, how)
  {
    if |members| == 1 then members[0].how
    else
      var rest := Strongest(members[1..]);
      if StrongerMethod(rest, members[0].how) then rest else members[0].how
  }

  function ScoreSum(members: seq<TopicMember>): real {
    if members == [] then 0.0 else members[0].score + ScoreSum(members[1..])
  }

  function ClusterOf(members: seq<nat>, best: map<nat, Reason>): TopicCluster
    requires members != []
  {
    var scored := MembersOf(members, best);
    TopicCluster(scored, Strongest(scored), ScoreSum(scored) / (|scored| as real))
  }

  function ClustersOf(components: seq<seq<nat>>, best: map<nat, Reason>): seq<TopicCluster> {
    if components == [] then []
    else
      (if |components[0]| > 1 then [ClusterOf(components[0], best)] else []) + ClustersOf(components[1..], best)
  }

  // ----- `build_topics`

  ghost function IdSet(facts: set<MessageFacts>): set<nat> {
    set one | one in facts :: one.id
  }

  ghost function Pending(facts: set<MessageFacts>, config: Config): seq<Bucket> {
    SortedBuckets(Weak(facts, config))
  }

  ghost function DroppedPairs(facts: set<MessageFacts>, offered: map<Link, Reason>, config: Config): nat {
    PairSum(Pending(facts, config)[Fitting(Pending(facts, config), 0, config)..])
    + LeftOut(offered, |Covered(ScoredOf(facts, config))|, config)
  }

  /**
   * What the findings must be, as a function of the set of messages and of the suggestions'
   * proposals alone: no order of either can be seen in it.
   */
  ghost predicate FoundWith(facts: set<MessageFacts>, proposals: set<(Link, Reason)>, config: Config,
                             offered: map<Link, Reason>, best: map<nat, Reason>, r: TopicFindings)
  {
    && Folded(offered, proposals)
    && BestOf(best, TopicOffers(facts, offered, config))
    && r.clusters == ClustersOf(ComponentsOf(IdSet(facts), TopicLinks(facts, offered, config)), best)
    && r.droppedBuckets == |Oversized(facts, config)|
    && r.droppedPairs == DroppedPairs(facts, offered, config)
  }

  /** What A2 finds in a set of messages with these proposals for their pairs. */
  ghost predicate IsFindings(facts: set<MessageFacts>, proposals: set<(Link, Reason)>, config: Config,
                             r: TopicFindings)
  {
    exists offered, best :: FoundWith(facts, proposals, config, offered, best, r)
  }

  lemma FoundUnique(facts: set<MessageFacts>, proposals: set<(Link, Reason)>, config: Config,
                    offered: map<Link, Reason>, best: map<nat, Reason>, r: TopicFindings,
                    offered': map<Link, Reason>, best': map<nat, Reason>, r': TopicFindings)
    requires FoundWith(facts, proposals, config, offered, best, r)
    requires FoundWith(facts, proposals, config, offered', best', r')
    ensures r == r'
  {
    FoldedUnique(offered, offered', proposals);
    BestUnique(best, best', TopicOffers(facts, offered, config));
  }

  /** The same archive and the same suggestions give the same findings, in whatever order they came. */
  lemma FindingsUnique(facts: set<MessageFacts>, proposals: set<(Link, Reason)>, config: Config,
                       r: TopicFindings, r': TopicFindings)
    requires IsFindings(facts, proposals, config, r) && IsFindings(facts, proposals, config, r')
    ensures r == r'
  {
    var offered, best :| FoundWith(facts, proposals, config, offered, best, r);
    var offered', best' :| FoundWith(facts, proposals, config, offered', best', r');
    FoundUnique(facts, proposals, config, offered, best, r, offered', best', r');
  }

  lemma BucketMembersKnown(facts: set<MessageFacts>, config: Config)
    ensures forall b | b in Kept(facts, config) :: b.members <= IdSet(facts) && IsExact(b.major)
  {
    forall b | b in Kept(facts, config) ensures b.members <= IdSet(facts) && IsExact(b.major) {
      var key :| key in Index(facts) && b == Bucket(key.0, key.1, Sharing(facts, key.0, key.1));
      var one :| one in facts && key in KeysOf(one);
    }
  }

  lemma {:induction false} CoveredKnown(scored: seq<Bucket>, ids: set<nat>, pair: Link)
    requires forall k | 0 <= k < |scored| :: scored[k].members <= ids
    requires pair in Covered(scored)
    ensures pair.0 in ids && pair.1 in ids
  {
    var last := |scored| - 1;
    if pair in PairsOf(scored[last].members) {
      assert pair.0 in scored[last].members && pair.1 in scored[last].members;
    } else {
      CoveredKnown(scored[..last], ids, pair);
    }
  }

  lemma PendingKnown(facts: set<MessageFacts>, config: Config)
    ensures ExactBuckets(Pending(facts, config))
    ensures forall k | 0 <= k < |Pending(facts, config)| :: Pending(facts, config)[k].members <= IdSet(facts)
  {
    BucketMembersKnown(facts, config);
    var pending := Pending(facts, config);
    forall k | 0 <= k < |pending| ensures IsExact(pending[k].major) && pending[k].members <= IdSet(facts) {
      assert pending[k] in pending;
      assert pending[k] in Weak(facts, config);
    }
  }

  lemma ReachingKnown(facts: set<MessageFacts>, t: Table, config: Config)
    requires Scores(t, ScoredOf(facts, config))
    ensures forall pair {:trigger pair in Reaching(t, config)} | pair in Reaching(t, config) ::
              pair.0 in IdSet(facts) && pair.1 in IdSet(facts)
  {
    PendingKnown(facts, config);
    ReachingIsWeak(t, ScoredOf(facts, config), config);
    forall pair | pair in Reaching(t, config) ensures pair.0 in IdSet(facts) && pair.1 in IdSet(facts) {
      CoveredKnown(ScoredOf(facts, config), IdSet(facts), pair);
    }
  }

  ghost predicate AllKnown(pairs: map<Link, Reason>, known: set<nat>) {
    forall pair {:trigger pair in pairs} | pair in pairs :: pair.0 in known && pair.1 in known
  }

  lemma OfferedKnown(offered: map<Link, Reason>, edges: seq<SimilarityEdge>, config: Config, known: set<nat>)
    requires Folded(offered, Proposals(edges, config, known))
    ensures AllKnown(offered, known)
  {
    forall pair | pair in offered ensures pair.0 in known && pair.1 in known {
      assert (pair, offered[pair]) in Proposals(edges, config, known);
    }
  }

  /** Chains instead of cliques, everything else as it is: the same components. */
  lemma TopicsDraw(strong: set<Bucket>, chained: set<Link>, others: set<Link>, links: set<Link>)
    requires ChainedBuckets(strong, chained) && chained <= CliqueLinks(strong)
    requires links == chained + others
    ensures SameComponents(links, CliqueLinks(strong) + others)
  {
    var spec := CliqueLinks(strong) + others;
    forall a, b | (a, b) in links ensures Connected(spec, a, b) { Step(spec, a, b); }
    assert ChainedBuckets(strong, links);
    forall a, b | (a, b) in spec ensures Connected(links, a, b) {
      if (a, b) in others {
        Step(links, a, b);
      } else {
        ChainsAreCliques(strong, links, a, b);
      }
    }
    MutualAbsorb(links, spec);
  }

  /** `_join_weak`: the table, then the pairs in it that add up. */
  method JoinWeak(partition: DisjointSet, strongBest: map<nat, Reason>, pending: seq<Bucket>, config: Config,
                  ghost facts: set<MessageFacts>, ghost offers: set<(nat, Reason)>)
    returns (best: map<nat, Reason>, spent: nat, dropped: nat)
    requires partition.Valid() && partition.roots.Keys == IdSet(facts) && pending == Pending(facts, config)
    requires BestOf(strongBest, offers)
    modifies partition
    ensures partition.Valid() && partition.roots.Keys == IdSet(facts)
    ensures partition.links == old(partition.links) + WeakLinks(ScoredOf(facts, config), config)
    ensures BestOf(best, offers + WeakOffers(ScoredOf(facts, config), config))
    ensures spent == |Covered(ScoredOf(facts, config))|
    ensures dropped == PairSum(Pending(facts, config)[Fitting(Pending(facts, config), 0, config)..])
  {
    PendingKnown(facts, config);
    var table: Table;
    table, dropped := ScoreBuckets(pending, config);
    ScoresSize(table, ScoredOf(facts, config));
    spent := |table.score|;
    ReachingKnown(facts, table, config);
    ReachingIsWeak(table, ScoredOf(facts, config), config);
    best := JoinPairs(partition, strongBest, Reaching(table, config), offers);
  }

  ghost function ExactOffers(facts: set<MessageFacts>, config: Config): set<(nat, Reason)> {
    StrongOffers(Strong(facts, config)) + WeakOffers(ScoredOf(facts, config), config)
  }

  /** What the exact signals leave for the suggestions to build on. */
  ghost predicate ExactJoined(facts: set<MessageFacts>, config: Config, chained: set<Link>, links: set<Link>,
                              reasons: map<nat, Reason>, spent: nat)
  {
    && ChainedBuckets(Strong(facts, config), chained) && chained <= CliqueLinks(Strong(facts, config))
    && links == chained + WeakLinks(ScoredOf(facts, config), config)
    && BestOf(reasons, ExactOffers(facts, config))
    && spent == |Covered(ScoredOf(facts, config))|
  }

  /** The exact signals, strong then weak. */
  method JoinFacts(partition: DisjointSet, kept: set<Bucket>, config: Config, ghost facts: set<MessageFacts>)
    returns (best: map<nat, Reason>, spent: nat, dropped: nat, ghost chained: set<Link>)
    requires partition.Valid() && partition.roots.Keys == IdSet(facts) && partition.links == {}
    requires kept == Kept(facts, config)
    modifies partition
    ensures partition.Valid() && partition.roots.Keys == IdSet(facts)
    ensures ExactJoined(facts, config, chained, partition.links, best, spent)
    ensures dropped == PairSum(Pending(facts, config)[Fitting(Pending(facts, config), 0, config)..])
  {
    BucketMembersKnown(facts, config);
    var strong := set b | b in kept && IsStrong(b.major, config);
    var weak := set b | b in kept && !IsStrong(b.major, config);
    assert strong == Strong(facts, config) && weak == Weak(facts, config);
    best := JoinStrong(partition, strong);
    chained := partition.links;
    best, spent, dropped := JoinWeak(partition, best, SortedBuckets(weak), config, facts, StrongOffers(strong));
  }

  lemma FindingsFrom(facts: set<MessageFacts>, offered: map<Link, Reason>, config: Config,
                     chained: set<Link>, links: set<Link>)
    requires ChainedBuckets(Strong(facts, config), chained) && chained <= CliqueLinks(Strong(facts, config))
    requires links == chained + WeakLinks(ScoredOf(facts, config), config)
                      + AppliedSet(offered, |Covered(ScoredOf(facts, config))|, config)
    ensures ComponentsOf(IdSet(facts), links) == ComponentsOf(IdSet(facts), TopicLinks(facts, offered, config))
  {
    var weak := WeakLinks(ScoredOf(facts, config), config);
    var extra := AppliedSet(offered, |Covered(ScoredOf(facts, config))|, config);
    Regrouped(chained, weak, extra);
    TopicsDraw(Strong(facts, config), chained, weak + extra, links);
    Regrouped(CliqueLinks(Strong(facts, config)), weak, extra);
    ComponentsSame(IdSet(facts), links, TopicLinks(facts, offered, config));
  }

  lemma Regrouped(a: set<Link>, b: set<Link>, c: set<Link>)
    ensures a + b + c == a + (b + c)
  {}

  ghost predicate IsFinished(facts: set<MessageFacts>, config: Config, offered: map<Link, Reason>,
                             best: map<nat, Reason>, clusters: seq<TopicCluster>)
  {
    && BestOf(best, TopicOffers(facts, offered, config))
    && clusters == ClustersOf(ComponentsOf(IdSet(facts), TopicLinks(facts, offered, config)), best)
  }

  lemma OffersSplit(facts: set<MessageFacts>, offered: map<Link, Reason>, config: Config)
    ensures TopicOffers(facts, offered, config)
         == ExactOffers(facts, config) + ExtraOffers(AppliedSet(offered, |Covered(ScoredOf(facts, config))|, config),
               offered)
  {}

  /** With the applied suggestions on top, the components and the reasons are the declarative ones. */
  lemma Finished(facts: set<MessageFacts>, config: Config, chained: set<Link>, before: set<Link>, links: set<Link>,
                 reasons: map<nat, Reason>, spent: nat, offered: map<Link, Reason>, best: map<nat, Reason>,
                 components: seq<seq<nat>>)
    requires ExactJoined(facts, config, chained, before, reasons, spent)
    requires links == before + AppliedSet(offered, spent, config)
    requires BestOf(best, ExactOffers(facts, config) + ExtraOffers(AppliedSet(offered, spent, config), offered))
    requires components == ComponentsOf(IdSet(facts), links)
    ensures IsFinished(facts, config, offered, best, ClustersOf(components, best))
  {
    OffersSplit(facts, offered, config);
    FindingsFrom(facts, offered, config, chained, links);
  }

  /** The suggestions applied and the components described. */
  method Finish(partition: DisjointSet, reasons: map<nat, Reason>, pairs: map<Link, Reason>, config: Config,
                spent: nat, ghost facts: set<MessageFacts>, ghost chained: set<Link>)
    returns (clusters: seq<TopicCluster>, dropped: nat, ghost best: map<nat, Reason>)
    requires partition.Valid() && partition.roots.Keys == IdSet(facts)
    requires ExactJoined(facts, config, chained, partition.links, reasons, spent)
    requires AllKnown(pairs, IdSet(facts))
    modifies partition
    ensures IsFinished(facts, config, pairs, best, clusters)
    ensures dropped == LeftOut(pairs, spent, config)
  {
    ghost var before := partition.links;
    var all: map<nat, Reason>;
    all, dropped := JoinExtra(partition, reasons, pairs, config, spent, ExactOffers(facts, config));
    best := all;
    var components := partition.Components();
    Finished(facts, config, chained, before, partition.links, reasons, spent, pairs, all, components);
    clusters := ClustersOf(components, all);
  }

  /** Cluster the messages. The findings are those of the declarative relation, whatever the order of the facts. */
  method BuildTopics(facts: seq<MessageFacts>, edges: seq<SimilarityEdge>, config: Config)
    returns (r: TopicFindings)
    requires DistinctIds(facts)
    ensures IsFindings(SetOf(facts), Proposals(edges, config, Ids(facts)), config, r)
  {
    var known := set one | one in facts :: one.id;
    ghost var all := SetOf(facts);
    assert known == IdSet(all) == Ids(facts);
    var partition := new DisjointSet(known);
    var kept, droppedBuckets := BuildBuckets(facts, config);
    var reasons, spent, droppedPairs;
    ghost var chained;
    reasons, spent, droppedPairs, chained := JoinFacts(partition, kept, config, all);
    var pairs := ExtraPairs(edges, config, known);
    OfferedKnown(pairs, edges, config, known);
    var clusters, droppedExtra;
    ghost var best;
    clusters, droppedExtra, best := Finish(partition, reasons, pairs, config, spent, all, chained);
    r := TopicFindings(clusters, droppedBuckets, droppedPairs + droppedExtra);
    assert FoundWith(all, Proposals(edges, config, known), config, pairs, best, r);
  }
}
