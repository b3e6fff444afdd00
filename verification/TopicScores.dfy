/**
 * What the numbers and names in the findings are worth (`derived/topics.py`): which of its
 * reasons a message keeps, what a topic scores, what names it, and what a budget left out.
 */
module TopicScores {
  import opened Order
  import opened Closure
  import opened Partition
  import opened Sums
  import opened Buckets
  import opened Facts
  import opened TopicRules
  import opened Topics
  import opened TopicClaims
  import opened TopicReports
  import opened WeakSignals
  import opened TopicBudgets
  import opened TopicReasons

  // ----- One cluster of the findings

  /** The cluster of one component, under the reasons its members kept. */
  ghost predicate IsCluster(cluster: TopicCluster, members: seq<nat>, best: map<nat, Reason>) {
    |members| > 1 && Increasing(members) && cluster == ClusterOf(members, best)
  }

  ghost predicate AllJoined(members: seq<nat>, links: set<Link>) {
    forall x, y | x in members && y in members :: Connected(links, x, y)
  }

  lemma ComponentJoined(ids: set<nat>, links: set<Link>, k: nat)
    requires k < |ComponentsOf(ids, links)|
    ensures Increasing(ComponentsOf(ids, links)[k]) && AllJoined(ComponentsOf(ids, links)[k], links)
  {
    var members := ComponentsOf(ids, links)[k];
    forall x, y | x in members && y in members ensures Connected(links, x, y) {
      ComponentsWhole(ids, links, k, x);
      assert y in Component(ids, links, x);
    }
  }

  lemma ClusterAt(facts: set<MessageFacts>, proposals: set<(Link, Reason)>, config: Config,
                  offered: map<Link, Reason>, best: map<nat, Reason>, r: TopicFindings, k: nat)
    returns (members: seq<nat>)
    requires FoundWith(facts, proposals, config, offered, best, r) && k < |r.clusters|
    ensures IsCluster(r.clusters[k], members, best)
    ensures AllJoined(members, TopicLinks(facts, offered, config))
  {
    var components := ComponentsOf(IdSet(facts), TopicLinks(facts, offered, config));
    var at := ClusterFrom(components, best, k);
    ComponentJoined(IdSet(facts), TopicLinks(facts, offered, config), at);
    members := components[at];
  }

  // ----- The score of a topic

  ghost predicate ScoredBy(members: seq<TopicMember>, score: nat -> real) {
    forall i | 0 <= i < |members| :: score(members[i].messageId) == members[i].score
  }

  ghost predicate IdsIncrease(members: seq<TopicMember>) {
    forall i, j | 0 <= i < j < |members| :: members[i].messageId < members[j].messageId
  }

  lemma {:induction false} ScoreSumIsSum(members: seq<TopicMember>, score: nat -> real)
    requires IdsIncrease(members) && ScoredBy(members, score)
    ensures ScoreSum(members) == Sum(MemberIds(members), score)
  {
    if members == [] {
      assert MemberIds(members) == {};
    } else {
      var first, rest := members[0], members[1..];
      ScoreSumIsSum(rest, score);
      FirstId(members);
      SumRemove(MemberIds(members), first.messageId, score);
    }
  }

  lemma FirstId(members: seq<TopicMember>)
    requires members != [] && IdsIncrease(members)
    ensures members[0].messageId in MemberIds(members)
    ensures MemberIds(members) - {members[0].messageId} == MemberIds(members[1..])
    ensures |MemberIds(members)| == 1 + |MemberIds(members[1..])|
  {
    var rest := members[1..];
    forall x | x in MemberIds(rest) ensures x in MemberIds(members) && x != members[0].messageId {
      var i :| 0 <= i < |rest| && rest[i].messageId == x;
      assert members[i + 1].messageId == x;
    }
    forall x | x in MemberIds(members) ensures x == members[0].messageId || x in MemberIds(rest) {
      var i :| 0 <= i < |members| && members[i].messageId == x;
      assert i > 0 ==> rest[i - 1].messageId == x;
    }
    assert MemberIds(members) == {members[0].messageId} + MemberIds(rest);
  }

  ghost predicate AllBetween(members: seq<TopicMember>, low: real, high: real) {
    forall i | 0 <= i < |members| :: low <= members[i].score <= high
  }

  lemma {:induction false} SumBetween(members: seq<TopicMember>, low: real, high: real)
    requires AllBetween(members, low, high)
    ensures low * (|members| as real) <= ScoreSum(members) <= high * (|members| as real)
  {
    if members != [] {
      SumBetween(members[1..], low, high);
      var n := |members[1..]| as real;
      assert |members| as real == 1.0 + n;
      DistributeRight(1.0, n, low);
      DistributeRight(1.0, n, high);
    }
  }

  /** So much each makes so much for all of them. */
  ghost predicate MakesUp(each: real, n: nat, total: real) {
    each * (n as real) == total
  }

  lemma MeanMakesUp(total: real, n: nat)
    requires n > 0
    ensures MakesUp(total / (n as real), n, total)
  {}

  lemma MoreEach(low: real, each: real, n: nat, all: real, total: real)
    requires n > 0 && MakesUp(low, n, all) && MakesUp(each, n, total) && all <= total
    ensures low <= each
  {
    Compared(each, low, n as real, total, all);
  }

  /** The score times the number of members is what the members score together. */
  ghost predicate IsMean(cluster: TopicCluster, score: nat -> real) {
    MakesUp(cluster.score, |cluster.members|, Sum(MemberIds(cluster.members), score))
  }

  lemma ClusterParts(cluster: TopicCluster, members: seq<nat>, best: map<nat, Reason>)
    requires IsCluster(cluster, members, best)
    ensures |cluster.members| > 1 && IdsIncrease(cluster.members)
    ensures MakesUp(cluster.score, |cluster.members|, ScoreSum(cluster.members))
  {
    MeanMakesUp(ScoreSum(cluster.members), |cluster.members|);
  }

  lemma ScoreBetween(members: seq<TopicMember>, score: real, low: real, high: real)
    requires members != [] && MakesUp(score, |members|, ScoreSum(members)) && AllBetween(members, low, high)
    ensures low <= score <= high
  {
    SumBetween(members, low, high);
    MoreEach(low, score, |members|, low * (|members| as real), ScoreSum(members));
    MoreEach(score, high, |members|, ScoreSum(members), high * (|members| as real));
  }

  lemma ClusterOfFindings(facts: seq<MessageFacts>, edges: seq<SimilarityEdge>, config: Config, r: TopicFindings,
                          k: nat)
    returns (members: seq<nat>, best: map<nat, Reason>)
    requires FindingsOf(facts, edges, config, r) && k < |r.clusters|
    ensures IsCluster(r.clusters[k], members, best)
  {
    var offered, reasons :| FoundWith(SetOf(facts), Proposals(edges, config, Ids(facts)), config, offered, reasons, r);
    best := reasons;
    members := ClusterAt(SetOf(facts), Proposals(edges, config, Ids(facts)), config, offered, best, r, k);
  }

  /** The score of a topic is the mean of its members' scores. */
  lemma TopicScoreIsMean(facts: seq<MessageFacts>, edges: seq<SimilarityEdge>, config: Config, r: TopicFindings,
                         k: nat, score: nat -> real)
    requires FindingsOf(facts, edges, config, r) && k < |r.clusters| && ScoredBy(r.clusters[k].members, score)
    ensures IdsIncrease(r.clusters[k].members) && IsMean(r.clusters[k], score)
  {
    var members, best := ClusterOfFindings(facts, edges, config, r, k);
    ClusterParts(r.clusters[k], members, best);
    ScoreSumIsSum(r.clusters[k].members, score);
  }

  /** It lies between the least and the greatest of them. */
  lemma TopicScoreLiesBetween(facts: seq<MessageFacts>, edges: seq<SimilarityEdge>, config: Config, r: TopicFindings,
                              k: nat, low: real, high: real)
    requires FindingsOf(facts, edges, config, r) && k < |r.clusters| && AllBetween(r.clusters[k].members, low, high)
    ensures low <= r.clusters[k].score <= high
  {
    var members, best := ClusterOfFindings(facts, edges, config, r, k);
    ClusterParts(r.clusters[k], members, best);
    ScoreBetween(r.clusters[k].members, r.clusters[k].score, low, high);
  }

  // ----- The reason a message keeps

  /** Offered, exact if any exact one was, and then of the largest score and the smallest name. */
  ghost predicate Foremost(reason: Reason, m: nat, offers: set<(nat, Reason)>) {
    && (m, reason) in offers
    && (forall other {:trigger (m, other) in offers} | (m, other) in offers ::
          && (IsExact(other.how) ==> IsExact(reason.how))
          && (IsExact(other.how) == IsExact(reason.how) ==>
                && other.score <= reason.score
                && (other.score == reason.score ==> reason.how <= other.how)))
  }

  lemma BestIsForemost(best: map<nat, Reason>, offers: set<(nat, Reason)>, m: nat)
    requires BestOf(best, offers) && m in best
    ensures Foremost(best[m], m, offers)
  {
    assert (m, best[m]) in offers;
    forall other {:trigger (m, other) in offers} | (m, other) in offers
      ensures IsExact(other.how) ==> IsExact(best[m].how)
      ensures IsExact(other.how) == IsExact(best[m].how) ==>
                other.score <= best[m].score && (other.score == best[m].score ==> best[m].how <= other.how)
    {
      assert !Better(other, best[m]);
    }
  }

  /** Every reported member carries the foremost of the reasons offered to it. */
  lemma MemberReason(facts: seq<MessageFacts>, edges: seq<SimilarityEdge>, config: Config, r: TopicFindings,
                     offered: map<Link, Reason>, k: nat, i: nat)
    requires FindingsOf(facts, edges, config, r) && Folded(offered, Proposals(edges, config, Ids(facts)))
    requires k < |r.clusters| && i < |r.clusters[k].members|
    ensures var one := r.clusters[k].members[i];
            Foremost(Reason(one.score, one.how), one.messageId, TopicOffers(SetOf(facts), offered, config))
  {
    var all, proposals := SetOf(facts), Proposals(edges, config, Ids(facts));
    var folded, best :| FoundWith(all, proposals, config, folded, best, r);
    FoldedUnique(folded, offered, proposals);
    var members := ClusterAt(all, proposals, config, folded, best, r, k);
    KeptReason(all, config, folded, best, r.clusters[k], members, i);
  }

  lemma KeptReason(facts: set<MessageFacts>, config: Config, offered: map<Link, Reason>, best: map<nat, Reason>,
                   cluster: TopicCluster, members: seq<nat>, i: nat)
    requires BestOf(best, TopicOffers(facts, offered, config)) && IsCluster(cluster, members, best)
    requires AllJoined(members, TopicLinks(facts, offered, config)) && i < |cluster.members|
    ensures var one := cluster.members[i];
            Foremost(Reason(one.score, one.how), one.messageId, TopicOffers(facts, offered, config))
  {
    var other := if i == 0 then members[1] else members[0];
    assert members[i] in members && other in members;
    MembersExplained(facts, offered, config, best, members[i], other);
    BestIsForemost(best, TopicOffers(facts, offered, config), members[i]);
  }

  // ----- What names a topic

  /** Exact if any member's is, and then of the largest weight and the smallest name. */
  lemma TopicMethod(facts: seq<MessageFacts>, edges: seq<SimilarityEdge>, config: Config, r: TopicFindings, k: nat)
    requires FindingsOf(facts, edges, config, r) && k < |r.clusters|
    ensures exists i :: 0 <= i < |r.clusters[k].members| && r.clusters[k].members[i].how == r.clusters[k].how
    ensures forall i | 0 <= i < |r.clusters[k].members| ::
              var how, other := r.clusters[k].how, r.clusters[k].members[i].how;
              && (IsExact(other) ==> IsExact(how))
              && (IsExact(other) == IsExact(how) ==>
                    WeightOf(other) <= WeightOf(how) && (WeightOf(other) == WeightOf(how) ==> how <= other))
  {
    var members, best := ClusterOfFindings(facts, edges, config, r, k);
    StrongestNames(MembersOf(members, best));
  }

  lemma StrongestNames(members: seq<TopicMember>)
    requires members != []
    ensures forall i | 0 <= i < |members| ::
              var how, other := Strongest(members), members[i].how;
              && (IsExact(other) ==> IsExact(how))
              && (IsExact(other) == IsExact(how) ==>
                    WeightOf(other) <= WeightOf(how) && (WeightOf(other) == WeightOf(how) ==> how <= other))
  {
    forall i | 0 <= i < |members| ensures !StrongerMethod(members[i].how, Strongest(members)) {}
  }

  // ----- Which suggestions count

  /** Of two proposals for one pair the heavier survives, at one weight the smaller method. */
  lemma FoldKeepsHeaviest(offered: map<Link, Reason>, edges: seq<SimilarityEdge>, config: Config, known: set<nat>,
                          edge: SimilarityEdge)
    requires Folded(offered, Proposals(edges, config, known)) && edge in edges
    requires edge.weight >= config.minScore && edge.left != edge.right && edge.left in known && edge.right in known
    ensures var pair := if edge.left < edge.right then (edge.left, edge.right) else (edge.right, edge.left);
            && pair in offered && edge.weight <= offered[pair].score
            && (edge.weight == offered[pair].score ==> offered[pair].how <= edge.how)
  {
    assert Acceptable(edge, config, known);
    assert (Canonical(edge), Reason(edge.weight, edge.how)) in Proposals(edges, config, known);
  }

  lemma {:induction false} RankedInOrder(offered: map<Link, Reason>, pairs: set<Link>, i: nat, j: nat)
    requires pairs <= offered.Keys && i < j < |pairs|
    ensures RanksBefore(offered, Ranked(offered, pairs)[i], Ranked(offered, pairs)[j])
  {
    RankedStep(offered, pairs, j);
    if i > 0 {
      RankedStep(offered, pairs, i);
      RankedInOrder(offered, pairs - {Ranked(offered, pairs)[0]}, i - 1, j - 1);
    }
  }

  lemma RankedStep(offered: map<Link, Reason>, pairs: set<Link>, j: nat)
    requires pairs <= offered.Keys && 0 < j < |pairs|
    ensures var first, rest := Ranked(offered, pairs)[0], Ranked(offered, pairs - {Ranked(offered, pairs)[0]});
            j - 1 < |rest| && Ranked(offered, pairs)[j] == rest[j - 1]
            && first in pairs && rest[j - 1] in pairs && RanksBefore(offered, first, rest[j - 1])
  {
    var ranked := Ranked(offered, pairs);
    assert RanksFirst(offered, ranked[0], pairs);
    var rest := Ranked(offered, pairs - {ranked[0]});
    assert rest[j - 1] in rest;
  }

  /** What is applied comes before what is left out: heavier, or as heavy and of smaller ids. */
  lemma AppliedAreHeaviest(offered: map<Link, Reason>, spent: nat, config: Config, p: Link, q: Link)
    requires p in AppliedSet(offered, spent, config) && q in offered && q !in AppliedSet(offered, spent, config)
    ensures offered[q].score <= offered[p].score
    ensures offered[q].score == offered[p].score ==> p.0 < q.0 || (p.0 == q.0 && p.1 < q.1)
  {
    var ranked, applied := Ranked(offered, offered.Keys), Applied(offered, spent, config);
    var i :| 0 <= i < |applied| && applied[i] == p;
    assert q in ranked;
    var j :| 0 <= j < |ranked| && ranked[j] == q;
    forall l | 0 <= l < |applied| ensures ranked[l] != q {
      assert applied[l] in applied;
    }
    assert ranked[i] == p;
    RankedInOrder(offered, offered.Keys, i, j);
  }

  // ----- Scores are fractions

  lemma WeightsAreFractions(name: Text)
    ensures 0.0 <= WeightOf(name) <= 1.0
  {}

  lemma OffersAreFractions(facts: set<MessageFacts>, offered: map<Link, Reason>, config: Config, m: nat,
                           reason: Reason)
    requires (m, reason) in TopicOffers(facts, offered, config)
    ensures reason.score <= 1.0
  {
    var strong, scored := Strong(facts, config), ScoredOf(facts, config);
    var applied := AppliedSet(offered, |Covered(scored)|, config);
    StrongAreFractions(strong, m, reason);
    WeakAreFractions(scored, config, m, reason);
    ExtraAreFractions(applied, offered, m, reason);
  }

  lemma StrongAreFractions(strong: set<Bucket>, m: nat, reason: Reason)
    ensures (m, reason) in StrongOffers(strong) ==> reason.score <= 1.0
  {
    WeightsAreFractions(reason.how);
  }

  lemma WeakAreFractions(scored: seq<Bucket>, config: Config, m: nat, reason: Reason)
    ensures (m, reason) in WeakOffers(scored, config) ==> reason.score <= 1.0
  {}

  lemma ExtraAreFractions(applied: set<Link>, offered: map<Link, Reason>, m: nat, reason: Reason)
    requires applied <= offered.Keys
    ensures (m, reason) in ExtraOffers(applied, offered) ==> reason.score <= 1.0
  {}

  /** No reported score exceeds one, a member's or a topic's. */
  lemma ScoresAreFractions(facts: seq<MessageFacts>, edges: seq<SimilarityEdge>, config: Config, r: TopicFindings,
                           offered: map<Link, Reason>, k: nat)
    requires FindingsOf(facts, edges, config, r) && Folded(offered, Proposals(edges, config, Ids(facts)))
    requires k < |r.clusters|
    ensures forall i | 0 <= i < |r.clusters[k].members| :: r.clusters[k].members[i].score <= 1.0
    ensures r.clusters[k].score <= 1.0
  {
    forall i | 0 <= i < |r.clusters[k].members| ensures r.clusters[k].members[i].score <= 1.0 {
      MemberFraction(facts, edges, config, r, offered, k, i);
    }
    MembersOfFindings(facts, edges, config, r, k);
    TopicScoreLiesBetween(facts, edges, config, r, k, Least(r.clusters[k].members), 1.0);
  }

  lemma MembersOfFindings(facts: seq<MessageFacts>, edges: seq<SimilarityEdge>, config: Config,
                          r: TopicFindings, k: nat)
    requires FindingsOf(facts, edges, config, r) && k < |r.clusters|
    ensures |r.clusters[k].members| > 1
  {
    var members, best := ClusterOfFindings(facts, edges, config, r, k);
    ClusterParts(r.clusters[k], members, best);
  }

  lemma MemberFraction(facts: seq<MessageFacts>, edges: seq<SimilarityEdge>, config: Config, r: TopicFindings,
                       offered: map<Link, Reason>, k: nat, i: nat)
    requires FindingsOf(facts, edges, config, r) && Folded(offered, Proposals(edges, config, Ids(facts)))
    requires k < |r.clusters| && i < |r.clusters[k].members|
    ensures r.clusters[k].members[i].score <= 1.0
  {
    var one := r.clusters[k].members[i];
    MemberReason(facts, edges, config, r, offered, k, i);
    OffersAreFractions(SetOf(facts), offered, config, one.messageId, Reason(one.score, one.how));
  }

  ghost function Least(members: seq<TopicMember>): (low: real)
    requires members != []
    ensures forall i | 0 <= i < |members| :: low <= members[i].score
  {
    if |members| == 1 then members[0].score
    else
      var rest := Least(members[1..]);
      if rest <= members[0].score then rest else members[0].score
  }

  /** A suggestion that is applied is offered to both ends at its weight, or at one if it is more. */
  lemma SuggestionOffered(applied: set<Link>, offered: map<Link, Reason>, m: nat, reason: Reason)
    requires applied <= offered.Keys
    ensures (m, reason) in ExtraOffers(applied, offered)
       <==> exists pair :: pair in applied && (m == pair.0 || m == pair.1) && reason.how == offered[pair].how
                           && (if offered[pair].score > 1.0 then reason.score == 1.0
                               else reason.score == offered[pair].score)
  {
    if pair :| pair in applied && (m == pair.0 || m == pair.1) && reason.how == offered[pair].how
               && (if offered[pair].score > 1.0 then reason.score == 1.0 else reason.score == offered[pair].score) {
      assert reason == Reason(Capped(offered[pair].score), offered[pair].how);
    }
  }

  // ----- What a budget left out

  lemma {:induction false} PairSumCounts(pending: seq<Bucket>, count: nat -> real)
    requires forall k | 0 <= k < |pending| :: count(k) == |PairsOf(pending[k].members)| as real
    ensures PairSum(pending) as real == Sum(Below(|pending|), count)
    decreases |pending|
  {
    if pending != [] {
      var n := |pending| - 1;
      PairSumCounts(pending[..n], count);
      assert pending == pending[..n] + [pending[n]];
      PairSumLast(pending[..n], pending[n]);
      SumBelow(n, count);
      AsReals(PairSum(pending[..n]), |PairsOf(pending[n].members)|);
    }
  }

  lemma SumBelow(n: nat, count: nat -> real)
    ensures Sum(Below(n + 1), count) == Sum(Below(n), count) + count(n)
  {
    assert Below(n + 1) - {n} == Below(n);
    SumRemove(Below(n + 1), n, count);
  }

  ghost function Below(n: nat): (r: set<nat>)
    ensures forall k: nat :: k in r <==> k < n
  {
    if n == 0 then {} else Below(n - 1) + {n - 1}
  }

  lemma {:induction false} PairSumLast(pending: seq<Bucket>, b: Bucket)
    ensures PairSum(pending + [b]) == PairSum(pending) + |PairsOf(b.members)|
  {
    PairsOfSize(b.members);
    if pending != [] {
      assert (pending + [b])[1..] == pending[1..] + [b];
      PairSumLast(pending[1..], b);
    }
  }

  /** The drop count is the pairs of the buckets not scored plus the suggestions not applied. */
  lemma DroppedPairsCounted(facts: seq<MessageFacts>, edges: seq<SimilarityEdge>, config: Config, r: TopicFindings,
                            offered: map<Link, Reason>, unscored: seq<Bucket>, count: nat -> real)
    requires FindingsOf(facts, edges, config, r) && Folded(offered, Proposals(edges, config, Ids(facts)))
    requires Pending(SetOf(facts), config) == ScoredOf(SetOf(facts), config) + unscored
    requires forall k | 0 <= k < |unscored| :: count(k) == |PairsOf(unscored[k].members)| as real
    ensures var spent := |Covered(ScoredOf(SetOf(facts), config))|;
            r.droppedPairs as real == Sum(Below(|unscored|), count)
                                      + |offered.Keys - AppliedSet(offered, spent, config)| as real
  {
    var all, proposals := SetOf(facts), Proposals(edges, config, Ids(facts));
    var folded, best :| FoundWith(all, proposals, config, folded, best, r);
    FoldedUnique(folded, offered, proposals);
    var pending, n := Pending(all, config), Fitting(Pending(all, config), 0, config);
    assert unscored == pending[n..];
    PairSumCounts(unscored, count);
    NotApplied(offered, |Covered(ScoredOf(all, config))|, config);
    var dropped, left := PairSum(unscored), LeftOut(offered, |Covered(ScoredOf(all, config))|, config);
    AsReals(dropped, left);
    assert r.droppedPairs == dropped + left;
    assert r.droppedPairs as real == Sum(Below(|unscored|), count) + left as real;
  }

  lemma AsReals(a: nat, b: nat)
    ensures (a + b) as real == a as real + b as real
  {}

  lemma NotApplied(offered: map<Link, Reason>, spent: nat, config: Config)
    ensures |offered.Keys - AppliedSet(offered, spent, config)| == LeftOut(offered, spent, config)
  {
    AppliedSize(offered, spent, config);
    var applied := AppliedSet(offered, spent, config);
    assert offered.Keys == (offered.Keys - applied) + applied;
    assert |offered.Keys| == |offered|;
  }

  // ----- Two messages with one value in common

  /** What a signal is worth. */
  ghost predicate Worth(name: Text, weight: real) {
    || (name == REF && weight == 1.0)
    || (name == CONVERSATION && weight == 0.9)
    || (name == THREAD && weight == 0.8)
    || (name == SUBJECT && weight == 0.5)
    || (name == ATTACHMENT && weight == 0.4)
    || (name == PARTICIPANTS && weight == 0.2)
  }

  /** Two messages that carry one value of one signal, and nothing else. */
  ghost predicate ShareOne(one: MessageFacts, two: MessageFacts, name: Text, value: Text) {
    one.id < two.id && KeysOf(one) == {(name, value)} == KeysOf(two)
  }

  lemma SharedBucket(one: MessageFacts, two: MessageFacts, name: Text, value: Text, config: Config)
    requires ShareOne(one, two, name, value) && config.bucketCap >= 2
    ensures Kept({one, two}, config) == {Bucket(name, value, {one.id, two.id})}
  {
    var facts := {one, two};
    assert (name, value) in KeysOf(one) && (name, value) in KeysOf(two);
    KeysAreCarried(one, (name, value));
    KeysAreCarried(two, (name, value));
    assert Index(facts) == {(name, value)};
    assert Sharing(facts, name, value) == {one.id, two.id};
    OneKept(facts, config, (name, value));
  }

  lemma PairComponent(a: nat, b: nat, links: set<Link>)
    requires a < b && Connected(links, a, b)
    ensures ComponentsOf({a, b}, links) == [[a, b]]
  {
    Reflexive(links, a);
    Reflexive(links, b);
    Symmetric(links, a, b);
    assert Component({a, b}, links, a) == {a, b} == Component({a, b}, links, b);
    assert Leaders({a, b}, links) == {a};
    IncreasingUnique(Sorted({a}), [a]);
    IncreasingUnique(Sorted({a, b}), [a, b]);
  }

  lemma NoClusters(ids: set<nat>, best: map<nat, Reason>)
    ensures ClustersOf(ComponentsOf(ids, {}), best) == []
  {
    var components := ComponentsOf(ids, {});
    if ClustersOf(components, best) != [] {
      var k := ClusterFrom(components, best, 0);
      ComponentJoined(ids, {}, k);
      var x, y := components[k][0], components[k][1];
      assert x in components[k] && y in components[k];
      Unlinked(x, y);
      assert false;
    }
  }

  lemma NoProposals(offered: map<Link, Reason>, config: Config)
    requires Folded(offered, {})
    ensures offered == map[]
  {
    assert offered.Keys <= set item: (Link, Reason) | item in {} :: item.0;
  }

  lemma NothingApplied(spent: nat, config: Config)
    ensures AppliedSet(map[], spent, config) == {} && ExtraOffers({}, map[]) == {}
  {}

  lemma OneClique(b: Bucket, x: nat, y: nat)
    requires b.members == {x, y}
    ensures (x, y) in CliqueLinks({b})
    ensures forall m, reason :: (m, reason) in StrongOffers({b})
                           <==> (m == x || m == y) && reason == Reason(WeightOf(b.major), b.major)
  {}

  /** A strong bucket of two is a topic of two. */
  lemma StrongPair(facts: set<MessageFacts>, config: Config, b: Bucket, x: nat, y: nat, best: map<nat, Reason>)
    requires IdSet(facts) == {x, y} && x < y && b.members == {x, y}
    requires Strong(facts, config) == {b} && ScoredOf(facts, config) == []
    requires BestOf(best, TopicOffers(facts, map[], config))
    ensures TopicLinks(facts, map[], config) == CliqueLinks({b})
    ensures x in best && y in best && best[x] == Reason(WeightOf(b.major), b.major) == best[y]
  {
    OnlyStrongLinks(facts, config, b);
    PairBest(b, x, y, best);
  }

  lemma OnlyStrongLinks(facts: set<MessageFacts>, config: Config, b: Bucket)
    requires Strong(facts, config) == {b} && ScoredOf(facts, config) == []
    ensures TopicLinks(facts, map[], config) == CliqueLinks({b})
    ensures TopicOffers(facts, map[], config) == StrongOffers({b})
  {
    NothingFrom(config);
    NothingApplied(0, config);
  }

  lemma PairBest(b: Bucket, x: nat, y: nat, best: map<nat, Reason>)
    requires b.members == {x, y} && BestOf(best, StrongOffers({b}))
    ensures x in best && y in best && best[x] == Reason(WeightOf(b.major), b.major) == best[y]
  {
    OneClique(b, x, y);
    var reason := Reason(WeightOf(b.major), b.major);
    assert (x, reason) in StrongOffers({b}) && (y, reason) in StrongOffers({b});
    assert (x, best[x]) in StrongOffers({b}) && (y, best[y]) in StrongOffers({b});
  }

  lemma PairCluster(x: nat, y: nat, best: map<nat, Reason>, reason: Reason)
    requires x in best && y in best && best[x] == reason == best[y]
    ensures ClustersOf([[x, y]], best)
         == [TopicCluster([TopicMember(x, reason.score, reason.how), TopicMember(y, reason.score, reason.how)],
                          reason.how, reason.score)]
  {
    var members := MembersOf([x, y], best);
    assert members == [TopicMember(x, reason.score, reason.how), TopicMember(y, reason.score, reason.how)];
    assert members[1..] == [members[1]] && members[1..][1..] == [];
    assert ScoreSum(members[1..]) == reason.score + ScoreSum([]);
    assert ScoreSum(members) == reason.score + reason.score;
    assert |members| == 2;
    assert ClustersOf([[x, y]][1..], best) == [];
  }

  /** A weak bucket of two on its own joins nobody. */
  lemma WeakPair(facts: set<MessageFacts>, config: Config, b: Bucket)
    requires Strong(facts, config) == {} && (ScoredOf(facts, config) == [] || ScoredOf(facts, config) == [b])
    requires !IsStrong(b.major, config) && IsExact(b.major)
    ensures TopicLinks(facts, map[], config) == {}
  {
    NothingFrom(config);
    NothingApplied(|Covered(ScoredOf(facts, config))|, config);
    OneSignal(b, config);
  }

  lemma OneSignal(b: Bucket, config: Config)
    requires !IsStrong(b.major, config) && IsExact(b.major)
    ensures WeakLinks([b], config) == {}
  {
    assert [b][..0] == [] && Covered([]) == {};
    WeightsAreFractions(b.major);
    forall pair | pair in Covered([b]) ensures TotalWeight(SharedSignals([b], pair)) < config.minScore {
      assert pair in PairsOf(b.members) && SharedSignals([b][..0], pair) == {};
      assert SharedSignals([b], pair) == {b.major};
      WeightAdds({}, b.major);
      assert {} + {b.major} == {b.major};
    }
  }

  lemma OneBucketSplit(facts: set<MessageFacts>, config: Config, b: Bucket)
    requires Kept(facts, config) == {b}
    ensures IsStrong(b.major, config) ==> Strong(facts, config) == {b} && ScoredOf(facts, config) == []
    ensures !IsStrong(b.major, config) ==>
              Strong(facts, config) == {} && (ScoredOf(facts, config) == [] || ScoredOf(facts, config) == [b])
  {
    if IsStrong(b.major, config) {
      assert Weak(facts, config) == {};
    } else {
      OneScored(facts, config, b, Pairs(|b.members|));
    }
  }

  lemma WorthIsWeight(name: Text, weight: real)
    requires Worth(name, weight)
    ensures IsExact(name) && WeightOf(name) == weight
  {}

  /**
   * Two messages with one value in common, and nothing else, are a topic exactly when the
   * signal is worth the threshold; both members and the topic score what it is worth.
   */
  lemma TwoMessages(one: MessageFacts, two: MessageFacts, name: Text, value: Text, weight: real, config: Config,
                    r: TopicFindings)
    requires ShareOne(one, two, name, value) && Worth(name, weight) && config.bucketCap >= 2
    requires IsFindings({one, two}, {}, config, r)
    ensures r.clusters
         == if weight >= config.minScore
            then [TopicCluster([TopicMember(one.id, weight, name), TopicMember(two.id, weight, name)], name, weight)]
            else []
  {
    var facts, b := {one, two}, Bucket(name, value, {one.id, two.id});
    SharedBucket(one, two, name, value, config);
    WorthIsWeight(name, weight);
    TwoIds(one, two);
    OnlyBucketOfTwo(facts, config, b, one.id, two.id, r);
  }

  lemma TwoIds(one: MessageFacts, two: MessageFacts)
    ensures IdSet({one, two}) == {one.id, two.id}
  {}

  lemma OnlyBucketOfTwo(facts: set<MessageFacts>, config: Config, b: Bucket, x: nat, y: nat, r: TopicFindings)
    requires Kept(facts, config) == {b} && IdSet(facts) == {x, y} && x < y && b.members == {x, y}
    requires IsExact(b.major) && IsFindings(facts, {}, config, r)
    ensures r.clusters
         == if WeightOf(b.major) >= config.minScore
            then [TopicCluster([TopicMember(x, WeightOf(b.major), b.major), TopicMember(y, WeightOf(b.major), b.major)],
                               b.major, WeightOf(b.major))]
            else []
  {
    var offered, best :| FoundWith(facts, {}, config, offered, best, r);
    NoProposals(offered, config);
    BucketOfTwo(facts, config, b, x, y, best);
  }

  lemma BucketOfTwo(facts: set<MessageFacts>, config: Config, b: Bucket, x: nat, y: nat, best: map<nat, Reason>)
    requires Kept(facts, config) == {b} && IdSet(facts) == {x, y} && x < y && b.members == {x, y}
    requires IsExact(b.major) && BestOf(best, TopicOffers(facts, map[], config))
    ensures ClustersOf(ComponentsOf(IdSet(facts), TopicLinks(facts, map[], config)), best)
         == if WeightOf(b.major) >= config.minScore
            then [TopicCluster([TopicMember(x, WeightOf(b.major), b.major), TopicMember(y, WeightOf(b.major), b.major)],
                               b.major, WeightOf(b.major))]
            else []
  {
    OneBucketSplit(facts, config, b);
    if WeightOf(b.major) >= config.minScore {
      StrongPair(facts, config, b, x, y, best);
      CliqueComponent(b, x, y);
      PairCluster(x, y, best, Reason(WeightOf(b.major), b.major));
    } else {
      WeakPair(facts, config, b);
      NoClusters(IdSet(facts), best);
    }
  }

  lemma CliqueComponent(b: Bucket, x: nat, y: nat)
    requires b.members == {x, y} && x < y
    ensures ComponentsOf({x, y}, CliqueLinks({b})) == [[x, y]]
  {
    OneClique(b, x, y);
    Step(CliqueLinks({b}), x, y);
    PairComponent(x, y, CliqueLinks({b}));
  }

  // ----- Two weak signals together

  /** Two messages with one attachment and one participant group in common, and nothing else. */
  ghost predicate ShareTwo(one: MessageFacts, two: MessageFacts, file: Text, group: Text) {
    one.id < two.id && KeysOf(one) == {(ATTACHMENT, file), (PARTICIPANTS, group)} == KeysOf(two)
  }

  lemma SharedBuckets(one: MessageFacts, two: MessageFacts, file: Text, group: Text, config: Config)
    requires ShareTwo(one, two, file, group) && config.bucketCap >= 2
    ensures Kept({one, two}, config)
         == {Bucket(ATTACHMENT, file, {one.id, two.id}), Bucket(PARTICIPANTS, group, {one.id, two.id})}
  {
    var facts := {one, two};
    TwoIndexed(one, two, file, group);
    BothCarry(one, two, (ATTACHMENT, file));
    BothCarry(one, two, (PARTICIPANTS, group));
    PairSize(one.id, two.id);
    TwoKept(facts, config, (ATTACHMENT, file), (PARTICIPANTS, group), {one.id, two.id});
  }

  lemma PairSize(x: nat, y: nat)
    requires x != y
    ensures |{x, y}| == 2
  {}

  lemma TwoIndexed(one: MessageFacts, two: MessageFacts, file: Text, group: Text)
    requires ShareTwo(one, two, file, group)
    ensures Index({one, two}) == {(ATTACHMENT, file), (PARTICIPANTS, group)}
  {
    assert one in {one, two};
  }

  lemma BothCarry(one: MessageFacts, two: MessageFacts, key: (Text, Text))
    requires key in KeysOf(one) && key in KeysOf(two)
    ensures Sharing({one, two}, key.0, key.1) == {one.id, two.id}
  {
    KeysAreCarried(one, key);
    KeysAreCarried(two, key);
  }

  lemma TwoKept(facts: set<MessageFacts>, config: Config, a: (Text, Text), b: (Text, Text), ids: set<nat>)
    requires Index(facts) == {a, b} && Sharing(facts, a.0, a.1) == ids == Sharing(facts, b.0, b.1)
    requires 1 < |ids| <= config.bucketCap
    ensures Kept(facts, config) == {Bucket(a.0, a.1, ids), Bucket(b.0, b.1, ids)}
  {
    assert a in Index(facts) && b in Index(facts);
    forall bucket | bucket in Kept(facts, config) ensures bucket in {Bucket(a.0, a.1, ids), Bucket(b.0, b.1, ids)} {
      var key :| key in Index(facts) && bucket == Bucket(key.0, key.1, Sharing(facts, key.0, key.1));
    }
  }

  lemma TwoBuckets(a: Bucket, b: Bucket) returns (first: Bucket, second: Bucket)
    requires a != b && Keyed({a, b})
    ensures SortedBuckets({a, b}) == [first, second] && {first, second} == {a, b} && first != second
  {
    first, second := if Before(a, b) then a else b, if Before(a, b) then b else a;
    var r := SortedBuckets({a, b});
    assert a in r && b in r;
    forall c ensures c in r <==> c in [first, second] {
      assert c in r <==> c in {a, b};
    }
    AscendingUnique(r, [first, second]);
  }

  lemma PairCovered(first: Bucket, second: Bucket, x: nat, y: nat)
    requires x < y && first.members == {x, y} == second.members
    ensures Covered([first]) == {(x, y)} == Covered([first, second])
    ensures SharedSignals([first, second], (x, y)) == {first.major, second.major}
    ensures Pairs(|first.members|) == 1
  {
    OnePairCovered(first, x, y);
    assert [first, second][..1] == [first];
    PairSize(x, y);
    PairsClosedForm(2);
  }

  lemma OnePairCovered(b: Bucket, x: nat, y: nat)
    requires x < y && b.members == {x, y}
    ensures PairsOf(b.members) == {(x, y)} == Covered([b]) && SharedSignals([b], (x, y)) == {b.major}
  {
    assert [b][..0] == [] && Covered([]) == {} && SharedSignals([], (x, y)) == {};
  }

  lemma BothFit(first: Bucket, second: Bucket, x: nat, y: nat, config: Config)
    requires x < y && first.members == {x, y} == second.members && config.maxWeakPairs >= 2
    ensures Fitting([first, second], 0, config) == 2
  {
    PairCovered(first, second, x, y);
    var pending := [first, second];
    assert pending[..0] == [] && pending[..1] == [first] && pending[..2] == pending;
    assert Covered([]) == {};
    assert Fitting(pending, 2, config) == 2;
    assert Fitting(pending, 1, config) == 2;
  }

  lemma BothScored(facts: set<MessageFacts>, config: Config, a: Bucket, b: Bucket, x: nat, y: nat)
    requires Kept(facts, config) == {a, b} && a != b && x < y && a.members == {x, y} == b.members
    requires !IsStrong(a.major, config) && !IsStrong(b.major, config) && config.maxWeakPairs >= 2
    ensures Strong(facts, config) == {}
    ensures Covered(ScoredOf(facts, config)) == {(x, y)}
    ensures SharedSignals(ScoredOf(facts, config), (x, y)) == {a.major, b.major}
  {
    assert Weak(facts, config) == {a, b};
    var first, second := TwoBuckets(a, b);
    BothFit(first, second, x, y, config);
    PairCovered(first, second, x, y);
    WholePair(first, second);
  }

  lemma WholePair(first: Bucket, second: Bucket)
    ensures [first, second][..2] == [first, second]
  {}

  lemma FileAndGroup()
    ensures TotalWeight({ATTACHMENT, PARTICIPANTS}) == 0.6 && Heaviest({ATTACHMENT, PARTICIPANTS}) == ATTACHMENT
  {}

  /** The one pair the table holds, and what it is offered when it reaches the threshold. */
  lemma OneWeakPair(scored: seq<Bucket>, config: Config, x: nat, y: nat)
    requires Covered(scored) == {(x, y)} && SharedSignals(scored, (x, y)) == {ATTACHMENT, PARTICIPANTS}
    ensures WeakLinks(scored, config) == if config.minScore <= 0.6 then {(x, y)} else {}
    ensures config.minScore <= 0.6 ==>
              WeakOffers(scored, config) == {(x, Reason(0.6, ATTACHMENT)), (y, Reason(0.6, ATTACHMENT))}
  {
    FileAndGroup();
  }

  /**
   * Where neither signal suffices, both may: the same file among the same people is worth 0.6, and
   * the topic goes by the file.
   */
  lemma TwoSignals(one: MessageFacts, two: MessageFacts, file: Text, group: Text, config: Config, r: TopicFindings)
    requires ShareTwo(one, two, file, group) && config.bucketCap >= 2 && config.maxWeakPairs >= 2
    requires config.minScore > 0.4 && IsFindings({one, two}, {}, config, r)
    ensures r.clusters
         == if config.minScore <= 0.6
            then [TopicCluster([TopicMember(one.id, 0.6, ATTACHMENT), TopicMember(two.id, 0.6, ATTACHMENT)],
                               ATTACHMENT, 0.6)]
            else []
  {
    SharedScored(one, two, file, group, config);
    TwoIds(one, two);
    OnlyWeakPair({one, two}, config, one.id, two.id, r);
  }

  lemma SharedScored(one: MessageFacts, two: MessageFacts, file: Text, group: Text, config: Config)
    requires ShareTwo(one, two, file, group) && config.bucketCap >= 2 && config.maxWeakPairs >= 2
    requires config.minScore > 0.4
    ensures Strong({one, two}, config) == {}
    ensures Covered(ScoredOf({one, two}, config)) == {(one.id, two.id)}
    ensures SharedSignals(ScoredOf({one, two}, config), (one.id, two.id)) == {ATTACHMENT, PARTICIPANTS}
  {
    SharedBuckets(one, two, file, group, config);
    WeakTogether({one, two}, config, file, group, one.id, two.id);
  }

  lemma WeakTogether(facts: set<MessageFacts>, config: Config, file: Text, group: Text, x: nat, y: nat)
    requires Kept(facts, config) == {Bucket(ATTACHMENT, file, {x, y}), Bucket(PARTICIPANTS, group, {x, y})} && x < y
    requires config.maxWeakPairs >= 2 && config.minScore > 0.4
    ensures Strong(facts, config) == {}
    ensures Covered(ScoredOf(facts, config)) == {(x, y)}
    ensures SharedSignals(ScoredOf(facts, config), (x, y)) == {ATTACHMENT, PARTICIPANTS}
  {
    NeitherStrong(config);
    BothScored(facts, config, Bucket(ATTACHMENT, file, {x, y}), Bucket(PARTICIPANTS, group, {x, y}), x, y);
  }

  lemma NeitherStrong(config: Config)
    requires config.minScore > 0.4
    ensures !IsStrong(ATTACHMENT, config) && !IsStrong(PARTICIPANTS, config)
  {}

  lemma OnlyWeakPair(facts: set<MessageFacts>, config: Config, x: nat, y: nat, r: TopicFindings)
    requires IdSet(facts) == {x, y} && x < y && Strong(facts, config) == {}
    requires Covered(ScoredOf(facts, config)) == {(x, y)}
    requires SharedSignals(ScoredOf(facts, config), (x, y)) == {ATTACHMENT, PARTICIPANTS}
    requires IsFindings(facts, {}, config, r)
    ensures r.clusters
         == if config.minScore <= 0.6
            then [TopicCluster([TopicMember(x, 0.6, ATTACHMENT), TopicMember(y, 0.6, ATTACHMENT)], ATTACHMENT, 0.6)]
            else []
  {
    var offered, best :| FoundWith(facts, {}, config, offered, best, r);
    NoProposals(offered, config);
    WeakPairFound(facts, config, x, y, best);
  }

  lemma OnlyWeakLinks(facts: set<MessageFacts>, config: Config)
    requires Strong(facts, config) == {}
    ensures TopicLinks(facts, map[], config) == WeakLinks(ScoredOf(facts, config), config)
    ensures TopicOffers(facts, map[], config) == WeakOffers(ScoredOf(facts, config), config)
  {
    NothingFrom(config);
    NothingApplied(|Covered(ScoredOf(facts, config))|, config);
  }

  lemma WeakPairFound(facts: set<MessageFacts>, config: Config, x: nat, y: nat, best: map<nat, Reason>)
    requires IdSet(facts) == {x, y} && x < y && Strong(facts, config) == {}
    requires Covered(ScoredOf(facts, config)) == {(x, y)}
    requires SharedSignals(ScoredOf(facts, config), (x, y)) == {ATTACHMENT, PARTICIPANTS}
    requires BestOf(best, TopicOffers(facts, map[], config))
    ensures ClustersOf(ComponentsOf({x, y}, TopicLinks(facts, map[], config)), best)
         == if config.minScore <= 0.6
            then [TopicCluster([TopicMember(x, 0.6, ATTACHMENT), TopicMember(y, 0.6, ATTACHMENT)], ATTACHMENT, 0.6)]
            else []
  {
    OnlyWeakLinks(facts, config);
    OneWeakPair(ScoredOf(facts, config), config, x, y);
    if config.minScore <= 0.6 {
      Step({(x, y)}, x, y);
      PairComponent(x, y, {(x, y)});
      PairReasons(x, y, Reason(0.6, ATTACHMENT), best);
      PairCluster(x, y, best, Reason(0.6, ATTACHMENT));
    } else {
      NoClusters({x, y}, best);
    }
  }

  lemma PairReasons(x: nat, y: nat, reason: Reason, best: map<nat, Reason>)
    requires x != y && BestOf(best, {(x, reason), (y, reason)})
    ensures x in best && y in best && best[x] == reason == best[y]
  {
    assert (x, reason) in {(x, reason), (y, reason)} && (y, reason) in {(x, reason), (y, reason)};
    assert (x, best[x]) in {(x, reason), (y, reason)} && (y, best[y]) in {(x, reason), (y, reason)};
  }
}
