/**
 * A topic as it is read back (`derived/topics.py`, `_cluster` and `_label`): its name, its
 * dates, its key and its score, none of them touched by an order.
 */
module TopicReports {
  import opened Order
  import opened Closure
  import opened Partition
  import opened Facts
  import opened TopicRules
  import opened Topics
  import opened TopicClaims

  // ----- `_label`

  ghost function Subjects(own: set<MessageFacts>): set<Text> {
    set one | one in own && one.subjectNorm != EMPTY :: one.subjectNorm
  }

  ghost function Carriers(own: set<MessageFacts>, subject: Text): set<MessageFacts> {
    set one | one in own && one.subjectNorm == subject
  }

  /** How many of the messages carry a subject. */
  ghost function Times(own: set<MessageFacts>, subject: Text): nat {
    |Carriers(own, subject)|
  }

  /** Carried by more messages than any other subject, or by as many and smaller. */
  ghost predicate Leading(own: set<MessageFacts>, subject: Text) {
    && subject in Subjects(own)
    && forall other | other in Subjects(own) && other != subject ::
         Times(own, other) < Times(own, subject) || (Times(own, other) == Times(own, subject) && subject < other)
  }

  /** The tickets every one of the messages names. */
  ghost function SharedRefs(own: set<MessageFacts>): set<Text> {
    set one, ref | one in own && ref in one.refs && (forall other | other in own :: ref in other.refs) :: ref
  }

  /** The leading subject; with no subject at all the smallest shared ticket; else nothing. */
  ghost predicate IsLabel(own: set<MessageFacts>, name: Text) {
    if Subjects(own) != {} then Leading(own, name)
    else if SharedRefs(own) != {} then IsLeast(name, SharedRefs(own))
    else name == EMPTY
  }

  lemma OneLabel(own: set<MessageFacts>, a: Text, b: Text)
    requires IsLabel(own, a) && IsLabel(own, b)
    ensures a == b
  {}

  ghost predicate CountsOf(counts: map<Text, nat>, own: set<MessageFacts>) {
    && counts.Keys == Subjects(own)
    && forall subject | subject in counts :: counts[subject] == Times(own, subject)
  }

  function OneMore(counts: map<Text, nat>, subject: Text): map<Text, nat> {
    if subject == EMPTY then counts
    else counts[subject := (if subject in counts then counts[subject] else 0) + 1]
  }

  lemma TimesGrow(own: set<MessageFacts>, one: MessageFacts, subject: Text)
    requires one !in own
    ensures Times(own + {one}, subject) == Times(own, subject) + if one.subjectNorm == subject then 1 else 0
    ensures subject !in Subjects(own) && subject != EMPTY ==> Times(own, subject) == 0
  {
    CarriersGrow(own, one, subject);
  }

  lemma CarriersGrow(own: set<MessageFacts>, one: MessageFacts, subject: Text)
    ensures Carriers(own + {one}, subject) == Carriers(own, subject) + if one.subjectNorm == subject then {one} else {}
    ensures subject !in Subjects(own) && subject != EMPTY ==> Carriers(own, subject) == {}
  {}

  lemma CountsGrow(counts: map<Text, nat>, own: set<MessageFacts>, one: MessageFacts)
    requires CountsOf(counts, own) && one !in own
    ensures CountsOf(OneMore(counts, one.subjectNorm), own + {one})
  {
    var after := OneMore(counts, one.subjectNorm);
    assert Subjects(own + {one}) == Subjects(own) + if one.subjectNorm == EMPTY then {} else {one.subjectNorm};
    forall subject | subject in after ensures after[subject] == Times(own + {one}, subject) {
      TimesGrow(own, one, subject);
    }
  }

  method CountSubjects(own: set<MessageFacts>) returns (counts: map<Text, nat>)
    ensures CountsOf(counts, own)
  {
    counts := map[];
    var rest := own;
    while rest != {}
      invariant rest <= own && CountsOf(counts, own - rest)
      decreases rest
    {
      var one :| one in rest;
      CountsGrow(counts, own - rest, one);
      counts := OneMore(counts, one.subjectNorm);
      assert own - rest + {one} == own - (rest - {one});
      rest := rest - {one};
    }
    assert own - rest == own;
  }

  predicate Leads(counts: map<Text, nat>, a: Text, b: Text)
    requires a in counts && b in counts
  {
    a == b || counts[b] < counts[a] || (counts[b] == counts[a] && a < b)
  }

  method LeadingSubject(counts: map<Text, nat>) returns (subject: Text)
    requires counts.Keys != {}
    ensures subject in counts && forall other | other in counts :: Leads(counts, subject, other)
  {
    subject :| subject in counts.Keys;
    var rest := counts.Keys - {subject};
    while rest != {}
      invariant rest <= counts.Keys && subject in counts
      invariant forall other | other in counts && other !in rest :: Leads(counts, subject, other)
      decreases rest
    {
      var other :| other in rest;
      if !Leads(counts, subject, other) {
        subject := other;
      }
      rest := rest - {other};
    }
  }

  method IntersectRefs(own: set<MessageFacts>) returns (shared: set<Text>)
    ensures shared == SharedRefs(own)
  {
    shared := {};
    if own == {} {
      return;
    }
    var first :| first in own;
    shared := first.refs;
    var rest := own - {first};
    while rest != {}
      invariant rest <= own && first !in rest
      invariant forall ref :: ref in shared <==> forall one | one in own - rest :: ref in one.refs
      decreases rest
    {
      var one :| one in rest;
      shared := shared * one.refs;
      rest := rest - {one};
    }
    assert own - rest == own;
  }

  method NameOf(own: set<MessageFacts>) returns (name: Text)
    ensures IsLabel(own, name)
  {
    var counts := CountSubjects(own);
    if counts.Keys != {} {
      name := LeadingSubject(counts);
      return;
    }
    var shared := IntersectRefs(own);
    name := if shared != {} then Min(shared) else EMPTY;
  }

  // ----- `_cluster`

  datatype Topic = Topic(id: Text, name: Text, how: Text, score: real, firstSeen: Option<nat>, lastSeen: Option<nat>,
                         members: seq<TopicMember>)

  datatype TopicReport = TopicReport(topics: seq<Topic>, droppedBuckets: nat, droppedPairs: nat)

  /** How a member set becomes a key, and a mean a score. */
  datatype Keying = Keying(digest: set<nat> -> Text, round: real -> real)

  function MemberIds(members: seq<TopicMember>): set<nat> {
    set i | 0 <= i < |members| :: members[i].messageId
  }

  function Own(facts: set<MessageFacts>, ids: set<nat>): set<MessageFacts> {
    set one | one in facts && one.id in ids
  }

  function Dates(own: set<MessageFacts>): seq<nat> {
    Sorted(set one | one in own && one.sentAt.Some? :: one.sentAt.value)
  }

  /** One cluster as it is read back. */
  ghost predicate Describes(topic: Topic, cluster: TopicCluster, facts: set<MessageFacts>, keying: Keying) {
    var ids := MemberIds(cluster.members);
    var own := Own(facts, ids);
    var dates := Dates(own);
    && topic.id == keying.digest(ids) && IsLabel(own, topic.name)
    && topic.how == cluster.how && topic.score == keying.round(cluster.score) && topic.members == cluster.members
    && topic.firstSeen == (if dates == [] then None else Some(dates[0]))
    && topic.lastSeen == (if dates == [] then None else Some(dates[|dates| - 1]))
  }

  /** A topic was first and last seen with its dated messages. */
  lemma DatesOfTopic(topic: Topic, cluster: TopicCluster, facts: set<MessageFacts>, keying: Keying)
    requires Describes(topic, cluster, facts, keying)
    ensures var own := set one | one in facts
                                 && exists i :: 0 <= i < |topic.members| && topic.members[i].messageId == one.id;
            IsFirstSeen(topic.firstSeen, own) && IsLastSeen(topic.lastSeen, own)
  {
    var own := set one | one in facts && exists i :: 0 <= i < |topic.members| && topic.members[i].messageId == one.id;
    assert own == Own(facts, MemberIds(cluster.members));
    DatesEnd(own, Dates(own));
  }

  ghost predicate DescribesAll(topics: seq<Topic>, clusters: seq<TopicCluster>, facts: set<MessageFacts>,
                               keying: Keying)
  {
    |topics| == |clusters| && forall k | 0 <= k < |topics| :: Describes(topics[k], clusters[k], facts, keying)
  }

  method Describe(cluster: TopicCluster, facts: set<MessageFacts>, keying: Keying) returns (topic: Topic)
    ensures Describes(topic, cluster, facts, keying)
  {
    var ids := MemberIds(cluster.members);
    var own := Own(facts, ids);
    var dates := Dates(own);
    var name := NameOf(own);
    topic := Topic(keying.digest(ids), name, cluster.how, keying.round(cluster.score),
                   if dates == [] then None else Some(dates[0]),
                   if dates == [] then None else Some(dates[|dates| - 1]), cluster.members);
  }

  ghost predicate Reports(r: TopicReport, findings: TopicFindings, facts: set<MessageFacts>, keying: Keying) {
    && DescribesAll(r.topics, findings.clusters, facts, keying)
    && r.droppedBuckets == findings.droppedBuckets && r.droppedPairs == findings.droppedPairs
  }

  ghost predicate IsReport(r: TopicReport, facts: seq<MessageFacts>, edges: seq<SimilarityEdge>, config: Config,
                           keying: Keying)
  {
    exists findings :: FindingsOf(facts, edges, config, findings) && Reports(r, findings, SetOf(facts), keying)
  }

  /** The findings, each cluster described. */
  method ReportTopics(facts: seq<MessageFacts>, edges: seq<SimilarityEdge>, config: Config, keying: Keying)
    returns (r: TopicReport)
    requires DistinctIds(facts)
    ensures IsReport(r, facts, edges, config, keying)
  {
    var findings := BuildTopics(facts, edges, config);
    var all := set one | one in facts;
    assert all == SetOf(facts);
    var topics := DescribeAll(findings.clusters, all, keying);
    r := TopicReport(topics, findings.droppedBuckets, findings.droppedPairs);
    assert Reports(r, findings, SetOf(facts), keying) && FindingsOf(facts, edges, config, findings);
  }

  method DescribeAll(clusters: seq<TopicCluster>, facts: set<MessageFacts>, keying: Keying)
    returns (topics: seq<Topic>)
    ensures DescribesAll(topics, clusters, facts, keying)
  {
    topics := [];
    for k := 0 to |clusters|
      invariant |topics| == k && forall l | 0 <= l < k :: Describes(topics[l], clusters[l], facts, keying)
    {
      var topic := Describe(clusters[k], facts, keying);
      topics := topics + [topic];
    }
  }

  lemma OneDescription(a: Topic, b: Topic, cluster: TopicCluster, facts: set<MessageFacts>, keying: Keying)
    requires Describes(a, cluster, facts, keying) && Describes(b, cluster, facts, keying)
    ensures a == b
  {
    OneLabel(Own(facts, MemberIds(cluster.members)), a.name, b.name);
  }

  /** Names, dates, keys and scores are as independent of every order as the clusters are. */
  lemma ReportIndependent(facts: seq<MessageFacts>, facts': seq<MessageFacts>, edges: seq<SimilarityEdge>,
                          edges': seq<SimilarityEdge>, config: Config, keying: Keying, r: TopicReport, r': TopicReport)
    requires multiset(facts) == multiset(facts')
    requires SaysNoMore(edges, edges') && SaysNoMore(edges', edges)
    requires IsReport(r, facts, edges, config, keying) && IsReport(r', facts', edges', config, keying)
    ensures r == r'
  {
    var findings :| FindingsOf(facts, edges, config, findings) && Reports(r, findings, SetOf(facts), keying);
    var findings' :| FindingsOf(facts', edges', config, findings') && Reports(r', findings', SetOf(facts'), keying);
    OrderIndependent(facts, facts', edges, edges', config, findings, findings');
    SameFacts(facts, facts');
    OneReport(r, r', findings, SetOf(facts), keying);
  }

  // ----- The keys

  lemma ClusterIds(members: seq<nat>, best: map<nat, Reason>, x: nat)
    requires members != []
    ensures x in MemberIds(ClusterOf(members, best).members) <==> x in members
  {
    var cluster := ClusterOf(members, best);
    if x in members {
      var i :| 0 <= i < |members| && members[i] == x;
      assert cluster.members[i].messageId == x;
    }
  }

  /** The i-th cluster describes the k-th component. */
  ghost predicate From(clusters: seq<TopicCluster>, components: seq<seq<nat>>, best: map<nat, Reason>, i: nat, k: nat) {
    i < |clusters| && k < |components| && |components[k]| > 1 && clusters[i] == ClusterOf(components[k], best)
  }

  lemma {:induction false} ClusterFrom(components: seq<seq<nat>>, best: map<nat, Reason>, i: nat) returns (k: nat)
    requires i < |ClustersOf(components, best)|
    ensures From(ClustersOf(components, best), components, best, i, k)
  {
    var before := if |components[0]| > 1 then [ClusterOf(components[0], best)] else [];
    if i < |before| {
      k := 0;
    } else {
      var later := ClusterFrom(components[1..], best, i - |before|);
      FromRest(before, ClustersOf(components[1..], best), components, best, i, later);
      k := later + 1;
    }
  }

  lemma FromRest(before: seq<TopicCluster>, rest: seq<TopicCluster>, components: seq<seq<nat>>,
                 best: map<nat, Reason>, i: nat, k: nat)
    requires components != [] && i >= |before| && From(rest, components[1..], best, i - |before|, k)
    ensures From(before + rest, components, best, i, k + 1)
  {}

  ghost predicate NoneTwice(components: seq<seq<nat>>) {
    forall k, l, x | 0 <= k < l < |components| && x in components[k] :: x !in components[l]
  }

  lemma RestNoneTwice(components: seq<seq<nat>>)
    requires components != [] && NoneTwice(components)
    ensures NoneTwice(components[1..])
  {
    var rest := components[1..];
    forall k, l, x | 0 <= k < l < |rest| && x in rest[k] ensures x !in rest[l] {
      assert rest[k] == components[k + 1] && rest[l] == components[l + 1];
    }
  }

  lemma FirstApart(components: seq<seq<nat>>, best: map<nat, Reason>, k: nat)
    requires NoneTwice(components) && 0 < k < |components| && components[0] != [] && components[k] != []
    ensures MemberIds(ClusterOf(components[0], best).members) != MemberIds(ClusterOf(components[k], best).members)
  {
    var x := components[0][0];
    assert x in components[0];
    ClusterIds(components[0], best, x);
    ClusterIds(components[k], best, x);
  }

  ghost predicate Apart(clusters: seq<TopicCluster>, i: nat, j: nat)
    requires i < |clusters| && j < |clusters|
  {
    MemberIds(clusters[i].members) != MemberIds(clusters[j].members)
  }

  lemma ApartLater(first: TopicCluster, rest: seq<TopicCluster>, i: nat, j: nat)
    requires 0 < i < j <= |rest| && Apart(rest, i - 1, j - 1)
    ensures Apart([first] + rest, i, j)
  {}

  lemma ApartFirst(first: TopicCluster, rest: seq<TopicCluster>, j: nat)
    requires 0 < j <= |rest| && MemberIds(first.members) != MemberIds(rest[j - 1].members)
    ensures Apart([first] + rest, 0, j)
  {}

  lemma {:induction false} ClustersApart(components: seq<seq<nat>>, best: map<nat, Reason>, i: nat, j: nat)
    requires NoneTwice(components) && i < j < |ClustersOf(components, best)|
    ensures Apart(ClustersOf(components, best), i, j)
  {
    var rest := ClustersOf(components[1..], best);
    RestNoneTwice(components);
    if |components[0]| <= 1 {
      ClustersApart(components[1..], best, i, j);
    } else if i == 0 {
      var k := ClusterFrom(components[1..], best, j - 1);
      FirstApart(components, best, k + 1);
      ApartFirst(ClusterOf(components[0], best), rest, j);
    } else {
      ClustersApart(components[1..], best, i - 1, j - 1);
      ApartLater(ClusterOf(components[0], best), rest, i, j);
    }
  }

  lemma ComponentsNoneTwice(ids: set<nat>, links: set<Link>)
    ensures NoneTwice(ComponentsOf(ids, links))
  {
    var components := ComponentsOf(ids, links);
    forall k, l, x | 0 <= k < l < |components| && x in components[k] ensures x !in components[l] {
      ComponentsDisjoint(ids, links, k, l, x);
    }
  }

  /** No two topics of a report share a key. */
  lemma KeysDistinct(facts: seq<MessageFacts>, edges: seq<SimilarityEdge>, config: Config, keying: Keying,
                     r: TopicReport, i: nat, j: nat)
    requires forall a, b {:trigger keying.digest(a), keying.digest(b)} | keying.digest(a) == keying.digest(b) :: a == b
    requires IsReport(r, facts, edges, config, keying) && i < j < |r.topics|
    ensures r.topics[i].id != r.topics[j].id
  {
    var findings :| FindingsOf(facts, edges, config, findings) && Reports(r, findings, SetOf(facts), keying);
    var offered, best :| FoundWith(SetOf(facts), Proposals(edges, config, Ids(facts)), config, offered, best, findings);
    var ids, links := IdSet(SetOf(facts)), TopicLinks(SetOf(facts), offered, config);
    ComponentsNoneTwice(ids, links);
    ClustersApart(ComponentsOf(ids, links), best, i, j);
  }

  // ----- The order

  lemma OneReport(r: TopicReport, r': TopicReport, findings: TopicFindings, facts: set<MessageFacts>, keying: Keying)
    requires Reports(r, findings, facts, keying) && Reports(r', findings, facts, keying)
    ensures r == r'
  {
    forall k | 0 <= k < |r.topics| ensures r.topics[k] == r'.topics[k] {
      OneDescription(r.topics[k], r'.topics[k], findings.clusters[k], facts, keying);
    }
  }
}
