/**
 * The relation behind a topic (`derived/topics.py`), said without an order:
 * buckets of shared values, weak signals added up per pair, suggestions on top.
 *
 * Method names are strings in the program; here they are numbers in the order of those
 * strings, with `embedding` falling between `conversation` and `participants`.
 */
module TopicRules {
  import opened Order
  import opened Closure
  import opened Buckets
  import opened Facts

  const ATTACHMENT: Text := 10
  const CONVERSATION: Text := 20
  const EMBEDDING: Text := 30
  const PARTICIPANTS: Text := 40
  const REF: Text := 50
  const SUBJECT: Text := 60
  const THREAD: Text := 70

  datatype Config = Config(minScore: real, bucketCap: int, maxWeakPairs: int)

  /** A name among the known signals. */
  predicate IsExact(name: Text) {
    name == REF || name == CONVERSATION || name == THREAD || name == SUBJECT
    || name == ATTACHMENT || name == PARTICIPANTS
  }

  /** `_weight_of`: the calibrated weight; zero for a name this build does not know. */
  function WeightOf(name: Text): real {
    if name == REF then 1.0
    else if name == CONVERSATION then 0.9
    else if name == THREAD then 0.8
    else if name == SUBJECT then 0.5
    else if name == ATTACHMENT then 0.4
    else if name == PARTICIPANTS then 0.2
    else 0.0
  }

  /** The values of one signal a message carries. */
  function Carries(one: MessageFacts, name: Text): set<Text> {
    if name == REF then one.refs
    else if name == THREAD then (if ThreadKey(one) == EMPTY then {} else {ThreadKey(one)})
    else if name == SUBJECT then (if one.subjectNorm == EMPTY then {} else {one.subjectNorm})
    else if name == ATTACHMENT then one.attachments
    else if name == PARTICIPANTS then (if one.participantKey == EMPTY then {} else {one.participantKey})
    else {}
  }

  // ----- Buckets

  function Sharing(facts: set<MessageFacts>, name: Text, value: Text): set<nat> {
    set one | one in facts && value in Carries(one, name) :: one.id
  }

  /** Every (signal, value) a message carries. */
  function KeysOf(one: MessageFacts): set<(Text, Text)> {
    (set value | value in one.refs :: (REF, value))
    + (if ThreadKey(one) == EMPTY then {} else {(THREAD, ThreadKey(one))})
    + (if one.subjectNorm == EMPTY then {} else {(SUBJECT, one.subjectNorm)})
    + (set value | value in one.attachments :: (ATTACHMENT, value))
    + (if one.participantKey == EMPTY then {} else {(PARTICIPANTS, one.participantKey)})
  }

  lemma KeysAreCarried(one: MessageFacts, key: (Text, Text))
    ensures key in KeysOf(one) <==> key.1 in Carries(one, key.0)
  {}

  function Index(facts: set<MessageFacts>): set<(Text, Text)> {
    set one, key | one in facts && key in KeysOf(one) :: key
  }

  /** The kept buckets: at least two messages, at most the cap. */
  function Kept(facts: set<MessageFacts>, config: Config): (r: set<Bucket>)
    ensures Keyed(r)
  {
    set key | key in Index(facts) && 1 < |Sharing(facts, key.0, key.1)| <= config.bucketCap ::
      Bucket(key.0, key.1, Sharing(facts, key.0, key.1))
  }

  /** The (signal, value) keys dropped as boilerplate. */
  function Oversized(facts: set<MessageFacts>, config: Config): set<(Text, Text)> {
    set key | key in Index(facts) && |Sharing(facts, key.0, key.1)| > config.bucketCap
  }

  predicate IsStrong(name: Text, config: Config) {
    WeightOf(name) >= config.minScore
  }

  function Strong(facts: set<MessageFacts>, config: Config): set<Bucket> {
    set b | b in Kept(facts, config) && IsStrong(b.major, config)
  }

  function Weak(facts: set<MessageFacts>, config: Config): (r: set<Bucket>)
    ensures Keyed(r)
  {
    set b | b in Kept(facts, config) && !IsStrong(b.major, config)
  }

  // ----- Strong signals

  /** Two messages of one strong bucket. */
  ghost function CliqueLinks(buckets: set<Bucket>): set<Link> {
    set b, x, y | b in buckets && x in b.members && y in b.members :: (x, y)
  }

  // ----- Weak signals

  /** Every pair of a bucket once, smaller id first. */
  function PairsOf(members: set<nat>): set<Link> {
    set x, y | x in members && y in members && x < y :: (x, y)
  }

  /** The pairs the table holds once these buckets are scored. */
  ghost function Covered(scored: seq<Bucket>): set<Link> {
    if scored == [] then {} else Covered(scored[..|scored| - 1]) + PairsOf(scored[|scored| - 1].members)
  }

  /** The signals a pair shares among these buckets, each once however many values it shares. */
  ghost function SharedSignals(scored: seq<Bucket>, pair: Link): set<Text> {
    if scored == [] then {}
    else
      var last := scored[|scored| - 1];
      SharedSignals(scored[..|scored| - 1], pair)
      + if pair in PairsOf(last.members) then {last.major} else {}
  }

  /** The accumulated weight of a set of signals. */
  function TotalWeight(names: set<Text>): real {
    (if REF in names then WeightOf(REF) else 0.0)
    + (if CONVERSATION in names then WeightOf(CONVERSATION) else 0.0)
    + (if THREAD in names then WeightOf(THREAD) else 0.0)
    + (if SUBJECT in names then WeightOf(SUBJECT) else 0.0)
    + (if ATTACHMENT in names then WeightOf(ATTACHMENT) else 0.0)
    + (if PARTICIPANTS in names then WeightOf(PARTICIPANTS) else 0.0)
  }

  /** The heaviest of a set of signals, empty when there is none. */
  function Heaviest(names: set<Text>): Text {
    if REF in names then REF
    else if CONVERSATION in names then CONVERSATION
    else if THREAD in names then THREAD
    else if SUBJECT in names then SUBJECT
    else if ATTACHMENT in names then ATTACHMENT
    else if PARTICIPANTS in names then PARTICIPANTS
    else EMPTY
  }

  ghost function WeakLinks(scored: seq<Bucket>, config: Config): set<Link> {
    set pair | pair in Covered(scored) && TotalWeight(SharedSignals(scored, pair)) >= config.minScore
  }

  /** How many buckets fit the weak-pair budget, in order, until one does not. */
  ghost function Fitting(pending: seq<Bucket>, n: nat, config: Config): (k: nat)
    requires n <= |pending|
    ensures n <= k <= |pending|
    decreases |pending| - n
  {
    if n == |pending| || |Covered(pending[..n])| + Pairs(|pending[n].members|) > config.maxWeakPairs then n
    else Fitting(pending, n + 1, config)
  }

  function PairSum(pending: seq<Bucket>): nat {
    if pending == [] then 0 else Pairs(|pending[0].members|) + PairSum(pending[1..])
  }

  // ----- Suggestions

  datatype Reason = Reason(score: real, how: Text)

  /** `(-weight, method)` compared: the fold of two suggestions for one pair. */
  predicate FoldsBefore(a: Reason, b: Reason) {
    a.score > b.score || (a.score == b.score && a.how < b.how)
  }

  predicate Acceptable(edge: SimilarityEdge, config: Config, known: set<nat>) {
    edge.weight >= config.minScore && edge.left != edge.right && edge.left in known && edge.right in known
  }

  function Canonical(edge: SimilarityEdge): Link {
    if edge.left < edge.right then (edge.left, edge.right) else (edge.right, edge.left)
  }

  /** What a batch of suggestions proposes, its order, repeats and directions forgotten. */
  function Proposals(edges: seq<SimilarityEdge>, config: Config, known: set<nat>): set<(Link, Reason)> {
    set edge | edge in edges && Acceptable(edge, config, known) :: (Canonical(edge), Reason(edge.weight, edge.how))
  }

  /** One reason per proposed pair: the first of its proposals under the fold. */
  ghost predicate Folded(offered: map<Link, Reason>, proposals: set<(Link, Reason)>) {
    && (forall pair {:trigger offered[pair]} | pair in offered :: (pair, offered[pair]) in proposals)
    && (forall pair, reason {:trigger (pair, reason) in proposals} | (pair, reason) in proposals ::
          pair in offered && !FoldsBefore(reason, offered[pair]))
  }

  /** `(-weight, pair)` compared. */
  predicate RanksBefore(offered: map<Link, Reason>, p: Link, q: Link)
    requires p in offered && q in offered
  {
    || offered[p].score > offered[q].score
    || (offered[p].score == offered[q].score && p.0 < q.0)
    || (offered[p].score == offered[q].score && p.0 == q.0 && p.1 < q.1)
  }

  predicate RanksFirst(offered: map<Link, Reason>, p: Link, pairs: set<Link>)
    requires pairs <= offered.Keys
  {
    p in pairs && forall q | q in pairs :: q == p || RanksBefore(offered, p, q)
  }

  lemma {:induction false} FirstRanked(offered: map<Link, Reason>, pairs: set<Link>) returns (p: Link)
    requires pairs != {} && pairs <= offered.Keys
    ensures RanksFirst(offered, p, pairs)
  {
    p :| p in pairs;
    var rest := pairs - {p};
    assert forall q | q in pairs :: q == p || q in rest;
    if rest != {} {
      var other := FirstRanked(offered, rest);
      p := if RanksBefore(offered, p, other) then p else other;
    }
  }

  /** The suggestions in the order the budget meets them: heaviest first, ties by pair. */
  function Ranked(offered: map<Link, Reason>, pairs: set<Link>): (r: seq<Link>)
    requires pairs <= offered.Keys
    ensures |r| == |pairs| && forall p :: p in r <==> p in pairs
  {
    if pairs == {} then []
    else
      assert exists p :: RanksFirst(offered, p, pairs) by { var p := FirstRanked(offered, pairs); }
      var p :| RanksFirst(offered, p, pairs);
      [p] + Ranked(offered, pairs - {p})
  }

  function Max0(n: int): nat {
    if n > 0 then n else 0
  }

  /** The pairs applied: the strongest the budget has left over. */
  function Applied(offered: map<Link, Reason>, spent: nat, config: Config): seq<Link> {
    var budget := Max0(config.maxWeakPairs - spent);
    var ranked := Ranked(offered, offered.Keys);
    if budget < |ranked| then ranked[..budget] else ranked
  }

  // ----- Why a message is in its component

  /** `_reason_rank` compared: exact before suggested whatever the scores, then score, then name. */
  predicate Better(a: Reason, b: Reason) {
    || (IsExact(a.how) && !IsExact(b.how))
    || (IsExact(a.how) == IsExact(b.how) && a.score > b.score)
    || (IsExact(a.how) == IsExact(b.how) && a.score == b.score && a.how < b.how)
  }

  function Capped(score: real): real {
    if score < 1.0 then score else 1.0
  }

  ghost function StrongOffers(strong: set<Bucket>): set<(nat, Reason)> {
    set b, m | b in strong && m in b.members :: (m, Reason(WeightOf(b.major), b.major))
  }

  ghost function PairReason(names: set<Text>): Reason {
    Reason(Capped(TotalWeight(names)), Heaviest(names))
  }

  ghost function WeakOffers(scored: seq<Bucket>, config: Config): set<(nat, Reason)> {
    (set pair | pair in WeakLinks(scored, config) :: (pair.0, PairReason(SharedSignals(scored, pair))))
    + (set pair | pair in WeakLinks(scored, config) :: (pair.1, PairReason(SharedSignals(scored, pair))))
  }

  ghost function ExtraOffers(applied: set<Link>, offered: map<Link, Reason>): set<(nat, Reason)>
    requires applied <= offered.Keys
  {
    (set pair | pair in applied :: (pair.0, Reason(Capped(offered[pair].score), offered[pair].how)))
    + (set pair | pair in applied :: (pair.1, Reason(Capped(offered[pair].score), offered[pair].how)))
  }

  /** Per message, the strongest reason among those offered. */
  ghost predicate BestOf(best: map<nat, Reason>, offers: set<(nat, Reason)>) {
    && (forall m {:trigger best[m]} | m in best :: (m, best[m]) in offers)
    && (forall m, reason {:trigger (m, reason) in offers} | (m, reason) in offers ::
          m in best && !Better(reason, best[m]))
  }

  /** `_offer`. */
  function Offer(best: map<nat, Reason>, m: nat, reason: Reason): map<nat, Reason> {
    if m !in best || Better(reason, best[m]) then best[m := reason] else best
  }

  lemma OfferKeepsBest(best: map<nat, Reason>, offers: set<(nat, Reason)>, m: nat, reason: Reason)
    requires BestOf(best, offers)
    ensures BestOf(Offer(best, m, reason), offers + {(m, reason)})
  {
    var after, more := Offer(best, m, reason), offers + {(m, reason)};
    forall n, other | (n, other) in more ensures n in after && !Better(other, after[n]) {
      if (n, other) != (m, reason) {
        assert (n, other) in offers;
      }
    }
    forall n | n in after ensures (n, after[n]) in more {
      if n in best { assert (n, best[n]) in offers; }
    }
  }

  /** What was offered decides the outcome; the order it was offered in does not. */
  lemma BestUnique(a: map<nat, Reason>, b: map<nat, Reason>, offers: set<(nat, Reason)>)
    requires BestOf(a, offers) && BestOf(b, offers)
    ensures a == b
  {
    forall m | m in a ensures m in b && a[m] == b[m] {
      assert (m, a[m]) in offers;
      assert (m, b[m]) in offers;
    }
    forall m | m in b ensures m in a {
      assert (m, b[m]) in offers;
    }
  }

  lemma FoldedUnique(a: map<Link, Reason>, b: map<Link, Reason>, proposals: set<(Link, Reason)>)
    requires Folded(a, proposals) && Folded(b, proposals)
    ensures a == b
  {
    forall pair | pair in a ensures pair in b && a[pair] == b[pair] {
      assert (pair, a[pair]) in proposals;
      assert (pair, b[pair]) in proposals;
    }
    forall pair | pair in b ensures pair in a {
      assert (pair, b[pair]) in proposals;
    }
  }

  // ----- The whole relation

  ghost function ScoredOf(facts: set<MessageFacts>, config: Config): seq<Bucket> {
    var pending := SortedBuckets(Weak(facts, config));
    pending[..Fitting(pending, 0, config)]
  }

  function AppliedSet(offered: map<Link, Reason>, spent: nat, config: Config): (r: set<Link>)
    ensures r <= offered.Keys
  {
    var applied := Applied(offered, spent, config);
    assert forall p | p in applied :: p in Ranked(offered, offered.Keys);
    set p | p in applied
  }

  /** Everything that joins two messages: facts that suffice, facts that add up, suggestions left room for. */
  ghost function TopicLinks(facts: set<MessageFacts>, offered: map<Link, Reason>, config: Config): set<Link> {
    CliqueLinks(Strong(facts, config))
    + WeakLinks(ScoredOf(facts, config), config)
    + AppliedSet(offered, |Covered(ScoredOf(facts, config))|, config)
  }

  ghost function TopicOffers(facts: set<MessageFacts>, offered: map<Link, Reason>, config: Config): set<(nat, Reason)> {
    StrongOffers(Strong(facts, config))
    + WeakOffers(ScoredOf(facts, config), config)
    + ExtraOffers(AppliedSet(offered, |Covered(ScoredOf(facts, config))|, config), offered)
  }
}
