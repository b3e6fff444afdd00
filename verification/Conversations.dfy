/**
 * Signal 7, the exchanges behind threads and replies (`derived/conversations.py`),
 * and the way back from their edges to the exchanges (`derived/suggestions.py`).
 */
module Conversations {
  import opened Order
  import opened Closure
  import opened Partition
  import opened Joining
  import opened Facts

  const CONVERSATION_METHOD: Text := 20
  const CONVERSATION_WEIGHT: real := 0.9

  /** The thread of each id: of two facts with one id the later wins. */
  function ThreadOf(facts: seq<MessageFacts>): map<nat, Text> {
    if facts == [] then map[]
    else
      var last := facts[|facts| - 1];
      ThreadOf(facts[..|facts| - 1])[last.id := ThreadKey(last)]
  }

  // ----- What an exchange is

  /** Two messages of one thread; a missing and an empty thread id join nothing. */
  ghost function ThreadLinks(threadOf: map<nat, Text>): set<Link> {
    set a, b | a in threadOf && b in threadOf && threadOf[a] == threadOf[b] != EMPTY :: (a, b)
  }

  /** A message and the one it answers, where both were read. */
  ghost function ReplyLinks(threadOf: map<nat, Text>, replies: map<nat, nat>): set<Link> {
    set reply | reply in replies && reply in threadOf && replies[reply] in threadOf :: (reply, replies[reply])
  }

  ghost function ExchangeLinks(threadOf: map<nat, Text>, replies: map<nat, nat>): set<Link> {
    ThreadLinks(threadOf) + ReplyLinks(threadOf, replies)
  }

  // ----- The edges

  function EdgesOf(members: seq<nat>): (r: seq<SimilarityEdge>)
    ensures |r| == if |members| < 2 then 0 else |members| - 1
    ensures forall i | 0 <= i < |r| ::
      r[i] == SimilarityEdge(members[i], members[i + 1], CONVERSATION_METHOD, CONVERSATION_WEIGHT)
  {
    if |members| < 2 then []
    else
      seq(|members| - 1, i requires 0 <= i < |members| - 1 =>
        SimilarityEdge(members[i], members[i + 1], CONVERSATION_METHOD, CONVERSATION_WEIGHT))
  }

  /** The comprehension at the end: a chain per component of more than one message. */
  function ChainEdges(components: seq<seq<nat>>): seq<SimilarityEdge> {
    if components == [] then []
    else
      (if |components[0]| > 1 then EdgesOf(components[0]) else []) + ChainEdges(components[1..])
  }

  /** The dictionary of threads: the same messages the thread links speak of. */
  ghost predicate ThreadsAre(threads: map<Text, set<nat>>, threadOf: map<nat, Text>, seen: set<nat>) {
    && EMPTY !in threads
    && GroupedBy(threads, threadOf)
    && (forall m | m in seen && m in threadOf && threadOf[m] != EMPTY ::
          threadOf[m] in threads && m in threads[threadOf[m]])
  }

  method ThreadsOf(threadOf: map<nat, Text>) returns (threads: map<Text, set<nat>>)
    ensures ThreadsAre(threads, threadOf, threadOf.Keys)
  {
    threads := map[];
    var todo := threadOf.Keys;
    while todo != {}
      invariant todo <= threadOf.Keys && ThreadsAre(threads, threadOf, threadOf.Keys - todo)
      decreases todo
    {
      var message :| message in todo;
      todo := todo - {message};
      var thread := threadOf[message];
      if thread != EMPTY {
        threads := threads[thread := (if thread in threads then threads[thread] else {}) + {message}];
      }
    }
  }

  /** The exchanges of an archive, each as the chain of its messages. */
  method ConversationEdges(facts: seq<MessageFacts>, replies: map<nat, nat>) returns (found: seq<SimilarityEdge>)
    ensures var threadOf := ThreadOf(facts);
            found == ChainEdges(ComponentsOf(threadOf.Keys, ExchangeLinks(threadOf, replies)))
  {
    var threadOf := ThreadOf(facts);
    var partition := new DisjointSet(threadOf.Keys);
    JoinExchanges(partition, threadOf, replies);
    ComponentsSame(threadOf.Keys, partition.links, ExchangeLinks(threadOf, replies));
    var components := partition.Components();
    found := ChainEdges(components);
  }

  /** The threads chained, then the replies that have both ends in hand. */
  method JoinExchanges(partition: DisjointSet, threadOf: map<nat, Text>, replies: map<nat, nat>)
    requires partition.Valid() && partition.roots.Keys == threadOf.Keys && partition.links == {}
    modifies partition
    ensures partition.Valid() && partition.roots.Keys == threadOf.Keys
    ensures SameComponents(partition.links, ExchangeLinks(threadOf, replies))
  {
    var threads := ThreadsOf(threadOf);
    JoinGroups(partition, threads, threadOf);
    JoinReplies(partition, replies, threadOf);
    BothAbsorbed(partition.links, threads, threadOf, replies);
  }

  method JoinReplies(partition: DisjointSet, replies: map<nat, nat>, threadOf: map<nat, Text>)
    requires partition.Valid() && partition.roots.Keys == threadOf.Keys
    modifies partition
    ensures partition.Valid() && partition.roots.Keys == threadOf.Keys
    ensures old(partition.links) <= partition.links <= old(partition.links) + ReplyLinks(threadOf, replies)
    ensures forall a, b {:trigger (a, b) in ReplyLinks(threadOf, replies)} |
              (a, b) in ReplyLinks(threadOf, replies) :: a == b || (a, b) in partition.links
  {
    var todo := replies.Keys;
    while todo != {}
      invariant todo <= replies.Keys
      invariant partition.Valid() && partition.roots.Keys == threadOf.Keys
      invariant old(partition.links) <= partition.links <= old(partition.links) + ReplyLinks(threadOf, replies)
      invariant forall reply | reply in replies.Keys - todo ::
                  reply in threadOf && replies[reply] in threadOf && reply != replies[reply]
                  ==> (reply, replies[reply]) in partition.links
      decreases todo
    {
      var reply :| reply in todo;
      todo := todo - {reply};
      var parent := replies[reply];
      if reply !in threadOf || parent !in threadOf || reply == parent {
        continue;
      }
      partition.Union(reply, parent);
    }
  }

  lemma BothAbsorbed(links: set<Link>, threads: map<Text, set<nat>>, threadOf: map<nat, Text>, replies: map<nat, nat>)
    requires links <= SameKey(threadOf, threads.Keys) + ReplyLinks(threadOf, replies)
    requires ThreadsAre(threads, threadOf, threadOf.Keys) && Chained(threads, {}, links)
    requires forall a, b {:trigger (a, b) in ReplyLinks(threadOf, replies)} |
               (a, b) in ReplyLinks(threadOf, replies) :: a == b || (a, b) in links
    ensures SameComponents(links, ExchangeLinks(threadOf, replies))
  {
    var exchange := ExchangeLinks(threadOf, replies);
    forall a, b | (a, b) in links ensures Connected(exchange, a, b) { Step(exchange, a, b); }
    forall a, b | (a, b) in exchange ensures Connected(links, a, b) {
      if (a, b) in ThreadLinks(threadOf) {
        ChainJoins(Sorted(threads[threadOf[a]]), links, a, b);
      } else if a == b {
        Reflexive(links, a);
      } else {
        Step(links, a, b);
      }
    }
    MutualAbsorb(links, exchange);
  }

  // ----- The way back

  ghost function Ends(edges: seq<SimilarityEdge>): set<nat> {
    (set one | one in edges :: one.left) + (set one | one in edges :: one.right)
  }

  ghost function EdgeLinks(edges: seq<SimilarityEdge>): set<Link> {
    set one | one in edges :: (one.left, one.right)
  }

  /** `suggestions._components`: what a set of edges connects, as lists. */
  method ExchangesBehind(edges: seq<SimilarityEdge>) returns (r: seq<seq<nat>>)
    ensures r == ComponentsOf(Ends(edges), EdgeLinks(edges))
  {
    var ends := (set one | one in edges :: one.left) + (set one | one in edges :: one.right);
    if ends == {} {
      assert Leaders({}, EdgeLinks(edges)) == {};
      return [];
    }
    var partition := new DisjointSet(ends);
    JoinEdges(partition, edges);
    r := partition.Components();
  }

  method JoinEdges(partition: DisjointSet, edges: seq<SimilarityEdge>)
    requires partition.Valid() && Ends(edges) <= partition.roots.Keys && partition.links == {}
    modifies partition
    ensures partition.Valid() && partition.roots.Keys == old(partition.roots.Keys)
    ensures partition.links == EdgeLinks(edges)
  {
    for i := 0 to |edges|
      invariant partition.Valid() && partition.roots.Keys == old(partition.roots.Keys)
      invariant partition.links == EdgeLinks(edges[..i])
    {
      assert edges[i] in edges;
      OneEdgeMore(edges, i);
      partition.Union(edges[i].left, edges[i].right);
    }
    assert edges[..|edges|] == edges;
  }

  lemma OneEdgeMore(edges: seq<SimilarityEdge>, i: nat)
    requires i < |edges|
    ensures EdgeLinks(edges[..i + 1]) == EdgeLinks(edges[..i]) + {(edges[i].left, edges[i].right)}
  {
    assert edges[..i + 1] == edges[..i] + [edges[i]];
  }

  // ----- What the edges say, and that nothing is lost on the way back

  /** The members of exchanges beyond the first one each. */
  ghost function Spare(components: seq<seq<nat>>): nat {
    if components == [] then 0
    else (if |components[0]| > 1 then |components[0]| - 1 else 0) + Spare(components[1..])
  }

  /** Exactly size - 1 edges per exchange of more than one message. */
  lemma {:induction false} EdgeCount(components: seq<seq<nat>>)
    ensures |ChainEdges(components)| == Spare(components)
  {
    if components != [] {
      EdgeCount(components[1..]);
    }
  }

  lemma {:induction false} EdgeStaysInside(components: seq<seq<nat>>, edge: SimilarityEdge) returns (k: nat)
    requires edge in ChainEdges(components)
    ensures k < |components| && |components[k]| > 1
    ensures edge.left in components[k] && edge.right in components[k]
  {
    var first := components[0];
    if |first| > 1 && edge in EdgesOf(first) {
      var i :| 0 <= i < |EdgesOf(first)| && EdgesOf(first)[i] == edge;
      assert first[i] in first && first[i + 1] in first;
      k := 0;
    } else {
      assert edge in ChainEdges(components[1..]);
      var later := EdgeStaysInside(components[1..], edge);
      k := later + 1;
    }
  }

  lemma {:induction false} ChainDrawn(members: seq<nat>, n: nat, edges: seq<SimilarityEdge>)
    requires 1 < |members| && n <= |members| && forall one | one in EdgesOf(members) :: one in edges
    ensures Chain(members[..n]) <= EdgeLinks(edges)
  {
    if n >= 2 {
      ChainDrawn(members, n - 1, edges);
      assert members[..n][..n - 1] == members[..n - 1];
      assert EdgesOf(members)[n - 2] in EdgesOf(members);
    }
  }

  lemma {:induction false} ComponentDrawn(components: seq<seq<nat>>, k: nat, edges: seq<SimilarityEdge>)
    requires k < |components| && forall one | one in ChainEdges(components) :: one in edges
    ensures Chain(components[k]) <= EdgeLinks(edges)
  {
    if k > 0 {
      ComponentDrawn(components[1..], k - 1, edges);
    } else if |components[0]| > 1 {
      ChainDrawn(components[0], |components[0]|, edges);
      assert components[0][..|components[0]|] == components[0];
    }
  }

  /** The chain edges connect exactly what the exchange links connect. */
  lemma EdgesDrawExchanges(items: set<nat>, exchange: set<Link>, x: nat, y: nat)
    requires x in items && y in items
    ensures Connected(EdgeLinks(ChainEdges(ComponentsOf(items, exchange))), x, y) <==> Connected(exchange, x, y)
  {
    var components := ComponentsOf(items, exchange);
    var links := EdgeLinks(ChainEdges(components));
    forall a, b | (a, b) in links ensures Connected(exchange, a, b) {
      var edge :| edge in ChainEdges(components) && (a, b) == (edge.left, edge.right);
      var k := EdgeStaysInside(components, edge);
      ComponentsWhole(items, exchange, k, b);
      ComponentsSplit(items, exchange, k, a, b);
    }
    if Connected(links, x, y) {
      Absorb(links, exchange, x, y);
    }
    if Connected(exchange, x, y) {
      var k := ComponentsCover(items, exchange, x);
      ComponentDrawn(components, k, ChainEdges(components));
      ChainJoins(components[k], links, x, y);
    }
  }

  ghost function Keep(s: seq<nat>, kept: set<nat>): (r: seq<nat>)
    requires Increasing(s)
    ensures Increasing(r) && forall x :: x in r <==> x in s && x in kept
  {
    if s == [] then []
    else
      var rest := Keep(s[1..], kept);
      assert forall i | 0 <= i < |rest| :: rest[i] in rest;
      if s[0] in kept then [s[0]] + rest else rest
  }

  /** Only the exchanges of more than one message. */
  ghost function Multi(components: seq<seq<nat>>): seq<seq<nat>> {
    if components == [] then []
    else (if |components[0]| > 1 then [components[0]] else []) + Multi(components[1..])
  }

  lemma {:induction false} MultiLed(items: set<nat>, links: set<Link>, leaders: seq<nat>, kept: set<nat>)
    requires Increasing(leaders)
    requires forall k | 0 <= k < |leaders| :: leaders[k] in kept <==> |Component(items, links, leaders[k])| > 1
    ensures Multi(Led(items, links, leaders)) == Led(items, links, Keep(leaders, kept))
  {
    if leaders != [] {
      var rest := Keep(leaders[1..], kept);
      MultiLed(items, links, leaders[1..], kept);
      LedFirst(items, links, leaders[0], leaders[1..]);
      assert leaders == [leaders[0]] + leaders[1..];
      MultiFirst(Sorted(Component(items, links, leaders[0])), Led(items, links, leaders[1..]));
      if leaders[0] in kept {
        LedFirst(items, links, leaders[0], rest);
      }
    }
  }

  lemma LedFirst(items: set<nat>, links: set<Link>, first: nat, rest: seq<nat>)
    ensures Led(items, links, [first] + rest) == [Sorted(Component(items, links, first))] + Led(items, links, rest)
  {}

  lemma MultiFirst(first: seq<nat>, rest: seq<seq<nat>>)
    ensures Multi([first] + rest) == (if |first| > 1 then [first] else []) + Multi(rest)
  {
    assert ([first] + rest)[1..] == rest;
  }

  lemma EndIsMulti(items: set<nat>, exchange: set<Link>, edge: SimilarityEdge)
    requires edge in ChainEdges(ComponentsOf(items, exchange))
    ensures edge.left in items && |Component(items, exchange, edge.left)| > 1
    ensures edge.right in items && |Component(items, exchange, edge.right)| > 1
  {
    var components := ComponentsOf(items, exchange);
    var k := EdgeStaysInside(components, edge);
    ComponentsWhole(items, exchange, k, edge.left);
    ComponentsWhole(items, exchange, k, edge.right);
  }

  /** A member of a list of two or more stands at an end of one of its edges. */
  lemma MemberIsEnd(members: seq<nat>, edges: seq<SimilarityEdge>, i: nat)
    requires i < |members| && |members| > 1
    requires forall j | 0 <= j < |members| - 1 :: StepEdge(members, j) in edges
    ensures members[i] in Ends(edges)
  {
    var edge := StepEdge(members, if i + 1 < |members| then i else i - 1);
    assert edge in edges;
  }

  lemma MultiIsEnd(items: set<nat>, exchange: set<Link>, x: nat)
    requires x in items && |Component(items, exchange, x)| > 1
    ensures x in Ends(ChainEdges(ComponentsOf(items, exchange)))
  {
    var components := ComponentsOf(items, exchange);
    var k := ComponentsCover(items, exchange, x);
    var i :| 0 <= i < |components[k]| && components[k][i] == x;
    forall j | 0 <= j < |components[k]| - 1 ensures StepEdge(components[k], j) in ChainEdges(components) {
      ChainStep(components, k, j);
    }
    MemberIsEnd(components[k], ChainEdges(components), i);
  }

  /** The messages that stand in an exchange of more than one: the ends of the edges. */
  lemma EndsAreMulti(items: set<nat>, exchange: set<Link>, x: nat)
    ensures x in Ends(ChainEdges(ComponentsOf(items, exchange)))
       <==> x in items && |Component(items, exchange, x)| > 1
  {
    var edges := ChainEdges(ComponentsOf(items, exchange));
    if x in Ends(edges) {
      var edge :| edge in edges && (x == edge.left || x == edge.right);
      EndIsMulti(items, exchange, edge);
    }
    if x in items && |Component(items, exchange, x)| > 1 {
      MultiIsEnd(items, exchange, x);
    }
  }

  function StepEdge(members: seq<nat>, j: nat): SimilarityEdge
    requires j + 1 < |members|
  {
    SimilarityEdge(members[j], members[j + 1], CONVERSATION_METHOD, CONVERSATION_WEIGHT)
  }

  lemma {:induction false} ChainStep(components: seq<seq<nat>>, k: nat, j: nat)
    requires k < |components| && j + 1 < |components[k]|
    ensures StepEdge(components[k], j) in ChainEdges(components)
  {
    if k == 0 {
      assert EdgesOf(components[0])[j] in EdgesOf(components[0]);
    } else {
      ChainStep(components[1..], k - 1, j);
    }
  }

  /**
   * The round trip: the components of the chain edges are precisely the exchanges of more
   * than one message, in the same order, member for member.
   */
  lemma ExchangesRecovered(items: set<nat>, exchange: set<Link>)
    ensures var edges := ChainEdges(ComponentsOf(items, exchange));
            ComponentsOf(Ends(edges), EdgeLinks(edges)) == Multi(ComponentsOf(items, exchange))
  {
    var edges := ChainEdges(ComponentsOf(items, exchange));
    var ends, links := Ends(edges), EdgeLinks(edges);
    forall x ensures x in ends <==> x in items && |Component(items, exchange, x)| > 1 {
      EndsAreMulti(items, exchange, x);
    }
    forall x | x in ends ensures Component(ends, links, x) == Component(items, exchange, x) {
      SameMembers(items, exchange, x);
    }
    var leaders := Sorted(Leaders(items, exchange));
    forall k | 0 <= k < |leaders|
      ensures leaders[k] in ends <==> |Component(items, exchange, leaders[k])| > 1
    {
      assert leaders[k] in leaders;
    }
    MultiLed(items, exchange, leaders, ends);
    forall x ensures x in Keep(leaders, ends) <==> x in Leaders(ends, links) {
      if x in ends { assert Leads(ends, links, x) <==> Leads(items, exchange, x); }
    }
    IncreasingUnique(Keep(leaders, ends), Sorted(Leaders(ends, links)));
    LedSame(ends, links, items, exchange, Keep(leaders, ends));
  }

  lemma LedSame(items: set<nat>, links: set<Link>, items': set<nat>, links': set<Link>, leaders: seq<nat>)
    requires forall x | x in leaders :: Component(items, links, x) == Component(items', links', x)
    ensures Led(items, links, leaders) == Led(items', links', leaders)
  {
    forall k | 0 <= k < |leaders|
      ensures Component(items, links, leaders[k]) == Component(items', links', leaders[k])
    {
      assert leaders[k] in leaders;
    }
  }

  lemma SameMembers(items: set<nat>, exchange: set<Link>, x: nat)
    requires x in Ends(ChainEdges(ComponentsOf(items, exchange)))
    ensures var edges := ChainEdges(ComponentsOf(items, exchange));
            Component(Ends(edges), EdgeLinks(edges), x) == Component(items, exchange, x)
  {
    var edges := ChainEdges(ComponentsOf(items, exchange));
    EndsAreMulti(items, exchange, x);
    forall y ensures y in Component(Ends(edges), EdgeLinks(edges), x) <==> y in Component(items, exchange, x) {
      EndsAreMulti(items, exchange, y);
      if y in items {
        EdgesDrawExchanges(items, exchange, x, y);
        if y in Component(items, exchange, x) {
          ComponentShared(items, exchange, x, y);
        }
      }
    }
  }

  // ----- What the edges say, message by message

  lemma {:induction false} ThreadOfFact(facts: seq<MessageFacts>, one: MessageFacts)
    requires DistinctIds(facts) && one in facts
    ensures one.id in ThreadOf(facts)
    ensures ThreadOf(facts)[one.id] == match one.threadId case None => EMPTY case Some(thread) => thread
  {
    var n := |facts| - 1;
    if facts[n] != one {
      var i :| 0 <= i < n && facts[i] == one;
      assert facts[..n][i] == one;
      assert facts[i].id != facts[n].id;
      ThreadOfFact(facts[..n], one);
    }
  }

  /** What belongs together before anything follows from it: one named thread, or an answer and its question. */
  lemma LinkedFacts(facts: seq<MessageFacts>, replies: map<nat, nat>, one: MessageFacts, two: MessageFacts)
    requires DistinctIds(facts) && one in facts && two in facts
    ensures (one.id, two.id) in ExchangeLinks(ThreadOf(facts), replies)
       <==> || (one.threadId.Some? && one.threadId == two.threadId && one.threadId.value != EMPTY)
            || (one.id in replies && replies[one.id] == two.id)
  {
    ThreadOfFact(facts, one);
    ThreadOfFact(facts, two);
  }

  /** Every edge is a conversation of the calibrated weight. */
  lemma {:induction false} EdgesAreConversations(components: seq<seq<nat>>)
    ensures forall edge | edge in ChainEdges(components) :: edge.how == CONVERSATION_METHOD && edge.weight == 0.9
  {
    if components != [] {
      EdgesAreConversations(components[1..]);
    }
  }
}
