/**
 * The rebuild protocol (`derived/rebuild.py`): delete, clear, recompute and merge, one
 * statement at a time, against a store that has no transactions and may stop answering after
 * any of them.
 */
module Rebuild {
  import opened Order
  import opened Facts
  import opened Stores
  import Communities

  /** The most a single delete statement removes. */
  const DELETE_BATCH: nat := 10000

  /** Rows one `UNWIND` carries. */
  const WRITE_BATCH: nat := 1000

  /** A step that raised leaves nothing to carry on with. */
  datatype Outcome<+T> = Done(value: T) | Aborted {
    predicate IsFailure() { Aborted? }
    function PropagateFailure<U>(): Outcome<U> requires IsFailure() { Aborted }
    function Extract(): T requires !IsFailure() { value }
  }

  datatype Circles = Circles(communities: seq<Row>, members: seq<Row>, placements: seq<Row>)

  /**
   * The analyses, as functions of what they read. Everything but the label propagation reads
   * ground truth only; that one reads the CO_ADDRESSED edges this run has just written and
   * numbers its communities as it likes, which is its third argument.
   */
  datatype Analyses = Analyses(
    groups: Ground -> seq<Row>,
    groupMembers: Ground -> seq<Row>,
    pairs: Ground -> seq<Row>,
    addressRanks: Ground -> seq<Row>,
    propagation: (Ground, map<Edge, nat>, nat) -> map<Text, nat>,
    circles: (Ground, map<Text, nat>) -> Circles,
    topics: Ground -> seq<Row>,
    about: Ground -> seq<Row>,
    keywords: Ground -> seq<Row>,
    templates: Ground -> seq<Row>,
    instances: Ground -> seq<Row>,
    importance: Ground -> seq<Row>,
    suggestions: (Ground, Circles) -> seq<Row>,
    rankVersion: nat,
    importanceVersion: nat)

  // ----- What a finished run leaves, as a function of ground truth

  function CoAddressedOf(store: Store): map<Edge, nat> {
    map edge | edge in store.edges && edge.kind == CO_ADDRESSED :: store.edges[edge]
  }

  function Corresponded(a: Analyses, store: Store): Store {
    var grouped := Apply(store, MergeNode(GROUP), a.groups(store.ground));
    var attached := Apply(grouped, MergeEdge(ADDRESSED_GROUP), a.groupMembers(store.ground));
    Apply(attached, MergeEdge(CO_ADDRESSED), a.pairs(store.ground))
  }

  function Ranked(a: Analyses, store: Store): Store {
    Apply(store, SetRanks(a.rankVersion), a.addressRanks(store.ground))
  }

  function FoundCircles(a: Analyses, store: Store, seed: nat): Circles {
    a.circles(store.ground, a.propagation(store.ground, CoAddressedOf(store), seed))
  }

  function Circled(store: Store, circles: Circles): Store {
    var written := Apply(store, MergeNode(COMMUNITY), circles.communities);
    var joined := Apply(written, MergeEdge(MEMBER_OF), circles.members);
    Apply(joined, MergeEdge(IN_CIRCLE), circles.placements)
  }

  function Clustered(a: Analyses, store: Store): Store {
    Apply(Apply(store, MergeNode(TOPIC), a.topics(store.ground)), MergeEdge(ABOUT), a.about(store.ground))
  }

  function Described(a: Analyses, store: Store): Store {
    Apply(store, SetKeywords, a.keywords(store.ground))
  }

  function Retyped(a: Analyses, store: Store): Store {
    Apply(Apply(store, MergeNode(TEMPLATE), a.templates(store.ground)), MergeEdge(INSTANCE_OF),
          a.instances(store.ground))
  }

  function Scored(a: Analyses, store: Store): Store {
    Apply(store, SetScores(a.importanceVersion), a.importance(store.ground))
  }

  function Offered(a: Analyses, store: Store, circles: Circles): Store {
    Apply(store, MergeEdge(SUGGESTED), a.suggestions(store.ground, circles))
  }

  /** Stages four to ten over a store that holds the correspondents. */
  function Analysed(a: Analyses, store: Store, seed: nat): Store {
    var ranked := Ranked(a, store);
    var circles := FoundCircles(a, ranked, seed);
    Offered(a, Scored(a, Retyped(a, Described(a, Clustered(a, Circled(ranked, circles))))), circles)
  }

  function Rebuilt(a: Analyses, ground: Ground, seed: nat): Store {
    Analysed(a, Corresponded(a, Bare(ground)), seed)
  }

  // ----- The same graph, without an order

  /** The rows that describe nodes of a label. */
  ghost function NodeRows(a: Analyses, ground: Ground, circles: Circles, of: Label): seq<Row> {
    match of
    case GROUP => a.groups(ground)
    case TOPIC => a.topics(ground)
    case TEMPLATE => a.templates(ground)
    case COMMUNITY => circles.communities
  }

  /** The rows that describe edges of a type. */
  ghost function EdgeRows(a: Analyses, ground: Ground, circles: Circles, kind: EdgeType): seq<Row> {
    match kind
    case ADDRESSED_GROUP => a.groupMembers(ground)
    case CO_ADDRESSED => a.pairs(ground)
    case ABOUT => a.about(ground)
    case INSTANCE_OF => a.instances(ground)
    case MEMBER_OF => circles.members
    case IN_CIRCLE => circles.placements
    case SUGGESTED => a.suggestions(ground, circles)
  }

  /** How far the stages have come: these labels and edge types are written, and nothing else. */
  ghost predicate Holds(store: Store, a: Analyses, ground: Ground, circles: Circles, labels: set<Label>,
        kinds: set<EdgeType>) {
    && store.ground == ground
    && (forall node {:trigger node in store.nodes} ::
          node in store.nodes <==> node.kind in labels && Names(NodeRows(a, ground, circles, node.kind), node.id))
    && (forall edge {:trigger edge in store.edges} ::
          edge in store.edges <==> edge.kind in kinds && Ties(EdgeRows(a, ground, circles, edge.kind), edge)
                                   && HasFrom(store, edge) && HasTo(store, edge))
  }

  /** Node types whose edges are not written yet may be written. */
  lemma HoldsNodes(store: Store, a: Analyses, ground: Ground, circles: Circles, labels: set<Label>,
        kinds: set<EdgeType>, of: Label)
    requires Holds(store, a, ground, circles, labels, kinds) && of !in labels
    requires forall kind | kind in kinds :: Hangs(kind) != Some(of)
    ensures Holds(Apply(store, MergeNode(of), NodeRows(a, ground, circles, of)), a, ground, circles, labels + {of},
                  kinds)
  {
    var rows := NodeRows(a, ground, circles, of);
    var after := Apply(store, MergeNode(of), rows);
    GroundStays(store, MergeNode(of), rows);
    forall node
      ensures node in after.nodes
         <==> node.kind in labels + {of} && Names(NodeRows(a, ground, circles, node.kind), node.id)
    {
      NodesAdded(store, MergeNode(of), rows, node);
      assert node in store.nodes <==> node.kind in labels && Names(NodeRows(a, ground, circles, node.kind), node.id);
    }
    forall edge
      ensures edge in after.edges <==> edge.kind in kinds && Ties(EdgeRows(a, ground, circles, edge.kind), edge)
                                       && HasFrom(after, edge) && HasTo(after, edge)
    {
      EdgesAdded(store, MergeNode(of), rows, edge);
      if Hangs(edge.kind).Some? {
        NodesAdded(store, MergeNode(of), rows, Node(Hangs(edge.kind).value, edge.to));
      }
    }
  }

  /** Edge types may be written at any time after their nodes. */
  lemma HoldsEdges(store: Store, a: Analyses, ground: Ground, circles: Circles, labels: set<Label>,
        kinds: set<EdgeType>, kind: EdgeType)
    requires Holds(store, a, ground, circles, labels, kinds)
    ensures Holds(Apply(store, MergeEdge(kind), EdgeRows(a, ground, circles, kind)), a, ground, circles, labels,
          kinds + {kind})
  {
    var rows := EdgeRows(a, ground, circles, kind);
    var after := Apply(store, MergeEdge(kind), rows);
    GroundStays(store, MergeEdge(kind), rows);
    forall node ensures node in after.nodes <==> node in store.nodes {
      NodesAdded(store, MergeEdge(kind), rows, node);
    }
    forall edge
      ensures edge in after.edges
         <==> edge.kind in kinds + {kind} && Ties(EdgeRows(a, ground, circles, edge.kind), edge)
              && HasFrom(after, edge) && HasTo(after, edge)
    {
      EdgesAdded(store, MergeEdge(kind), rows, edge);
    }
  }

  /** Property writes touch no node and no edge. */
  lemma HoldsProperties(store: Store, a: Analyses, ground: Ground, circles: Circles, labels: set<Label>,
        kinds: set<EdgeType>,
                        write: Write, rows: seq<Row>)
    requires Holds(store, a, ground, circles, labels, kinds) && !write.MergeNode? && !write.MergeEdge?
    ensures Holds(Apply(store, write, rows), a, ground, circles, labels, kinds)
  {
    GroundStays(store, write, rows);
    PropertiesOnly(store, write, rows);
    HoldsSame(store, Apply(store, write, rows), a, ground, circles, labels, kinds);
  }

  lemma PropertiesOnly(store: Store, write: Write, rows: seq<Row>)
    requires !write.MergeNode? && !write.MergeEdge?
    ensures Apply(store, write, rows).nodes.Keys == store.nodes.Keys
    ensures Apply(store, write, rows).edges.Keys == store.edges.Keys
  {
    forall node ensures node in Apply(store, write, rows).nodes <==> node in store.nodes {
      NodesAdded(store, write, rows, node);
    }
    forall edge ensures edge in Apply(store, write, rows).edges <==> edge in store.edges {
      EdgesAdded(store, write, rows, edge);
    }
  }

  lemma HoldsSame(store: Store, after: Store, a: Analyses, ground: Ground, circles: Circles, labels: set<Label>,
                  kinds: set<EdgeType>)
    requires Holds(store, a, ground, circles, labels, kinds) && after.ground == store.ground
    requires after.nodes.Keys == store.nodes.Keys && after.edges.Keys == store.edges.Keys
    ensures Holds(after, a, ground, circles, labels, kinds)
  {
    forall edge | edge in after.edges || edge in store.edges
      ensures HasFrom(after, edge) == HasFrom(store, edge) && HasTo(after, edge) == HasTo(store, edge)
    {}
  }

  lemma CorrespondedHolds(a: Analyses, ground: Ground, circles: Circles)
    ensures Holds(Corresponded(a, Bare(ground)), a, ground, circles, {GROUP}, {ADDRESSED_GROUP, CO_ADDRESSED})
  {
    HoldsNodes(Bare(ground), a, ground, circles, {}, {}, GROUP);
    var grouped := Apply(Bare(ground), MergeNode(GROUP), a.groups(ground));
    HoldsEdges(grouped, a, ground, circles, {} + {GROUP}, {}, ADDRESSED_GROUP);
    var attached := Apply(grouped, MergeEdge(ADDRESSED_GROUP), a.groupMembers(ground));
    HoldsEdges(attached, a, ground, circles, {} + {GROUP}, {} + {ADDRESSED_GROUP}, CO_ADDRESSED);
    assert {} + {GROUP} == {GROUP} && {} + {ADDRESSED_GROUP} + {CO_ADDRESSED} == {ADDRESSED_GROUP, CO_ADDRESSED};
  }

  lemma CircledHolds(a: Analyses, ground: Ground, circles: Circles, store: Store, labels: set<Label>,
        kinds: set<EdgeType>)
    requires Holds(store, a, ground, circles, labels, kinds)
    requires COMMUNITY !in labels && MEMBER_OF !in kinds && IN_CIRCLE !in kinds
    ensures Holds(Circled(store, circles), a, ground, circles, labels + {COMMUNITY}, kinds + {MEMBER_OF, IN_CIRCLE})
  {
    HoldsNodes(store, a, ground, circles, labels, kinds, COMMUNITY);
    var written := Apply(store, MergeNode(COMMUNITY), circles.communities);
    HoldsEdges(written, a, ground, circles, labels + {COMMUNITY}, kinds, MEMBER_OF);
    var joined := Apply(written, MergeEdge(MEMBER_OF), circles.members);
    HoldsEdges(joined, a, ground, circles, labels + {COMMUNITY}, kinds + {MEMBER_OF}, IN_CIRCLE);
    assert kinds + {MEMBER_OF} + {IN_CIRCLE} == kinds + {MEMBER_OF, IN_CIRCLE};
  }

  /** One label and the one edge type that hangs off it. */
  lemma FindingHolds(a: Analyses, ground: Ground, circles: Circles, store: Store, labels: set<Label>,
        kinds: set<EdgeType>,
                     of: Label, kind: EdgeType)
    requires Holds(store, a, ground, circles, labels, kinds)
    requires of !in labels && forall other | other in kinds :: Hangs(other) != Some(of)
    ensures var written := Apply(store, MergeNode(of), NodeRows(a, ground, circles, of));
            Holds(Apply(written, MergeEdge(kind), EdgeRows(a, ground, circles, kind)), a, ground, circles,
                  labels + {of}, kinds + {kind})
  {
    HoldsNodes(store, a, ground, circles, labels, kinds, of);
    HoldsEdges(Apply(store, MergeNode(of), NodeRows(a, ground, circles, of)), a, ground, circles, labels + {of},
          kinds, kind);
  }

  const ALL_LABELS: set<Label> := {GROUP, TOPIC, TEMPLATE, COMMUNITY}

  const ALL_KINDS: set<EdgeType> := {ADDRESSED_GROUP, CO_ADDRESSED, ABOUT, INSTANCE_OF, MEMBER_OF, IN_CIRCLE, SUGGESTED}

  /**
   * The stage order loses nothing: a finished graph holds exactly the nodes some row describes
   * and exactly the edges some row describes whose two ends it holds.
   */
  lemma RebuiltHoldsTheFindings(a: Analyses, ground: Ground, seed: nat)
    ensures var circles := FoundCircles(a, Ranked(a, Corresponded(a, Bare(ground))), seed);
            Holds(Rebuilt(a, ground, seed), a, ground, circles, ALL_LABELS, ALL_KINDS)
  {
    var begun := Corresponded(a, Bare(ground));
    var ranked := Ranked(a, begun);
    var circles := FoundCircles(a, ranked, seed);
    var labels, kinds := {GROUP}, {ADDRESSED_GROUP, CO_ADDRESSED};
    CorrespondedHolds(a, ground, circles);
    HoldsProperties(begun, a, ground, circles, labels, kinds, SetRanks(a.rankVersion), a.addressRanks(ground));
    var circled := Circled(ranked, circles);
    CircledHolds(a, ground, circles, ranked, labels, kinds);
    AnalysedHolds(a, ground, circles, circled);
  }

  lemma AnalysedHolds(a: Analyses, ground: Ground, circles: Circles, circled: Store)
    requires Holds(circled, a, ground, circles, {GROUP} + {COMMUNITY}, {ADDRESSED_GROUP, CO_ADDRESSED} + {MEMBER_OF,
          IN_CIRCLE})
    ensures Holds(Offered(a, Scored(a, Retyped(a, Described(a, Clustered(a, circled)))), circles),
                  a, ground, circles, ALL_LABELS, ALL_KINDS)
  {
    var labels, kinds := {GROUP} + {COMMUNITY}, {ADDRESSED_GROUP, CO_ADDRESSED} + {MEMBER_OF, IN_CIRCLE};
    var clustered := Clustered(a, circled);
    FindingHolds(a, ground, circles, circled, labels, kinds, TOPIC, ABOUT);
    var described := Described(a, clustered);
    HoldsProperties(clustered, a, ground, circles, labels + {TOPIC}, kinds + {ABOUT}, SetKeywords, a.keywords(ground));
    var retyped := Retyped(a, described);
    FindingHolds(a, ground, circles, described, labels + {TOPIC}, kinds + {ABOUT}, TEMPLATE, INSTANCE_OF);
    LastStagesHold(a, ground, circles, retyped, labels + {TOPIC} + {TEMPLATE}, kinds + {ABOUT} + {INSTANCE_OF});
    assert labels + {TOPIC} + {TEMPLATE} == ALL_LABELS;
    assert kinds + {ABOUT} + {INSTANCE_OF} + {SUGGESTED} == ALL_KINDS;
  }

  lemma LastStagesHold(a: Analyses, ground: Ground, circles: Circles, retyped: Store, labels: set<Label>,
        kinds: set<EdgeType>)
    requires Holds(retyped, a, ground, circles, labels, kinds)
    ensures Holds(Offered(a, Scored(a, retyped), circles), a, ground, circles, labels, kinds + {SUGGESTED})
  {
    HoldsProperties(retyped, a, ground, circles, labels, kinds, SetScores(a.importanceVersion), a.importance(ground));
    HoldsEdges(Scored(a, retyped), a, ground, circles, labels, kinds, SUGGESTED);
  }

  /** What even an aborted run may not touch, and what it leaves in order. */
  ghost predicate Kept(before: Store, after: Store) {
    after.ground == before.ground && Sound(after)
  }

  lemma {:induction false} SubsetOfSize(all: set<Thing>, n: nat) returns (some: set<Thing>)
    requires n <= |all|
    ensures some <= all && |some| == n
  {
    if n == 0 {
      some := {};
    } else {
      var thing :| thing in all;
      var rest := SubsetOfSize(all - {thing}, n - 1);
      some := rest + {thing};
    }
  }

  /** Round trips a drain takes: the full batches, the last one, and the one that finds nothing. */
  function Rounds(n: nat): nat {
    if n == 0 then 1 else 1 + Rounds(if n > DELETE_BATCH then n - DELETE_BATCH else 0)
  }

  /** The circles do not depend on the numbers the propagation chose: see `Circles`. */
  ghost predicate NumberingIsHarmless(a: Analyses) {
    forall ground: Ground, edges: map<Edge, nat>, seed: nat, seed': nat
      {:trigger a.propagation(ground, edges, seed), a.propagation(ground, edges, seed')} ::
      a.circles(ground, a.propagation(ground, edges, seed)) == a.circles(ground, a.propagation(ground, edges, seed'))
  }

  /**
   * Circles keyed by the digest of their members do not see the numbers: it is enough that an
   * unchanged graph is partitioned the same way.
   */
  lemma DigestsMakeNumberingHarmless(a: Analyses, minSize: int, digest: set<nat> -> Text,
                                     rows: (Ground, map<Text, set<nat>>) -> Circles)
    requires Communities.IsDigest(digest)
    requires forall ground: Ground, edges: map<Edge, nat>, seed: nat, seed': nat
      {:trigger a.propagation(ground, edges, seed), a.propagation(ground, edges, seed')} ::
      Communities.SamePartition(a.propagation(ground, edges, seed), a.propagation(ground, edges, seed'))
    requires forall ground: Ground, numbers: map<Text, nat> {:trigger a.circles(ground, numbers)} ::
      a.circles(ground, numbers) == rows(ground, Communities.CirclesOf(numbers, minSize, digest))
    ensures NumberingIsHarmless(a)
  {
    forall ground: Ground, edges: map<Edge, nat>, seed: nat, seed': nat
      ensures a.circles(ground, a.propagation(ground, edges, seed))
            == a.circles(ground, a.propagation(ground, edges, seed'))
    {
      var one, other := a.propagation(ground, edges, seed), a.propagation(ground, edges, seed');
      Communities.NumbersDoNotMatter(one, other, Communities.CirclesOf(one, minSize, digest),
                                     Communities.CirclesOf(other, minSize, digest), minSize, digest);
    }
  }

  /** Unseeded or not, a finished run leaves the one graph of its ground truth. */
  lemma RebuiltIgnoresNumbering(a: Analyses, ground: Ground, seed: nat, seed': nat)
    requires NumberingIsHarmless(a)
    ensures Rebuilt(a, ground, seed) == Rebuilt(a, ground, seed')
  {
    var ranked := Ranked(a, Corresponded(a, Bare(ground)));
    assert FoundCircles(a, ranked, seed) == FoundCircles(a, ranked, seed');
  }

  predicate Listable(deletion: Deletion) {
    deletion.OfType? ==> Hangs(deletion.kind).None?
  }

  /** What a list of drains removes in all. */
  ghost function SweptAway(store: Store, deletions: seq<Deletion>): nat {
    if deletions == [] then 0
    else
      var n := |deletions| - 1;
      SweptAway(store, deletions[..n]) + |Matching(Swept(store, deletions[..n]), deletions[n])|
  }

  lemma {:induction false} SweptNodesCounted(store: Store, deletions: seq<Deletion>)
    requires forall i | 0 <= i < |deletions| :: deletions[i].OfLabel?
    ensures SweptAway(store, deletions) + |Swept(store, deletions).nodes.Keys| == |store.nodes.Keys|
  {
    if deletions != [] {
      var n := |deletions| - 1;
      SweptNodesCounted(store, deletions[..n]);
      NodesCount(Swept(store, deletions[..n]), deletions[n].of);
    }
  }

  lemma {:induction false} SweptEdgesCounted(store: Store, deletions: seq<Deletion>)
    requires forall i | 0 <= i < |deletions| :: deletions[i].OfType? && Listable(deletions[i])
    ensures SweptAway(store, deletions) + |Swept(store, deletions).edges.Keys| == |store.edges.Keys|
  {
    if deletions != [] {
      var n := |deletions| - 1;
      SweptEdgesCounted(store, deletions[..n]);
      EdgesCount(Swept(store, deletions[..n]), deletions[n].kind);
    }
  }

  ghost predicate AllListable(deletions: seq<Deletion>) {
    forall i | 0 <= i < |deletions| :: Listable(deletions[i])
  }

  lemma CatalogueIsListable()
    ensures AllListable(NODE_DELETIONS) && AllListable(EDGE_DELETIONS)
  {}

  /** The two counts a delete reports: the derived nodes, and the edges that hang off none of them. */
  lemma NodesAway(store: Store)
    requires Sound(store)
    ensures SweptAway(store, NODE_DELETIONS) == |store.nodes.Keys|
    ensures SweptAway(Swept(store, NODE_DELETIONS), EDGE_DELETIONS) == |Unhung(store)|
  {
    SweptNodes(store);
    SweptNodesCounted(store, NODE_DELETIONS);
    SweptEdgesCounted(Swept(store, NODE_DELETIONS), EDGE_DELETIONS);
    SweptIsBare(store);
  }

  class Session {
    var store: Store
    /** How many more statements the store answers before the run is lost. */
    var patience: nat

    constructor (store: Store, patience: nat)
      ensures this.store == store && this.patience == patience
    {
      this.store := store;
      this.patience := patience;
    }

    /** One round trip. */
    method Ask() returns (r: Outcome<()>)
      modifies this`patience
      ensures r.Done? <==> old(patience) > 0
      ensures patience == if r.Done? then old(patience) - 1 else 0
    {
      if patience == 0 {
        return Aborted;
      }
      patience := patience - 1;
      return Done(());
    }

    /** One batched delete: any `$batch` of the matches, or all there are. */
    method DeleteBatch(deletion: Deletion, ghost before: Store, ghost gone: set<Thing>)
      returns (r: Outcome<nat>, ghost more: set<Thing>)
      requires Listable(deletion)
      requires gone <= Matching(before, deletion) && store == Without(before, gone)
      modifies this
      ensures r.Done? ==> old(patience) > 0 && patience == old(patience) - 1
      ensures r.Aborted? ==> patience == 0
      ensures gone <= more <= Matching(before, deletion) && store == Without(before, more)
      ensures r.Done? ==> r.value == |more| - |gone|
      ensures r.Done? ==> r.value == (if |Matching(before, deletion)| - |gone| > DELETE_BATCH then DELETE_BATCH
                                      else |Matching(before, deletion)| - |gone|)
    {
      more := gone;
      var _ :- Ask();
      var all := Matching(store, deletion);
      MatchingRest(before, deletion, gone);
      var size := if |all| > DELETE_BATCH then DELETE_BATCH else |all|;
      ghost var witnessed := SubsetOfSize(all, size);
      var victims :| victims <= all && |victims| == size;
      WithoutTwice(before, gone, victims);
      store := Without(store, victims);
      return Done(size), gone + victims;
    }

    /** `_drain`: batches until one of them is empty. */
    method Drain(deletion: Deletion) returns (r: Outcome<nat>)
      requires Sound(store) && Listable(deletion)
      modifies this
      ensures Kept(old(store), store)
      ensures r.Done? ==> store == Without(old(store), Matching(old(store), deletion))
      ensures r.Done? ==> r.value == |Matching(old(store), deletion)|
      ensures r.Done? ==> old(patience) - patience == Rounds(|Matching(old(store), deletion)|)
      ensures r.Aborted? ==> patience == 0
    {
      ghost var before, started := store, patience;
      ghost var gone: set<Thing> := {};
      var total: nat := 0;
      WithoutNothing(before);
      while true
        invariant gone <= Matching(before, deletion) && store == Without(before, gone)
        invariant total == |gone| <= |Matching(before, deletion)|
        invariant started - patience + Rounds(|Matching(before, deletion)| - |gone|)
              == Rounds(|Matching(before, deletion)|)
        decreases |Matching(before, deletion)| - |gone|
      {
        var removed;
        ghost var more;
        ghost var last := gone;
        removed, more := DeleteBatch(deletion, before, gone);
        Smaller(gone, more, Matching(before, deletion));
        WithoutIsSound(before, more);
        gone := more;
        if removed.Aborted? {
          return Aborted;
        }
        if removed.value == 0 {
          Exhausted(gone, Matching(before, deletion));
          return Done(total);
        }
        total := total + removed.value;
      }
    }

    /** Drain a list of deletions; returns what they removed in all. */
    method DrainAll(deletions: seq<Deletion>) returns (r: Outcome<nat>)
      requires Sound(store) && AllListable(deletions)
      modifies this
      ensures Kept(old(store), store)
      ensures r.Done? ==> store == Swept(old(store), deletions)
      ensures r.Done? ==> r.value == SweptAway(old(store), deletions)
      ensures r.Aborted? ==> patience == 0
    {
      ghost var before := store;
      var total: nat := 0;
      for i := 0 to |deletions|
        invariant Kept(before, store)
        invariant store == Swept(before, deletions[..i])
        invariant total == SweptAway(before, deletions[..i])
      {
        assert deletions[..i + 1][..i] == deletions[..i];
        var removed :- Drain(deletions[i]);
        total := total + removed;
      }
      assert deletions[..|deletions|] == deletions;
      return Done(total);
    }

    /** `_delete_derived`: every derived node, then the two edge types that outlive their ends. */
    method DeleteDerived() returns (r: Outcome<(nat, nat)>)
      requires Sound(store)
      modifies this
      ensures Kept(old(store), store)
      ensures r.Done? ==> store == old(store).(nodes := map[], edges := map[])
      ensures r.Done? ==> r.value == (|old(store).nodes.Keys|, |Unhung(old(store))|)
      ensures r.Aborted? ==> patience == 0
    {
      ghost var before := store;
      CatalogueIsListable();
      NodesAway(before);
      SweptIsBare(before);
      var nodes :- DrainAll(NODE_DELETIONS);
      var edges :- DrainAll(EDGE_DELETIONS);
      return Done((nodes, edges));
    }

    /** `_clear_properties`: the two SET … = NULL statements. */
    method ClearProperties() returns (r: Outcome<()>)
      requires Sound(store)
      modifies this
      ensures Kept(old(store), store)
      ensures r.Done? ==> store == old(store).(scores := map[], ranks := map[])
      ensures r.Aborted? ==> patience == 0
    {
      ClearsAllWhenMarked(store);
      var _ :- Ask();
      store := ClearScores(store);
      var _ :- Ask();
      store := ClearRanks(store);
      return Done(());
    }

    /** `_send` and `_set`: one batch of rows, answering with how many found their node. */
    method Send(write: Write, batch: seq<Row>) returns (r: Outcome<nat>)
      requires Sound(store)
      modifies this
      ensures Kept(old(store), store)
      ensures store == if r.Done? then Apply(old(store), write, batch) else old(store)
      ensures r.Done? ==> r.value == Landed(old(store), write, batch)
      ensures r.Aborted? ==> patience == 0
    {
      var _ :- Ask();
      ApplyIsSound(store, write, batch);
      var written := Landed(store, write, batch);
      store := Apply(store, write, batch);
      return Done(written);
    }

    /** The next batch of a payload. */
    method SendNext(write: Write, batch: seq<Row>, ghost before: Store, ghost rows: seq<Row>, ghost sent: nat)
      returns (r: Outcome<nat>)
      requires Sent(before, store, write, rows, sent)
      requires sent + |batch| <= |rows| && batch == rows[sent..sent + |batch|]
      modifies this
      ensures Kept(before, store)
      ensures r.Done? ==> Sent(before, store, write, rows, sent + |batch|)
      ensures r.Done? && !write.MergeNode? ==>
                Landed(before, write, rows[..sent + |batch|]) == Landed(before, write, rows[..sent]) + r.value
      ensures r.Aborted? ==> patience == 0
    {
      SentBatch(before, store, write, rows, sent, batch);
      r := Send(write, batch);
    }

    /** `merge_rows`: batches of a thousand, consumed as they arrive; returns how many were sent. */
    method MergeRows(write: Write, rows: seq<Row>) returns (r: Outcome<nat>)
      requires Sound(store)
      modifies this
      ensures Kept(old(store), store)
      ensures r.Done? ==> store == Apply(old(store), write, rows) && r.value == |rows|
      ensures r.Aborted? ==> patience == 0
    {
      ghost var before := store;
      var written: nat := 0;
      var batch: seq<Row> := [];
      for i := 0 to |rows|
        invariant Sent(before, store, write, rows, written)
        invariant written + |batch| == i && |batch| < WRITE_BATCH && batch == rows[written..i]
      {
        batch := batch + [rows[i]];
        if |batch| >= WRITE_BATCH {
          var _ :- SendNext(write, batch, before, rows, written);
          written := written + |batch|;
          batch := [];
        }
      }
      if batch != [] {
        var _ :- SendNext(write, batch, before, rows, written);
        written := written + |batch|;
      }
      SentAll(rows);
      return Done(written);
    }

    /** `set_rows`: the same loop, answering with what the store touched. */
    method SetRows(write: Write, rows: seq<Row>) returns (r: Outcome<nat>)
      requires Sound(store) && !write.MergeNode?
      modifies this
      ensures Kept(old(store), store)
      ensures r.Done? ==> store == Apply(old(store), write, rows) && r.value == Landed(old(store), write, rows)
      ensures r.Aborted? ==> patience == 0
    {
      ghost var before := store;
      var written: nat := 0;
      ghost var sent: nat := 0;
      var batch: seq<Row> := [];
      for i := 0 to |rows|
        invariant Sent(before, store, write, rows, sent) && written == Landed(before, write, rows[..sent])
        invariant sent + |batch| == i && |batch| < WRITE_BATCH && batch == rows[sent..i]
      {
        batch := batch + [rows[i]];
        if |batch| >= WRITE_BATCH {
          var touched :- SendNext(write, batch, before, rows, sent);
          written := written + touched;
          sent := sent + |batch|;
          batch := [];
        }
      }
      if batch != [] {
        var touched :- SendNext(write, batch, before, rows, sent);
        written := written + touched;
      }
      SentAll(rows);
      return Done(written);
    }

    /** How far a payload has got. */
    static ghost predicate Sent(before: Store, now: Store, write: Write, rows: seq<Row>, sent: nat) {
      sent <= |rows| && Kept(before, now) && now == Apply(before, write, rows[..sent])
    }

    static lemma SentBatch(before: Store, now: Store, write: Write, rows: seq<Row>, sent: nat, batch: seq<Row>)
      requires Sent(before, now, write, rows, sent)
      requires sent + |batch| <= |rows| && batch == rows[sent..sent + |batch|]
      ensures Sent(before, Apply(now, write, batch), write, rows, sent + |batch|)
      ensures !write.MergeNode? ==>
                Landed(before, write, rows[..sent + |batch|])
                      == Landed(before, write, rows[..sent]) + Landed(now, write, batch)
    {
      assert rows[..sent] + batch == rows[..sent + |batch|];
      ApplyConcat(before, write, rows[..sent], batch);
      ApplyIsSound(now, write, batch);
      if !write.MergeNode? {
        LandedConcat(before, write, rows[..sent], batch);
      }
    }

    static lemma SentAll(rows: seq<Row>)
      ensures rows[..|rows|] == rows
    {}

    /** Nodes of a label, then the edges that hang off them: the order every `write_*` keeps. */
    method WriteFinding(nodes: Write, rows: seq<Row>, edges: Write, ties: seq<Row>) returns (r: Outcome<()>)
      requires Sound(store)
      modifies this
      ensures Kept(old(store), store)
      ensures r.Done? ==> store == Apply(Apply(old(store), nodes, rows), edges, ties)
      ensures r.Aborted? ==> patience == 0
    {
      var _ :- MergeRows(nodes, rows);
      var _ :- MergeRows(edges, ties);
      return Done(());
    }

    /** Stage 3, `write_correspondents`. */
    method Correspond(a: Analyses) returns (r: Outcome<()>)
      requires Sound(store)
      modifies this
      ensures Kept(old(store), store)
      ensures r.Done? ==> store == Corresponded(a, old(store))
      ensures r.Aborted? ==> patience == 0
    {
      var ground := store.ground;
      var _ :- WriteFinding(MergeNode(GROUP), a.groups(ground), MergeEdge(ADDRESSED_GROUP), a.groupMembers(ground));
      var _ :- MergeRows(MergeEdge(CO_ADDRESSED), a.pairs(ground));
      return Done(());
    }

    /** Stage 4, `_rank_addresses`. */
    method RankAddresses(a: Analyses) returns (r: Outcome<()>)
      requires Sound(store)
      modifies this
      ensures Kept(old(store), store)
      ensures r.Done? ==> store == Ranked(a, old(store))
      ensures r.Aborted? ==> patience == 0
    {
      var _ :- SetRows(SetRanks(a.rankVersion), a.addressRanks(store.ground));
      return Done(());
    }

    /** Stage 5, `_build_circles`: the propagation reads the edges of this run. */
    method BuildCircles(a: Analyses, seed: nat) returns (r: Outcome<Circles>)
      requires Sound(store)
      modifies this
      ensures Kept(old(store), store)
      ensures r.Done? ==> r.value == FoundCircles(a, old(store), seed) && store == Circled(old(store), r.value)
      ensures r.Aborted? ==> patience == 0
    {
      var _ :- Ask();
      var found := FoundCircles(a, store, seed);
      var _ :- WriteFinding(MergeNode(COMMUNITY), found.communities, MergeEdge(MEMBER_OF), found.members);
      var _ :- MergeRows(MergeEdge(IN_CIRCLE), found.placements);
      return Done(found);
    }

    /** Stages 6 and 7, `write_topics` and `_describe_topics`. */
    method Cluster(a: Analyses) returns (r: Outcome<()>)
      requires Sound(store)
      modifies this
      ensures Kept(old(store), store)
      ensures r.Done? ==> store == Described(a, Clustered(a, old(store)))
      ensures r.Aborted? ==> patience == 0
    {
      var ground := store.ground;
      var _ :- WriteFinding(MergeNode(TOPIC), a.topics(ground), MergeEdge(ABOUT), a.about(ground));
      var _ :- Ask();
      var _ :- MergeRows(SetKeywords, a.keywords(ground));
      return Done(());
    }

    /** Stages 8 and 9, `_build_templates` and `_score_importance`. */
    method Score(a: Analyses) returns (r: Outcome<()>)
      requires Sound(store)
      modifies this
      ensures Kept(old(store), store)
      ensures r.Done? ==> store == Scored(a, Retyped(a, old(store)))
      ensures r.Aborted? ==> patience == 0
    {
      var ground := store.ground;
      var _ :- Ask();
      var _ :- WriteFinding(MergeNode(TEMPLATE), a.templates(ground), MergeEdge(INSTANCE_OF), a.instances(ground));
      var _ :- SetRows(SetScores(a.importanceVersion), a.importance(ground));
      return Done(());
    }

    /** Stage 10, `_offer_suggestions`: TAGGED is read as it stands, SUGGESTED is written. */
    method OfferSuggestions(a: Analyses, circles: Circles) returns (r: Outcome<()>)
      requires Sound(store)
      modifies this
      ensures Kept(old(store), store)
      ensures r.Done? ==> store == Offered(a, old(store), circles)
      ensures r.Aborted? ==> patience == 0
    {
      var _ :- Ask();
      var _ :- MergeRows(MergeEdge(SUGGESTED), a.suggestions(store.ground, circles));
      return Done(());
    }

    method Analyse(a: Analyses, seed: nat) returns (r: Outcome<()>)
      requires Sound(store)
      modifies this
      ensures Kept(old(store), store)
      ensures r.Done? ==> store == Analysed(a, old(store), seed)
      ensures r.Aborted? ==> patience == 0
    {
      var _ :- RankAddresses(a);
      var circles :- BuildCircles(a, seed);
      var _ :- Cluster(a);
      var _ :- Score(a);
      var _ :- OfferSuggestions(a, circles);
      return Done(());
    }

    /**
     * `rebuild_derived`: whatever the last run left behind and wherever this one stops, ground
     * truth is untouched; a run that finishes leaves a graph that is a function of it.
     */
    method RebuildDerived(a: Analyses, seed: nat) returns (r: Outcome<(nat, nat)>)
      requires Sound(store)
      modifies this
      ensures Kept(old(store), store)
      ensures r.Done? ==> store == Rebuilt(a, old(store).ground, seed)
      ensures r.Done? ==> r.value == (|old(store).nodes.Keys|, |Unhung(old(store))|)
      ensures r.Aborted? ==> patience == 0
    {
      ghost var before := store;
      var deleted :- DeleteDerived();
      var _ :- ClearProperties();
      assert store == Bare(before.ground);
      var _ :- Ask();
      var _ :- Correspond(a);
      var _ :- Analyse(a, seed);
      return Done(deleted);
    }

    /** A run that may have been abandoned anywhere, and the next one after the store is back. */
    method AbortAndRerun(a: Analyses, seed: nat, seed': nat, again: nat) returns (r: Outcome<(nat, nat)>)
      requires Sound(store) && NumberingIsHarmless(a)
      modifies this
      ensures Kept(old(store), store)
      ensures r.Done? ==> store == Rebuilt(a, old(store).ground, seed)
    {
      RebuiltIgnoresNumbering(a, store.ground, seed, seed');
      var _ := RebuildDerived(a, seed);
      patience := again;
      r := RebuildDerived(a, seed');
    }

    /** Two finished runs in a row leave one store, whatever their seeds. */
    method RebuildTwice(a: Analyses, seed: nat, seed': nat, again: nat)
          returns (first: Outcome<(nat, nat)>, second: Outcome<(nat, nat)>, ghost between: Store)
      requires Sound(store) && NumberingIsHarmless(a)
      modifies this
      ensures first.Done? ==> between == Rebuilt(a, old(store).ground, seed)
      ensures first.Done? && second.Done? ==> store == between
      ensures first.Done? && second.Done? ==> second.value == (|between.nodes.Keys|, |Unhung(between)|)
    {
      RebuiltIgnoresNumbering(a, store.ground, seed, seed');
      first := RebuildDerived(a, seed);
      between := store;
      patience := again;
      second := RebuildDerived(a, seed');
    }

    static lemma Smaller(a: set<Thing>, b: set<Thing>, all: set<Thing>)
      requires a <= b <= all
      ensures |a| <= |b| <= |all|
    {
      assert b == a + (b - a) && all == b + (all - b);
    }

    static lemma Exhausted(gone: set<Thing>, all: set<Thing>)
      requires gone <= all && |gone| == |all|
      ensures gone == all
    {
      assert all == gone + (all - gone);
    }
  }
}
