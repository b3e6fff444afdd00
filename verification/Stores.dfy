/**
 * The graph a rebuild works on and the statements it sends (`derived/rebuild.py`,
 * `derived/writes.py`, `queries/statements/writes.py`).
 *
 * Property values a rebuild only copies are numbers. An edge is known by its type and its two
 * ends, which is what a MERGE matches.
 */
module Stores {
  import opened Order
  import opened Facts

  datatype Label = GROUP | TOPIC | TEMPLATE | COMMUNITY

  datatype EdgeType = ADDRESSED_GROUP | CO_ADDRESSED | ABOUT | INSTANCE_OF | MEMBER_OF | IN_CIRCLE | SUGGESTED

  datatype Node = Node(kind: Label, id: Text)

  datatype Edge = Edge(kind: EdgeType, from: Text, to: Text)

  datatype Props = Props(fields: nat, keywords: Option<nat>)

  /** The three derived properties of a message; one that is null is absent. */
  datatype Score = Score(importance: Option<nat>, reasons: Option<nat>, version: Option<nat>)

  /** The two derived properties of an address. */
  datatype Rank = Rank(rank: Option<nat>, version: Option<nat>)

  /** A relationship between two imported or annotated nodes: SENT_TO, REPLIES_TO, TAGGED, … */
  datatype Tie = Tie(kind: nat, from: Text, to: Text)

  /** What no rebuild may add to or take from. */
  datatype Ground = Ground(messages: map<Text, nat>, addresses: map<Text, nat>, tags: map<Text, nat>, ties: set<Tie>)

  datatype Store = Store(ground: Ground, nodes: map<Node, Props>, edges: map<Edge, nat>,
                         scores: map<Text, Score>, ranks: map<Text, Rank>)

  // ----- What a store always satisfies

  predicate HasFrom(store: Store, edge: Edge) {
    if edge.kind == CO_ADDRESSED || edge.kind == MEMBER_OF then edge.from in store.ground.addresses
    else edge.from in store.ground.messages
  }

  /** The derived label an edge type hangs off, if it does. */
  function Hangs(kind: EdgeType): Option<Label> {
    match kind
    case ADDRESSED_GROUP => Some(GROUP)
    case ABOUT => Some(TOPIC)
    case INSTANCE_OF => Some(TEMPLATE)
    case MEMBER_OF => Some(COMMUNITY)
    case IN_CIRCLE => Some(COMMUNITY)
    case CO_ADDRESSED => None
    case SUGGESTED => None
  }

  predicate HasTo(store: Store, edge: Edge) {
    match Hangs(edge.kind)
    case Some(kind) => Node(kind, edge.to) in store.nodes
    case None => if edge.kind == CO_ADDRESSED then edge.to in store.ground.addresses else edge.to in store.ground.tags
  }

  /** Every edge has both ends and every property a node to sit on. */
  ghost predicate Anchored(store: Store) {
    && (forall edge | edge in store.edges :: HasFrom(store, edge) && HasTo(store, edge))
    && store.scores.Keys <= store.ground.messages.Keys
    && store.ranks.Keys <= store.ground.addresses.Keys
  }

  predicate IsMarked(score: Score) {
    score.importance.Some? || score.version.Some?
  }

  predicate IsRanked(rank: Rank) {
    rank.rank.Some? || rank.version.Some?
  }

  /** No score without a value or a version beside it. */
  ghost predicate Marked(store: Store) {
    && (forall message | message in store.scores :: IsMarked(store.scores[message]))
    && (forall address | address in store.ranks :: IsRanked(store.ranks[address]))
  }

  ghost predicate Sound(store: Store) {
    Anchored(store) && Marked(store)
  }

  // ----- Deleting

  datatype Thing = TheNode(node: Node) | TheEdge(edge: Edge)

  /** A deletion in the catalogue: one derived label with DETACH, or one edge type without. */
  datatype Deletion = OfLabel(of: Label) | OfType(kind: EdgeType)

  function Matching(store: Store, deletion: Deletion): set<Thing> {
    match deletion
    case OfLabel(kind) => set node | node in store.nodes && node.kind == kind :: TheNode(node)
    case OfType(kind) => set edge | edge in store.edges && edge.kind == kind :: TheEdge(edge)
  }

  /** An edge goes with its deletion or with the node it hangs off. */
  predicate Goes(edge: Edge, gone: set<Thing>) {
    || TheEdge(edge) in gone
    || (Hangs(edge.kind).Some? && TheNode(Node(Hangs(edge.kind).value, edge.to)) in gone)
  }

  /** The store without some nodes, their edges and some other edges. */
  function Without(store: Store, gone: set<Thing>): Store {
    store.(nodes := (map node | node in store.nodes && TheNode(node) !in gone :: store.nodes[node]),
           edges := (map edge | edge in store.edges && !Goes(edge, gone) :: store.edges[edge]))
  }

  /** Two batches are one deletion. */
  lemma WithoutTwice(store: Store, a: set<Thing>, b: set<Thing>)
    ensures Without(Without(store, a), b) == Without(store, a + b)
  {}

  lemma WithoutNothing(store: Store)
    ensures Without(store, {}) == store
  {}

  lemma WithoutIsSound(store: Store, gone: set<Thing>)
    requires Sound(store)
    ensures Sound(Without(store, gone)) && Without(store, gone).ground == store.ground
  {}

  /** What is left to match after some of it is gone. */
  lemma MatchingRest(store: Store, deletion: Deletion, gone: set<Thing>)
    requires gone <= Matching(store, deletion) && (deletion.OfType? ==> Hangs(deletion.kind).None?)
    ensures Matching(Without(store, gone), deletion) == Matching(store, deletion) - gone
  {}

  /** The deletions a rebuild runs, in its order: the two tuples one after the other. */
  const NODE_DELETIONS: seq<Deletion> := [OfLabel(GROUP), OfLabel(TOPIC), OfLabel(TEMPLATE), OfLabel(COMMUNITY)]

  const EDGE_DELETIONS: seq<Deletion> := [OfType(CO_ADDRESSED), OfType(SUGGESTED)]

  /** Each deletion drained in turn. */
  ghost function Swept(store: Store, deletions: seq<Deletion>): Store {
    if deletions == [] then store
    else
      var before := Swept(store, deletions[..|deletions| - 1]);
      Without(before, Matching(before, deletions[|deletions| - 1]))
  }

  lemma {:induction false} SweptGone(store: Store, deletions: seq<Deletion>)
    requires Sound(store)
    ensures Sound(Swept(store, deletions)) && Swept(store, deletions).ground == store.ground
    ensures Swept(store, deletions).scores == store.scores && Swept(store, deletions).ranks == store.ranks
    ensures forall node | node in Swept(store, deletions).nodes :: OfLabel(node.kind) !in deletions
    ensures forall edge | edge in Swept(store, deletions).edges :: OfType(edge.kind) !in deletions
  {
    if deletions != [] {
      var n := |deletions| - 1;
      var before := Swept(store, deletions[..n]);
      SweptGone(store, deletions[..n]);
      var gone := Matching(before, deletions[n]);
      WithoutIsSound(before, gone);
      forall node | node in Without(before, gone).nodes ensures OfLabel(node.kind) !in deletions {
        assert TheNode(node) !in gone;
      }
      forall edge | edge in Without(before, gone).edges ensures OfType(edge.kind) !in deletions {
        assert TheEdge(edge) !in gone;
      }
    }
  }

  /** Every derived label is listed, and so is each edge type that hangs off none. */
  lemma NothingUnlisted(kind: Label, edges: EdgeType)
    ensures OfLabel(kind) in NODE_DELETIONS
    ensures Hangs(edges).None? ==> OfType(edges) in EDGE_DELETIONS
  {
    assert NODE_DELETIONS[0] == OfLabel(GROUP) && NODE_DELETIONS[1] == OfLabel(TOPIC);
    assert NODE_DELETIONS[2] == OfLabel(TEMPLATE) && NODE_DELETIONS[3] == OfLabel(COMMUNITY);
    assert EDGE_DELETIONS[0] == OfType(CO_ADDRESSED) && EDGE_DELETIONS[1] == OfType(SUGGESTED);
  }

  function Unhung(store: Store): set<Edge> {
    set edge | edge in store.edges && Hangs(edge.kind).None?
  }

  /** Once the nodes are drained, only the edges between two ground-truth nodes are left. */
  lemma SweptNodes(store: Store)
    requires Sound(store)
    ensures Swept(store, NODE_DELETIONS).nodes == map[]
    ensures Swept(store, NODE_DELETIONS).edges.Keys == Unhung(store)
  {
    var swept := Swept(store, NODE_DELETIONS);
    SweptGone(store, NODE_DELETIONS);
    UnhungStay(store, NODE_DELETIONS);
    forall node ensures node !in swept.nodes {
      NothingUnlisted(node.kind, SUGGESTED);
    }
    forall edge | edge in swept.edges ensures Hangs(edge.kind).None? {
      assert HasTo(swept, edge);
    }
    assert swept.nodes == map[];
  }

  lemma {:induction false} UnhungStay(store: Store, deletions: seq<Deletion>)
    requires forall i | 0 <= i < |deletions| :: deletions[i].OfLabel?
    ensures Unhung(Swept(store, deletions)) == Unhung(store)
    ensures Swept(store, deletions).edges.Keys <= store.edges.Keys
  {
    if deletions != [] {
      UnhungStay(store, deletions[..|deletions| - 1]);
    }
  }

  lemma NodesCount(store: Store, of: Label)
    ensures |Without(store, Matching(store, OfLabel(of))).nodes.Keys|
          == |store.nodes.Keys| - |Matching(store, OfLabel(of))|
  {
    var gone := Matching(store, OfLabel(of));
    var nodes := set node | node in store.nodes && node.kind == of;
    var things := set node | node in nodes :: TheNode(node);
    ThingsOfNodes(nodes, things);
    MatchingNodes(store, of, things);
    NodesLeft(store, of, nodes);
    SizeLeft(store.nodes.Keys, nodes);
  }

  lemma MatchingNodes(store: Store, of: Label, things: set<Thing>)
    requires things == set node | node in store.nodes && node.kind == of :: TheNode(node)
    ensures Matching(store, OfLabel(of)) == things
  {}

  lemma NodesLeft(store: Store, of: Label, nodes: set<Node>)
    requires nodes == set node | node in store.nodes && node.kind == of
    ensures Without(store, Matching(store, OfLabel(of))).nodes.Keys == store.nodes.Keys - nodes
  {}

  lemma EdgesCount(store: Store, kind: EdgeType)
    requires Hangs(kind).None?
    ensures |Without(store, Matching(store, OfType(kind))).edges.Keys|
          == |store.edges.Keys| - |Matching(store, OfType(kind))|
  {
    var gone := Matching(store, OfType(kind));
    var edges := set edge | edge in store.edges && edge.kind == kind;
    var things := set edge | edge in edges :: TheEdge(edge);
    ThingsOfEdges(edges, things);
    MatchingEdges(store, kind, things);
    EdgesLeft(store, kind, edges);
    SizeLeft(store.edges.Keys, edges);
  }

  lemma SizeLeft<T>(all: set<T>, gone: set<T>)
    requires gone <= all
    ensures |all - gone| == |all| - |gone|
  {
    assert all == (all - gone) + gone;
  }

  lemma MatchingEdges(store: Store, kind: EdgeType, things: set<Thing>)
    requires Hangs(kind).None?
    requires things == set edge | edge in store.edges && edge.kind == kind :: TheEdge(edge)
    ensures Matching(store, OfType(kind)) == things
  {}

  lemma EdgesLeft(store: Store, kind: EdgeType, edges: set<Edge>)
    requires Hangs(kind).None? && edges == set edge | edge in store.edges && edge.kind == kind
    ensures Without(store, Matching(store, OfType(kind))).edges.Keys == store.edges.Keys - edges
  {}

  lemma {:induction false} ThingsOfNodes(nodes: set<Node>, things: set<Thing>)
    requires things == set node | node in nodes :: TheNode(node)
    ensures |things| == |nodes|
    decreases |nodes|
  {
    if nodes != {} {
      var node :| node in nodes;
      ThingsOfNodes(nodes - {node}, things - {TheNode(node)});
    }
  }

  lemma {:induction false} ThingsOfEdges(edges: set<Edge>, things: set<Thing>)
    requires things == set edge | edge in edges :: TheEdge(edge)
    ensures |things| == |edges|
    decreases |edges|
  {
    if edges != {} {
      var edge :| edge in edges;
      ThingsOfEdges(edges - {edge}, things - {TheEdge(edge)});
    }
  }

  /** After the six deletions no derived node and no derived edge is left, listed or not. */
  lemma SweptIsBare(store: Store)
    requires Sound(store)
    ensures Swept(Swept(store, NODE_DELETIONS), EDGE_DELETIONS) == store.(nodes := map[], edges := map[])
  {
    var drained := Swept(store, NODE_DELETIONS);
    var swept := Swept(drained, EDGE_DELETIONS);
    SweptGone(store, NODE_DELETIONS);
    SweptNodes(store);
    SweptGone(drained, EDGE_DELETIONS);
    SweptShrinks(drained, EDGE_DELETIONS);
    forall edge ensures edge !in swept.edges {
      NothingUnlisted(GROUP, edge.kind);
      assert edge in swept.edges ==> edge in drained.edges;
    }
    assert swept.nodes == map[] && swept.edges == map[];
  }

  lemma {:induction false} SweptShrinks(store: Store, deletions: seq<Deletion>)
    ensures Swept(store, deletions).nodes.Keys <= store.nodes.Keys
    ensures Swept(store, deletions).edges.Keys <= store.edges.Keys
  {
    if deletions != [] {
      SweptShrinks(store, deletions[..|deletions| - 1]);
    }
  }

  /** `SET … = NULL` on every message the filter finds. */
  function ClearScores(store: Store): Store {
    store.(scores := map message | message in store.scores && !IsMarked(store.scores[message]) :: store.scores[message])
  }

  function ClearRanks(store: Store): Store {
    store.(ranks := map address | address in store.ranks && !IsRanked(store.ranks[address]) :: store.ranks[address])
  }

  /** The filter looks at two of the three properties: it clears all exactly when no reasons stand alone. */
  lemma ClearsAllWhenMarked(store: Store)
    ensures forall message :: message in ClearScores(store).scores
                         <==> message in store.scores && store.scores[message].importance == None
                              && store.scores[message].version == None
    ensures forall address :: address in ClearRanks(store).ranks
                         <==> address in store.ranks && store.ranks[address] == Rank(None, None)
    ensures (ClearScores(store).scores == map[] && ClearRanks(store).ranks == map[]) <==> Marked(store)
  {
    assert forall message :: message in ClearScores(store).scores
                        <==> message in store.scores && !IsMarked(store.scores[message]);
    assert forall address :: address in ClearRanks(store).ranks
                        <==> address in store.ranks && !IsRanked(store.ranks[address]);
    if ClearScores(store).scores != map[] {
      assert ClearScores(store).scores.Keys != {};
      var message :| message in ClearScores(store).scores;
    }
    if ClearRanks(store).ranks != map[] {
      assert ClearRanks(store).ranks.Keys != {};
      var address :| address in ClearRanks(store).ranks;
    }
  }

  /** Ground truth and nothing else. */
  function Bare(ground: Ground): Store {
    Store(ground, map[], map[], map[], map[])
  }

  // ----- Writing

  /** The shapes a write takes: two merges, and three that match a node and set on it. */
  datatype Write = MergeNode(of: Label) | MergeEdge(kind: EdgeType) | SetKeywords
                 | SetScores(version: nat) | SetRanks(version: nat)

  /** One row of `$rows`. */
  datatype Row = Row(id: Text, other: Text, first: nat, second: nat)

  /** Whether the statement's MATCH finds what the row names. */
  predicate Lands(store: Store, write: Write, row: Row) {
    match write
    case MergeNode(_) => true
    case MergeEdge(kind) => HasFrom(store, Edge(kind, row.id, row.other)) && HasTo(store, Edge(kind, row.id, row.other))
    case SetKeywords => Node(TOPIC, row.id) in store.nodes
    case SetScores(_) => row.id in store.ground.messages
    case SetRanks(_) => row.id in store.ground.addresses
  }

  function ApplyRow(store: Store, write: Write, row: Row): Store {
    if !Lands(store, write, row) then store
    else
      match write
      case MergeNode(kind) =>
        var node := Node(kind, row.id);
        var keywords := if node in store.nodes then store.nodes[node].keywords else None;
        store.(nodes := store.nodes[node := Props(row.first, keywords)])
      case MergeEdge(kind) => store.(edges := store.edges[Edge(kind, row.id, row.other) := row.first])
      case SetKeywords =>
        var node := Node(TOPIC, row.id);
        if node in store.nodes
        then store.(nodes := store.nodes[node := store.nodes[node].(keywords := Some(row.first))])
        else store
      case SetScores(version) =>
        store.(scores := store.scores[row.id := Score(Some(row.first), Some(row.second), Some(version))])
      case SetRanks(version) => store.(ranks := store.ranks[row.id := Rank(Some(row.first), Some(version))])
  }

  /** The rows of one `UNWIND`, one after the other. */
  function Apply(store: Store, write: Write, rows: seq<Row>): Store {
    if rows == [] then store
    else ApplyRow(Apply(store, write, rows[..|rows| - 1]), write, rows[|rows| - 1])
  }

  /** Batching changes nothing: two payloads in turn are one payload. */
  lemma {:induction false} ApplyConcat(store: Store, write: Write, a: seq<Row>, b: seq<Row>)
    ensures Apply(store, write, a + b) == Apply(Apply(store, write, a), write, b)
    decreases |b|
  {
    if b == [] {
      assert a + b == a;
    } else {
      var n := |b| - 1;
      ApplyConcat(store, write, a, b[..n]);
      assert (a + b)[..|a + b| - 1] == a + b[..n];
    }
  }

  lemma ApplyRowIsSound(store: Store, write: Write, row: Row)
    requires Sound(store)
    ensures Sound(ApplyRow(store, write, row)) && ApplyRow(store, write, row).ground == store.ground
  {}

  lemma {:induction false} ApplyIsSound(store: Store, write: Write, rows: seq<Row>)
    requires Sound(store)
    ensures Sound(Apply(store, write, rows)) && Apply(store, write, rows).ground == store.ground
  {
    if rows != [] {
      var n := |rows| - 1;
      ApplyIsSound(store, write, rows[..n]);
      ApplyRowIsSound(Apply(store, write, rows[..n]), write, rows[n]);
    }
  }

  /** What a row finds, it finds after other rows too; only node merges make new rows land. */
  lemma {:induction false} ApplyKeepsLanding(store: Store, write: Write, rows: seq<Row>, row: Row)
    ensures Lands(store, write, row) ==> Lands(Apply(store, write, rows), write, row)
    ensures !write.MergeNode? ==> Lands(Apply(store, write, rows), write, row) == Lands(store, write, row)
  {
    if rows != [] {
      ApplyKeepsLanding(store, write, rows[..|rows| - 1], row);
    }
  }

  /** Two rows about one thing: the same node, or the same edge. */
  predicate SameThing(write: Write, one: Row, other: Row) {
    one.id == other.id && (write.MergeEdge? ==> one.other == other.other)
  }

  lemma TwoUpdates<K, V>(m: map<K, V>, a: K, v: V, b: K, w: V)
    ensures a == b ==> m[a := v][b := w] == m[b := w]
    ensures a != b ==> m[a := v][b := w] == m[b := w][a := v]
  {}

  function InTurn(store: Store, write: Write, one: Row, other: Row): Store {
    ApplyRow(ApplyRow(store, write, one), write, other)
  }

  /** The later row wins, or the two may swap. */
  predicate LaterWins(store: Store, write: Write, one: Row, other: Row) {
    if SameThing(write, one, other) then InTurn(store, write, one, other) == ApplyRow(store, write, other)
    else InTurn(store, write, one, other) == InTurn(store, write, other, one)
  }

  lemma NodesAfterNodes(store: Store, of: Label, one: Row, other: Row)
    ensures LaterWins(store, MergeNode(of), one, other)
  {
    var a, b := Node(of, one.id), Node(of, other.id);
    var theirs := if b in store.nodes then store.nodes[b].keywords else None;
    var ours := if a in store.nodes then store.nodes[a].keywords else None;
    TwoUpdates(store.nodes, a, Props(one.first, ours), b, Props(other.first, theirs));
  }

  lemma KeywordsAfterKeywords(store: Store, one: Row, other: Row)
    ensures LaterWins(store, SetKeywords, one, other)
  {
    var a, b := Node(TOPIC, one.id), Node(TOPIC, other.id);
    if a in store.nodes && b in store.nodes {
      var ours, theirs := store.nodes[a].(keywords := Some(one.first)), store.nodes[b].(keywords := Some(other.first));
      TwoUpdates(store.nodes, a, ours, b, theirs);
    }
  }

  lemma EdgesAfterEdges(store: Store, kind: EdgeType, one: Row, other: Row)
    ensures LaterWins(store, MergeEdge(kind), one, other)
  {
    TwoUpdates(store.edges, Edge(kind, one.id, one.other), one.first, Edge(kind, other.id, other.other), other.first);
  }

  /** The later of two rows about one thing wins; rows about two things may swap. */
  lemma RowAfterRow(store: Store, write: Write, one: Row, other: Row)
    ensures LaterWins(store, write, one, other)
  {
    match write
    case MergeNode(of) => NodesAfterNodes(store, of, one, other);
    case MergeEdge(kind) => EdgesAfterEdges(store, kind, one, other);
    case SetKeywords => KeywordsAfterKeywords(store, one, other);
    case SetScores(version) =>
      TwoUpdates(store.scores, one.id, Score(Some(one.first), Some(one.second), Some(version)),
                 other.id, Score(Some(other.first), Some(other.second), Some(version)));
    case SetRanks(version) =>
      TwoUpdates(store.ranks, one.id, Rank(Some(one.first), Some(version)), other.id, Rank(Some(other.first),
            Some(version)));
  }

  /** A row sent again later need not have been sent before. */
  lemma {:induction false} EarlierRowIsLost(store: Store, write: Write, row: Row, rows: seq<Row>)
    ensures ApplyRow(Apply(ApplyRow(store, write, row), write, rows), write, row)
          == ApplyRow(Apply(store, write, rows), write, row)
    decreases |rows|
  {
    if rows == [] {
      RowAfterRow(store, write, row, row);
    } else {
      var n := |rows| - 1;
      EarlierRowIsLost(store, write, row, rows[..n]);
      RowAfterRow(Apply(ApplyRow(store, write, row), write, rows[..n]), write, rows[n], row);
      RowAfterRow(Apply(store, write, rows[..n]), write, rows[n], row);
    }
  }

  /** Every write is an upsert: the same payload sent twice leaves what it left the first time. */
  lemma {:induction false} ApplyTwice(store: Store, write: Write, rows: seq<Row>)
    ensures Apply(Apply(store, write, rows), write, rows) == Apply(store, write, rows)
    decreases |rows|
  {
    if rows != [] {
      var n := |rows| - 1;
      var before := Apply(store, write, rows[..n]);
      ApplyTwice(store, write, rows[..n]);
      EarlierRowIsLost(before, write, rows[n], rows[..n]);
    }
  }

  /** Rows of a payload that find their node: what `count(…) AS written` adds up to. */
  function Landed(store: Store, write: Write, rows: seq<Row>): nat {
    if rows == [] then 0
    else Landed(store, write, rows[..|rows| - 1]) + if Lands(store, write, rows[|rows| - 1]) then 1 else 0
  }

  /** Where the node is that a SET is about. */
  ghost predicate IsThere(store: Store, write: Write, id: nat) {
    || (write.SetKeywords? && Node(TOPIC, id) in store.nodes)
    || (write.SetScores? && id in store.ground.messages)
    || (write.SetRanks? && id in store.ground.addresses)
  }

  ghost function There(store: Store, write: Write, rows: seq<Row>): set<int> {
    set i | 0 <= i < |rows| && IsThere(store, write, rows[i].id)
  }

  lemma ThereGrows(store: Store, write: Write, rows: seq<Row>)
    requires rows != []
    ensures There(store, write, rows) == There(store, write, rows[..|rows| - 1])
                                       + if IsThere(store, write, rows[|rows| - 1].id) then {|rows| - 1} else {}
  {}

  /** A SET reports one for every row, repeats included, whose node is there. */
  lemma {:induction false} LandedAreThere(store: Store, write: Write, rows: seq<Row>)
    requires write.SetKeywords? || write.SetScores? || write.SetRanks?
    ensures Landed(store, write, rows) == |There(store, write, rows)|
  {
    if rows != [] {
      LandedAreThere(store, write, rows[..|rows| - 1]);
      ThereGrows(store, write, rows);
    }
  }

  lemma {:induction false} LandedConcat(store: Store, write: Write, a: seq<Row>, b: seq<Row>)
    requires !write.MergeNode?
    ensures Landed(store, write, a + b) == Landed(store, write, a) + Landed(Apply(store, write, a), write, b)
    decreases |b|
  {
    if b == [] {
      assert a + b == a;
    } else {
      var n := |b| - 1;
      LandedConcat(store, write, a, b[..n]);
      assert (a + b)[..|a + b| - 1] == a + b[..n];
      ApplyKeepsLanding(store, write, a, b[n]);
    }
  }

  // ----- What a payload adds

  ghost predicate Names(rows: seq<Row>, id: Text) {
    exists i :: 0 <= i < |rows| && rows[i].id == id
  }

  ghost predicate Ties(rows: seq<Row>, edge: Edge) {
    exists i :: 0 <= i < |rows| && rows[i].id == edge.from && rows[i].other == edge.to
  }

  lemma NamesSnoc(rows: seq<Row>, id: Text, edge: Edge)
    requires rows != []
    ensures Names(rows, id) <==> Names(rows[..|rows| - 1], id) || rows[|rows| - 1].id == id
    ensures Ties(rows, edge) <==> Ties(rows[..|rows| - 1], edge)
                                  || (rows[|rows| - 1].id == edge.from && rows[|rows| - 1].other == edge.to)
  {
    var n := |rows| - 1;
    assert forall i | 0 <= i < n :: rows[..n][i] == rows[i];
  }

  /** A payload adds the nodes it names and no other node. */
  lemma {:induction false} NodesAdded(store: Store, write: Write, rows: seq<Row>, node: Node)
    ensures node in Apply(store, write, rows).nodes
       <==> node in store.nodes || (write == MergeNode(node.kind) && Names(rows, node.id))
  {
    if rows != [] {
      NodesAdded(store, write, rows[..|rows| - 1], node);
      NamesSnoc(rows, node.id, Edge(SUGGESTED, 0, 0));
    }
  }

  /** A payload adds the edges it ties whose ends are both there, and no other edge. */
  lemma {:induction false} EdgesAdded(store: Store, write: Write, rows: seq<Row>, edge: Edge)
    ensures edge in Apply(store, write, rows).edges
       <==> edge in store.edges || (write == MergeEdge(edge.kind) && Ties(rows, edge) && HasFrom(store, edge)
             && HasTo(store, edge))
  {
    if rows != [] {
      var n := |rows| - 1;
      EdgesAdded(store, write, rows[..n], edge);
      NamesSnoc(rows, 0, edge);
      ApplyKeepsLanding(store, write, rows[..n], rows[n]);
    }
  }

  lemma {:induction false} GroundStays(store: Store, write: Write, rows: seq<Row>)
    ensures Apply(store, write, rows).ground == store.ground
  {
    if rows != [] {
      GroundStays(store, write, rows[..|rows| - 1]);
    }
  }
}
