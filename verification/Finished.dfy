/**
 * The graph a finished rebuild leaves, property by property (`derived/rebuild.py`): what every
 * node and edge carries, said from ground truth and the rows of the analyses.
 */
module Finished {
  import opened Order
  import opened Facts
  import opened Stores
  import opened Rebuild

  // ----- The last row about a thing

  ghost function LastNamed(rows: seq<Row>, id: Text): Option<Row> {
    if rows == [] then None
    else if rows[|rows| - 1].id == id then Some(rows[|rows| - 1])
    else LastNamed(rows[..|rows| - 1], id)
  }

  ghost function LastTied(rows: seq<Row>, edge: Edge): Option<Row> {
    if rows == [] then None
    else if rows[|rows| - 1].id == edge.from && rows[|rows| - 1].other == edge.to then Some(rows[|rows| - 1])
    else LastTied(rows[..|rows| - 1], edge)
  }

  /** The row names the id, and no later one does. */
  ghost predicate NamesLast(rows: seq<Row>, id: Text, row: Row) {
    exists i :: 0 <= i < |rows| && rows[i] == row && row.id == id && forall j | i < j < |rows| :: rows[j].id != id
  }

  /** The row ties the two ends, and no later one does. */
  ghost predicate TiesLast(rows: seq<Row>, edge: Edge, row: Row) {
    exists i :: 0 <= i < |rows| && rows[i] == row && row.id == edge.from && row.other == edge.to
                && forall j | i < j < |rows| :: rows[j].id != edge.from || rows[j].other != edge.to
  }

  lemma {:induction false} LastNamedIs(rows: seq<Row>, id: Text)
    ensures LastNamed(rows, id).Some? <==> Names(rows, id)
    ensures LastNamed(rows, id).Some? ==> NamesLast(rows, id, LastNamed(rows, id).value)
  {
    if rows != [] {
      var n := |rows| - 1;
      LastNamedIs(rows[..n], id);
      NamesSnoc(rows, id, Edge(SUGGESTED, 0, 0));
      if rows[n].id != id && LastNamed(rows, id).Some? {
        var i :| 0 <= i < n && rows[..n][i] == LastNamed(rows, id).value && rows[..n][i].id == id
                 && forall j | i < j < n :: rows[..n][j].id != id;
        assert rows[i] == rows[..n][i];
        assert forall j | i < j < n :: rows[j] == rows[..n][j];
      }
    }
  }

  lemma TiesLater(rows: seq<Row>, edge: Edge, row: Row)
    requires rows != [] && TiesLast(rows[..|rows| - 1], edge, row)
    requires rows[|rows| - 1].id != edge.from || rows[|rows| - 1].other != edge.to
    ensures TiesLast(rows, edge, row)
  {
    var n := |rows| - 1;
    var i :| 0 <= i < n && rows[..n][i] == row && row.id == edge.from && row.other == edge.to
             && forall j | i < j < n :: rows[..n][j].id != edge.from || rows[..n][j].other != edge.to;
    assert rows[i] == row;
    forall j | i < j < |rows| ensures rows[j].id != edge.from || rows[j].other != edge.to {
      assert j < n ==> rows[j] == rows[..n][j];
    }
  }

  lemma {:induction false} LastTiedIs(rows: seq<Row>, edge: Edge)
    ensures LastTied(rows, edge).Some? <==> Ties(rows, edge)
    ensures LastTied(rows, edge).Some? ==> TiesLast(rows, edge, LastTied(rows, edge).value)
  {
    if rows != [] {
      var n := |rows| - 1;
      LastTiedIs(rows[..n], edge);
      NamesSnoc(rows, 0, edge);
      if rows[n].id == edge.from && rows[n].other == edge.to {
        assert TiesLast(rows, edge, rows[n]);
      } else if LastTied(rows, edge).Some? {
        TiesLater(rows, edge, LastTied(rows, edge).value);
      }
    }
  }

  // ----- What a payload writes

  /** What a node carries after a payload. */
  ghost function PropsAfter(store: Store, write: Write, rows: seq<Row>, node: Node): Props {
    var before := if node in store.nodes then store.nodes[node] else Props(0, None);
    var last := LastNamed(rows, node.id);
    if last.None? then before
    else if write == MergeNode(node.kind) then Props(last.value.first, before.keywords)
    else if write.SetKeywords? && node.kind == TOPIC then before.(keywords := Some(last.value.first))
    else before
  }

  lemma {:induction false} NodesAfter(store: Store, write: Write, rows: seq<Row>, node: Node)
    requires node in Apply(store, write, rows).nodes
    ensures Apply(store, write, rows).nodes[node] == PropsAfter(store, write, rows, node)
  {
    if rows != [] {
      var n := |rows| - 1;
      var before := Apply(store, write, rows[..n]);
      LastNamedIs(rows[..n], node.id);
      NodesAdded(store, write, rows[..n], node);
      if node in before.nodes {
        NodesAfter(store, write, rows[..n], node);
      }
    }
  }

  lemma {:induction false} EdgesAfter(store: Store, write: Write, rows: seq<Row>, edge: Edge)
    requires edge in Apply(store, write, rows).edges
    ensures Apply(store, write, rows).edges[edge]
         == if write == MergeEdge(edge.kind) && HasFrom(store, edge) && HasTo(store, edge)
               && LastTied(rows, edge).Some?
            then LastTied(rows, edge).value.first
            else if edge in store.edges then store.edges[edge] else 0
  {
    if rows != [] {
      var n := |rows| - 1;
      var before := Apply(store, write, rows[..n]);
      LastTiedIs(rows[..n], edge);
      EdgesAdded(store, write, rows[..n], edge);
      ApplyKeepsLanding(store, write, rows[..n], rows[n]);
      if edge in before.edges {
        EdgesAfter(store, write, rows[..n], edge);
      }
    }
  }

  ghost function ScoreRows(ground: Ground, rows: seq<Row>, version: nat): map<Text, Score> {
    map m | m in ground.messages && LastNamed(rows, m).Some? ::
      Score(Some(LastNamed(rows, m).value.first), Some(LastNamed(rows, m).value.second), Some(version))
  }

  ghost function RankRows(ground: Ground, rows: seq<Row>, version: nat): map<Text, Rank> {
    map m | m in ground.addresses && LastNamed(rows, m).Some? ::
      Rank(Some(LastNamed(rows, m).value.first), Some(version))
  }

  lemma ScoreRowsSnoc(ground: Ground, rows: seq<Row>, version: nat)
    requires rows != []
    ensures var last := rows[|rows| - 1];
            ScoreRows(ground, rows, version)
            == if last.id in ground.messages
               then ScoreRows(ground, rows[..|rows| - 1], version)
                      [last.id := Score(Some(last.first), Some(last.second), Some(version))]
               else ScoreRows(ground, rows[..|rows| - 1], version)
  {}

  lemma RankRowsSnoc(ground: Ground, rows: seq<Row>, version: nat)
    requires rows != []
    ensures var last := rows[|rows| - 1];
            RankRows(ground, rows, version)
            == if last.id in ground.addresses
               then RankRows(ground, rows[..|rows| - 1], version)[last.id := Rank(Some(last.first), Some(version))]
               else RankRows(ground, rows[..|rows| - 1], version)
  {}

  /** The scores after a payload. */
  lemma {:induction false} ScoresAfter(store: Store, write: Write, rows: seq<Row>)
    ensures Apply(store, write, rows).scores
         == if write.SetScores? then store.scores + ScoreRows(store.ground, rows, write.version) else store.scores
  {
    if rows != [] {
      var n := |rows| - 1;
      ScoresAfter(store, write, rows[..n]);
      GroundStays(store, write, rows[..n]);
      if write.SetScores? {
        ScoreRowsSnoc(store.ground, rows, write.version);
      }
    }
  }

  /** The ranks after a payload. */
  lemma {:induction false} RanksAfter(store: Store, write: Write, rows: seq<Row>)
    ensures Apply(store, write, rows).ranks
         == if write.SetRanks? then store.ranks + RankRows(store.ground, rows, write.version) else store.ranks
  {
    if rows != [] {
      var n := |rows| - 1;
      RanksAfter(store, write, rows[..n]);
      GroundStays(store, write, rows[..n]);
      if write.SetRanks? {
        RankRowsSnoc(store.ground, rows, write.version);
      }
    }
  }

  // ----- Stage by stage

  /** What has been written so far. */
  datatype Stage = Stage(keyworded: bool, scored: bool, ranked: bool)

  ghost function NodeProps(a: Analyses, ground: Ground, circles: Circles, node: Node, stage: Stage): Props {
    var fields := LastNamed(NodeRows(a, ground, circles, node.kind), node.id);
    var words := LastNamed(a.keywords(ground), node.id);
    Props(if fields.Some? then fields.value.first else 0,
          if stage.keyworded && node.kind == TOPIC && words.Some? then Some(words.value.first) else None)
  }

  ghost function EdgeValue(a: Analyses, ground: Ground, circles: Circles, edge: Edge): nat {
    var last := LastTied(EdgeRows(a, ground, circles, edge.kind), edge);
    if last.Some? then last.value.first else 0
  }

  ghost predicate NodesCarry(store: Store, a: Analyses, ground: Ground, circles: Circles, stage: Stage) {
    forall node | node in store.nodes :: store.nodes[node] == NodeProps(a, ground, circles, node, stage)
  }

  ghost predicate EdgesCarry(store: Store, a: Analyses, ground: Ground, circles: Circles) {
    forall edge | edge in store.edges :: store.edges[edge] == EdgeValue(a, ground, circles, edge)
  }

  ghost predicate TablesCarry(store: Store, a: Analyses, ground: Ground, stage: Stage) {
    && store.scores == (if stage.scored then ScoreRows(ground, a.importance(ground), a.importanceVersion) else map[])
    && store.ranks == (if stage.ranked then RankRows(ground, a.addressRanks(ground), a.rankVersion) else map[])
  }

  /** Every node, edge and property that is there carries what its last row says. */
  ghost predicate Carries(store: Store, a: Analyses, ground: Ground, circles: Circles, stage: Stage) {
    store.ground == ground && NodesCarry(store, a, ground, circles, stage) && EdgesCarry(store, a, ground, circles)
    && TablesCarry(store, a, ground, stage)
  }

  /** Nodes of these labels only. */
  ghost predicate Only(store: Store, labels: set<Label>) {
    forall node | node in store.nodes :: node.kind in labels
  }

  lemma OnlyAfter(store: Store, write: Write, rows: seq<Row>, labels: set<Label>)
    requires Only(store, labels)
    ensures Only(Apply(store, write, rows), if write.MergeNode? then labels + {write.of} else labels)
  {
    forall node | node in Apply(store, write, rows).nodes
      ensures node.kind in labels || (write.MergeNode? && node.kind == write.of)
    {
      NodesAdded(store, write, rows, node);
    }
  }

  /** A payload of new nodes. */
  lemma CarriesNodes(store: Store, a: Analyses, ground: Ground, circles: Circles, stage: Stage, labels: set<Label>,
                     of: Label)
    requires Carries(store, a, ground, circles, stage) && Only(store, labels) && of !in labels
    requires of == TOPIC ==> !stage.keyworded
    ensures Carries(Apply(store, MergeNode(of), NodeRows(a, ground, circles, of)), a, ground, circles, stage)
  {
    var rows := NodeRows(a, ground, circles, of);
    var after := Apply(store, MergeNode(of), rows);
    GroundStays(store, MergeNode(of), rows);
    ScoresAfter(store, MergeNode(of), rows);
    RanksAfter(store, MergeNode(of), rows);
    forall node | node in after.nodes ensures after.nodes[node] == NodeProps(a, ground, circles, node, stage) {
      NodesAfter(store, MergeNode(of), rows, node);
      NodesAdded(store, MergeNode(of), rows, node);
      LastNamedIs(rows, node.id);
    }
    forall edge | edge in after.edges ensures after.edges[edge] == EdgeValue(a, ground, circles, edge) {
      EdgesAfter(store, MergeNode(of), rows, edge);
      EdgesAdded(store, MergeNode(of), rows, edge);
    }
  }

  /** A payload of edges. */
  lemma CarriesEdges(store: Store, a: Analyses, ground: Ground, circles: Circles, stage: Stage, kind: EdgeType)
    requires Carries(store, a, ground, circles, stage)
    ensures Carries(Apply(store, MergeEdge(kind), EdgeRows(a, ground, circles, kind)), a, ground, circles, stage)
  {
    var rows := EdgeRows(a, ground, circles, kind);
    var after := Apply(store, MergeEdge(kind), rows);
    GroundStays(store, MergeEdge(kind), rows);
    ScoresAfter(store, MergeEdge(kind), rows);
    RanksAfter(store, MergeEdge(kind), rows);
    forall node | node in after.nodes ensures after.nodes[node] == NodeProps(a, ground, circles, node, stage) {
      NodesAfter(store, MergeEdge(kind), rows, node);
      NodesAdded(store, MergeEdge(kind), rows, node);
    }
    forall edge | edge in after.edges ensures after.edges[edge] == EdgeValue(a, ground, circles, edge) {
      EdgesAfter(store, MergeEdge(kind), rows, edge);
      EdgesAdded(store, MergeEdge(kind), rows, edge);
      LastTiedIs(rows, edge);
    }
  }

  lemma PropertiesAfter(store: Store, write: Write, rows: seq<Row>, a: Analyses, ground: Ground, circles: Circles,
                        stage: Stage)
    requires Carries(store, a, ground, circles, stage) && !write.MergeNode? && !write.MergeEdge?
    ensures EdgesCarry(Apply(store, write, rows), a, ground, circles)
    ensures !write.SetKeywords? ==> NodesCarry(Apply(store, write, rows), a, ground, circles, stage)
    ensures Apply(store, write, rows).ground == ground
  {
    var after := Apply(store, write, rows);
    GroundStays(store, write, rows);
    forall node | node in after.nodes && !write.SetKeywords?
      ensures after.nodes[node] == NodeProps(a, ground, circles, node, stage)
    {
      NodesAfter(store, write, rows, node);
      NodesAdded(store, write, rows, node);
    }
    forall edge | edge in after.edges ensures after.edges[edge] == EdgeValue(a, ground, circles, edge) {
      EdgesAfter(store, write, rows, edge);
      EdgesAdded(store, write, rows, edge);
    }
  }

  lemma CarriesRanks(store: Store, a: Analyses, ground: Ground, circles: Circles, stage: Stage)
    requires Carries(store, a, ground, circles, stage) && !stage.ranked
    ensures Carries(Ranked(a, store), a, ground, circles, stage.(ranked := true))
  {
    PropertiesAfter(store, SetRanks(a.rankVersion), a.addressRanks(ground), a, ground, circles, stage);
    ScoresAfter(store, SetRanks(a.rankVersion), a.addressRanks(ground));
    RanksAfter(store, SetRanks(a.rankVersion), a.addressRanks(ground));
    StageOnly(Ranked(a, store), a, ground, circles, stage, stage.(ranked := true));
  }

  lemma CarriesScores(store: Store, a: Analyses, ground: Ground, circles: Circles, stage: Stage)
    requires Carries(store, a, ground, circles, stage) && !stage.scored
    ensures Carries(Scored(a, store), a, ground, circles, stage.(scored := true))
  {
    PropertiesAfter(store, SetScores(a.importanceVersion), a.importance(ground), a, ground, circles, stage);
    ScoresAfter(store, SetScores(a.importanceVersion), a.importance(ground));
    RanksAfter(store, SetScores(a.importanceVersion), a.importance(ground));
    StageOnly(Scored(a, store), a, ground, circles, stage, stage.(scored := true));
  }

  lemma StageOnly(store: Store, a: Analyses, ground: Ground, circles: Circles, stage: Stage, next: Stage)
    requires NodesCarry(store, a, ground, circles, stage) && next.keyworded == stage.keyworded
    ensures NodesCarry(store, a, ground, circles, next)
  {
    forall node | node in store.nodes
      ensures NodeProps(a, ground, circles, node, next) == NodeProps(a, ground, circles, node, stage)
    {}
  }

  lemma CarriesKeywords(store: Store, a: Analyses, ground: Ground, circles: Circles, stage: Stage)
    requires Carries(store, a, ground, circles, stage) && !stage.keyworded
    ensures Carries(Described(a, store), a, ground, circles, stage.(keyworded := true))
  {
    var rows := a.keywords(ground);
    PropertiesAfter(store, SetKeywords, rows, a, ground, circles, stage);
    ScoresAfter(store, SetKeywords, rows);
    RanksAfter(store, SetKeywords, rows);
    forall node | node in Described(a, store).nodes
      ensures Described(a, store).nodes[node] == NodeProps(a, ground, circles, node, stage.(keyworded := true))
    {
      NodesAfter(store, SetKeywords, rows, node);
      NodesAdded(store, SetKeywords, rows, node);
    }
  }

  /** Nodes of a new label, and the edges that hang off them. */
  lemma CarriesFinding(store: Store, a: Analyses, ground: Ground, circles: Circles, stage: Stage, labels: set<Label>,
                       of: Label, kind: EdgeType)
    requires Carries(store, a, ground, circles, stage) && Only(store, labels) && of !in labels
    requires of == TOPIC ==> !stage.keyworded
    ensures var written := Apply(store, MergeNode(of), NodeRows(a, ground, circles, of));
            var tied := Apply(written, MergeEdge(kind), EdgeRows(a, ground, circles, kind));
            Carries(tied, a, ground, circles, stage) && Only(tied, labels + {of})
  {
    var written := Apply(store, MergeNode(of), NodeRows(a, ground, circles, of));
    CarriesNodes(store, a, ground, circles, stage, labels, of);
    CarriesEdges(written, a, ground, circles, stage, kind);
    OnlyAfter(store, MergeNode(of), NodeRows(a, ground, circles, of), labels);
    OnlyAfter(written, MergeEdge(kind), EdgeRows(a, ground, circles, kind), labels + {of});
  }

  lemma CorrespondedCarries(a: Analyses, ground: Ground, circles: Circles)
    ensures Carries(Corresponded(a, Bare(ground)), a, ground, circles, Stage(false, false, false))
    ensures Only(Corresponded(a, Bare(ground)), {GROUP})
  {
    var stage := Stage(false, false, false);
    CarriesFinding(Bare(ground), a, ground, circles, stage, {}, GROUP, ADDRESSED_GROUP);
    assert {} + {GROUP} == {GROUP};
    var attached := Apply(Apply(Bare(ground), MergeNode(GROUP), a.groups(ground)), MergeEdge(ADDRESSED_GROUP),
                          a.groupMembers(ground));
    CarriesEdges(attached, a, ground, circles, stage, CO_ADDRESSED);
    OnlyAfter(attached, MergeEdge(CO_ADDRESSED), a.pairs(ground), {GROUP});
  }

  lemma CircledCarries(store: Store, a: Analyses, ground: Ground, circles: Circles, stage: Stage)
    requires Carries(store, a, ground, circles, stage) && Only(store, {GROUP})
    ensures Carries(Circled(store, circles), a, ground, circles, stage)
    ensures Only(Circled(store, circles), {GROUP, COMMUNITY})
  {
    CarriesFinding(store, a, ground, circles, stage, {GROUP}, COMMUNITY, MEMBER_OF);
    assert {GROUP} + {COMMUNITY} == {GROUP, COMMUNITY};
    var joined := Apply(Apply(store, MergeNode(COMMUNITY), circles.communities), MergeEdge(MEMBER_OF), circles.members);
    CarriesEdges(joined, a, ground, circles, stage, IN_CIRCLE);
    OnlyAfter(joined, MergeEdge(IN_CIRCLE), circles.placements, {GROUP, COMMUNITY});
  }

  lemma DescribedCarries(store: Store, a: Analyses, ground: Ground, circles: Circles, stage: Stage)
    requires Carries(store, a, ground, circles, stage) && Only(store, {GROUP, COMMUNITY}) && !stage.keyworded
    ensures var after := Retyped(a, Described(a, Clustered(a, store)));
            Carries(after, a, ground, circles, stage.(keyworded := true))
  {
    var clustered := Clustered(a, store);
    CarriesFinding(store, a, ground, circles, stage, {GROUP, COMMUNITY}, TOPIC, ABOUT);
    var labels := {GROUP, COMMUNITY} + {TOPIC};
    CarriesKeywords(clustered, a, ground, circles, stage);
    OnlyAfter(clustered, SetKeywords, a.keywords(ground), labels);
    var later := stage.(keyworded := true);
    CarriesFinding(Described(a, clustered), a, ground, circles, later, labels, TEMPLATE, INSTANCE_OF);
  }

  /** Everything in a finished graph carries what the last row about it says. */
  lemma RebuiltCarries(a: Analyses, ground: Ground, seed: nat)
    ensures var circles := FoundCircles(a, Ranked(a, Corresponded(a, Bare(ground))), seed);
            Carries(Rebuilt(a, ground, seed), a, ground, circles, Stage(true, true, true))
  {
    var begun := Corresponded(a, Bare(ground));
    var ranked := Ranked(a, begun);
    var circles := FoundCircles(a, ranked, seed);
    CorrespondedCarries(a, ground, circles);
    CarriesRanks(begun, a, ground, circles, Stage(false, false, false));
    OnlyAfter(begun, SetRanks(a.rankVersion), a.addressRanks(ground), {GROUP});
    CircledCarries(ranked, a, ground, circles, Stage(false, false, true));
    AnalysedCarries(a, ground, circles, Circled(ranked, circles));
  }

  lemma AnalysedCarries(a: Analyses, ground: Ground, circles: Circles, circled: Store)
    requires Carries(circled, a, ground, circles, Stage(false, false, true)) && Only(circled, {GROUP, COMMUNITY})
    ensures Carries(Offered(a, Scored(a, Retyped(a, Described(a, Clustered(a, circled)))), circles),
                    a, ground, circles, Stage(true, true, true))
  {
    var retyped := Retyped(a, Described(a, Clustered(a, circled)));
    DescribedCarries(circled, a, ground, circles, Stage(false, false, true));
    CarriesScores(retyped, a, ground, circles, Stage(true, false, true));
    CarriesEdges(Scored(a, retyped), a, ground, circles, Stage(true, true, true), SUGGESTED);
  }

  // ----- What is there to read

  /** What a node of a finished graph carries: the last row about it, and for a topic its keywords. */
  lemma FinishedNode(a: Analyses, ground: Ground, seed: nat, node: Node)
    requires node in Rebuilt(a, ground, seed).nodes
    ensures var circles := FoundCircles(a, Ranked(a, Corresponded(a, Bare(ground))), seed);
            exists row :: NamesLast(NodeRows(a, ground, circles, node.kind), node.id, row)
                          && Rebuilt(a, ground, seed).nodes[node].fields == row.first
    ensures var words := Rebuilt(a, ground, seed).nodes[node].keywords;
            if node.kind == TOPIC && Names(a.keywords(ground), node.id)
            then exists row :: NamesLast(a.keywords(ground), node.id, row) && words == Some(row.first)
            else words == None
  {
    var circles := FoundCircles(a, Ranked(a, Corresponded(a, Bare(ground))), seed);
    RebuiltHoldsTheFindings(a, ground, seed);
    RebuiltCarries(a, ground, seed);
    LastNamedIs(NodeRows(a, ground, circles, node.kind), node.id);
    LastNamedIs(a.keywords(ground), node.id);
  }

  /** What the two ends of an edge have to be, type by type. */
  ghost predicate EndsThere(a: Analyses, ground: Ground, circles: Circles, edge: Edge) {
    match edge.kind
    case CO_ADDRESSED => edge.from in ground.addresses && edge.to in ground.addresses
    case MEMBER_OF => edge.from in ground.addresses && Names(circles.communities, edge.to)
    case IN_CIRCLE => edge.from in ground.messages && Names(circles.communities, edge.to)
    case ADDRESSED_GROUP => edge.from in ground.messages && Names(a.groups(ground), edge.to)
    case ABOUT => edge.from in ground.messages && Names(a.topics(ground), edge.to)
    case INSTANCE_OF => edge.from in ground.messages && Names(a.templates(ground), edge.to)
    case SUGGESTED => edge.from in ground.messages && edge.to in ground.tags
  }

  /** An edge of a finished graph: some row ties its ends and both are there; it carries the last such row. */
  lemma FinishedEdge(a: Analyses, ground: Ground, seed: nat, edge: Edge)
    ensures var circles := FoundCircles(a, Ranked(a, Corresponded(a, Bare(ground))), seed);
            var rows := EdgeRows(a, ground, circles, edge.kind);
            && (edge in Rebuilt(a, ground, seed).edges <==> Ties(rows, edge) && EndsThere(a, ground, circles, edge))
            && (edge in Rebuilt(a, ground, seed).edges ==>
                  exists row :: TiesLast(rows, edge, row) && Rebuilt(a, ground, seed).edges[edge] == row.first)
  {
    var circles := FoundCircles(a, Ranked(a, Corresponded(a, Bare(ground))), seed);
    RebuiltHoldsTheFindings(a, ground, seed);
    RebuiltCarries(a, ground, seed);
    LastTiedIs(EdgeRows(a, ground, circles, edge.kind), edge);
    EndsAre(Rebuilt(a, ground, seed), a, ground, circles, edge);
  }

  lemma EndsAre(store: Store, a: Analyses, ground: Ground, circles: Circles, edge: Edge)
    requires Holds(store, a, ground, circles, ALL_LABELS, ALL_KINDS)
    ensures HasFrom(store, edge) && HasTo(store, edge) <==> EndsThere(a, ground, circles, edge)
  {
    var group, topic := Node(GROUP, edge.to), Node(TOPIC, edge.to);
    var template, circle := Node(TEMPLATE, edge.to), Node(COMMUNITY, edge.to);
    assert group in store.nodes <==> Names(a.groups(ground), edge.to);
    assert topic in store.nodes <==> Names(a.topics(ground), edge.to);
    assert template in store.nodes <==> Names(a.templates(ground), edge.to);
    assert circle in store.nodes <==> Names(circles.communities, edge.to);
  }

  /** The scores of a finished graph: every message a row names, with the value and the reasons of the last such row. */
  lemma FinishedScore(a: Analyses, ground: Ground, seed: nat, message: Text)
    ensures var scores := Rebuilt(a, ground, seed).scores;
            && (message in scores <==> message in ground.messages && Names(a.importance(ground), message))
            && (message in scores ==>
                  exists row :: NamesLast(a.importance(ground), message, row)
                    && scores[message] == Score(Some(row.first), Some(row.second), Some(a.importanceVersion)))
  {
    RebuiltCarries(a, ground, seed);
    LastNamedIs(a.importance(ground), message);
  }

  /** The ranks of a finished graph, likewise. */
  lemma FinishedRank(a: Analyses, ground: Ground, seed: nat, address: Text)
    ensures var ranks := Rebuilt(a, ground, seed).ranks;
            && (address in ranks <==> address in ground.addresses && Names(a.addressRanks(ground), address))
            && (address in ranks ==>
                  exists row :: NamesLast(a.addressRanks(ground), address, row)
                    && ranks[address] == Rank(Some(row.first), Some(a.rankVersion)))
  {
    RebuiltCarries(a, ground, seed);
    LastNamedIs(a.addressRanks(ground), address);
  }

  // ----- What the label propagation reads

  /** The co-addressing edges between known addresses, each with the count of the last row for it. */
  ghost predicate IsRead(read: map<Edge, nat>, ground: Ground, pairs: seq<Row>) {
    forall edge ::
      && (edge in read <==> edge.kind == CO_ADDRESSED && Ties(pairs, edge)
                            && edge.from in ground.addresses && edge.to in ground.addresses)
      && (edge in read ==> exists row :: TiesLast(pairs, edge, row) && read[edge] == row.first)
  }

  lemma {:induction false} OneLast(rows: seq<Row>, edge: Edge, one: Row, other: Row)
    requires TiesLast(rows, edge, one) && TiesLast(rows, edge, other)
    ensures one == other
  {
    var i :| 0 <= i < |rows| && rows[i] == one && one.id == edge.from && one.other == edge.to
             && forall j | i < j < |rows| :: rows[j].id != edge.from || rows[j].other != edge.to;
    var k :| 0 <= k < |rows| && rows[k] == other && other.id == edge.from && other.other == edge.to
             && forall j | k < j < |rows| :: rows[j].id != edge.from || rows[j].other != edge.to;
  }

  lemma ReadIsOne(read: map<Edge, nat>, other: map<Edge, nat>, ground: Ground, pairs: seq<Row>)
    requires IsRead(read, ground, pairs) && IsRead(other, ground, pairs)
    ensures read == other
  {
    forall edge | edge in read ensures edge in other && other[edge] == read[edge] {
      var row :| TiesLast(pairs, edge, row) && read[edge] == row.first;
      var row' :| TiesLast(pairs, edge, row') && other[edge] == row'.first;
      OneLast(pairs, edge, row, row');
    }
    assert read.Keys == other.Keys;
  }

  lemma ReadsThePairs(a: Analyses, ground: Ground)
    ensures IsRead(CoAddressedOf(Ranked(a, Corresponded(a, Bare(ground)))), ground, a.pairs(ground))
    ensures Ranked(a, Corresponded(a, Bare(ground))).ground == ground
  {
    var circles := Circles([], [], []);
    var begun := Corresponded(a, Bare(ground));
    var ranked := Ranked(a, begun);
    CorrespondedHolds(a, ground, circles);
    CorrespondedCarries(a, ground, circles);
    HoldsProperties(begun, a, ground, circles, {GROUP}, {ADDRESSED_GROUP, CO_ADDRESSED}, SetRanks(a.rankVersion),
                    a.addressRanks(ground));
    CarriesRanks(begun, a, ground, circles, Stage(false, false, false));
    forall edge
      ensures edge in CoAddressedOf(ranked) <==> edge.kind == CO_ADDRESSED && Ties(a.pairs(ground), edge)
                                                 && edge.from in ground.addresses && edge.to in ground.addresses
      ensures edge in CoAddressedOf(ranked) ==>
                exists row :: TiesLast(a.pairs(ground), edge, row) && CoAddressedOf(ranked)[edge] == row.first
    {
      LastTiedIs(a.pairs(ground), edge);
    }
  }

  /** The circles of a finished run come from the co-addressing edges of that run and from nothing else. */
  lemma PropagationReadsThePairs(a: Analyses, ground: Ground, seed: nat, read: map<Edge, nat>)
    requires IsRead(read, ground, a.pairs(ground))
    ensures FoundCircles(a, Ranked(a, Corresponded(a, Bare(ground))), seed)
         == a.circles(ground, a.propagation(ground, read, seed))
  {
    ReadsThePairs(a, ground);
    ReadIsOne(read, CoAddressedOf(Ranked(a, Corresponded(a, Bare(ground)))), ground, a.pairs(ground));
  }
}
