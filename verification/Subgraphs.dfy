/**
 * The pictures a canvas draws: rows assembled into one subgraph (`queries/graphs.py`) and one
 * subgraph laid over another (`queries/model.py`).
 */
module Subgraphs {
  import opened Order
  import opened Overlays
  import opened Sums

  datatype GraphNode = GraphNode(id: Text, kind: Text, name: Text, weights: map<Text, real>, props: map<Text, Text>)

  datatype GraphEdge = GraphEdge(source: Text, target: Text, kind: Text, weight: real, name: Text)

  /** The sentence naming every read that was cut, or none. */
  datatype Notice = Silent | CutTo(limit: int, what: seq<Text>)

  datatype Subgraph = Subgraph(nodes: seq<GraphNode>, edges: seq<GraphEdge>, truncated: bool, notice: Notice)

  type EdgeKey = (Text, Text, Text)

  const NOTHING: Subgraph := Subgraph([], [], false, Silent)

  function NodeKey(node: GraphNode): Text { node.id }

  function KeyOfEdge(edge: GraphEdge): EdgeKey { (edge.source, edge.target, edge.kind) }

  /** `one or other` on texts. */
  function OrElse(one: Text, other: Text): Text {
    if one != EMPTY then one else other
  }

  function OrNotice(one: Notice, other: Notice): Notice {
    if one.Silent? then other else one
  }

  function Larger(a: real, b: real): real {
    if a >= b then a else b
  }

  // ----- What a consumer may rely on

  ghost predicate HasNode(nodes: seq<GraphNode>, id: Text) {
    exists i :: 0 <= i < |nodes| && nodes[i].id == id
  }

  /** No id twice, no line twice, and every line has both of its ends. */
  ghost predicate Proper(g: Subgraph) {
    && DistinctKeys(g.nodes, NodeKey) && DistinctKeys(g.edges, KeyOfEdge)
    && forall i | 0 <= i < |g.edges| :: HasNode(g.nodes, g.edges[i].source) && HasNode(g.nodes, g.edges[i].target)
  }

  ghost predicate InUnit(weights: map<Text, real>) {
    forall name | name in weights :: 0.0 <= weights[name] <= 1.0
  }

  /** Every weight is a fraction. */
  ghost predicate Scaled(g: Subgraph) {
    forall i | 0 <= i < |g.nodes| :: InUnit(g.nodes[i].weights)
  }

  // ----- `merged_with`

  /** `_folded`: everything from this one, except a smaller weight than the other has. */
  function Folded(kept: GraphNode, other: GraphNode): GraphNode {
    GraphNode(kept.id, kept.kind, OrElse(kept.name, other.name), Union(kept.weights, other.weights, Larger),
              other.props + kept.props)
  }

  function Heavier(kept: GraphEdge, other: GraphEdge): GraphEdge {
    if kept.weight < other.weight then other else kept
  }

  function Merge(one: Subgraph, other: Subgraph): Subgraph {
    Subgraph(Laid(one.nodes, other.nodes, NodeKey, Folded), Laid(one.edges, other.edges, KeyOfEdge, Heavier),
             one.truncated || other.truncated, OrNotice(one.notice, other.notice))
  }

  method MergeNodes(kept: seq<GraphNode>, others: seq<GraphNode>) returns (merged: seq<GraphNode>)
    ensures merged == Laid(kept, others, NodeKey, Folded)
  {
    var nodes := FromValues(kept, NodeKey);
    for i := 0 to |others|
      invariant nodes == LayAll(FromValues(kept, NodeKey), others[..i], NodeKey, Folded)
    {
      var node := others[i];
      assert others[..i + 1][..i] == others[..i];
      nodes := Put(nodes, node.id, if node.id in nodes.items then Folded(nodes.items[node.id], node) else node);
    }
    assert others[..|others|] == others;
    merged := Values(nodes);
  }

  method MergeEdges(kept: seq<GraphEdge>, others: seq<GraphEdge>) returns (merged: seq<GraphEdge>)
    ensures merged == Laid(kept, others, KeyOfEdge, Heavier)
  {
    var edges := FromValues(kept, KeyOfEdge);
    for i := 0 to |others|
      invariant edges == LayAll(FromValues(kept, KeyOfEdge), others[..i], KeyOfEdge, Heavier)
    {
      var edge := others[i];
      var key := KeyOfEdge(edge);
      assert others[..i + 1][..i] == others[..i];
      PutSame(edges, key);
      if key !in edges.items || edges.items[key].weight < edge.weight {
        edges := Put(edges, key, edge);
      }
    }
    assert others[..|others|] == others;
    merged := Values(edges);
  }

  method MergedWith(one: Subgraph, other: Subgraph) returns (merged: Subgraph)
    ensures merged == Merge(one, other)
  {
    var nodes := MergeNodes(one.nodes, other.nodes);
    var edges := MergeEdges(one.edges, other.edges);
    merged := Subgraph(nodes, edges, one.truncated || other.truncated, OrNotice(one.notice, other.notice));
  }

  /** Writing what is there changes nothing. */
  lemma PutSame<K, V>(d: Dict<K, V>, k: K)
    ensures k in d.items ==> Put(d, k, d.items[k]) == d
  {}

  lemma FoldsAreFair()
    ensures KeepsKey(NodeKey, Folded) && Absorbs(Folded) && Associates(NodeKey, Folded)
    ensures KeepsKey(KeyOfEdge, Heavier) && Absorbs(Heavier) && Associates(KeyOfEdge, Heavier)
  {
    forall a ensures Folded(a, a) == a {
      assert Union(a.weights, a.weights, Larger) == a.weights;
      assert a.props + a.props == a.props;
    }
    forall a, b, c ensures Folded(Folded(a, b), c) == Folded(a, Folded(b, c)) {
      WeightsAssociate(a.weights, b.weights, c.weights);
      assert c.props + (b.props + a.props) == c.props + b.props + a.props;
    }
  }

  lemma WeightsAssociate(a: map<Text, real>, b: map<Text, real>, c: map<Text, real>)
    ensures Union(Union(a, b, Larger), c, Larger) == Union(a, Union(b, c, Larger), Larger)
  {}

  /** Expanding by one picture and then another is expanding by the two of them laid together. */
  lemma MergeAssociates(a: Subgraph, b: Subgraph, c: Subgraph)
    requires Proper(a) && Proper(b) && Proper(c)
    ensures Merge(Merge(a, b), c) == Merge(a, Merge(b, c))
  {
    FoldsAreFair();
    LaidAssociates(a.nodes, b.nodes, c.nodes, NodeKey, Folded);
    LaidAssociates(a.edges, b.edges, c.edges, KeyOfEdge, Heavier);
  }

  /** A double-click twice is a double-click once. */
  lemma MergeIsIdempotent(a: Subgraph, b: Subgraph)
    requires Proper(a) && Proper(b)
    ensures Merge(a, a) == a
    ensures Merge(Merge(a, b), b) == Merge(a, b)
  {
    FoldsAreFair();
    LaidOverItself(a.nodes, NodeKey, Folded);
    LaidOverItself(a.edges, KeyOfEdge, Heavier);
    LaidOverItself(b.nodes, NodeKey, Folded);
    LaidOverItself(b.edges, KeyOfEdge, Heavier);
    MergeAssociates(a, b, b);
  }

  lemma MergeWithNothing(a: Subgraph)
    requires Proper(a)
    ensures Merge(a, NOTHING) == a && Merge(NOTHING, a) == a
  {
    LaidWithNothing(a.nodes, NodeKey, Folded);
    LaidWithNothing(a.edges, KeyOfEdge, Heavier);
  }

  lemma MergeKeepsEnds(a: Subgraph, b: Subgraph, id: Text)
    requires Proper(a) && Proper(b) && (HasNode(a.nodes, id) || HasNode(b.nodes, id))
    ensures HasNode(Merge(a, b).nodes, id)
  {
    FoldsAreFair();
    LaidKeepsKeys(a.nodes, b.nodes, NodeKey, Folded, id);
  }

  /** Neither guarantee is lost: no second pass over the edges is needed. */
  lemma MergeIsProper(a: Subgraph, b: Subgraph)
    requires Proper(a) && Proper(b)
    ensures Proper(Merge(a, b))
  {
    FoldsAreFair();
    LaidIsMerged(a.nodes, b.nodes, NodeKey, Folded);
    LaidIsMerged(a.edges, b.edges, KeyOfEdge, Heavier);
    var edges := Merge(a, b).edges;
    forall i | 0 <= i < |edges|
      ensures HasNode(Merge(a, b).nodes, edges[i].source) && HasNode(Merge(a, b).nodes, edges[i].target)
    {
      LaidHolds(a.edges, b.edges, KeyOfEdge, Heavier, i);
      MergeKeepsEnds(a, b, edges[i].source);
      MergeKeepsEnds(a, b, edges[i].target);
    }
  }

  /** The larger of two fractions is a fraction. */
  lemma MergeIsScaled(a: Subgraph, b: Subgraph)
    requires Proper(a) && Proper(b) && Scaled(a) && Scaled(b)
    ensures Scaled(Merge(a, b))
  {
    FoldsAreFair();
    var nodes := Merge(a, b).nodes;
    forall i | 0 <= i < |nodes| ensures InUnit(nodes[i].weights) {
      LaidHolds(a.nodes, b.nodes, NodeKey, Folded, i);
    }
  }

  // ----- Degrees

  const DEGREE: Text := 1

  /** Ends of lines at a node; a loop counts twice. */
  function Degree(edges: seq<GraphEdge>, id: Text): nat {
    if edges == [] then 0
    else
      var last := edges[|edges| - 1];
      Degree(edges[..|edges| - 1], id) + (if last.source == id then 1 else 0) + (if last.target == id then 1 else 0)
  }

  ghost predicate EndsIn(edges: seq<GraphEdge>, ids: set<Text>) {
    forall i | 0 <= i < |edges| :: edges[i].source in ids && edges[i].target in ids
  }

  function At(id: Text): Text -> real {
    (other: Text) => if id == other then 1.0 else 0.0
  }

  lemma SumAt(ids: set<Text>, id: Text)
    requires id in ids
    ensures Sum(ids, At(id)) == 1.0
  {
    SumRemove(ids, id, At(id));
    SumConstant(ids - {id}, 0.0, At(id));
  }

  /** Every line is counted at both of its ends: the degrees sum to twice the lines. */
  lemma {:induction false} DegreesSum(edges: seq<GraphEdge>, ids: set<Text>, degree: Text -> real)
    requires EndsIn(edges, ids) && forall id | id in ids :: degree(id) == Degree(edges, id) as real
    ensures Sum(ids, degree) == 2.0 * |edges| as real
    decreases |edges|
  {
    if edges == [] {
      SumConstant(ids, 0.0, degree);
    } else {
      var n := |edges| - 1;
      var last := edges[n];
      var before := (id: Text) => Degree(edges[..n], id) as real;
      var both := (id: Text) => At(last.source)(id) + At(last.target)(id);
      DegreesSum(edges[..n], ids, before);
      SumAt(ids, last.source);
      SumAt(ids, last.target);
      SumAdd(ids, At(last.source), At(last.target), both);
      SumAdd(ids, before, both, degree);
    }
  }

  // ----- `_normalised`

  /** The largest value under a name, zero when nothing is positive. */
  function Ceiling(all: seq<map<Text, real>>, name: Text): (c: real)
    ensures c >= 0.0
    ensures forall i | 0 <= i < |all| && name in all[i] :: all[i][name] <= c
  {
    if all == [] then 0.0
    else
      var n := |all| - 1;
      var rest := Ceiling(all[..n], name);
      assert forall i | 0 <= i < n :: all[..n][i] == all[i];
      if name in all[n] then Larger(rest, all[n][name]) else rest
  }

  function Fraction(value: real, ceiling: real): real {
    if ceiling > 0.0 then value / ceiling else 0.0
  }

  /** One node's weights as fractions of the largest in the picture, name by name. */
  function Normal(weights: map<Text, real>, all: seq<map<Text, real>>): map<Text, real> {
    map name | name in weights :: Fraction(weights[name], Ceiling(all, name))
  }

  lemma FractionSides(value: real, ceiling: real)
    requires value <= ceiling && ceiling > 0.0
    ensures Fraction(value, ceiling) <= 1.0 && (Fraction(value, ceiling) >= 0.0 <==> value >= 0.0)
  {
    var f := Fraction(value, ceiling);
    assert value == f * ceiling;
    assert f > 1.0 ==> f * ceiling > ceiling;
    assert f < 0.0 ==> f * ceiling < 0.0;
    assert f >= 0.0 ==> f * ceiling >= 0.0;
  }

  /** A value and its ceiling give a fraction exactly when the value is not negative, or nothing is positive. */
  lemma FractionInUnit(value: real, ceiling: real)
    requires value <= ceiling && ceiling >= 0.0
    ensures 0.0 <= Fraction(value, ceiling) <= 1.0 <==> value >= 0.0 || ceiling == 0.0
  {
    if ceiling > 0.0 {
      FractionSides(value, ceiling);
    }
  }

  /** A picture is scaled exactly when no name carries both a negative and a positive weight. */
  ghost predicate SameSide(all: seq<map<Text, real>>) {
    forall i, name | 0 <= i < |all| && name in all[i] :: all[i][name] >= 0.0 || Ceiling(all, name) == 0.0
  }

  lemma NormalInUnit(all: seq<map<Text, real>>)
    ensures (forall i | 0 <= i < |all| :: InUnit(Normal(all[i], all))) <==> SameSide(all)
  {
    forall i, name | 0 <= i < |all| && name in all[i]
      ensures 0.0 <= Normal(all[i], all)[name] <= 1.0 <==> all[i][name] >= 0.0 || Ceiling(all, name) == 0.0
    {
      FractionInUnit(all[i][name], Ceiling(all, name));
    }
  }

  /** The first loop of `_normalised`: the ceilings of the names met so far. */
  ghost predicate Ceilings(ceilings: map<Text, real>, all: seq<map<Text, real>>) {
    && (forall i, name | 0 <= i < |all| && name in all[i] :: name in ceilings)
    && (forall name | name in ceilings :: ceilings[name] == Ceiling(all, name))
  }

  function Raise(ceilings: map<Text, real>, name: Text, value: real): map<Text, real> {
    ceilings[name := Larger(if name in ceilings then ceilings[name] else 0.0, value)]
  }

  lemma {:induction false} CeilingOfUnmet(all: seq<map<Text, real>>, name: Text)
    requires forall i | 0 <= i < |all| :: name !in all[i]
    ensures Ceiling(all, name) == 0.0
  {
    if all != [] {
      CeilingOfUnmet(all[..|all| - 1], name);
    }
  }

  /** Between two nodes: some names of the next one are already in. */
  ghost predicate CeilingsPartly(ceilings: map<Text, real>, all: seq<map<Text, real>>, one: map<Text, real>,
        rest: set<Text>) {
    && (forall i, name | 0 <= i < |all| && name in all[i] :: name in ceilings)
    && (forall name | name in one && name !in rest :: name in ceilings)
    && (forall name | name in ceilings ::
          ceilings[name] == if name in one && name !in rest then Larger(Ceiling(all, name),
                one[name]) else Ceiling(all, name))
  }

  lemma CeilingsRaise(ceilings: map<Text, real>, all: seq<map<Text, real>>, one: map<Text, real>, rest: set<Text>,
        name: Text)
    requires CeilingsPartly(ceilings, all, one, rest) && name in rest && name in one
    ensures CeilingsPartly(Raise(ceilings, name, one[name]), all, one, rest - {name})
  {
    if name !in ceilings {
      CeilingOfUnmet(all, name);
    }
  }

  lemma CeilingsNext(ceilings: map<Text, real>, all: seq<map<Text, real>>, i: nat)
    requires i < |all| && CeilingsPartly(ceilings, all[..i], all[i], {})
    ensures Ceilings(ceilings, all[..i + 1])
  {
    assert all[..i + 1][..i] == all[..i];
    forall name | name in ceilings ensures ceilings[name] == Ceiling(all[..i + 1], name) {}
  }

  method FindCeilings(all: seq<map<Text, real>>) returns (ceilings: map<Text, real>)
    ensures Ceilings(ceilings, all)
  {
    ceilings := map[];
    for i := 0 to |all|
      invariant Ceilings(ceilings, all[..i])
    {
      var rest := all[i].Keys;
      while rest != {}
        invariant rest <= all[i].Keys
        invariant CeilingsPartly(ceilings, all[..i], all[i], rest)
        decreases |rest|
      {
        var name :| name in rest;
        CeilingsRaise(ceilings, all[..i], all[i], rest, name);
        ceilings := Raise(ceilings, name, all[i][name]);
        rest := rest - {name};
      }
      CeilingsNext(ceilings, all, i);
    }
    assert all[..|all|] == all;
  }

  // ----- `_Assembly`

  /** What a later reading of a node fills in: only what the earlier one did not know. */
  function FilledIn(found: GraphNode, more: GraphNode): GraphNode {
    GraphNode(found.id, found.kind, OrElse(found.name, more.name), more.weights + found.weights,
              more.props + found.props)
  }

  /** The lines with both of their ends in the picture. */
  function Inside(edges: seq<GraphEdge>, nodes: map<Text, GraphNode>): seq<GraphEdge> {
    if edges == [] then []
    else
      var last := edges[|edges| - 1];
      Inside(edges[..|edges| - 1], nodes) + if last.source in nodes && last.target in nodes then [last] else []
  }

  lemma {:induction false} InsideIsInside(edges: seq<GraphEdge>, nodes: map<Text, GraphNode>)
    ensures var r := Inside(edges, nodes);
            && (forall edge :: edge in r <==> edge in edges && edge.source in nodes && edge.target in nodes)
            && (DistinctKeys(edges, KeyOfEdge) ==> DistinctKeys(r, KeyOfEdge))
  {
    if edges != [] {
      var n := |edges| - 1;
      InsideIsInside(edges[..n], nodes);
      assert edges == edges[..n] + [edges[n]];
      var rest := Inside(edges[..n], nodes);
      assert forall i | 0 <= i < |rest| :: rest[i] in rest;
    }
  }

  /** A node's own weights and its degree in this picture. */
  function Weighted(node: GraphNode, edges: seq<GraphEdge>): map<Text, real> {
    node.weights[DEGREE := Degree(edges, node.id) as real]
  }

  function AllWeighted(nodes: seq<GraphNode>, edges: seq<GraphEdge>): (r: seq<map<Text, real>>)
    ensures |r| == |nodes| && forall i | 0 <= i < |r| :: r[i] == Weighted(nodes[i], edges)
  {
    if nodes == [] then [] else AllWeighted(nodes[..|nodes| - 1], edges) + [Weighted(nodes[|nodes| - 1], edges)]
  }

  /** Every node with its weights normalised within the picture. */
  ghost predicate Drawn(drawn: seq<GraphNode>, nodes: seq<GraphNode>, edges: seq<GraphEdge>) {
    && |drawn| == |nodes|
    && forall i | 0 <= i < |nodes| ::
         drawn[i] == nodes[i].(weights := Normal(AllWeighted(nodes, edges)[i], AllWeighted(nodes, edges)))
  }

  /** The degree of a node, zero without a line. */
  function DegreeIn(degrees: map<Text, nat>, id: Text): nat {
    if id in degrees then degrees[id] else 0
  }

  method CountDegrees(edges: seq<GraphEdge>) returns (degrees: map<Text, nat>)
    ensures forall id :: DegreeIn(degrees, id) == Degree(edges, id)
  {
    degrees := map[];
    for i := 0 to |edges|
      invariant forall id :: DegreeIn(degrees, id) == Degree(edges[..i], id)
    {
      assert edges[..i + 1][..i] == edges[..i];
      var source, target := edges[i].source, edges[i].target;
      degrees := degrees[source := DegreeIn(degrees, source) + 1];
      degrees := degrees[target := DegreeIn(degrees, target) + 1];
    }
    assert edges[..|edges|] == edges;
  }

  class Assembly {
    const limit: int
    var nodes: Dict<Text, GraphNode>
    var edges: Dict<EdgeKey, GraphEdge>
    var cutReads: set<Text>

    ghost predicate Valid()
      reads this
    {
      && Tidy(nodes) && KeptUnder(nodes, NodeKey)
      && Tidy(edges) && KeptUnder(edges, KeyOfEdge)
    }

    constructor (limit: int)
      ensures Valid() && this.limit == limit && nodes == Empty() && edges == Empty() && cutReads == {}
    {
      this.limit := limit;
      nodes, edges, cutReads := Empty(), Empty(), {};
    }

    /** Under its id: the new reading, or the standing one with its gaps filled from it. */
    method Node(node: GraphNode)
      requires Valid()
      modifies this`nodes
      ensures Valid() && nodes == Lay(old(nodes), node, NodeKey, FilledIn)
    {
      PutIsTidy(nodes, node.id, node);
      if node.id !in nodes.items {
        nodes := Put(nodes, node.id, node);
      } else {
        nodes := Put(nodes, node.id, FilledIn(nodes.items[node.id], node));
      }
    }

    /** Under its ends: the new line, unless one at least as heavy stands there. */
    method Edge(edge: GraphEdge)
      requires Valid()
      modifies this`edges
      ensures Valid() && edges == Lay(old(edges), edge, KeyOfEdge, Heavier)
    {
      var key := KeyOfEdge(edge);
      PutSame(edges, key);
      PutIsTidy(edges, key, edge);
      if key in edges.items && edges.items[key].weight >= edge.weight {
        return;
      }
      edges := Put(edges, key, edge);
    }

    /** Note that a read came back full. */
    method Cut(what: Text, rows: nat, asked: int)
      modifies this`cutReads
      ensures cutReads == old(cutReads) + if asked > 0 && rows >= asked then {what} else {}
    {
      if asked > 0 && rows >= asked {
        cutReads := cutReads + {what};
      }
    }

    /** `_notice`. */
    function Sentence(): Notice
      reads this
    {
      if cutReads == {} then Silent else CutTo(limit, Sorted(cutReads))
    }

    /** Proper: only lines between known nodes remain, and all weights are scaled. */
    method Finish() returns (g: Subgraph)
      requires Valid()
      ensures g.edges == Inside(Values(edges), nodes.items)
      ensures Drawn(g.nodes, Values(nodes), g.edges)
      ensures g.truncated == (cutReads != {}) && g.notice == Sentence()
      ensures g.notice == Silent <==> cutReads == {}
      ensures g.notice.CutTo? ==> g.notice.limit == limit && Increasing(g.notice.what)
                                  && forall read :: read in g.notice.what <==> read in cutReads
      ensures Proper(g)
    {
      var inside := Inside(Values(edges), nodes.items);
      var degrees := CountDegrees(inside);
      var listed := Values(nodes);
      ghost var weighted := AllWeighted(listed, inside);
      var scaled := Normalise(listed, degrees, inside);
      g := Subgraph(scaled, inside, cutReads != {}, Sentence());
      FinishIsProper(nodes, edges, scaled);
    }
  }

  /** The weighted comprehension. */
  method Weigh(nodes: seq<GraphNode>, degrees: map<Text, nat>, ghost edges: seq<GraphEdge>)
    returns (weighted: seq<map<Text, real>>)
    requires forall id :: DegreeIn(degrees, id) == Degree(edges, id)
    ensures weighted == AllWeighted(nodes, edges)
  {
    weighted := [];
    for i := 0 to |nodes|
      invariant |weighted| == i && forall j | 0 <= j < i :: weighted[j] == Weighted(nodes[j], edges)
    {
      weighted := weighted + [nodes[i].weights[DEGREE := DegreeIn(degrees, nodes[i].id) as real]];
    }
  }

  function Rescaled(weights: map<Text, real>, ceilings: map<Text, real>): map<Text, real> {
    map name | name in weights && name in ceilings :: Fraction(weights[name], ceilings[name])
  }

  lemma ScaledByCeilings(ceilings: map<Text, real>, all: seq<map<Text, real>>, i: nat)
    requires Ceilings(ceilings, all) && i < |all|
    ensures Rescaled(all[i], ceilings) == Normal(all[i], all)
  {}

  /** `_normalised` and the copy of every node. */
  method Normalise(nodes: seq<GraphNode>, degrees: map<Text, nat>, ghost edges: seq<GraphEdge>)
    returns (drawn: seq<GraphNode>)
    requires forall id :: DegreeIn(degrees, id) == Degree(edges, id)
    ensures Drawn(drawn, nodes, edges)
  {
    var weighted := Weigh(nodes, degrees, edges);
    var ceilings := FindCeilings(weighted);
    drawn := [];
    for i := 0 to |nodes|
      invariant |drawn| == i
      invariant forall j | 0 <= j < i :: drawn[j] == nodes[j].(weights := Normal(weighted[j], weighted))
    {
      ScaledByCeilings(ceilings, weighted, i);
      drawn := drawn + [nodes[i].(weights := Rescaled(weighted[i], ceilings))];
    }
  }

  lemma FinishIsProper(nodes: Dict<Text, GraphNode>, edges: Dict<EdgeKey, GraphEdge>, drawn: seq<GraphNode>)
    requires Tidy(nodes) && KeptUnder(nodes, NodeKey) && Tidy(edges) && KeptUnder(edges, KeyOfEdge)
    requires Drawn(drawn, Values(nodes), Inside(Values(edges), nodes.items))
    ensures Proper(Subgraph(drawn, Inside(Values(edges), nodes.items), false, Silent))
  {
    var inside := Inside(Values(edges), nodes.items);
    RecordsOfValues(nodes, NodeKey);
    RecordsOfValues(edges, KeyOfEdge);
    InsideIsInside(Values(edges), nodes.items);
    forall i, j | 0 <= i < j < |drawn| ensures NodeKey(drawn[i]) != NodeKey(drawn[j]) {
      assert NodeKey(Values(nodes)[i]) != NodeKey(Values(nodes)[j]);
    }
    forall i | 0 <= i < |inside| ensures HasNode(drawn, inside[i].source) && HasNode(drawn, inside[i].target) {
      assert inside[i] in inside;
      ListedNode(nodes, drawn, inside[i].source);
      ListedNode(nodes, drawn, inside[i].target);
    }
  }

  lemma ListedNode(nodes: Dict<Text, GraphNode>, drawn: seq<GraphNode>, id: Text)
    requires Tidy(nodes) && KeptUnder(nodes, NodeKey) && id in nodes.items
    requires |drawn| == |Values(nodes)| && forall i | 0 <= i < |drawn| :: drawn[i].id == Values(nodes)[i].id
    ensures HasNode(drawn, id)
  {
    assert id in nodes.order;
    assert forall i | 0 <= i < |nodes.order| :: nodes.order[i] in nodes.order;
    var i :| 0 <= i < |nodes.order| && nodes.order[i] == id;
    assert NodeKey(nodes.items[id]) == id;
    assert drawn[i].id == id;
  }

  /** The weights of a finished picture are fractions exactly when no name mixes signs. */
  lemma DrawnIsScaled(g: Subgraph, nodes: seq<GraphNode>)
    requires Drawn(g.nodes, nodes, g.edges)
    ensures Scaled(g) <==> SameSide(AllWeighted(nodes, g.edges))
  {
    NormalInUnit(AllWeighted(nodes, g.edges));
    assert forall i | 0 <= i < |nodes| ::
        g.nodes[i].weights == Normal(AllWeighted(nodes, g.edges)[i], AllWeighted(nodes, g.edges));
  }

  ghost predicate NonNegative(node: GraphNode) {
    forall name | name in node.weights :: node.weights[name] >= 0.0
  }

  ghost predicate AllNonNegative(nodes: Dict<Text, GraphNode>) {
    forall id | id in nodes.items :: NonNegative(nodes.items[id])
  }

  lemma NonNegativeSameSide(nodes: seq<GraphNode>, edges: seq<GraphEdge>)
    requires forall i | 0 <= i < |nodes| :: NonNegative(nodes[i])
    ensures SameSide(AllWeighted(nodes, edges))
  {
    var all := AllWeighted(nodes, edges);
    forall i, name | 0 <= i < |all| && name in all[i] ensures all[i][name] >= 0.0 {
      assert NonNegative(nodes[i]);
    }
  }

  lemma ValuesNonNegative(nodes: Dict<Text, GraphNode>)
    requires Tidy(nodes) && AllNonNegative(nodes)
    ensures forall i | 0 <= i < |Values(nodes)| :: NonNegative(Values(nodes)[i])
  {
    assert forall i | 0 <= i < |nodes.order| :: nodes.order[i] in nodes.order;
  }

  /** In particular after any readings of which none carried a negative weight. */
  lemma NonNegativeIsScaled(readings: seq<GraphNode>, nodes: Dict<Text, GraphNode>, g: Subgraph)
    requires forall i | 0 <= i < |readings| :: NonNegative(readings[i])
    requires nodes == LayAll(Empty(), readings, NodeKey, FilledIn) && Drawn(g.nodes, Values(nodes), g.edges)
    ensures Scaled(g)
  {
    ReadingsNonNegative(readings);
    ReadingsTidy(readings);
    ValuesNonNegative(nodes);
    ScaledWhenNonNegative(Values(nodes), g);
  }

  lemma ScaledWhenNonNegative(values: seq<GraphNode>, g: Subgraph)
    requires forall i | 0 <= i < |values| :: NonNegative(values[i])
    requires Drawn(g.nodes, values, g.edges)
    ensures Scaled(g)
  {
    NonNegativeSameSide(values, g.edges);
    DrawnIsScaled(g, values);
  }

  lemma {:induction false} ReadingsNonNegative(readings: seq<GraphNode>)
    requires forall i | 0 <= i < |readings| :: NonNegative(readings[i])
    ensures AllNonNegative(LayAll(Empty(), readings, NodeKey, FilledIn))
  {
    if readings != [] {
      ReadingsNonNegative(readings[..|readings| - 1]);
    }
  }

  lemma {:induction false} ReadingsTidy(readings: seq<GraphNode>)
    ensures Tidy(LayAll(Empty(), readings, NodeKey, FilledIn))
  {
    if readings != [] {
      var n := |readings| - 1;
      ReadingsTidy(readings[..n]);
      var d := LayAll(Empty(), readings[..n], NodeKey, FilledIn);
      var k := readings[n].id;
      PutIsTidy(d, k, if k in d.items then FilledIn(d.items[k], readings[n]) else readings[n]);
    }
  }

  ghost function NodeIds(nodes: seq<GraphNode>): set<Text> {
    set node | node in nodes :: node.id
  }

  /** Before they are normalised, the degrees of a finished picture sum to twice its lines. */
  lemma FinishedDegreesSum(g: Subgraph, degree: Text -> real)
    requires Proper(g) && forall id :: degree(id) == Degree(g.edges, id) as real
    ensures Sum(NodeIds(g.nodes), degree) == 2.0 * |g.edges| as real
  {
    forall i | 0 <= i < |g.edges|
      ensures g.edges[i].source in NodeIds(g.nodes) && g.edges[i].target in NodeIds(g.nodes)
    {
      var s :| 0 <= s < |g.nodes| && g.nodes[s].id == g.edges[i].source;
      var t :| 0 <= t < |g.nodes| && g.nodes[t].id == g.edges[i].target;
      assert g.nodes[s] in g.nodes && g.nodes[t] in g.nodes;
    }
    DegreesSum(g.edges, NodeIds(g.nodes), degree);
  }
}
