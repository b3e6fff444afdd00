/**
 * What a reader sees in a merged or an assembled picture (`queries/model.py`,
 * `queries/graphs.py`), field by field.
 */
module Pictures {
  import opened Order
  import opened Overlays
  import opened Subgraphs

  // ----- A merge, record by record

  lemma FromValuesHolds<K(!new), V(!new)>(a: seq<V>, key: V -> K, i: nat)
    requires DistinctKeys(a, key) && i < |a|
    ensures key(a[i]) in FromValues(a, key).items && FromValues(a, key).items[key(a[i])] == a[i]
  {
    FromValuesKeeps(a, key);
    FromValuesTidy(a, key);
    var d := FromValues(a, key);
    assert d.order[i] in d.order;
  }

  lemma NotHeld<K(!new), V(!new)>(a: seq<V>, key: V -> K, k: K)
    requires DistinctKeys(a, key) && forall i | 0 <= i < |a| :: key(a[i]) != k
    ensures k !in FromValues(a, key).items
  {
    if k in FromValues(a, key).items {
      HoldsRecord(a, key, k);
    }
  }

  lemma LaidUnder<K(!new), V(!new)>(a: seq<V>, b: seq<V>, key: V -> K, fold: (V, V) -> V, k: K) returns (at: nat)
    requires DistinctKeys(a, key) && DistinctKeys(b, key) && KeepsKey(key, fold)
    requires k in FromValues(a, key).items || k in FromValues(b, key).items
    ensures at < |Laid(a, b, key, fold)|
    ensures Laid(a, b, key, fold)[at] == Union(FromValues(a, key).items, FromValues(b, key).items, fold)[k]
  {
    LaidIsMerged(a, b, key, fold);
    var d := Merged(FromValues(a, key), FromValues(b, key), fold);
    HoldsRecord(Laid(a, b, key, fold), key, k);
    at :| 0 <= at < |Laid(a, b, key, fold)| && Laid(a, b, key, fold)[at] == d.items[k];
  }

  /** A record of both lists appears folded, a record of one of them as it is. */
  lemma LaidBoth<K(!new), V(!new)>(a: seq<V>, b: seq<V>, key: V -> K, fold: (V, V) -> V, i: nat, j: nat)
    requires DistinctKeys(a, key) && DistinctKeys(b, key) && KeepsKey(key, fold)
    requires i < |a| && j < |b| && key(a[i]) == key(b[j])
    ensures fold(a[i], b[j]) in Laid(a, b, key, fold)
  {
    FromValuesHolds(a, key, i);
    FromValuesHolds(b, key, j);
    var at := LaidUnder(a, b, key, fold, key(a[i]));
  }

  lemma LaidFirst<K(!new), V(!new)>(a: seq<V>, b: seq<V>, key: V -> K, fold: (V, V) -> V, i: nat)
    requires DistinctKeys(a, key) && DistinctKeys(b, key) && KeepsKey(key, fold)
    requires i < |a| && forall j | 0 <= j < |b| :: key(b[j]) != key(a[i])
    ensures a[i] in Laid(a, b, key, fold)
  {
    FromValuesHolds(a, key, i);
    NotHeld(b, key, key(a[i]));
    var at := LaidUnder(a, b, key, fold, key(a[i]));
  }

  lemma LaidSecond<K(!new), V(!new)>(a: seq<V>, b: seq<V>, key: V -> K, fold: (V, V) -> V, j: nat)
    requires DistinctKeys(a, key) && DistinctKeys(b, key) && KeepsKey(key, fold)
    requires j < |b| && forall i | 0 <= i < |a| :: key(a[i]) != key(b[j])
    ensures b[j] in Laid(a, b, key, fold)
  {
    FromValuesHolds(b, key, j);
    NotHeld(a, key, key(b[j]));
    var at := LaidUnder(a, b, key, fold, key(b[j]));
  }

  /** What two readings of one node make: identity, name and properties of the first, gaps filled from the second. */
  ghost predicate IsFilled(node: GraphNode, first: GraphNode, second: GraphNode) {
    && node.id == first.id && node.kind == first.kind
    && (first.name != EMPTY ==> node.name == first.name) && (first.name == EMPTY ==> node.name == second.name)
    && node.props.Keys == first.props.Keys + second.props.Keys
    && (forall p | p in first.props :: node.props[p] == first.props[p])
    && (forall p | p in second.props && p !in first.props :: node.props[p] == second.props[p])
  }

  /** Of a weight both know the larger, otherwise the one there is. */
  ghost predicate WeighsMost(node: GraphNode, first: GraphNode, second: GraphNode) {
    && node.weights.Keys == first.weights.Keys + second.weights.Keys
    && forall w | w in node.weights ::
      && (w in first.weights ==> first.weights[w] <= node.weights[w])
      && (w in second.weights ==> second.weights[w] <= node.weights[w])
      && ((w in first.weights && node.weights[w] == first.weights[w])
          || (w in second.weights && node.weights[w] == second.weights[w]))
  }

  /** Of a weight both know the first. */
  ghost predicate WeighsFirst(node: GraphNode, first: GraphNode, second: GraphNode) {
    && node.weights.Keys == first.weights.Keys + second.weights.Keys
    && (forall w | w in first.weights :: node.weights[w] == first.weights[w])
    && (forall w | w in second.weights && w !in first.weights :: node.weights[w] == second.weights[w])
  }

  lemma FoldedReads(first: GraphNode, second: GraphNode)
    ensures IsFilled(Folded(first, second), first, second) && WeighsMost(Folded(first, second), first, second)
  {}

  lemma FilledInReads(first: GraphNode, second: GraphNode)
    requires first.id == second.id
    ensures IsFilled(FilledIn(first, second), first, second) && WeighsFirst(FilledIn(first, second), first, second)
  {}

  /** A node of both pictures: the first one's, with the gaps filled and the larger weights. */
  lemma MergedNode(one: Subgraph, other: Subgraph, i: nat, j: nat)
    requires Proper(one) && Proper(other)
    requires i < |one.nodes| && j < |other.nodes| && one.nodes[i].id == other.nodes[j].id
    ensures exists node :: node in Merge(one, other).nodes && IsFilled(node, one.nodes[i], other.nodes[j])
                           && WeighsMost(node, one.nodes[i], other.nodes[j])
  {
    FoldsAreFair();
    LaidBoth(one.nodes, other.nodes, NodeKey, Folded, i, j);
    FoldedReads(one.nodes[i], other.nodes[j]);
  }

  /** A node of one picture only stays what it is. */
  lemma MergedAlone(one: Subgraph, other: Subgraph, node: GraphNode)
    requires Proper(one) && Proper(other)
    requires || (node in one.nodes && !HasNode(other.nodes, node.id))
             || (node in other.nodes && !HasNode(one.nodes, node.id))
    ensures node in Merge(one, other).nodes
  {
    FoldsAreFair();
    if node in one.nodes && !HasNode(other.nodes, node.id) {
      var i :| 0 <= i < |one.nodes| && one.nodes[i] == node;
      LaidFirst(one.nodes, other.nodes, NodeKey, Folded, i);
    } else {
      var j :| 0 <= j < |other.nodes| && other.nodes[j] == node;
      LaidSecond(one.nodes, other.nodes, NodeKey, Folded, j);
    }
  }

  /** A line of both pictures: the second one's where it is heavier, else the first one's. */
  lemma MergedLine(one: Subgraph, other: Subgraph, i: nat, j: nat)
    requires Proper(one) && Proper(other) && i < |one.edges| && j < |other.edges|
    requires one.edges[i].source == other.edges[j].source && one.edges[i].target == other.edges[j].target
    requires one.edges[i].kind == other.edges[j].kind
    ensures if other.edges[j].weight > one.edges[i].weight then other.edges[j] in Merge(one, other).edges
            else one.edges[i] in Merge(one, other).edges
  {
    FoldsAreFair();
    LaidBoth(one.edges, other.edges, KeyOfEdge, Heavier, i, j);
  }

  /** A merge is cut when a half is, and says what the first half that was cut says. */
  lemma MergedNotice(one: Subgraph, other: Subgraph)
    ensures Merge(one, other).truncated <==> one.truncated || other.truncated
    ensures one.notice != Silent ==> Merge(one, other).notice == one.notice
    ensures one.notice == Silent ==> Merge(one, other).notice == other.notice
  {}

  // ----- A picture assembled

  /** A second reading of a node under its id: everything the first one knew stays. */
  lemma SecondReading(nodes: Dict<Text, GraphNode>, node: GraphNode)
    requires node.id in nodes.items && nodes.items[node.id].id == node.id
    ensures var after := Lay(nodes, node, NodeKey, FilledIn);
            && after.order == nodes.order && node.id in after.items
            && IsFilled(after.items[node.id], nodes.items[node.id], node)
            && WeighsFirst(after.items[node.id], nodes.items[node.id], node)
            && forall id | id != node.id ::
                 id in nodes.items ==> id in after.items && after.items[id] == nodes.items[id]
  {
    FilledInReads(nodes.items[node.id], node);
  }

  /** The first reading of a node goes to the end as it is. */
  lemma FirstReading(nodes: Dict<Text, GraphNode>, node: GraphNode)
    requires node.id !in nodes.items
    ensures var after := Lay(nodes, node, NodeKey, FilledIn);
            after.order == nodes.order + [node.id] && after.items == nodes.items[node.id := node]
  {}

  /** The largest value under a name among some nodes, zero when none is positive. */
  ghost predicate IsLargest(c: real, name: Text, all: seq<map<Text, real>>) {
    && c >= 0.0 && (forall i | 0 <= i < |all| && name in all[i] :: all[i][name] <= c)
    && (c > 0.0 ==> exists i :: 0 <= i < |all| && name in all[i] && all[i][name] == c)
  }

  lemma {:induction false} CeilingIsLargest(all: seq<map<Text, real>>, name: Text)
    ensures IsLargest(Ceiling(all, name), name, all)
  {
    if all != [] {
      var n := |all| - 1;
      CeilingIsLargest(all[..n], name);
      assert forall i | 0 <= i < n :: all[..n][i] == all[i];
      if Ceiling(all, name) > 0.0 && (name !in all[n] || all[n][name] != Ceiling(all, name)) {
        assert Ceiling(all[..n], name) == Ceiling(all, name);
        var i :| 0 <= i < n && name in all[..n][i] && all[..n][i][name] == Ceiling(all, name);
        assert all[i] == all[..n][i];
      }
    }
  }

  /** The part of the largest that the value is; no part when nothing is positive. */
  ghost predicate IsPartOf(part: real, value: real, largest: real) {
    if largest > 0.0 then part * largest == value else part == 0.0
  }

  lemma FractionOf(value: real, ceiling: real)
    requires ceiling >= 0.0
    ensures IsPartOf(Fraction(value, ceiling), value, ceiling)
  {}

  /** Every node is drawn as it is, with its weights rescaled. */
  lemma DrawnAsIs(drawn: seq<GraphNode>, nodes: seq<GraphNode>, edges: seq<GraphEdge>, i: nat)
    requires Drawn(drawn, nodes, edges) && i < |nodes|
    ensures i < |drawn| && drawn[i].id == nodes[i].id && drawn[i].kind == nodes[i].kind
    ensures drawn[i].name == nodes[i].name && drawn[i].props == nodes[i].props
  {}

  /** Its own weights, and how many line ends it has. */
  lemma WeightedAt(node: GraphNode, edges: seq<GraphEdge>, name: Text)
    ensures name in Weighted(node, edges) <==> name == DEGREE || name in node.weights
    ensures Weighted(node, edges)[DEGREE] == Degree(edges, node.id) as real
    ensures name != DEGREE && name in node.weights ==> Weighted(node, edges)[name] == node.weights[name]
  {}

  /** A drawn weight is the fraction of the largest weight of its name in the picture, zero when none is positive. */
  lemma DrawnFraction(drawn: seq<GraphNode>, nodes: seq<GraphNode>, edges: seq<GraphEdge>, i: nat, name: Text, c: real)
    requires Drawn(drawn, nodes, edges) && i < |nodes| && IsLargest(c, name, AllWeighted(nodes, edges))
    ensures i < |drawn| && drawn[i].weights.Keys == Weighted(nodes[i], edges).Keys
    ensures name in drawn[i].weights ==>
              IsPartOf(drawn[i].weights[name], Weighted(nodes[i], edges)[name], c)
  {
    var all := AllWeighted(nodes, edges);
    NormalAt(all[i], all, name, c);
  }

  lemma NormalAt(weights: map<Text, real>, all: seq<map<Text, real>>, name: Text, c: real)
    requires IsLargest(c, name, all)
    ensures Normal(weights, all).Keys == weights.Keys
    ensures name in weights ==>
              IsPartOf(Normal(weights, all)[name], weights[name], c)
  {
    CeilingIsLargest(all, name);
    OneLargest(c, Ceiling(all, name), name, all);
    if name in weights {
      FractionOf(weights[name], c);
    }
  }

  lemma OneLargest(c: real, d: real, name: Text, all: seq<map<Text, real>>)
    requires IsLargest(c, name, all) && IsLargest(d, name, all)
    ensures c == d
  {}
}
