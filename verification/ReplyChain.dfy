/**
 * Who answered whom, cut to a number of hops from the seed (`queries/graphs.py`).
 */
module ReplyChain {
  import opened Order
  import opened Facts
  import opened Closure
  import opened Overlays
  import opened Subgraphs

  // ----- Distance, said with walks

  function LinkSet(edges: seq<Link>): set<Link> {
    set edge | edge in edges
  }

  /** Reached by a walk of at most this many hops, arrows ignored. */
  ghost predicate Near(links: set<Link>, seed: Text, id: Text, hops: nat) {
    exists p :: Walk(links, p) && p[0] == seed && p[|p| - 1] == id && |p| <= hops + 1
  }

  lemma NearSelf(links: set<Link>, seed: Text, id: Text)
    ensures Near(links, seed, id, 0) <==> id == seed
  {
    assert Walk(links, [seed]);
  }

  lemma NearLonger(links: set<Link>, seed: Text, id: Text, hops: nat, more: nat)
    requires Near(links, seed, id, hops) && hops <= more
    ensures Near(links, seed, id, more)
  {}

  /** One hop further is one hop from somebody near. */
  lemma NearHop(links: set<Link>, seed: Text, id: Text, next: Text, hops: nat)
    requires Near(links, seed, id, hops) && Adjacent(links, id, next)
    ensures Near(links, seed, next, hops + 1)
  {
    var p :| Walk(links, p) && p[0] == seed && p[|p| - 1] == id && |p| <= hops + 1;
    var q := p + [next];
    forall i | 0 < i < |q| ensures Hop(links, q, i) {
      if i < |p| {
        assert Hop(links, p, i);
      }
    }
    assert Walk(links, q);
  }

  lemma NearBefore(links: set<Link>, seed: Text, id: Text, hops: nat) returns (before: Text)
    requires Near(links, seed, id, hops + 1) && !Near(links, seed, id, hops)
    ensures Near(links, seed, before, hops) && Adjacent(links, before, id)
    ensures hops > 0 ==> !Near(links, seed, before, hops - 1)
  {
    var p :| Walk(links, p) && p[0] == seed && p[|p| - 1] == id && |p| <= hops + 2;
    var n := |p| - 1;
    assert n > 0;
    before := p[n - 1];
    WalkShorter(links, p);
    assert Hop(links, p, n);
    assert p[..n][|p[..n]| - 1] == before;
    if hops > 0 && Near(links, seed, before, hops - 1) {
      NearHop(links, seed, before, id, hops - 1);
    }
  }

  // ----- `_within`

  ghost predicate Neighbours(adjacency: map<Text, set<Text>>, links: set<Link>) {
    forall a, b {:trigger Adjacent(links, a, b)} :: Adjacent(links, a, b) <==> a in adjacency && b in adjacency[a]
  }

  function AddNeighbour(adjacency: map<Text, set<Text>>, one: Text, other: Text): map<Text, set<Text>> {
    adjacency[one := (if one in adjacency then adjacency[one] else {}) + {other}]
  }

  method BuildAdjacency(edges: seq<Link>) returns (adjacency: map<Text, set<Text>>)
    ensures Neighbours(adjacency, LinkSet(edges))
  {
    adjacency := map[];
    for i := 0 to |edges|
      invariant Neighbours(adjacency, LinkSet(edges[..i]))
    {
      var edge := edges[i];
      assert edges[..i + 1] == edges[..i] + [edge];
      assert LinkSet(edges[..i + 1]) == LinkSet(edges[..i]) + {edge};
      NeighboursGrow(adjacency, LinkSet(edges[..i]), edge);
      adjacency := AddNeighbour(adjacency, edge.0, edge.1);
      adjacency := AddNeighbour(adjacency, edge.1, edge.0);
    }
    assert edges[..|edges|] == edges;
  }

  lemma NeighboursGrow(adjacency: map<Text, set<Text>>, links: set<Link>, edge: Link)
    requires Neighbours(adjacency, links)
    ensures Neighbours(AddNeighbour(AddNeighbour(adjacency, edge.0, edge.1), edge.1, edge.0), links + {edge})
  {
    var after := AddNeighbour(AddNeighbour(adjacency, edge.0, edge.1), edge.1, edge.0);
    forall a, b ensures Adjacent(links + {edge}, a, b) <==> a in after && b in after[a] {
      assert Adjacent(links, a, b) <==> a in adjacency && b in adjacency[a];
    }
  }

  /** After some rounds: everybody near, and in the frontier those no nearer. */
  ghost predicate Rounds(seen: set<Text>, frontier: set<Text>, links: set<Link>, seed: Text, hops: nat) {
    && (forall id {:trigger id in seen} :: id in seen <==> Near(links, seed, id, hops))
    && (forall id {:trigger id in frontier} ::
          id in frontier <==> id in seen && (hops > 0 ==> !Near(links, seed, id, hops - 1)))
  }

  function Further(adjacency: map<Text, set<Text>>, frontier: set<Text>, seen: set<Text>): set<Text> {
    set node, one | node in frontier && node in adjacency && one in adjacency[node] && one !in seen :: one
  }

  lemma RoundGrows(adjacency: map<Text, set<Text>>, seen: set<Text>, frontier: set<Text>, links: set<Link>,
        seed: Text, hops: nat)
    requires Neighbours(adjacency, links) && Rounds(seen, frontier, links, seed, hops)
    ensures Rounds(seen + Further(adjacency, frontier, seen), Further(adjacency, frontier, seen), links, seed, hops + 1)
  {
    var further := Further(adjacency, frontier, seen);
    forall id ensures id in further <==> Near(links, seed, id, hops + 1) && !Near(links, seed, id, hops) {
      if id in further {
        var node :| node in frontier && node in adjacency && id in adjacency[node] && id !in seen;
        assert Adjacent(links, node, id);
        NearHop(links, seed, node, id, hops);
      }
      if Near(links, seed, id, hops + 1) && !Near(links, seed, id, hops) {
        var node := NearBefore(links, seed, id, hops);
        assert node in seen && node in frontier;
        assert node in adjacency && id in adjacency[node];
        assert id !in seen;
      }
    }
    forall id | id in seen ensures Near(links, seed, id, hops + 1) {
      NearLonger(links, seed, id, hops, hops + 1);
    }
  }

  /** `range(depth)`. */
  function Times(depth: int): nat {
    if depth > 0 then depth else 0
  }

  ghost predicate IsNear(near: set<Text>, edges: seq<Link>, seed: Text, depth: int) {
    forall id: Text {:trigger id in near} ::
      id in near <==> if depth > 0 then Near(LinkSet(edges), seed, id, depth) else id == seed
  }

  /** Ring after ring up to `depth`: exactly the ids some short enough walk reaches. */
  method Within(seed: Text, edges: seq<Link>, depth: int) returns (near: set<Text>)
    ensures IsNear(near, edges, seed, depth)
  {
    var adjacency := BuildAdjacency(edges);
    near := {seed};
    var frontier := {seed};
    ghost var links := LinkSet(edges);
    forall id ensures id in near <==> Near(links, seed, id, 0) {
      NearSelf(links, seed, id);
    }
    for i := 0 to Times(depth)
      invariant Rounds(near, frontier, links, seed, i)
    {
      RoundGrows(adjacency, near, frontier, links, seed, i);
      var further := Further(adjacency, frontier, near);
      near := near + further;
      frontier := further;
    }
    forall id {:trigger id in near} ensures Near(links, seed, id, 0) <==> id == seed {
      NearSelf(links, seed, id);
    }
  }

  // ----- `_reply_chain`

  /** One row: a whole path, its messages and the replies on it. */
  datatype Path = Path(ids: seq<Text>, subjects: seq<Text>, importances: seq<Option<real>>, sources: seq<Text>,
        targets: seq<Text>)

  const MESSAGE: Text := 100

  const REPLIES_TO: Text := 101

  const IMPORTANCE: Text := 102

  /** Both columns side by side, as far as the shorter one goes. */
  function Zip(sources: seq<Text>, targets: seq<Text>): (r: seq<Link>)
    ensures |r| == if |sources| <= |targets| then |sources| else |targets|
    ensures forall i | 0 <= i < |r| :: r[i] == (sources[i], targets[i])
  {
    if sources == [] || targets == [] then []
    else [(sources[0], targets[0])] + Zip(sources[1..], targets[1..])
  }

  function EdgesOf(rows: seq<Path>): seq<Link> {
    if rows == [] then []
    else EdgesOf(rows[..|rows| - 1]) + Zip(rows[|rows| - 1].sources, rows[|rows| - 1].targets)
  }

  datatype Known = Known(subject: Text, importance: Option<real>)

  /** `known.setdefault(one, …)` along one path: the first reading of a message stays. */
  function KnownFrom(known: map<Text, Known>, row: Path, upTo: nat): map<Text, Known>
    requires upTo <= |row.ids|
  {
    if upTo == 0 then known
    else
      var before := KnownFrom(known, row, upTo - 1);
      var i := upTo - 1;
      if row.ids[i] in before then before
      else before[row.ids[i] := Known(if i < |row.subjects| then row.subjects[i] else EMPTY,
                                      if i < |row.importances| then row.importances[i] else None)]
  }

  function KnownOf(rows: seq<Path>): map<Text, Known> {
    if rows == [] then map[]
    else KnownFrom(KnownOf(rows[..|rows| - 1]), rows[|rows| - 1], |rows[|rows| - 1].ids|)
  }

  /** `_message_node`: what is known of a message, or just its id. */
  function MessageNode(id: Text, known: map<Text, Known>): GraphNode {
    if id in known then
      GraphNode(id, MESSAGE, known[id].subject,
                if known[id].importance.Some? then map[IMPORTANCE := known[id].importance.value] else map[], map[])
    else GraphNode(id, MESSAGE, EMPTY, map[], map[])
  }

  function MessageNodes(ids: seq<Text>, known: map<Text, Known>): (r: seq<GraphNode>)
    ensures |r| == |ids| && forall i | 0 <= i < |ids| :: r[i] == MessageNode(ids[i], known)
  {
    if ids == [] then [] else MessageNodes(ids[..|ids| - 1], known) + [MessageNode(ids[|ids| - 1], known)]
  }

  function Line(edge: Link): GraphEdge {
    GraphEdge(edge.0, edge.1, REPLIES_TO, 0.0, EMPTY)
  }

  /** The lines of the edges between two near ids. */
  function Lines(edges: seq<Link>, near: set<Text>): seq<GraphEdge> {
    if edges == [] then []
    else
      var last := edges[|edges| - 1];
      Lines(edges[..|edges| - 1], near) + if last.0 in near && last.1 in near then [Line(last)] else []
  }

  lemma {:induction false} LinesAreTheNearEdges(edges: seq<Link>, near: set<Text>, line: GraphEdge)
    ensures line in Lines(edges, near)
       <==> exists i :: 0 <= i < |edges| && edges[i].0 in near && edges[i].1 in near && line == Line(edges[i])
  {
    if edges != [] {
      var n := |edges| - 1;
      LinesAreTheNearEdges(edges[..n], near, line);
      var last := if edges[n].0 in near && edges[n].1 in near then [Line(edges[n])] else [];
      assert line in Lines(edges, near) <==> line in Lines(edges[..n], near) || line in last;
      if i :| 0 <= i < |edges| && edges[i].0 in near && edges[i].1 in near && line == Line(edges[i]) {
        assert i < n ==> edges[..n][i] == edges[i];
      }
    }
  }

  lemma {:induction false} LaidKeys(d: Dict<EdgeKey, GraphEdge>, lines: seq<GraphEdge>, key: EdgeKey)
    ensures key in LayAll(d, lines, KeyOfEdge, Heavier).items
       <==> key in d.items || exists i :: 0 <= i < |lines| && KeyOfEdge(lines[i]) == key
  {
    if lines != [] {
      var n := |lines| - 1;
      LaidKeys(d, lines[..n], key);
      assert forall i | 0 <= i < n :: lines[..n][i] == lines[i];
    }
  }

  /** A chain adds to the picture exactly the given replies between two near messages. */
  lemma ChainDrawsTheNearReplies(d: Dict<EdgeKey, GraphEdge>, edges: seq<Link>, near: set<Text>, source: Text,
        target: Text)
    ensures (source, target, REPLIES_TO) in LayAll(d, Lines(edges, near), KeyOfEdge, Heavier).items
       <==> (source, target, REPLIES_TO) in d.items || ((source, target) in edges && source in near && target in near)
  {
    var key, lines := (source, target, REPLIES_TO), Lines(edges, near);
    LaidKeys(d, lines, key);
    LinesAreTheNearEdges(edges, near, Line((source, target)));
    if i :| 0 <= i < |lines| && KeyOfEdge(lines[i]) == key {
      LinesAreTheNearEdges(edges, near, lines[i]);
      assert lines[i] in lines;
    }
    if (source, target) in edges && source in near && target in near {
      var k :| 0 <= k < |edges| && edges[k] == (source, target);
      assert Line((source, target)) in lines;
    }
  }

  /** The two loops over the rows. */
  method ReadRows(rows: seq<Path>) returns (known: map<Text, Known>, edges: seq<Link>)
    ensures known == KnownOf(rows) && edges == EdgesOf(rows)
  {
    known, edges := map[], [];
    for i := 0 to |rows|
      invariant known == KnownOf(rows[..i]) && edges == EdgesOf(rows[..i])
    {
      var row := rows[i];
      assert rows[..i + 1][..i] == rows[..i];
      for index := 0 to |row.ids|
        invariant known == KnownFrom(KnownOf(rows[..i]), row, index)
      {
        if row.ids[index] !in known {
          known := known[row.ids[index] := Known(if index < |row.subjects| then row.subjects[index] else EMPTY,
                                                 if index < |row.importances| then row.importances[index] else None)];
        }
      }
      edges := edges + Zip(row.sources, row.targets);
    }
    assert rows[..|rows|] == rows;
  }

  /** The near messages, each with the first reading of it. */
  ghost function WithMessages(nodes: Dict<Text, GraphNode>, near: set<Text>, known: map<Text, Known>): Dict<Text,
        GraphNode> {
    LayAll(nodes, MessageNodes(Sorted(near), known), NodeKey, FilledIn)
  }

  /** The replies between them. */
  ghost function WithReplies(lines: Dict<EdgeKey, GraphEdge>, edges: seq<Link>, near: set<Text>): Dict<EdgeKey,
        GraphEdge> {
    LayAll(lines, Lines(edges, near), KeyOfEdge, Heavier)
  }

  /** Draw the near messages and the given edges between them. */
  method DrawReplyChain(found: Assembly, seed: Text, rows: seq<Path>, depth: int) returns (ghost near: set<Text>)
    requires found.Valid()
    modifies found
    ensures found.Valid() && found.cutReads == old(found.cutReads)
    ensures IsNear(near, EdgesOf(rows), seed, depth)
    ensures found.nodes == WithMessages(old(found.nodes), near, KnownOf(rows))
    ensures found.edges == WithReplies(old(found.edges), EdgesOf(rows), near)
  {
    var known, edges := ReadRows(rows);
    var close := Within(seed, edges, depth);
    near := close;
    DrawNodes(found, close, known);
    DrawLines(found, edges, close);
  }

  /** The near ids in order. */
  method DrawNodes(found: Assembly, near: set<Text>, known: map<Text, Known>)
    requires found.Valid()
    modifies found`nodes
    ensures found.Valid() && found.nodes == WithMessages(old(found.nodes), near, known)
  {
    ghost var before := found.nodes;
    var ids := Sorted(near);
    ghost var all := MessageNodes(ids, known);
    for i := 0 to |ids|
      invariant found.Valid() && found.nodes == NodesLaid(before, all, i)
    {
      NodesNext(before, all, i);
      found.Node(MessageNode(ids[i], known));
    }
    assert all[..|all|] == all;
  }

  /** The nodes after the first n of a list. */
  ghost function NodesLaid(before: Dict<Text, GraphNode>, all: seq<GraphNode>, n: nat): Dict<Text, GraphNode>
    requires n <= |all|
  {
    LayAll(before, all[..n], NodeKey, FilledIn)
  }

  lemma NodesNext(before: Dict<Text, GraphNode>, all: seq<GraphNode>, n: nat)
    requires n < |all|
    ensures NodesLaid(before, all, n + 1) == Lay(NodesLaid(before, all, n), all[n], NodeKey, FilledIn)
  {
    assert all[..n + 1][..n] == all[..n];
  }

  method DrawLines(found: Assembly, edges: seq<Link>, near: set<Text>)
    requires found.Valid()
    modifies found`edges
    ensures found.Valid() && found.edges == WithReplies(old(found.edges), edges, near)
  {
    ghost var before := found.edges;
    for i := 0 to |edges|
      invariant found.Valid() && found.edges == WithReplies(before, edges[..i], near)
    {
      RepliesNext(before, edges, i, near);
      var edge := edges[i];
      if edge.0 in near && edge.1 in near {
        found.Edge(Line(edge));
      }
    }
    assert edges[..|edges|] == edges;
  }

  lemma RepliesNext(before: Dict<EdgeKey, GraphEdge>, edges: seq<Link>, i: nat, near: set<Text>)
    requires i < |edges|
    ensures WithReplies(before, edges[..i + 1], near)
         == if edges[i].0 in near && edges[i].1 in near
            then Lay(WithReplies(before, edges[..i], near), Line(edges[i]), KeyOfEdge, Heavier)
            else WithReplies(before, edges[..i], near)
  {
    assert edges[..i + 1][..i] == edges[..i];
    var lines := Lines(edges[..i], near);
    assert (lines + [Line(edges[i])])[..|lines|] == lines && lines + [] == lines;
  }
}
