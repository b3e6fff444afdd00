/**
 * What a reply chain shows of its messages (`queries/graphs.py`, `_known` and `_message_node`):
 * the first reading of each, and lines that carry nothing.
 */
module ChainReadings {
  import opened Order
  import opened Closure
  import opened Facts
  import opened Overlays
  import opened Subgraphs
  import opened ReplyChain

  /** Path r names the id in place p. */
  ghost predicate Names(rows: seq<Path>, id: Text, r: nat, p: nat) {
    r < |rows| && p < |rows[r].ids| && rows[r].ids[p] == id
  }

  /** And no path names it earlier. */
  ghost predicate NamesFirst(rows: seq<Path>, id: Text, r: nat, p: nat) {
    Names(rows, id, r, p) && forall s: nat, q: nat {:trigger Names(rows, id, s, q)} | Names(rows, id, s, q) ::
      r < s || (r == s && p <= q)
  }

  ghost predicate Unnamed(rows: seq<Path>, id: Text) {
    forall r: nat, p: nat {:trigger Names(rows, id, r, p)} :: !Names(rows, id, r, p)
  }

  /** Its subject and its importance there, if the path has them. */
  ghost predicate IsReading(known: Known, row: Path, p: nat) {
    && known.subject == (if p < |row.subjects| then row.subjects[p] else EMPTY)
    && known.importance == (if p < |row.importances| then row.importances[p] else None)
  }

  ghost predicate InRow(row: Path, id: Text, upTo: nat, p: nat) {
    p < upTo <= |row.ids| && row.ids[p] == id && forall q | 0 <= q < p :: row.ids[q] != id
  }

  lemma {:induction false} KnownFromFirst(known: map<Text, Known>, row: Path, upTo: nat, id: Text)
    requires upTo <= |row.ids|
    ensures id in known ==> id in KnownFrom(known, row, upTo) && KnownFrom(known, row, upTo)[id] == known[id]
    ensures id !in known && id in KnownFrom(known, row, upTo) ==>
              exists p: nat :: InRow(row, id, upTo, p) && IsReading(KnownFrom(known, row, upTo)[id], row, p)
    ensures id !in KnownFrom(known, row, upTo) ==> forall q | 0 <= q < upTo :: row.ids[q] != id
  {
    if upTo > 0 {
      var i := upTo - 1;
      KnownFromFirst(known, row, i, id);
      if id !in known && id in KnownFrom(known, row, upTo) {
        if id in KnownFrom(known, row, i) {
          var p: nat :| InRow(row, id, i, p) && IsReading(KnownFrom(known, row, i)[id], row, p);
          assert InRow(row, id, upTo, p);
        } else {
          assert InRow(row, id, upTo, i);
        }
      }
    }
  }

  /** What is known of a message is its first reading. */
  lemma {:induction false} KnownIsFirst(rows: seq<Path>, id: Text)
    ensures id in KnownOf(rows) ==>
              exists r: nat, p: nat :: NamesFirst(rows, id, r, p) && IsReading(KnownOf(rows)[id], rows[r], p)
    ensures id !in KnownOf(rows) ==> Unnamed(rows, id)
  {
    if rows != [] {
      var n := |rows| - 1;
      KnownIsFirst(rows[..n], id);
      KnownFromFirst(KnownOf(rows[..n]), rows[n], |rows[n].ids|, id);
      if id in KnownOf(rows[..n]) {
        var r: nat, p: nat :| NamesFirst(rows[..n], id, r, p) && IsReading(KnownOf(rows[..n])[id], rows[..n][r], p);
        StaysFirst(rows, id, r, p);
      } else if id in KnownOf(rows) {
        var p: nat :| InRow(rows[n], id, |rows[n].ids|, p) && IsReading(KnownOf(rows)[id], rows[n], p);
        FirstInLast(rows, id, p);
      } else {
        NotAtAll(rows, id, rows[n]);
      }
    }
  }

  lemma NamesBefore(rows: seq<Path>, id: Text, s: nat, q: nat)
    requires rows != []
    ensures s < |rows| - 1 ==> (Names(rows, id, s, q) <==> Names(rows[..|rows| - 1], id, s, q))
  {}

  lemma StaysFirst(rows: seq<Path>, id: Text, r: nat, p: nat)
    requires rows != [] && NamesFirst(rows[..|rows| - 1], id, r, p)
    ensures NamesFirst(rows, id, r, p)
  {
    NamesBefore(rows, id, r, p);
    forall s: nat, q: nat | Names(rows, id, s, q) ensures r < s || (r == s && p <= q) {
      NamesBefore(rows, id, s, q);
    }
  }

  lemma FirstInLast(rows: seq<Path>, id: Text, p: nat)
    requires rows != [] && InRow(rows[|rows| - 1], id, |rows[|rows| - 1].ids|, p)
    requires Unnamed(rows[..|rows| - 1], id)
    ensures NamesFirst(rows, id, |rows| - 1, p)
  {
    forall s: nat, q: nat | Names(rows, id, s, q) ensures |rows| - 1 < s || (|rows| - 1 == s && p <= q) {
      NamesBefore(rows, id, s, q);
    }
  }

  lemma NotAtAll(rows: seq<Path>, id: Text, last: Path)
    requires rows != [] && Unnamed(rows[..|rows| - 1], id) && last == rows[|rows| - 1]
    requires forall q | 0 <= q < |last.ids| :: last.ids[q] != id
    ensures Unnamed(rows, id)
  {
    forall r: nat, q: nat ensures !Names(rows, id, r, q) {
      NamesBefore(rows, id, r, q);
    }
  }

  // ----- What is drawn

  /** A message as it is drawn: its subject for a name, its importance for a weight, nothing else. */
  ghost predicate Shows(node: GraphNode, id: Text, known: map<Text, Known>) {
    && node.id == id && node.kind == MESSAGE && node.props == map[]
    && node.name == (if id in known then known[id].subject else EMPTY)
    && node.weights == (if id in known && known[id].importance.Some?
                        then map[IMPORTANCE := known[id].importance.value] else map[])
  }

  lemma {:induction false} LaidMessage(nodes: Dict<Text, GraphNode>, ids: seq<Text>, known: map<Text, Known>, id: Text)
    requires Increasing(ids) && id !in nodes.items
    ensures var after := LayAll(nodes, MessageNodes(ids, known), NodeKey, FilledIn);
            && (id in after.items <==> id in ids)
            && (id in ids ==> Shows(after.items[id], id, known))
    decreases |ids|
  {
    if ids != [] {
      var n := |ids| - 1;
      LaidMessage(nodes, ids[..n], known, id);
      assert ids == ids[..n] + [ids[n]];
      assert MessageNodes(ids, known)[..n] == MessageNodes(ids[..n], known);
      if ids[n] == id {
        assert forall i | 0 <= i < n :: ids[..n][i] != id;
      }
    }
  }

  /** Every near message that was not in the picture yet shows its first reading. */
  lemma NearMessageShown(nodes: Dict<Text, GraphNode>, near: set<Text>, rows: seq<Path>, id: Text)
    requires id in near && id !in nodes.items
    ensures id in WithMessages(nodes, near, KnownOf(rows)).items
    ensures Shows(WithMessages(nodes, near, KnownOf(rows)).items[id], id, KnownOf(rows))
  {
    LaidMessage(nodes, Sorted(near), KnownOf(rows), id);
  }

  /** The lines of a chain run from the message that answers to the one it answers, and carry no weight and no name. */
  lemma LinesCarryNothing(edges: seq<Link>, near: set<Text>, line: GraphEdge)
    ensures line in Lines(edges, near)
       <==> (line.source, line.target) in edges && line.source in near && line.target in near
            && line == GraphEdge(line.source, line.target, REPLIES_TO, 0.0, EMPTY)
  {
    LinesAreTheNearEdges(edges, near, line);
    if (line.source, line.target) in edges {
      var i :| 0 <= i < |edges| && edges[i] == (line.source, line.target);
    }
  }
}
