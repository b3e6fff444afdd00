/**
 * How a verdict reads (`queries/model.py`): the end a row names first does not show in it, its
 * lists start with the largest claim, and it agrees only with a listing that names no pair twice.
 */
module Verdicts {
  import opened Facts
  import opened Agreement

  // ----- Either end first

  ghost predicate SameOrTurned(row: Row, other: Row) {
    other == row || other == Row(row.right, row.left, row.together)
  }

  /** The same rows, some of them named from the other end. */
  ghost predicate Turned(rows: seq<Row>, others: seq<Row>) {
    |rows| == |others| && forall i | 0 <= i < |rows| :: SameOrTurned(rows[i], others[i])
  }

  lemma TurnedKey(row: Row, other: Row)
    requires SameOrTurned(row, other)
    ensures KeyOf(other) == KeyOf(row) && other.together == row.together
  {}

  lemma {:induction false} TurnedLookup(rows: seq<Row>, others: seq<Row>)
    requires Turned(rows, others)
    ensures Lookup(others) == Lookup(rows)
    decreases |rows|
  {
    if rows != [] {
      var n := |rows| - 1;
      TurnedLookup(rows[..n], others[..n]);
      TurnedKey(rows[n], others[n]);
    }
  }

  lemma TurnedFloor(rows: seq<Row>, others: seq<Row>, limit: int)
    requires Turned(rows, others)
    ensures Floor(others, limit) == Floor(rows, limit)
  {
    if limit > 0 && |rows| >= limit {
      var i :| 0 <= i < |rows| && rows[i].together == Least(rows);
      var j :| 0 <= j < |others| && others[j].together == Least(others);
      TurnedKey(rows[i], others[i]);
      TurnedKey(rows[j], others[j]);
    }
  }

  /** Naming pairs from their other end changes no verdict. */
  lemma EndsDoNotMatter(v: Verdict, truth: seq<Row>, edge: seq<Row>, truth': seq<Row>, edge': seq<Row>, limit: int)
    requires Turned(truth, truth') && Turned(edge, edge')
    ensures IsVerdict(v, truth, edge, limit) <==> IsVerdict(v, truth', edge', limit)
  {
    TurnedLookup(truth, truth');
    TurnedLookup(edge, edge');
    TurnedFloor(truth, truth', limit);
    TurnedFloor(edge, edge', limit);
    if IsVerdict(v, truth, edge, limit) { SameVerdict(v, truth, edge, truth', edge', limit); }
    if IsVerdict(v, truth', edge', limit) { SameVerdict(v, truth', edge', truth, edge, limit); }
  }

  lemma SameVerdict(v: Verdict, truth: seq<Row>, edge: seq<Row>, truth': seq<Row>, edge': seq<Row>, limit: int)
    requires Lookup(truth) == Lookup(truth') && Lookup(edge) == Lookup(edge') && |edge| == |edge'|
    requires Floor(truth, limit) == Floor(truth', limit) && Floor(edge, limit) == Floor(edge', limit)
    requires IsVerdict(v, truth, edge, limit)
    ensures IsVerdict(v, truth', edge', limit)
  {
    var judged, open :| Split(judged, open, truth, edge, limit) && Reports(v, judged, open);
    assert Split(judged, open, truth', edge', limit);
  }

  // ----- The largest claim first

  /** The larger of the two counts a pair carries. */
  ghost predicate Claims(one: ComparedPair, n: int) {
    && (one.truth == Some(n) || one.edge == Some(n))
    && (one.truth.Some? ==> one.truth.value <= n) && (one.edge.Some? ==> one.edge.value <= n)
  }

  /** Decreasing claims, and among equal ones increasing addresses. */
  ghost predicate LargestFirst(list: seq<ComparedPair>) {
    forall i, j, a, b {:trigger Claims(list[i], a), Claims(list[j], b)} |
      0 <= i < j < |list| && a >= 0 && b >= 0 && Claims(list[i], a) && Claims(list[j], b) ::
      b <= a && (a == b ==> list[i].left <= list[j].left
                            && (list[i].left == list[j].left ==> list[i].right < list[j].right))
  }

  lemma ClaimIsHeaviest(one: ComparedPair, n: int)
    requires n >= 0 && Claims(one, n)
    ensures Heaviest(one) == n
  {}

  lemma OrderedList(list: seq<ComparedPair>, judged: set<ComparedPair>, keep: ComparedPair -> bool)
    requires Lists(list, judged, keep)
    ensures LargestFirst(list)
  {
    forall i, j, a, b | 0 <= i < j < |list| && a >= 0 && b >= 0 && Claims(list[i], a) && Claims(list[j], b)
      ensures b <= a && (a == b ==> list[i].left <= list[j].left
                                    && (list[i].left == list[j].left ==> list[i].right < list[j].right))
    {
      ClaimIsHeaviest(list[i], a);
      ClaimIsHeaviest(list[j], b);
      assert HeavierFirst(list[i], list[j]);
    }
  }

  /** All four lists of a verdict begin with what is claimed most. */
  lemma ListsInOrder(v: Verdict, truth: seq<Row>, edge: seq<Row>, limit: int)
    requires IsVerdict(v, truth, edge, limit)
    ensures LargestFirst(v.matched) && LargestFirst(v.countMismatches)
    ensures LargestFirst(v.edgeOnly) && LargestFirst(v.truthOnly)
  {
    var judged, open :| Split(judged, open, truth, edge, limit) && Reports(v, judged, open);
    OrderedList(v.matched, judged, Equal);
    OrderedList(v.countMismatches, judged, Mismatched);
    OrderedList(v.edgeOnly, judged, EdgeAlone);
    OrderedList(v.truthOnly, judged, TruthAlone);
  }

  // ----- No pair twice

  ghost predicate SamePair(a: Row, b: Row) {
    (a.left == b.left && a.right == b.right) || (a.left == b.right && a.right == b.left)
  }

  ghost predicate NoPairTwice(rows: seq<Row>) {
    forall i, j | 0 <= i < j < |rows| :: !SamePair(rows[i], rows[j])
  }

  lemma {:induction false} LookupSize(rows: seq<Row>)
    ensures |Lookup(rows)| <= |rows|
    ensures |Lookup(rows)| == |rows| <==> NoPairTwice(rows)
  {
    if rows != [] {
      var n := |rows| - 1;
      var rest, key := rows[..n], KeyOf(rows[n]);
      LookupSize(rest);
      LookupKeys(rest, key);
      LastTwice(rows);
      if key in Lookup(rest) {
        assert Lookup(rows).Keys == Lookup(rest).Keys;
      } else {
        assert Lookup(rows).Keys == Lookup(rest).Keys + {key};
      }
      assert |Lookup(rows)| == |Lookup(rows).Keys| && |Lookup(rest)| == |Lookup(rest).Keys|;
    }
  }

  lemma LastTwice(rows: seq<Row>)
    requires rows != []
    ensures var n := |rows| - 1;
            NoPairTwice(rows) <==> NoPairTwice(rows[..n])
                                   && !exists i :: 0 <= i < n && KeyOf(rows[..n][i]) == KeyOf(rows[n])
  {
    var n := |rows| - 1;
    forall i | 0 <= i < n ensures KeyOf(rows[..n][i]) == KeyOf(rows[n]) <==> SamePair(rows[i], rows[n]) {
      SameKey(rows[i], rows[n]);
    }
    assert forall i, j | 0 <= i < j < n :: rows[..n][i] == rows[i] && rows[..n][j] == rows[j];
  }

  lemma SameKey(a: Row, b: Row)
    ensures KeyOf(a) == KeyOf(b) <==> SamePair(a, b)
  {}

  /** A verdict agrees only when nothing it ruled on differs and the edge names no pair a second time. */
  lemma AgreesOnlyWithoutRepeats(v: Verdict, truth: seq<Row>, edge: seq<Row>, limit: int)
    requires IsVerdict(v, truth, edge, limit)
    ensures v.Agrees() <==> v.countMismatches == [] && v.edgeOnly == [] && v.truthOnly == [] && NoPairTwice(edge)
  {
    LookupSize(edge);
  }
}
