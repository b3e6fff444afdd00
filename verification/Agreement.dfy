/**
 * What two truncated listings prove about the tables they were cut from
 * (`queries/model.py`, `CoAddressedAgreement`).
 *
 * The ground truth and the materialised edge are each a table of pairs with counts; what
 * arrives is the top `limit` rows of each, ties at the cut broken any way at all.
 */
module Agreement {
  import opened Order
  import opened Facts
  import opened Sorting

  type Pair = (Text, Text)

  datatype Row = Row(left: Text, right: Text, together: int)

  /** The key of a pair: the same whichever address is named first. */
  function Canonical(left: Text, right: Text): Pair {
    if left <= right then (left, right) else (right, left)
  }

  function KeyOf(row: Row): Pair {
    Canonical(row.left, row.right)
  }

  datatype ComparedPair = ComparedPair(left: Text, right: Text, truth: Option<int>, edge: Option<int>)

  function OrZero(count: Option<int>): int {
    match count
    case None => 0
    case Some(n) => n
  }

  /** The larger count, where a missing one is zero. */
  function Heaviest(pair: ComparedPair): int {
    if OrZero(pair.truth) >= OrZero(pair.edge) then OrZero(pair.truth) else OrZero(pair.edge)
  }

  /** Decreasing by the larger count, ties by the two addresses. */
  predicate HeavierFirst(a: ComparedPair, b: ComparedPair) {
    || Heaviest(a) > Heaviest(b)
    || (Heaviest(a) == Heaviest(b) && a.left < b.left)
    || (Heaviest(a) == Heaviest(b) && a.left == b.left && a.right < b.right)
  }

  datatype Verdict = Verdict(
    limit: int,
    truthFloor: int,
    edgeFloor: int,
    unjudged: nat,
    matched: seq<ComparedPair>,
    countMismatches: seq<ComparedPair>,
    edgeOnly: seq<ComparedPair>,
    truthOnly: seq<ComparedPair>,
    duplicatePairs: nat)
  {
    predicate Agrees() {
      countMismatches == [] && edgeOnly == [] && truthOnly == [] && duplicatePairs == 0
    }

    function Compared(): nat {
      |matched| + |countMismatches| + |edgeOnly| + |truthOnly|
    }
  }

  datatype Answer = Ruled(verdict: Verdict) | Refused

  // ----- The listings as lookups

  /** A dictionary filled row by row: the last row of a pair wins. */
  ghost function Lookup(rows: seq<Row>): map<Pair, int> {
    if rows == [] then map[]
    else
      var last := rows[|rows| - 1];
      Lookup(rows[..|rows| - 1])[KeyOf(last) := last.together]
  }

  lemma {:induction false} LookupKeys(rows: seq<Row>, key: Pair)
    ensures key in Lookup(rows) <==> exists i :: 0 <= i < |rows| && KeyOf(rows[i]) == key
    ensures key in Lookup(rows) ==>
              exists i :: 0 <= i < |rows| && KeyOf(rows[i]) == key && rows[i].together == Lookup(rows)[key]
  {
    if rows != [] {
      var n := |rows| - 1;
      LookupKeys(rows[..n], key);
      assert forall i | 0 <= i < n :: rows[..n][i] == rows[i];
    }
  }

  /** `_keyed`: the last count of each pair, and the number of rows beyond the first for theirs. */
  method Keyed(rows: seq<Row>) returns (keyed: map<Pair, int>, duplicated: nat)
    ensures keyed == Lookup(rows)
    ensures duplicated == |rows| - |Lookup(rows)|
  {
    keyed, duplicated := map[], 0;
    for i := 0 to |rows|
      invariant keyed == Lookup(rows[..i])
      invariant duplicated == i - |keyed|
    {
      assert rows[..i + 1][..i] == rows[..i];
      var key := KeyOf(rows[i]);
      if key in keyed {
        duplicated := duplicated + 1;
        assert keyed[key := rows[i].together].Keys == keyed.Keys;
      } else {
        assert keyed[key := rows[i].together].Keys == keyed.Keys + {key};
      }
      keyed := keyed[key := rows[i].together];
    }
    assert rows[..|rows|] == rows;
  }

  function Least(rows: seq<Row>): (least: int)
    requires rows != []
    ensures forall i | 0 <= i < |rows| :: least <= rows[i].together
    ensures exists i :: 0 <= i < |rows| && rows[i].together == least
  {
    var n := |rows| - 1;
    if n == 0 then rows[0].together
    else
      var rest := Least(rows[..n]);
      assert forall i | 0 <= i < n :: rows[..n][i] == rows[i];
      if rest <= rows[n].together then rest else rows[n].together
  }

  /** `_floor`: the most that a pair missing from a listing can count. */
  function Floor(rows: seq<Row>, limit: int): int {
    if limit > 0 && |rows| >= limit then Least(rows) else 0
  }

  function Found(counts: map<Pair, int>, key: Pair): Option<int> {
    if key in counts then Some(counts[key]) else None
  }

  /** `_provable`: no silence of either side could hide as much as the other one claims. */
  predicate Provable(truth: Option<int>, edge: Option<int>, truthFloor: int, edgeFloor: int) {
    if truth.Some? && edge.Some? then true
    else if truth.Some? then truth.value > edgeFloor
    else edge.Some? && edge.value > truthFloor
  }

  function Compare(truth: map<Pair, int>, edge: map<Pair, int>, key: Pair): ComparedPair {
    ComparedPair(key.0, key.1, Found(truth, key), Found(edge, key))
  }

  predicate IsProvable(truth: map<Pair, int>, edge: map<Pair, int>, truthFloor: int, edgeFloor: int, key: Pair) {
    Provable(Found(truth, key), Found(edge, key), truthFloor, edgeFloor)
  }

  // ----- `between`

  predicate Equal(one: ComparedPair) { one.truth == one.edge }

  predicate Mismatched(one: ComparedPair) { one.truth.Some? && one.edge.Some? && one.truth != one.edge }

  predicate EdgeAlone(one: ComparedPair) { one.truth.None? }

  predicate TruthAlone(one: ComparedPair) { one.edge.None? }

  /** `edge_overstates`: what the edge claims exceeds what the truth does, silence being zero. */
  predicate Overstated(one: ComparedPair) { OrZero(one.edge) > OrZero(one.truth) }

  function Where(s: seq<ComparedPair>, keep: ComparedPair -> bool): (r: seq<ComparedPair>)
    ensures forall x :: x in r <==> x in s && keep(x)
    ensures Ascending(s, HeavierFirst) ==> Ascending(r, HeavierFirst)
  {
    if s == [] then []
    else
      var last := s[|s| - 1];
      var rest := Where(s[..|s| - 1], keep);
      assert forall i | 0 <= i < |rest| :: rest[i] in rest;
      assert s == s[..|s| - 1] + [last];
      if keep(last) then rest + [last] else rest
  }

  /** Exactly the judged pairs of one kind, heaviest first. */
  ghost predicate Lists(r: seq<ComparedPair>, judged: set<ComparedPair>, keep: ComparedPair -> bool) {
    Ascending(r, HeavierFirst) && forall x :: x in r <==> x in judged && keep(x)
  }

  /** Named by a listing and not ruled on. */
  ghost predicate IsOpen(t: map<Pair, int>, e: map<Pair, int>, truthFloor: int, edgeFloor: int, key: Pair) {
    key in t.Keys + e.Keys && !IsProvable(t, e, truthFloor, edgeFloor, key)
  }

  ghost predicate IsJudged(t: map<Pair, int>, e: map<Pair, int>, truthFloor: int, edgeFloor: int, key: Pair) {
    key in t.Keys + e.Keys && IsProvable(t, e, truthFloor, edgeFloor, key)
  }

  ghost predicate JudgedAmong(judged: set<ComparedPair>, t: map<Pair, int>, e: map<Pair, int>, truthFloor: int,
                              edgeFloor: int, keys: set<Pair>)
  {
    && (forall key {:trigger Compare(t, e, key)} | key in keys && IsJudged(t, e, truthFloor, edgeFloor, key) ::
          Compare(t, e, key) in judged)
    && (forall one {:trigger one in judged} | one in judged ::
          && (one.left, one.right) in keys && IsJudged(t, e, truthFloor, edgeFloor, (one.left, one.right))
          && one == Compare(t, e, (one.left, one.right)))
  }

  ghost predicate OpenAmong(open: set<Pair>, t: map<Pair, int>, e: map<Pair, int>, truthFloor: int, edgeFloor: int,
                            keys: set<Pair>)
  {
    forall key {:trigger key in open} :: key in open <==> key in keys && IsOpen(t, e, truthFloor, edgeFloor, key)
  }

  ghost predicate Distinct(s: set<ComparedPair>) {
    forall a, b | a in s && b in s && a.left == b.left && a.right == b.right :: a == b
  }

  /** The judged pairs and the unjudged keys of two listings. */
  ghost predicate Split(judged: set<ComparedPair>, open: set<Pair>, truth: seq<Row>, edge: seq<Row>, limit: int) {
    var t, e, truthFloor, edgeFloor := Lookup(truth), Lookup(edge), Floor(truth, limit), Floor(edge, limit);
    && JudgedAmong(judged, t, e, truthFloor, edgeFloor, t.Keys + e.Keys)
    && OpenAmong(open, t, e, truthFloor, edgeFloor, t.Keys + e.Keys)
  }

  ghost predicate Reports(v: Verdict, judged: set<ComparedPair>, open: set<Pair>) {
    && v.unjudged == |open|
    && Lists(v.matched, judged, Equal)
    && Lists(v.countMismatches, judged, Mismatched)
    && Lists(v.edgeOnly, judged, EdgeAlone)
    && Lists(v.truthOnly, judged, TruthAlone)
  }

  /** What a verdict over two listings says. */
  ghost predicate IsVerdict(v: Verdict, truth: seq<Row>, edge: seq<Row>, limit: int) {
    && v.limit == limit && v.truthFloor == Floor(truth, limit) && v.edgeFloor == Floor(edge, limit)
    && v.duplicatePairs == |edge| - |Lookup(edge)|
    && exists judged, open :: Split(judged, open, truth, edge, limit) && Reports(v, judged, open)
  }

  lemma DistinctOrdered(s: set<ComparedPair>)
    requires Distinct(s)
    ensures TotalOrder(s, HeavierFirst)
  {}

  lemma JudgedDistinct(judged: set<ComparedPair>, t: map<Pair, int>, e: map<Pair, int>, truthFloor: int,
                       edgeFloor: int, keys: set<Pair>)
    requires JudgedAmong(judged, t, e, truthFloor, edgeFloor, keys)
    ensures TotalOrder(judged, HeavierFirst)
  {
    assert Distinct(judged);
    DistinctOrdered(judged);
  }

  lemma JudgedStep(judged: set<ComparedPair>, open: set<Pair>, t: map<Pair, int>, e: map<Pair, int>, truthFloor: int,
                   edgeFloor: int, keys: set<Pair>, key: Pair)
    requires key in t.Keys + e.Keys
    requires JudgedAmong(judged, t, e, truthFloor, edgeFloor, keys)
    requires OpenAmong(open, t, e, truthFloor, edgeFloor, keys)
    ensures if IsProvable(t, e, truthFloor, edgeFloor, key) then
              && JudgedAmong(judged + {Compare(t, e, key)}, t, e, truthFloor, edgeFloor, keys + {key})
              && OpenAmong(open, t, e, truthFloor, edgeFloor, keys + {key})
            else
              && JudgedAmong(judged, t, e, truthFloor, edgeFloor, keys + {key})
              && OpenAmong(open + {key}, t, e, truthFloor, edgeFloor, keys + {key})
  {}

  /** The loop over both lookups' keys. */
  method Judge(byTruth: map<Pair, int>, byEdge: map<Pair, int>, truthFloor: int, edgeFloor: int)
    returns (judged: set<ComparedPair>, unjudged: nat, ghost open: set<Pair>)
    ensures JudgedAmong(judged, byTruth, byEdge, truthFloor, edgeFloor, byTruth.Keys + byEdge.Keys)
    ensures OpenAmong(open, byTruth, byEdge, truthFloor, edgeFloor, byTruth.Keys + byEdge.Keys)
    ensures unjudged == |open|
  {
    judged, unjudged, open := {}, 0, {};
    var keys := byTruth.Keys + byEdge.Keys;
    var rest := keys;
    while rest != {}
      invariant rest <= keys
      invariant JudgedAmong(judged, byTruth, byEdge, truthFloor, edgeFloor, keys - rest)
      invariant OpenAmong(open, byTruth, byEdge, truthFloor, edgeFloor, keys - rest)
      invariant unjudged == |open| && open !! rest
      decreases |rest|
    {
      var key :| key in rest;
      JudgedStep(judged, open, byTruth, byEdge, truthFloor, edgeFloor, keys - rest, key);
      assert keys - rest + {key} == keys - (rest - {key});
      rest := rest - {key};
      if IsProvable(byTruth, byEdge, truthFloor, edgeFloor, key) {
        judged := judged + {Compare(byTruth, byEdge, key)};
      } else {
        open := open + {key};
        unjudged := unjudged + 1;
      }
    }
    assert keys - rest == keys;
  }

  lemma WhereLists(ordered: seq<ComparedPair>, judged: set<ComparedPair>, keep: ComparedPair -> bool)
    requires Ascending(ordered, HeavierFirst) && forall x :: x in ordered <==> x in judged
    ensures Lists(Where(ordered, keep), judged, keep)
  {}

  /** The four buckets cut from the sorted pairs. */
  method Buckets(judged: set<ComparedPair>)
    returns (matched: seq<ComparedPair>, countMismatches: seq<ComparedPair>, edgeOnly: seq<ComparedPair>,
             truthOnly: seq<ComparedPair>)
    requires TotalOrder(judged, HeavierFirst)
    ensures Lists(matched, judged, Equal)
    ensures Lists(countMismatches, judged, Mismatched)
    ensures Lists(edgeOnly, judged, EdgeAlone)
    ensures Lists(truthOnly, judged, TruthAlone)
  {
    var ordered := SortedBy(judged, HeavierFirst);
    matched := Where(ordered, Equal);
    countMismatches := Where(ordered, Mismatched);
    edgeOnly := Where(ordered, EdgeAlone);
    truthOnly := Where(ordered, TruthAlone);
    WhereLists(ordered, judged, Equal);
    WhereLists(ordered, judged, Mismatched);
    WhereLists(ordered, judged, EdgeAlone);
    WhereLists(ordered, judged, TruthAlone);
  }

  /** Refuse listings beyond the limit; otherwise split their pairs into judged and open ones and report both. */
  method Between(truth: seq<Row>, edge: seq<Row>, limit: int) returns (answer: Answer)
    ensures answer.Refused? <==> |truth| > limit || |edge| > limit
    ensures answer.Ruled? ==> IsVerdict(answer.verdict, truth, edge, limit)
  {
    if |truth| > limit || |edge| > limit {
      return Refused;
    }
    var byTruth, _ := Keyed(truth);
    var byEdge, duplicated := Keyed(edge);
    var truthFloor, edgeFloor := Floor(truth, limit), Floor(edge, limit);
    var judged, unjudged, open := Judge(byTruth, byEdge, truthFloor, edgeFloor);
    assert Split(judged, open, truth, edge, limit);
    JudgedDistinct(judged, byTruth, byEdge, truthFloor, edgeFloor, byTruth.Keys + byEdge.Keys);
    var matched, countMismatches, edgeOnly, truthOnly := Buckets(judged);
    var verdict := Verdict(limit, truthFloor, edgeFloor, unjudged, matched, countMismatches, edgeOnly, truthOnly,
          duplicated);
    assert Reports(verdict, judged, open);
    answer := Ruled(verdict);
  }
}
