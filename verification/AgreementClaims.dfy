/**
 * Why the verdict can be trusted, and why it could not say more: every consistent pair of
 * full tables against what two cut listings show of them.
 */
module AgreementClaims {
  import opened Order
  import opened Facts
  import opened Sorting
  import opened Agreement

  type Table = map<Pair, int>

  function Count(table: Table, key: Pair): int {
    if key in table then table[key] else 0
  }

  ghost predicate Listed(listing: seq<Row>, key: Pair) {
    exists i :: 0 <= i < |listing| && KeyOf(listing[i]) == key
  }

  ghost predicate RowsOf(listing: seq<Row>, table: Table) {
    && (forall i, j | 0 <= i < j < |listing| :: KeyOf(listing[i]) != KeyOf(listing[j]))
    && (forall i | 0 <= i < |listing| :: KeyOf(listing[i]) in table && table[KeyOf(listing[i])] == listing[i].together)
  }

  /** The first `limit` rows of a table of positive counts, heaviest first, ties broken at will. */
  ghost predicate Cut(listing: seq<Row>, table: Table, limit: int) {
    && (forall key | key in table :: table[key] > 0)
    && |listing| == (if |table| < limit then |table| else limit)
    && RowsOf(listing, table)
    && (forall i, j | 0 <= i < j < |listing| :: listing[i].together >= listing[j].together)
    && (forall key, i | key in table && !Listed(listing, key) && 0 <= i < |listing| ::
          table[key] <= listing[i].together)
  }

  lemma {:induction false} RowsAreCounts(listing: seq<Row>, table: Table)
    requires RowsOf(listing, table)
    ensures forall key :: key in Lookup(listing) ==> key in table && Lookup(listing)[key] == table[key]
    ensures |Lookup(listing)| == |listing|
    decreases |listing|
  {
    if listing != [] {
      var n := |listing| - 1;
      var init, last := listing[..n], KeyOf(listing[n]);
      assert forall i | 0 <= i < n :: init[i] == listing[i];
      RowsAreCounts(init, table);
      LookupKeys(init, last);
      assert Lookup(listing).Keys == Lookup(init).Keys + {last};
    }
  }

  /** What a listing shows of its table. */
  lemma ListingShows(listing: seq<Row>, table: Table, limit: int, key: Pair)
    requires Cut(listing, table, limit)
    ensures key in Lookup(listing) <==> Listed(listing, key)
    ensures key in Lookup(listing) ==> key in table && Lookup(listing)[key] == table[key] > 0
  {
    RowsAreCounts(listing, table);
    LookupKeys(listing, key);
  }

  /** Fewer rows than were asked for are all the rows there are. */
  lemma ShortIsWhole(listing: seq<Row>, table: Table, limit: int)
    requires Cut(listing, table, limit) && |listing| < limit
    ensures Lookup(listing) == table
  {
    RowsAreCounts(listing, table);
    SubsetOfSameSize(Lookup(listing).Keys, table.Keys);
  }

  lemma SubsetOfSameSize<T>(s: set<T>, t: set<T>)
    requires s <= t && |s| == |t|
    ensures s == t
  {
    if x :| x in t && x !in s {
      assert s <= t - {x};
      SubsetSize(s, t - {x});
    }
  }

  /** A pair the listing leaves out counts no more than the listing's floor. */
  lemma SilenceIsBounded(listing: seq<Row>, table: Table, limit: int, key: Pair)
    requires Cut(listing, table, limit) && limit > 0 && key !in Lookup(listing)
    ensures 0 <= Count(table, key) <= Floor(listing, limit)
  {
    ListingShows(listing, table, limit, key);
    if |listing| < limit {
      ShortIsWhole(listing, table, limit);
    } else {
      var i :| 0 <= i < |listing| && listing[i].together == Least(listing);
      assert key in table ==> table[key] <= listing[i].together;
      assert KeyOf(listing[i]) in table;
    }
  }

  lemma MoreMayHide(listing: seq<Row>, table: Table, limit: int, key: Pair, count: int)
    requires Cut(listing, table, limit) && limit > 0 && !Listed(listing, key)
    requires 0 < count <= Floor(listing, limit)
    ensures Cut(listing, table[key := count], limit)
  {
    var more := table[key := count];
    OneMoreRow(table, key, count);
    RowsStay(listing, table, key, count);
    forall other, i | other in more && !Listed(listing, other) && 0 <= i < |listing|
      ensures more[other] <= listing[i].together
    {
      if other != key {
        assert table[other] <= listing[i].together;
      }
    }
  }

  lemma OneMoreRow(table: Table, key: Pair, count: int)
    ensures |table| <= |table[key := count]|
  {
    var more := table[key := count];
    assert more.Keys == table.Keys + {key};
    SubsetSize(table.Keys, more.Keys);
    assert |more| == |more.Keys| && |table| == |table.Keys|;
  }

  lemma RowsStay(listing: seq<Row>, table: Table, key: Pair, count: int)
    requires RowsOf(listing, table) && !Listed(listing, key)
    ensures RowsOf(listing, table[key := count])
  {
    forall i | 0 <= i < |listing| ensures KeyOf(listing[i]) != key {}
  }

  lemma NothingMayHide(listing: seq<Row>, table: Table, limit: int, key: Pair)
    requires Cut(listing, table, limit) && |listing| == limit && !Listed(listing, key)
    ensures Cut(listing, table - {key}, limit)
  {
    var less := table - {key};
    forall i | 0 <= i < |listing| ensures KeyOf(listing[i]) != key {}
    assert RowsOf(listing, less);
    RowsAreCounts(listing, less);
    SubsetSize(Lookup(listing).Keys, less.Keys);
  }

  /** Any count up to the floor can hide behind a full listing, and so can no count at all. */
  lemma SilenceIsFree(listing: seq<Row>, table: Table, limit: int, key: Pair, count: int)
    requires Cut(listing, table, limit) && limit > 0 && key !in Lookup(listing)
    requires 0 < count <= Floor(listing, limit)
    ensures Cut(listing, table[key := count], limit) && Cut(listing, table - {key}, limit)
  {
    ListingShows(listing, table, limit, key);
    MoreMayHide(listing, table, limit, key, count);
    NothingMayHide(listing, table, limit, key);
  }

  // ----- Soundness

  /** What the verdict says of a pair is so in the full tables, direction included. */
  ghost predicate TruthOf(one: ComparedPair, truthTable: Table, edgeTable: Table) {
    var t, e := Count(truthTable, (one.left, one.right)), Count(edgeTable, (one.left, one.right));
    && (one.truth.Some? ==> t == one.truth.value)
    && (one.edge.Some? ==> e == one.edge.value)
    && (one.truth.None? ==> t < e)
    && (one.edge.None? ==> e < t)
  }

  lemma ProvableIsTrue(truth: seq<Row>, edge: seq<Row>, limit: int, truthTable: Table, edgeTable: Table, key: Pair)
    requires Cut(truth, truthTable, limit) && Cut(edge, edgeTable, limit)
    requires IsJudged(Lookup(truth), Lookup(edge), Floor(truth, limit), Floor(edge, limit), key)
    ensures TruthOf(Compare(Lookup(truth), Lookup(edge), key), truthTable, edgeTable)
  {
    ListingShows(truth, truthTable, limit, key);
    ListingShows(edge, edgeTable, limit, key);
    assert truth != [] || edge != [];
    if key !in Lookup(truth) {
      SilenceIsBounded(truth, truthTable, limit, key);
    }
    if key !in Lookup(edge) {
      SilenceIsBounded(edge, edgeTable, limit, key);
    }
  }

  ghost function Overstates(v: Verdict): set<ComparedPair> {
    (set one | one in v.edgeOnly) + (set one | one in v.countMismatches && Overstated(one))
  }

  lemma AllJudgedTrue(judged: set<ComparedPair>, open: set<Pair>, truth: seq<Row>, edge: seq<Row>, limit: int,
                      truthTable: Table, edgeTable: Table)
    requires Cut(truth, truthTable, limit) && Cut(edge, edgeTable, limit) && Split(judged, open, truth, edge, limit)
    ensures forall one | one in judged :: TruthOf(one, truthTable, edgeTable)
  {
    forall one | one in judged ensures TruthOf(one, truthTable, edgeTable) {
      ProvableIsTrue(truth, edge, limit, truthTable, edgeTable, (one.left, one.right));
    }
  }

  /** Every judged pair is reported as it is; what the edge overstates, it really overstates. */
  lemma VerdictSound(v: Verdict, truth: seq<Row>, edge: seq<Row>, limit: int, truthTable: Table, edgeTable: Table)
    requires Cut(truth, truthTable, limit) && Cut(edge, edgeTable, limit) && IsVerdict(v, truth, edge, limit)
    ensures forall one | one in v.matched ::
              Count(truthTable, (one.left, one.right)) == Count(edgeTable, (one.left, one.right))
    ensures forall one | one in v.countMismatches || one in v.edgeOnly || one in v.truthOnly ::
              Count(truthTable, (one.left, one.right)) != Count(edgeTable, (one.left, one.right))
    ensures forall one | one in Overstates(v) ::
              Count(truthTable, (one.left, one.right)) < Count(edgeTable, (one.left, one.right))
    ensures forall one | one in v.truthOnly ::
              Count(truthTable, (one.left, one.right)) > Count(edgeTable, (one.left, one.right))
    ensures v.duplicatePairs == 0
  {
    RowsAreCounts(edge, edgeTable);
    var judged, open :| Split(judged, open, truth, edge, limit) && Reports(v, judged, open);
    AllJudgedTrue(judged, open, truth, edge, limit, truthTable, edgeTable);
    ReportedTrue(v, judged, open, truthTable, edgeTable);
  }

  lemma ReportedTrue(v: Verdict, judged: set<ComparedPair>, open: set<Pair>, truthTable: Table, edgeTable: Table)
    requires Reports(v, judged, open) && forall one | one in judged :: TruthOf(one, truthTable, edgeTable)
    requires forall one | one in judged :: one.truth.Some? || one.edge.Some?
    ensures forall one | one in v.matched ::
              Count(truthTable, (one.left, one.right)) == Count(edgeTable, (one.left, one.right))
    ensures forall one | one in v.countMismatches || one in v.edgeOnly || one in v.truthOnly ::
              Count(truthTable, (one.left, one.right)) != Count(edgeTable, (one.left, one.right))
    ensures forall one | one in Overstates(v) ::
              Count(truthTable, (one.left, one.right)) < Count(edgeTable, (one.left, one.right))
    ensures forall one | one in v.truthOnly ::
              Count(truthTable, (one.left, one.right)) > Count(edgeTable, (one.left, one.right))
  {}

  /** And every judged pair the edge really overstates is reported as such. */
  lemma OverstatementsReported(v: Verdict, truth: seq<Row>, edge: seq<Row>, limit: int, truthTable: Table,
                               edgeTable: Table, key: Pair)
    requires Cut(truth, truthTable, limit) && Cut(edge, edgeTable, limit) && IsVerdict(v, truth, edge, limit)
    requires IsJudged(Lookup(truth), Lookup(edge), Floor(truth, limit), Floor(edge, limit), key)
    requires Count(truthTable, key) < Count(edgeTable, key)
    ensures Compare(Lookup(truth), Lookup(edge), key) in Overstates(v)
  {
    var one := Compare(Lookup(truth), Lookup(edge), key);
    var judged, open :| Split(judged, open, truth, edge, limit) && Reports(v, judged, open);
    assert one in judged;
    ProvableIsTrue(truth, edge, limit, truthTable, edgeTable, key);
  }

  // ----- Nothing is lost

  lemma {:induction false} ListedOnce(r: seq<ComparedPair>)
    requires Ascending(r, HeavierFirst)
    ensures |set x | x in r| == |r|
  {
    if r != [] {
      var n := |r| - 1;
      ListedOnce(r[..n]);
      assert r == r[..n] + [r[n]];
      forall i | 0 <= i < n ensures r[i] != r[n] {
        assert HeavierFirst(r[i], r[n]);
      }
      assert (set x | x in r) == (set x | x in r[..n]) + {r[n]};
    }
  }

  lemma {:induction false} ComparedSize(judged: set<ComparedPair>, t: map<Pair, int>, e: map<Pair, int>,
                                        keys: set<Pair>)
    requires judged == set key | key in keys :: Compare(t, e, key)
    ensures |judged| == |keys|
    decreases |keys|
  {
    if keys != {} {
      var key :| key in keys;
      var rest := set other | other in keys - {key} :: Compare(t, e, other);
      ComparedSize(rest, t, e, keys - {key});
      assert Compare(t, e, key) !in rest;
      assert judged == rest + {Compare(t, e, key)};
    }
  }

  ghost function Kind(judged: set<ComparedPair>, keep: ComparedPair -> bool): set<ComparedPair> {
    set x | x in judged && keep(x)
  }

  lemma ListSize(r: seq<ComparedPair>, judged: set<ComparedPair>, keep: ComparedPair -> bool)
    requires Lists(r, judged, keep)
    ensures |r| == |Kind(judged, keep)|
  {
    ListedOnce(r);
    assert (set x | x in r) == Kind(judged, keep);
  }

  /** The four kinds exclude each other and leave nothing out. */
  lemma FourKinds(judged: set<ComparedPair>)
    requires forall one | one in judged :: one.truth.Some? || one.edge.Some?
    ensures |Kind(judged, Equal)| + |Kind(judged, Mismatched)| + |Kind(judged, EdgeAlone)| + |Kind(judged, TruthAlone)|
         == |judged|
  {
    var a, b, c, d := Kind(judged, Equal), Kind(judged, Mismatched), Kind(judged, EdgeAlone), Kind(judged, TruthAlone);
    KindsApart(judged, a, b, c, d);
    FourSizes(judged, a, b, c, d);
  }

  lemma KindsApart(judged: set<ComparedPair>, a: set<ComparedPair>, b: set<ComparedPair>, c: set<ComparedPair>,
                   d: set<ComparedPair>)
    requires forall one | one in judged :: one.truth.Some? || one.edge.Some?
    requires a == Kind(judged, Equal) && b == Kind(judged, Mismatched)
    requires c == Kind(judged, EdgeAlone) && d == Kind(judged, TruthAlone)
    ensures judged == a + b + c + d && a !! b && a + b !! c && a + b + c !! d
  {
    forall one | one in judged ensures one in a + b + c + d {}
  }

  lemma FourSizes<T>(all: set<T>, a: set<T>, b: set<T>, c: set<T>, d: set<T>)
    requires all == a + b + c + d && a !! b && a + b !! c && a + b + c !! d
    ensures |a| + |b| + |c| + |d| == |all|
  {
    DisjointSize(a + b, a, b);
    DisjointSize(a + b + c, a + b, c);
    DisjointSize(all, a + b + c, d);
  }

  lemma FourLists(v: Verdict, judged: set<ComparedPair>, open: set<Pair>)
    requires Reports(v, judged, open) && forall one | one in judged :: one.truth.Some? || one.edge.Some?
    ensures v.Compared() == |judged|
  {
    ListSize(v.matched, judged, Equal);
    ListSize(v.countMismatches, judged, Mismatched);
    ListSize(v.edgeOnly, judged, EdgeAlone);
    ListSize(v.truthOnly, judged, TruthAlone);
    FourKinds(judged);
  }

  /** Every pair either listing names is judged in exactly one of the four lists, or counted as unjudged. */
  lemma NothingIsLost(v: Verdict, truth: seq<Row>, edge: seq<Row>, limit: int)
    requires IsVerdict(v, truth, edge, limit)
    ensures v.Compared() + v.unjudged == |Lookup(truth).Keys + Lookup(edge).Keys|
  {
    var t, e := Lookup(truth), Lookup(edge);
    var judged, open :| Split(judged, open, truth, edge, limit) && Reports(v, judged, open);
    var keys := (t.Keys + e.Keys) - open;
    KeysJudged(open, t, e, Floor(truth, limit), Floor(edge, limit));
    JudgedAreKeys(judged, t, e, Floor(truth, limit), Floor(edge, limit), keys);
    ComparedSize(judged, t, e, keys);
    FourLists(v, judged, open);
  }

  lemma KeysJudged(open: set<Pair>, t: map<Pair, int>, e: map<Pair, int>, truthFloor: int, edgeFloor: int)
    requires OpenAmong(open, t, e, truthFloor, edgeFloor, t.Keys + e.Keys)
    ensures open <= t.Keys + e.Keys && |(t.Keys + e.Keys) - open| + |open| == |t.Keys + e.Keys|
    ensures forall key :: key in (t.Keys + e.Keys) - open <==> IsJudged(t, e, truthFloor, edgeFloor, key)
  {
    assert t.Keys + e.Keys == ((t.Keys + e.Keys) - open) + open;
  }

  lemma JudgedAreKeys(judged: set<ComparedPair>, t: map<Pair, int>, e: map<Pair, int>, truthFloor: int, edgeFloor: int,
                      keys: set<Pair>)
    requires JudgedAmong(judged, t, e, truthFloor, edgeFloor, t.Keys + e.Keys)
    requires forall key :: key in keys <==> IsJudged(t, e, truthFloor, edgeFloor, key)
    ensures judged == set key | key in keys :: Compare(t, e, key)
    ensures forall one | one in judged :: one.truth.Some? || one.edge.Some?
  {
    forall one | one in judged ensures (one.left, one.right) in keys && one == Compare(t, e, (one.left, one.right)) {}
  }

  // ----- Optimality

  lemma HiddenTruth(truth: seq<Row>, edge: seq<Row>, limit: int, truthTable: Table, edgeTable: Table, key: Pair)
    requires Cut(truth, truthTable, limit) && Cut(edge, edgeTable, limit)
    requires key !in Lookup(truth) && key in Lookup(edge) && Lookup(edge)[key] <= Floor(truth, limit)
    ensures exists t :: Cut(truth, t, limit) && Count(t, key) == Count(edgeTable, key)
    ensures exists t :: Cut(truth, t, limit) && Count(t, key) != Count(edgeTable, key)
  {
    ListingShows(edge, edgeTable, limit, key);
    MayCount(truth, limit, truthTable, key, edgeTable[key]);
  }

  /** A listing cut above a count says neither that a missing pair has it nor that it does not. */
  lemma MayCount(listing: seq<Row>, limit: int, table: Table, key: Pair, count: int)
    requires Cut(listing, table, limit) && key !in Lookup(listing) && 0 < count <= Floor(listing, limit)
    ensures exists t :: Cut(listing, t, limit) && Count(t, key) == count
    ensures exists t :: Cut(listing, t, limit) && Count(t, key) != count
  {
    SilenceIsFree(listing, table, limit, key, count);
    CountedOrNot(table, key, count);
  }

  lemma CountedOrNot(table: Table, key: Pair, count: int)
    ensures Count(table[key := count], key) == count && Count(table - {key}, key) == 0
  {}

  /** Whatever tables the listings were cut from, they answer this pair in one and the same way. */
  ghost predicate Decided(truth: seq<Row>, edge: seq<Row>, limit: int, key: Pair) {
    || (forall t, e | Cut(truth, t, limit) && Cut(edge, e, limit) :: Count(t, key) == Count(e, key))
    || (forall t, e | Cut(truth, t, limit) && Cut(edge, e, limit) :: Count(t, key) != Count(e, key))
  }

  lemma JudgedIsDecided(truth: seq<Row>, edge: seq<Row>, limit: int, key: Pair)
    requires IsJudged(Lookup(truth), Lookup(edge), Floor(truth, limit), Floor(edge, limit), key)
    ensures Decided(truth, edge, limit, key)
  {
    var one := Compare(Lookup(truth), Lookup(edge), key);
    forall t, e | Cut(truth, t, limit) && Cut(edge, e, limit)
      ensures Count(t, key) == Count(e, key) <==> one.truth == one.edge
    {
      ProvableIsTrue(truth, edge, limit, t, e, key);
    }
  }

  lemma OpenIsUndecided(truth: seq<Row>, edge: seq<Row>, limit: int, truthTable: Table, edgeTable: Table, key: Pair)
    requires Cut(truth, truthTable, limit) && Cut(edge, edgeTable, limit)
    requires IsOpen(Lookup(truth), Lookup(edge), Floor(truth, limit), Floor(edge, limit), key)
    ensures !Decided(truth, edge, limit, key)
  {
    if key in Lookup(edge) {
      HiddenTruth(truth, edge, limit, truthTable, edgeTable, key);
    } else {
      HiddenTruth(edge, truth, limit, edgeTable, truthTable, key);
    }
  }

  /** A named pair is ruled on exactly when the listings settle it: no sound rule could judge more. */
  lemma JudgesAllItCan(truth: seq<Row>, edge: seq<Row>, limit: int, truthTable: Table, edgeTable: Table, key: Pair)
    requires Cut(truth, truthTable, limit) && Cut(edge, edgeTable, limit)
    requires key in Lookup(truth).Keys + Lookup(edge).Keys
    ensures IsProvable(Lookup(truth), Lookup(edge), Floor(truth, limit), Floor(edge, limit), key)
       <==> Decided(truth, edge, limit, key)
  {
    if IsProvable(Lookup(truth), Lookup(edge), Floor(truth, limit), Floor(edge, limit), key) {
      JudgedIsDecided(truth, edge, limit, key);
    } else {
      OpenIsUndecided(truth, edge, limit, truthTable, edgeTable, key);
    }
  }

  /** Over two listings that were not cut, agreement is equality of the tables. */
  lemma UncutIsExact(v: Verdict, truth: seq<Row>, edge: seq<Row>, limit: int, truthTable: Table, edgeTable: Table)
    requires Cut(truth, truthTable, limit) && Cut(edge, edgeTable, limit) && IsVerdict(v, truth, edge, limit)
    requires |truth| < limit && |edge| < limit
    ensures v.unjudged == 0
    ensures v.Agrees() <==> truthTable == edgeTable
  {
    ShortIsWhole(truth, truthTable, limit);
    ShortIsWhole(edge, edgeTable, limit);
    VerdictSound(v, truth, edge, limit, truthTable, edgeTable);
    var judged, open :| Split(judged, open, truth, edge, limit) && Reports(v, judged, open);
    forall key ensures key !in open {
      ListingShows(truth, truthTable, limit, key);
      ListingShows(edge, edgeTable, limit, key);
    }
    forall key | key in truthTable.Keys + edgeTable.Keys
      ensures Compare(truthTable, edgeTable, key) in judged
    {
      assert key !in open;
    }
    if v.Agrees() {
      AgreeingIsEqual(v, judged, open, truthTable, edgeTable);
    } else {
      DifferingIsUnequal(v, judged, open, truthTable, edgeTable);
    }
  }

  lemma AgreeingIsEqual(v: Verdict, judged: set<ComparedPair>, open: set<Pair>, truthTable: Table, edgeTable: Table)
    requires Reports(v, judged, open) && v.Agrees()
    requires forall key | key in truthTable.Keys + edgeTable.Keys :: Compare(truthTable, edgeTable, key) in judged
    ensures truthTable == edgeTable
  {
    forall key | key in truthTable.Keys + edgeTable.Keys ensures Found(truthTable, key) == Found(edgeTable, key) {
      var one := Compare(truthTable, edgeTable, key);
      assert one in judged;
      assert one !in v.countMismatches && one !in v.edgeOnly && one !in v.truthOnly;
    }
    assert forall key :: key in truthTable.Keys + edgeTable.Keys ==> Found(truthTable, key) == Found(edgeTable, key);
    assert truthTable.Keys == edgeTable.Keys;
  }

  lemma DifferingIsUnequal(v: Verdict, judged: set<ComparedPair>, open: set<Pair>, truthTable: Table, edgeTable: Table)
    requires Reports(v, judged, open) && !v.Agrees() && v.duplicatePairs == 0
    requires forall one | one in v.countMismatches || one in v.edgeOnly || one in v.truthOnly ::
               Count(truthTable, (one.left, one.right)) != Count(edgeTable, (one.left, one.right))
    ensures truthTable != edgeTable
  {
    var differing := v.countMismatches + v.edgeOnly + v.truthOnly;
    assert differing != [];
    assert differing[0] in differing;
  }

  // ----- What `edge_only` does not mean

  /** A pair a listing leaves out is out of its table for sure exactly when the listing was not cut. */
  /** The floor is zero for a listing with fewer rows than asked for, and when no rows are asked for. */
  lemma FloorIsZero(listing: seq<Row>, table: Table, limit: int)
    requires Cut(listing, table, limit)
    ensures Floor(listing, limit) == 0 <==> limit == 0 || |listing| < limit
  {
    if limit > 0 && |listing| >= limit {
      var i :| 0 <= i < |listing| && listing[i].together == Least(listing);
      assert KeyOf(listing[i]) in table && table[KeyOf(listing[i])] == listing[i].together;
    }
  }

  /** Nothing the table holds is missing from the listing. */
  ghost predicate Exhaustive(listing: seq<Row>, table: Table) {
    forall key | key in table :: Listed(listing, key)
  }

  lemma ShortIsExhaustive(listing: seq<Row>, table: Table, limit: int)
    requires Cut(listing, table, limit) && |listing| < limit
    ensures Exhaustive(listing, table)
  {
    ShortIsWhole(listing, table, limit);
    forall key | key in table ensures Listed(listing, key) {
      ListingShows(listing, table, limit, key);
    }
  }

  /** A floor of zero proves a listing exhaustive, as it is documented to, exactly for limits above zero. */
  lemma ZeroFloorIsExhaustive(limit: int)
    requires limit >= 0
    ensures limit > 0
       <==> forall listing: seq<Row>, table: Table {:trigger Cut(listing, table, limit)} |
              Cut(listing, table, limit) && Floor(listing, limit) == 0 :: Exhaustive(listing, table)
  {
    if limit > 0 {
      forall listing: seq<Row>, table: Table | Cut(listing, table, limit) && Floor(listing, limit) == 0
        ensures Exhaustive(listing, table)
      {
        FloorIsZero(listing, table, limit);
        ShortIsExhaustive(listing, table, limit);
      }
    } else {
      var table: Table := map[(1, 2) := 1];
      assert Cut([], table, 0) && (1, 2) in table && !Listed([], (1, 2));
    }
  }

  lemma AbsentWhenUncut(listing: seq<Row>, table: Table, limit: int, key: Pair)
    requires Cut(listing, table, limit) && limit > 0 && key !in Lookup(listing)
    ensures Floor(listing, limit) == 0 <==> forall t | Cut(listing, t, limit) :: key !in t
  {
    SilenceIsBounded(listing, table, limit, key);
    if Floor(listing, limit) == 0 {
      forall t | Cut(listing, t, limit) ensures key !in t {
        SilenceIsBounded(listing, t, limit, key);
      }
    } else {
      SilenceIsFree(listing, table, limit, key, 1);
      assert key in table[key := 1];
    }
  }

  lemma EdgeOnlyKey(v: Verdict, truth: seq<Row>, edge: seq<Row>, limit: int, one: ComparedPair)
    requires IsVerdict(v, truth, edge, limit) && one in v.edgeOnly
    ensures (one.left, one.right) !in Lookup(truth) && (one.left, one.right) in Lookup(edge)
  {
    var judged, open :| Split(judged, open, truth, edge, limit) && Reports(v, judged, open);
    assert one in judged;
  }

  /**
   * A pair reported on the edge's side alone is certain to be absent from the ground truth
   * exactly when the truth listing has fewer rows than asked for; else only certain to be smaller.
   */
  lemma EdgeOnlyIsAbsent(v: Verdict, truth: seq<Row>, edge: seq<Row>, limit: int, truthTable: Table, edgeTable: Table,
                         one: ComparedPair)
    requires Cut(truth, truthTable, limit) && Cut(edge, edgeTable, limit) && IsVerdict(v, truth, edge, limit)
    requires one in v.edgeOnly
    ensures |truth| < limit <==> forall t | Cut(truth, t, limit) :: (one.left, one.right) !in t
    ensures |truth| < limit <==> v.truthFloor == 0
  {
    EdgeOnlyKey(v, truth, edge, limit, one);
    FloorIsZero(truth, truthTable, limit);
    RowsAreCounts(edge, edgeTable);
    AbsentWhenUncut(truth, truthTable, limit, (one.left, one.right));
  }

  lemma OneRow(row: Row)
    ensures Lookup([row]) == map[KeyOf(row) := row.together]
    ensures Floor([row], 1) == row.together
    ensures forall key {:trigger Listed([row], key)} :: Listed([row], key) <==> key == KeyOf(row)
  {
    assert [row][..0] == [];
    forall key ensures Listed([row], key) <==> key == KeyOf(row) {
      assert [row][0] == row;
    }
  }

  lemma OneRowCut(row: Row, table: Table)
    requires KeyOf(row) in table && table[KeyOf(row)] == row.together
    requires forall key | key in table :: 0 < table[key] <= row.together
    ensures Cut([row], table, 1)
  {
    OneRow(row);
    assert |table| >= 1 by {
      SubsetSize({KeyOf(row)}, table.Keys);
      assert |{KeyOf(row)}| == 1;
    }
  }

  /** One message supports the pair, four support another one, and the edge claims nine. */
  lemma EdgeOnlyYetPresent()
    ensures var truth, edge := [Row(1, 2, 4)], [Row(3, 4, 9)];
            var truthTable, edgeTable := map[(1, 2) := 4, (3, 4) := 1], map[(3, 4) := 9];
            && Cut(truth, truthTable, 1) && Cut(edge, edgeTable, 1)
            && (3, 4) in truthTable
            && forall v | IsVerdict(v, truth, edge, 1) :: ComparedPair(3, 4, None, Some(9)) in v.edgeOnly
  {
    var truth, edge := [Row(1, 2, 4)], [Row(3, 4, 9)];
    OneRowCut(Row(1, 2, 4), map[(1, 2) := 4, (3, 4) := 1]);
    OneRowCut(Row(3, 4, 9), map[(3, 4) := 9]);
    OneRow(Row(1, 2, 4));
    OneRow(Row(3, 4, 9));
    forall v | IsVerdict(v, truth, edge, 1) ensures ComparedPair(3, 4, None, Some(9)) in v.edgeOnly {
      EdgeOnlyAgainst(v, truth, edge);
    }
  }

  lemma EdgeOnlyAgainst(v: Verdict, truth: seq<Row>, edge: seq<Row>)
    requires IsVerdict(v, truth, edge, 1) && Floor(truth, 1) == 4
    requires Lookup(truth) == map[(1, 2) := 4] && Lookup(edge) == map[(3, 4) := 9]
    ensures ComparedPair(3, 4, None, Some(9)) in v.edgeOnly
  {
    var judged, open :| Split(judged, open, truth, edge, 1) && Reports(v, judged, open);
    assert IsJudged(Lookup(truth), Lookup(edge), Floor(truth, 1), Floor(edge, 1), (3, 4));
    assert Compare(Lookup(truth), Lookup(edge), (3, 4)) in judged;
  }
}
