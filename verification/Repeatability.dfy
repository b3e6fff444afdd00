/**
 * When a rebuild over an unchanged archive repeats itself (`derived/rebuild.py`): the numbers
 * of the label propagation never show, and its partition always does.
 */
module Repeatability {
  import opened Order
  import opened Communities
  import opened Stores
  import opened Rebuild

  /** One circle node for each circle, under its key, whatever else the rows say. */
  ghost predicate DigestKeyed(a: Analyses, minSize: int, digest: set<nat> -> Text,
                              rows: (Ground, map<Text, set<nat>>) -> Circles)
    requires IsDigest(digest)
  {
    && (forall ground: Ground, numbers: map<Text, nat> {:trigger a.circles(ground, numbers)} ::
          a.circles(ground, numbers) == rows(ground, CirclesOf(numbers, minSize, digest)))
    && (forall ground: Ground, circles: map<Text, set<nat>>, key: Text
          {:trigger Names(rows(ground, circles).communities, key)} ::
          Names(rows(ground, circles).communities, key) <==> key in circles)
  }

  /** What the label propagation answers in the middle of a run. */
  ghost function Propagated(a: Analyses, ground: Ground, seed: nat): map<Text, nat> {
    a.propagation(ground, CoAddressedOf(Ranked(a, Corresponded(a, Bare(ground)))), seed)
  }

  /** The keys of two families of circles are the same only if the circles are. */
  lemma KeysDetermine(circles: map<Text, set<nat>>, circles': map<Text, set<nat>>, sets: set<set<nat>>,
                      sets': set<set<nat>>, digest: set<nat> -> Text)
    requires IsDigest(digest) && KeyedBy(circles, sets, digest) && KeyedBy(circles', sets', digest)
    requires circles.Keys == circles'.Keys
    ensures sets <= sets'
  {
    forall members | members in sets ensures members in sets' {
      var key := digest(members);
      assert key in circles';
      assert digest(circles'[key]) == digest(members);
    }
  }

  lemma RankedGround(a: Analyses, ground: Ground)
    ensures Ranked(a, Corresponded(a, Bare(ground))).ground == ground
  {
    CorrespondedHolds(a, ground, Circles([], [], []));
    GroundStays(Corresponded(a, Bare(ground)), SetRanks(a.rankVersion), a.addressRanks(ground));
  }

  lemma CircleNodes(a: Analyses, ground: Ground, seed: nat, key: Text)
    ensures Node(COMMUNITY, key) in Rebuilt(a, ground, seed).nodes
       <==> Names(a.circles(ground, Propagated(a, ground, seed)).communities, key)
  {
    RankedGround(a, ground);
    RebuiltHoldsTheFindings(a, ground, seed);
    var circles := FoundCircles(a, Ranked(a, Corresponded(a, Bare(ground))), seed);
    assert NodeRows(a, ground, circles, COMMUNITY) == circles.communities;
  }

  /** Its circle nodes are keyed like the circles of its partition. */
  lemma CircleKeys(a: Analyses, minSize: int, digest: set<nat> -> Text,
                   rows: (Ground, map<Text, set<nat>>) -> Circles, ground: Ground, seed: nat, key: Text)
    requires IsDigest(digest) && DigestKeyed(a, minSize, digest, rows)
    ensures Node(COMMUNITY, key) in Rebuilt(a, ground, seed).nodes
       <==> key in CirclesOf(Propagated(a, ground, seed), minSize, digest)
  {
    CircleNodes(a, ground, seed, key);
    var circles := CirclesOf(Propagated(a, ground, seed), minSize, digest);
    assert a.circles(ground, Propagated(a, ground, seed)) == rows(ground, circles);
    assert Names(rows(ground, circles).communities, key) <==> key in circles;
  }

  lemma SameGraphSameKeys(a: Analyses, minSize: int, digest: set<nat> -> Text,
                          rows: (Ground, map<Text, set<nat>>) -> Circles, ground: Ground, seed: nat, seed': nat)
    requires IsDigest(digest) && DigestKeyed(a, minSize, digest, rows)
    requires Rebuilt(a, ground, seed) == Rebuilt(a, ground, seed')
    ensures CirclesOf(Propagated(a, ground, seed), minSize, digest).Keys
         == CirclesOf(Propagated(a, ground, seed'), minSize, digest).Keys
  {
    forall key
      ensures key in CirclesOf(Propagated(a, ground, seed), minSize, digest)
         <==> key in CirclesOf(Propagated(a, ground, seed'), minSize, digest)
    {
      CircleKeys(a, minSize, digest, rows, ground, seed, key);
      CircleKeys(a, minSize, digest, rows, ground, seed', key);
    }
  }

  /** Two runs that leave one graph have found the same circles. */
  lemma SameGraphSameCircles(a: Analyses, minSize: int, digest: set<nat> -> Text,
                             rows: (Ground, map<Text, set<nat>>) -> Circles, ground: Ground, seed: nat, seed': nat)
    requires IsDigest(digest) && DigestKeyed(a, minSize, digest, rows)
    requires Rebuilt(a, ground, seed) == Rebuilt(a, ground, seed')
    ensures CircleSets(Propagated(a, ground, seed), minSize) <= CircleSets(Propagated(a, ground, seed'), minSize)
  {
    var one, other := Propagated(a, ground, seed), Propagated(a, ground, seed');
    SameGraphSameKeys(a, minSize, digest, rows, ground, seed, seed');
    KeysDetermine(CirclesOf(one, minSize, digest), CirclesOf(other, minSize, digest), CircleSets(one, minSize),
                  CircleSets(other, minSize), digest);
  }

  lemma SameCirclesSameGraph(a: Analyses, minSize: int, digest: set<nat> -> Text,
                             rows: (Ground, map<Text, set<nat>>) -> Circles, ground: Ground, seed: nat, seed': nat)
    requires IsDigest(digest) && DigestKeyed(a, minSize, digest, rows)
    requires CircleSets(Propagated(a, ground, seed), minSize) == CircleSets(Propagated(a, ground, seed'), minSize)
    ensures Rebuilt(a, ground, seed) == Rebuilt(a, ground, seed')
  {
    var ranked := Ranked(a, Corresponded(a, Bare(ground)));
    RankedGround(a, ground);
    assert CirclesOf(Propagated(a, ground, seed), minSize, digest)
        == CirclesOf(Propagated(a, ground, seed'), minSize, digest);
    assert FoundCircles(a, ranked, seed) == FoundCircles(a, ranked, seed');
  }

  /** Two runs over one archive leave the same graph exactly when the propagation found the same circles. */
  lemma RepeatsExactlyOnCircles(a: Analyses, minSize: int, digest: set<nat> -> Text,
                                rows: (Ground, map<Text, set<nat>>) -> Circles, ground: Ground, seed: nat, seed': nat)
    requires IsDigest(digest) && DigestKeyed(a, minSize, digest, rows)
    ensures Rebuilt(a, ground, seed) == Rebuilt(a, ground, seed')
       <==> CircleSets(Propagated(a, ground, seed), minSize) == CircleSets(Propagated(a, ground, seed'), minSize)
  {
    if Rebuilt(a, ground, seed) == Rebuilt(a, ground, seed') {
      SameGraphSameCircles(a, minSize, digest, rows, ground, seed, seed');
      SameGraphSameCircles(a, minSize, digest, rows, ground, seed', seed);
    }
    if CircleSets(Propagated(a, ground, seed), minSize) == CircleSets(Propagated(a, ground, seed'), minSize) {
      SameCirclesSameGraph(a, minSize, digest, rows, ground, seed, seed');
    }
  }

  // ----- An ambiguous partition

  /** Two triangles with one edge between them, read as two circles. */
  const APART: map<Text, nat> := map[1 := 7, 2 := 7, 3 := 7, 4 := 8, 5 := 8, 6 := 8]

  /** The same six addresses, read as one. */
  const TOGETHER: map<Text, nat> := map[1 := 7, 2 := 7, 3 := 7, 4 := 7, 5 := 7, 6 := 7]

  lemma TwoReadings(minSize: int)
    requires minSize <= 3
    ensures CircleSets(APART, minSize) != CircleSets(TOGETHER, minSize)
  {
    assert Mates(TOGETHER, 1) == {1, 2, 3, 4, 5, 6};
    assert |{1, 2, 3, 4, 5, 6}| == 6;
    assert Mates(TOGETHER, 1) in CircleSets(TOGETHER, minSize);
    forall members | members in CircleSets(APART, minSize) ensures members != Mates(TOGETHER, 1) {
      var address :| address in APART && members == Mates(APART, address);
      assert 1 !in members || 4 !in members;
    }
  }

  /** A propagation that may answer either way. */
  function Wavering(a: Analyses): Analyses {
    a.(propagation := (ground, edges, seed) => if seed == 0 then APART else TOGETHER)
  }

  /** With it an unchanged archive has two graphs, whatever the other analyses are. */
  lemma AmbiguityShows(a: Analyses, minSize: int, digest: set<nat> -> Text,
                       rows: (Ground, map<Text, set<nat>>) -> Circles, ground: Ground)
    requires IsDigest(digest) && minSize <= 3 && DigestKeyed(a, minSize, digest, rows)
    ensures Rebuilt(Wavering(a), ground, 0) != Rebuilt(Wavering(a), ground, 1)
  {
    var wavering := Wavering(a);
    assert forall numbers: map<Text, nat>, other: Ground {:trigger wavering.circles(other, numbers)} ::
        wavering.circles(other, numbers) == a.circles(other, numbers);
    TwoReadings(minSize);
    RepeatsExactlyOnCircles(wavering, minSize, digest, rows, ground, 0, 1);
  }
}
