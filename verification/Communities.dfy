/**
 * From a label propagation to circles (`derived/communities.py`): keyed by digests of their
 * members, with each message counted by its people and placed in one of them or in none.
 */
module Communities {
  import opened Order
  import opened Facts

  // ----- `_circles`

  /** The addresses the propagation gave one number. */
  function Mates(membership: map<nat, nat>, address: nat): set<nat>
    requires address in membership
  {
    set other | other in membership && membership[other] == membership[address]
  }

  /** The partition behind the numbers, small circles dropped. */
  function CircleSets(membership: map<nat, nat>, minSize: int): set<set<nat>> {
    set address | address in membership && |Mates(membership, address)| >= minSize :: Mates(membership, address)
  }

  /** `community_id`: a digest no two member sets share. */
  ghost predicate IsDigest(digest: set<nat> -> Text) {
    forall a, b {:trigger digest(a), digest(b)} | digest(a) == digest(b) :: a == b
  }

  /** The circles under the digests of their members. */
  ghost predicate KeyedBy(circles: map<Text, set<nat>>, sets: set<set<nat>>, digest: set<nat> -> Text) {
    && (forall members | members in sets :: digest(members) in circles)
    && (forall key | key in circles :: circles[key] in sets && digest(circles[key]) == key)
  }

  ghost predicate Grouped(grouped: map<nat, set<nat>>, membership: map<nat, nat>, seen: set<nat>) {
    && (forall address | address in seen :: address in membership && membership[address] in grouped)
    && (forall number | number in grouped ::
          && grouped[number] != {}
          && grouped[number] == set address | address in seen && membership[address] == number)
  }

  /** One more address under its number. */
  function Append(grouped: map<nat, set<nat>>, number: nat, address: nat): map<nat, set<nat>> {
    grouped[number := (if number in grouped then grouped[number] else {}) + {address}]
  }

  lemma GroupedGrows(grouped: map<nat, set<nat>>, membership: map<nat, nat>, seen: set<nat>, address: nat)
    requires Grouped(grouped, membership, seen) && address in membership
    ensures Grouped(Append(grouped, membership[address], address), membership, seen + {address})
  {
    var after := Append(grouped, membership[address], address);
    forall number | number in after
      ensures after[number] == set other | other in seen + {address} && membership[other] == number
    {
      if number == membership[address] && number !in grouped {
        assert forall other | other in seen :: membership[other] != number;
      }
    }
  }

  method Group(membership: map<nat, nat>) returns (grouped: map<nat, set<nat>>)
    ensures Grouped(grouped, membership, membership.Keys)
  {
    grouped := map[];
    var rest := membership.Keys;
    while rest != {}
      invariant rest <= membership.Keys
      invariant Grouped(grouped, membership, membership.Keys - rest)
      decreases |rest|
    {
      var address :| address in rest;
      GroupedGrows(grouped, membership, membership.Keys - rest, address);
      assert membership.Keys - rest + {address} == membership.Keys - (rest - {address});
      grouped := Append(grouped, membership[address], address);
      rest := rest - {address};
    }
    assert membership.Keys - rest == membership.Keys;
  }

  /** What the second half of `_circles` keeps of the numbers walked so far. */
  ghost predicate Collected(circles: map<Text, set<nat>>, grouped: map<nat, set<nat>>, numbers: set<nat>, minSize: int,
                            digest: set<nat> -> Text)
  {
    && (forall number | number in numbers && number in grouped && |grouped[number]| >= minSize ::
          digest(grouped[number]) in circles)
    && (forall key | key in circles :: digest(circles[key]) == key && |circles[key]| >= minSize
                                       && exists number :: number in grouped && grouped[number] == circles[key])
  }

  lemma CollectedGrows(circles: map<Text, set<nat>>, grouped: map<nat, set<nat>>, numbers: set<nat>, minSize: int,
                       digest: set<nat> -> Text, number: nat)
    requires Collected(circles, grouped, numbers, minSize, digest) && number in grouped
    ensures |grouped[number]| >= minSize ==>
              Collected(circles[digest(grouped[number]) := grouped[number]], grouped, numbers + {number}, minSize,
                        digest)
    ensures |grouped[number]| < minSize ==> Collected(circles, grouped, numbers + {number}, minSize, digest)
  {}

  lemma CollectedAll(circles: map<Text, set<nat>>, grouped: map<nat, set<nat>>, membership: map<nat, nat>, minSize: int,
                     digest: set<nat> -> Text)
    requires Grouped(grouped, membership, membership.Keys) && IsDigest(digest)
    requires Collected(circles, grouped, grouped.Keys, minSize, digest)
    ensures KeyedBy(circles, CircleSets(membership, minSize), digest)
  {
    forall address | address in membership ensures grouped[membership[address]] == Mates(membership, address) {}
    forall key | key in circles ensures circles[key] in CircleSets(membership, minSize) {
      var number :| number in grouped && grouped[number] == circles[key];
      var address :| address in grouped[number];
      assert Mates(membership, address) == circles[key];
    }
  }

  method FindCircles(membership: map<nat, nat>, minSize: int, digest: set<nat> -> Text)
        returns (circles: map<Text, set<nat>>)
    requires IsDigest(digest)
    ensures KeyedBy(circles, CircleSets(membership, minSize), digest)
  {
    var grouped := Group(membership);
    circles := map[];
    var rest := grouped.Keys;
    while rest != {}
      invariant rest <= grouped.Keys
      invariant Collected(circles, grouped, grouped.Keys - rest, minSize, digest)
      decreases |rest|
    {
      var number :| number in rest;
      CollectedGrows(circles, grouped, grouped.Keys - rest, minSize, digest, number);
      assert grouped.Keys - rest + {number} == grouped.Keys - (rest - {number});
      if |grouped[number]| >= minSize {
        circles := circles[digest(grouped[number]) := grouped[number]];
      }
      rest := rest - {number};
    }
    assert grouped.Keys - rest == grouped.Keys;
    CollectedAll(circles, grouped, membership, minSize, digest);
  }

  ghost predicate Disjoint(circles: map<Text, set<nat>>) {
    forall a, b | a in circles && b in circles && a != b :: circles[a] !! circles[b]
  }

  lemma SharedMember(membership: map<nat, nat>, one: nat, other: nat, both: nat)
    requires one in membership && other in membership
    requires both in Mates(membership, one) && both in Mates(membership, other)
    ensures Mates(membership, one) == Mates(membership, other)
  {}

  lemma SharedCircle(circles: map<Text, set<nat>>, membership: map<nat, nat>, minSize: int, digest: set<nat> -> Text,
                     a: Text, b: Text, both: nat)
    requires KeyedBy(circles, CircleSets(membership, minSize), digest)
    requires a in circles && b in circles && both in circles[a] && both in circles[b]
    ensures a == b
  {
    var one :| one in membership && Mates(membership, one) == circles[a];
    var other :| other in membership && Mates(membership, other) == circles[b];
    SharedMember(membership, one, other, both);
  }

  /** Circles of one partition share no address. */
  lemma CirclesDisjoint(circles: map<Text, set<nat>>, membership: map<nat, nat>, minSize: int, digest: set<nat> -> Text)
    requires KeyedBy(circles, CircleSets(membership, minSize), digest)
    ensures Disjoint(circles)
  {
    forall a, b, both | a in circles && b in circles && both in circles[a] && both in circles[b] ensures a == b {
      SharedCircle(circles, membership, minSize, digest, a, b, both);
    }
  }

  /** `_circles` as a function of the numbering. */
  ghost function CirclesOf(membership: map<nat, nat>, minSize: int, digest: set<nat> -> Text): (r: map<Text, set<nat>>)
    requires IsDigest(digest)
    ensures KeyedBy(r, CircleSets(membership, minSize), digest)
  {
    var sets := CircleSets(membership, minSize);
    map members | members in sets :: digest(members) := members
  }

  /** Two numberings of one partition. */
  ghost predicate SamePartition(one: map<nat, nat>, other: map<nat, nat>) {
    && one.Keys == other.Keys
    && forall a, b | a in one && b in one :: one[a] == one[b] <==> other[a] == other[b]
  }

  /** Whatever numbers the propagation hands out, the circles are the same circles under the same keys. */
  lemma NumbersDoNotMatter(one: map<nat, nat>, other: map<nat, nat>, circles: map<Text, set<nat>>,
                           circles': map<Text, set<nat>>, minSize: int, digest: set<nat> -> Text)
    requires SamePartition(one, other) && IsDigest(digest)
    requires KeyedBy(circles, CircleSets(one, minSize), digest) && KeyedBy(circles', CircleSets(other, minSize), digest)
    ensures CircleSets(one, minSize) == CircleSets(other, minSize)
    ensures circles == circles'
  {
    forall a | a in one ensures Mates(one, a) == Mates(other, a) {}
    assert CircleSets(one, minSize) == CircleSets(other, minSize);
    forall key | key in circles ensures key in circles' && circles'[key] == circles[key] {
      assert digest(circles[key]) == key && key in circles';
      assert digest(circles'[key]) == key;
    }
    forall key | key in circles' ensures key in circles {
      assert digest(circles'[key]) == key;
    }
  }

  // ----- The share, per circle

  function Ratio(some: nat, all: nat): real
    requires all > 0
  {
    some as real / all as real
  }

  /** The part of the people on a message who belong to a circle. */
  function Share(people: set<nat>, members: set<nat>): real
    requires people != {}
  {
    Ratio(|people * members|, |people|)
  }

  /** Circle by circle: enough of the people are members. */
  predicate Qualifies(people: set<nat>, members: set<nat>, minShare: real) {
    people != {} && Share(people, members) >= minShare
  }

  /** A circle with a member among the people on a message. */
  predicate Touched(people: set<nat>, members: set<nat>) {
    people * members != {}
  }

  /** The circles a message may go to: somebody on it is a member, and enough of them are. */
  predicate Eligible(people: set<nat>, members: set<nat>, minShare: real) {
    Touched(people, members) && Qualifies(people, members, minShare)
  }

  /** The largest share among these circles, ties to the smallest id. */
  ghost predicate IsPlace(people: set<nat>, circles: map<Text, set<nat>>, minShare: real, key: Text) {
    && key in circles && Eligible(people, circles[key], minShare)
    && forall other | other in circles && Eligible(people, circles[other], minShare) ::
         || Share(people, circles[other]) < Share(people, circles[key])
         || (Share(people, circles[other]) == Share(people, circles[key]) && key <= other)
  }

  lemma OnePlace(people: set<nat>, circles: map<Text, set<nat>>, minShare: real, one: Text, other: Text)
    requires IsPlace(people, circles, minShare, one) && IsPlace(people, circles, minShare, other)
    ensures one == other
  {}

  // ----- `_placements`, from the participants

  ghost predicate Inverted(circleOf: map<nat, Text>, circles: map<Text, set<nat>>) {
    && (forall address | address in circleOf :: circleOf[address] in circles && address in circles[circleOf[address]])
    && (forall key, address | key in circles && address in circles[key] :: address in circleOf)
  }

  /** The circle of every address that has one. */
  method Invert(circles: map<Text, set<nat>>) returns (circleOf: map<nat, Text>)
    ensures Inverted(circleOf, circles)
  {
    circleOf := map[];
    var rest := circles.Keys;
    while rest != {}
      invariant rest <= circles.Keys
      invariant forall address | address in circleOf ::
            circleOf[address] in circles && address in circles[circleOf[address]]
      invariant forall key, address | key in circles && key !in rest && address in circles[key] :: address in circleOf
      decreases |rest|
    {
      var key :| key in rest;
      circleOf := circleOf + map address | address in circles[key] :: key;
      rest := rest - {key};
    }
  }

  ghost predicate Counted(hits: map<Text, nat>, seen: set<nat>, circles: map<Text, set<nat>>) {
    && hits.Keys <= circles.Keys
    && forall key | key in circles :: if Touched(seen, circles[key]) then key in hits
          && hits[key] == |seen * circles[key]|
                                      else key !in hits
  }

  function Hit(hits: map<Text, nat>, key: Text): map<Text, nat> {
    hits[key := (if key in hits then hits[key] else 0) + 1]
  }

  lemma HitOne(hits: map<Text, nat>, seen: set<nat>, members: set<nat>, key: Text, person: nat)
    requires person !in seen
    requires if Touched(seen, members) then key in hits && hits[key] == |seen * members| else key !in hits
    ensures person in members ==> key in Hit(hits, key) && Hit(hits, key)[key] == |(seen + {person}) * members|
    ensures person !in members ==> (seen + {person}) * members == seen * members
  {
    if person in members {
      assert (seen + {person}) * members == seen * members + {person};
    } else {
      assert (seen + {person}) * members == seen * members;
    }
  }

  lemma CountedGrows(hits: map<Text, nat>, seen: set<nat>, circles: map<Text, set<nat>>, circleOf: map<nat, Text>,
                     person: nat)
    requires Counted(hits, seen, circles) && Inverted(circleOf, circles) && Disjoint(circles) && person !in seen
    ensures if person in circleOf then Counted(Hit(hits, circleOf[person]), seen + {person}, circles)
            else Counted(hits, seen + {person}, circles)
  {
    forall key | key in circles
      ensures person in circles[key] <==> person in circleOf && circleOf[person] == key
      ensures person in circles[key] ==>
                key in Hit(hits, key) && Hit(hits, key)[key] == |(seen + {person}) * circles[key]|
      ensures person !in circles[key] ==> (seen + {person}) * circles[key] == seen * circles[key]
    {
      HitOne(hits, seen, circles[key], key, person);
    }
  }

  method CountHits(people: set<nat>, circles: map<Text, set<nat>>, circleOf: map<nat, Text>)
        returns (hits: map<Text, nat>)
    requires Inverted(circleOf, circles) && Disjoint(circles)
    ensures Counted(hits, people, circles)
  {
    hits := map[];
    var rest := people;
    while rest != {}
      invariant rest <= people
      invariant Counted(hits, people - rest, circles)
      decreases |rest|
    {
      var person :| person in rest;
      CountedGrows(hits, people - rest, circles, circleOf, person);
      assert people - rest + {person} == people - (rest - {person});
      if person in circleOf {
        hits := Hit(hits, circleOf[person]);
      }
      rest := rest - {person};
    }
    assert people - rest == people;
  }

  datatype Best = Best(share: real, key: Text)

  /** A key that does not reach the minimum, or does no better than the best. */
  ghost predicate Beaten(best: Option<Best>, share: real, key: Text, minShare: real) {
    share >= minShare ==>
      && best.Some?
      && (share < best.value.share || (share == best.value.share && best.value.key <= key))
  }

  /** The best of the keys looked at so far. */
  ghost predicate BestOf(best: Option<Best>, hits: map<Text, nat>, size: nat, minShare: real, keys: set<Text>)
    requires size > 0
  {
    && (best.Some? ==> best.value.key in hits && best.value.share == Ratio(hits[best.value.key], size)
                       && best.value.share >= minShare)
    && forall key | key in keys && key in hits :: Beaten(best, Ratio(hits[key], size), key, minShare)
  }

  /** The next larger key takes over only with a larger share. */
  lemma BestGrows(best: Option<Best>, hits: map<Text, nat>, size: nat, minShare: real, keys: set<Text>, key: Text)
    requires size > 0 && key in hits && BestOf(best, hits, size, minShare, keys)
    requires best.Some? ==> best.value.key < key
    ensures var share := Ratio(hits[key], size);
            var taken := share >= minShare && (best.None? || share > best.value.share);
            BestOf(if taken then Some(Best(share, key)) else best, hits, size, minShare, keys + {key})
  {}

  method Choose(hits: map<Text, nat>, size: nat, minShare: real) returns (best: Option<Best>)
    requires size > 0
    ensures BestOf(best, hits, size, minShare, hits.Keys)
  {
    best := None;
    assert Walked([], 0) == {};
    var keys := Sorted(hits.Keys);
    for i := 0 to |keys|
      invariant best.Some? ==> best.value.key in Walked(keys, i)
      invariant BestOf(best, hits, size, minShare, Walked(keys, i))
    {
      var key := keys[i];
      WalkedNext(hits.Keys, keys, i);
      BestGrows(best, hits, size, minShare, Walked(keys, i), key);
      var share := Ratio(hits[key], size);
      if share < minShare {
        continue;
      }
      if best.None? || share > best.value.share {
        best := Some(Best(share, key));
      }
    }
    WalkedAll(hits.Keys, keys);
  }

  ghost function Walked(keys: seq<Text>, n: nat): set<Text>
    requires n <= |keys|
  {
    set key | key in keys[..n]
  }

  lemma WalkedNext(all: set<Text>, keys: seq<Text>, i: nat)
    requires Increasing(keys) && i < |keys| && forall key :: key in keys <==> key in all
    ensures Walked(keys, i + 1) == Walked(keys, i) + {keys[i]}
    ensures keys[i] in all && forall other | other in Walked(keys, i) :: other < keys[i]
  {
    assert keys[i] in keys;
    assert keys[..i + 1] == keys[..i] + [keys[i]];
    forall other | other in Walked(keys, i) ensures other < keys[i] {
      var j :| 0 <= j < i && keys[..i][j] == other;
    }
  }

  lemma WalkedAll(all: set<Text>, keys: seq<Text>)
    requires keys == Sorted(all)
    ensures Walked(keys, |keys|) == all
  {
    assert keys[..|keys|] == keys;
  }

  /** Where one message goes: the place the definition names, or nowhere when it names none. */
  ghost predicate PlacedAt(best: Option<Best>, people: set<nat>, circles: map<Text, set<nat>>, minShare: real) {
    match best
    case None => forall key | key in circles :: !Eligible(people, circles[key], minShare)
    case Some(found) =>
      IsPlace(people, circles, minShare, found.key) && found.share == Share(people, circles[found.key])
  }

  lemma BestIsPlace(best: Option<Best>, hits: map<Text, nat>, people: set<nat>, circles: map<Text, set<nat>>,
                    minShare: real)
    requires people != {} && Counted(hits, people, circles)
    requires BestOf(best, hits, |people|, minShare, hits.Keys)
    ensures PlacedAt(best, people, circles, minShare)
  {
    forall key | key in circles && Eligible(people, circles[key], minShare)
      ensures best.Some?
      ensures || Share(people, circles[key]) < best.value.share
              || (Share(people, circles[key]) == best.value.share && best.value.key <= key)
    {
      assert Beaten(best, Ratio(hits[key], |people|), key, minShare);
    }
  }

  /** One message, walked from its people. */
  method Place(people: set<nat>, circles: map<Text, set<nat>>, circleOf: map<nat, Text>, minShare: real)
    returns (best: Option<Best>)
    requires Inverted(circleOf, circles) && Disjoint(circles)
    ensures PlacedAt(best, people, circles, minShare)
  {
    if people == {} {
      return None;
    }
    var hits := CountHits(people, circles, circleOf);
    best := Choose(hits, |people|, minShare);
    BestIsPlace(best, hits, people, circles, minShare);
  }

  // ----- The share alone

  /** The place by the share alone, whether or not anybody on the message is a member. */
  ghost predicate PlacedByShare(best: Option<Best>, people: set<nat>, circles: map<Text, set<nat>>, minShare: real) {
    match best
    case None => forall key | key in circles :: !Qualifies(people, circles[key], minShare)
    case Some(found) =>
      && found.key in circles && Qualifies(people, circles[found.key], minShare)
      && found.share == Share(people, circles[found.key])
      && forall other | other in circles && Qualifies(people, circles[other], minShare) ::
           || Share(people, circles[other]) < found.share
           || (Share(people, circles[other]) == found.share && found.key <= other)
  }

  /** What `_circles` can produce: nobody in two of them, and none empty. */
  ghost predicate Proper(circles: map<Text, set<nat>>) {
    Disjoint(circles) && forall key | key in circles :: circles[key] != {}
  }

  /** With a positive minimum a qualifying circle is one somebody belongs to. */
  lemma QualifyingIsTouched(people: set<nat>, members: set<nat>, minShare: real)
    requires minShare > 0.0 && Qualifies(people, members, minShare)
    ensures Touched(people, members)
  {}

  lemma PlacedBySharePositive(best: Option<Best>, people: set<nat>, circles: map<Text, set<nat>>, minShare: real)
    requires minShare > 0.0
    ensures PlacedAt(best, people, circles, minShare) <==> PlacedByShare(best, people, circles, minShare)
  {
    forall key | key in circles
      ensures Qualifies(people, circles[key], minShare) <==> Eligible(people, circles[key], minShare)
    {
      if Qualifies(people, circles[key], minShare) {
        QualifyingIsTouched(people, circles[key], minShare);
      }
    }
  }

  lemma UntouchedQualifies(minShare: real)
    requires minShare <= 0.0
    ensures Proper(map[1 := {2}])
    ensures PlacedAt(None, {1}, map[1 := {2}], minShare) && !PlacedByShare(None, {1}, map[1 := {2}], minShare)
  {
    var circles: map<Text, set<nat>> := map[1 := {2}];
    assert {1} * circles[1] == {};
    assert Share({1}, circles[1]) == 0.0;
    assert Qualifies({1}, circles[1], minShare);
  }

  /**
   * Walking from the participants gives what comparing every circle's share gives, on all
   * messages and circles, exactly when the minimum share is positive.
   */
  lemma PositiveMinimumIsNeeded(minShare: real)
    ensures minShare > 0.0
       <==> forall best: Option<Best>, people: set<nat>, circles: map<Text, set<nat>>
              {:trigger PlacedAt(best, people, circles, minShare)} |
              Proper(circles) && PlacedAt(best, people, circles, minShare) ::
              PlacedByShare(best, people, circles, minShare)
  {
    if minShare > 0.0 {
      forall best: Option<Best>, people: set<nat>, circles: map<Text, set<nat>> |
        PlacedAt(best, people, circles, minShare)
        ensures PlacedByShare(best, people, circles, minShare)
      {
        PlacedBySharePositive(best, people, circles, minShare);
      }
    } else {
      UntouchedQualifies(minShare);
    }
  }

  // ----- All messages

  /** A message stands under the place the definition names, with its share, and under no other. */
  ghost predicate PlacedRight(placed: map<Text, map<nat, real>>, one: MessageFacts, circles: map<Text, set<nat>>,
                              minShare: real, round: real -> real)
  {
    forall key | key in circles ::
      && key in placed
      && (one.id in placed[key] <==> IsPlace(one.participants, circles, minShare, key))
      && (one.id in placed[key] ==> placed[key][one.id] == round(Share(one.participants, circles[key])))
  }

  ghost predicate AllPlaced(placed: map<Text, map<nat, real>>, facts: seq<MessageFacts>, circles: map<Text, set<nat>>,
                            minShare: real, round: real -> real)
  {
    && placed.Keys == circles.Keys
    && (forall i | 0 <= i < |facts| :: PlacedRight(placed, facts[i], circles, minShare, round))
    && (forall key, id | key in placed && id in placed[key] :: id in Ids(facts))
  }

  /** One more message under its best circle, if it has one. */
  function Entered(placed: map<Text, map<nat, real>>, id: nat, best: Option<Best>, round: real -> real)
    : map<Text, map<nat, real>>
    requires best.Some? ==> best.value.key in placed
  {
    match best
    case None => placed
    case Some(found) =>
      var messages: map<nat, real> := placed[found.key][id := round(found.share)];
      placed[found.key := messages]
  }

  method Placements(facts: seq<MessageFacts>, circles: map<Text, set<nat>>, minShare: real, round: real -> real)
    returns (placed: map<Text, map<nat, real>>)
    requires DistinctIds(facts) && Disjoint(circles)
    ensures AllPlaced(placed, facts, circles, minShare, round)
  {
    var circleOf := Invert(circles);
    placed := map key | key in circles :: map[];
    for i := 0 to |facts|
      invariant AllPlaced(placed, facts[..i], circles, minShare, round)
    {
      var best := Place(facts[i].participants, circles, circleOf, minShare);
      PlacedGrows(placed, facts, i, circles, minShare, round, best);
      if best.Some? {
        placed := placed[best.value.key := placed[best.value.key][facts[i].id := round(best.value.share)]];
      }
    }
    assert facts[..|facts|] == facts;
  }

  lemma EnteredOthers(placed: map<Text, map<nat, real>>, id: nat, best: Option<Best>, one: MessageFacts,
                      circles: map<Text, set<nat>>, minShare: real, round: real -> real)
    requires best.Some? ==> best.value.key in placed
    requires one.id != id && PlacedRight(placed, one, circles, minShare, round)
    ensures PlacedRight(Entered(placed, id, best, round), one, circles, minShare, round)
  {}

  lemma EnteredItself(placed: map<Text, map<nat, real>>, best: Option<Best>, one: MessageFacts,
                      circles: map<Text, set<nat>>, minShare: real, round: real -> real)
    requires placed.Keys == circles.Keys && PlacedAt(best, one.participants, circles, minShare)
    requires forall key | key in placed :: one.id !in placed[key]
    ensures PlacedRight(Entered(placed, one.id, best, round), one, circles, minShare, round)
  {
    forall key | key in circles && IsPlace(one.participants, circles, minShare, key)
      ensures best.Some? && best.value.key == key
    {
      OnePlace(one.participants, circles, minShare, best.value.key, key);
    }
  }

  lemma PlacedGrows(placed: map<Text, map<nat, real>>, facts: seq<MessageFacts>, i: nat, circles: map<Text, set<nat>>,
                    minShare: real, round: real -> real, best: Option<Best>)
    requires DistinctIds(facts) && i < |facts| && AllPlaced(placed, facts[..i], circles, minShare, round)
    requires PlacedAt(best, facts[i].participants, circles, minShare)
    ensures AllPlaced(Entered(placed, facts[i].id, best, round), facts[..i + 1], circles, minShare, round)
  {
    var one, after := facts[i], Entered(placed, facts[i].id, best, round);
    assert facts[..i + 1] == facts[..i] + [one];
    assert Ids(facts[..i + 1]) == Ids(facts[..i]) + {one.id};
    assert one.id !in Ids(facts[..i]);
    EnteredItself(placed, best, one, circles, minShare, round);
    forall j | 0 <= j < i ensures PlacedRight(after, facts[j], circles, minShare, round) {
      assert facts[j] == facts[..i][j];
      EnteredOthers(placed, one.id, best, facts[j], circles, minShare, round);
    }
  }

  /** The facts and the circles decide where everything stands, in whatever order the facts come. */
  lemma PlacedUnique(a: map<Text, map<nat, real>>, b: map<Text, map<nat, real>>, facts: seq<MessageFacts>,
                     facts': seq<MessageFacts>, circles: map<Text, set<nat>>, minShare: real, round: real -> real)
    requires AllPlaced(a, facts, circles, minShare, round) && AllPlaced(b, facts', circles, minShare, round)
    requires forall one :: one in facts <==> one in facts'
    ensures a == b
  {
    forall key | key in circles ensures a[key] == b[key] {
      PlacedSame(a, b, facts, facts', circles, minShare, round, key);
      PlacedSame(b, a, facts', facts, circles, minShare, round, key);
    }
  }

  lemma RightAt(placed: map<Text, map<nat, real>>, facts: seq<MessageFacts>, circles: map<Text, set<nat>>,
                minShare: real, round: real -> real, one: MessageFacts)
    requires AllPlaced(placed, facts, circles, minShare, round) && one in facts
    ensures PlacedRight(placed, one, circles, minShare, round)
  {
    var i :| 0 <= i < |facts| && facts[i] == one;
  }

  /** Whatever stands under a circle is one of the messages. */
  lemma PlacedFrom(placed: map<Text, map<nat, real>>, facts: seq<MessageFacts>, circles: map<Text, set<nat>>,
                   minShare: real, round: real -> real, key: Text, id: nat)
    returns (one: MessageFacts)
    requires AllPlaced(placed, facts, circles, minShare, round) && key in placed && id in placed[key]
    ensures one in facts && one.id == id && PlacedRight(placed, one, circles, minShare, round)
  {
    assert id in Ids(facts);
    one :| one in facts && one.id == id;
    RightAt(placed, facts, circles, minShare, round, one);
  }

  lemma PlacedSame(a: map<Text, map<nat, real>>, b: map<Text, map<nat, real>>, facts: seq<MessageFacts>,
                   facts': seq<MessageFacts>, circles: map<Text, set<nat>>, minShare: real, round: real -> real,
                   key: Text)
    requires AllPlaced(a, facts, circles, minShare, round) && AllPlaced(b, facts', circles, minShare, round)
    requires key in circles && forall one :: one in facts <==> one in facts'
    ensures forall id | id in a[key] :: id in b[key] && b[key][id] == a[key][id]
  {
    forall id | id in a[key] ensures id in b[key] && b[key][id] == a[key][id] {
      var one := PlacedFrom(a, facts, circles, minShare, round, key, id);
      RightAt(b, facts', circles, minShare, round, one);
    }
  }

  /** No message circulates in two circles. */
  lemma OneCircleEach(placed: map<Text, map<nat, real>>, facts: seq<MessageFacts>, circles: map<Text, set<nat>>,
                      minShare: real, round: real -> real, one: Text, other: Text, id: nat)
    requires AllPlaced(placed, facts, circles, minShare, round)
    requires one in placed && other in placed && id in placed[one] && id in placed[other]
    ensures one == other
  {
    var message := PlacedFrom(placed, facts, circles, minShare, round, one, id);
    OnePlace(message.participants, circles, minShare, one, other);
  }

  // ----- `build_communities`

  function SetOf(facts: seq<MessageFacts>): set<MessageFacts> {
    set one | one in facts
  }

  datatype Config = Config(minSize: int, minShare: real)

  /** What else goes into a circle: the ranks, and how a name and a rounding are chosen. */
  datatype Reading = Reading(ranks: map<nat, real>, naming: (set<nat>, map<nat, real>) -> Text, round: real -> real)

  datatype CommunityFacts = CommunityFacts(id: Text, name: Text, members: map<nat, real>, messages: map<nat, real>,
                                           firstSeen: Option<nat>, lastSeen: Option<nat>)

  datatype CommunityFindings = CommunityFindings(communities: seq<CommunityFacts>, skipped: nat)

  /** When a circle's dated mail was sent. */
  function Dated(messages: map<nat, real>, facts: set<MessageFacts>): seq<nat> {
    Sorted(set one | one in facts && one.id in messages && one.sentAt.Some? :: one.sentAt.value)
  }

  function CommunityOf(key: Text, members: set<nat>, messages: map<nat, real>, facts: set<MessageFacts>,
                       reading: Reading): CommunityFacts
  {
    var dated := Dated(messages, facts);
    CommunityFacts(
      key,
      reading.naming(members, reading.ranks),
      map one | one in members :: if one in reading.ranks then reading.ranks[one] else 0.0,
      messages,
      if dated == [] then None else Some(dated[0]),
      if dated == [] then None else Some(dated[|dated| - 1]))
  }

  /** The circles in the order of their keys. */
  function Listed(keys: seq<Text>, circles: map<Text, set<nat>>, placed: map<Text, map<nat, real>>,
                  facts: set<MessageFacts>, reading: Reading)
    : (r: seq<CommunityFacts>)
    requires forall k | 0 <= k < |keys| :: keys[k] in circles && keys[k] in placed
    ensures |r| == |keys|
    ensures forall k | 0 <= k < |r| :: r[k] == CommunityOf(keys[k], circles[keys[k]], placed[keys[k]], facts, reading)
  {
    if keys == [] then []
    else
      [CommunityOf(keys[0], circles[keys[0]], placed[keys[0]], facts, reading)]
      + Listed(keys[1..], circles, placed, facts, reading)
  }

  lemma KeysKnown(circles: map<Text, set<nat>>)
    ensures forall k | 0 <= k < |Sorted(circles.Keys)| :: Sorted(circles.Keys)[k] in circles
  {
    var keys := Sorted(circles.Keys);
    forall k | 0 <= k < |keys| ensures keys[k] in circles {
      assert keys[k] in keys;
    }
  }

  ghost function CommunitiesOf(circles: map<Text, set<nat>>, placed: map<Text, map<nat, real>>,
                               facts: set<MessageFacts>, reading: Reading): seq<CommunityFacts>
    requires placed.Keys == circles.Keys
  {
    KeysKnown(circles);
    Listed(Sorted(circles.Keys), circles, placed, facts, reading)
  }

  ghost predicate BuiltWith(facts: seq<MessageFacts>, circles: map<Text, set<nat>>, placed: map<Text, map<nat, real>>,
                            reading: Reading, config: Config, communities: seq<CommunityFacts>)
  {
    && AllPlaced(placed, facts, circles, config.minShare, reading.round)
    && communities == CommunitiesOf(circles, placed, SetOf(facts), reading)
  }

  /** What the messages, the numbering and the configuration give. */
  ghost predicate IsBuilt(facts: seq<MessageFacts>, membership: map<nat, nat>, reading: Reading, config: Config,
                          digest: set<nat> -> Text, communities: seq<CommunityFacts>)
    requires IsDigest(digest)
  {
    exists placed ::
      BuiltWith(facts, CirclesOf(membership, config.minSize, digest), placed, reading, config, communities)
  }

  /** Circles keyed, messages placed, everything described. */
  method BuildCommunities(facts: seq<MessageFacts>, membership: map<nat, nat>, reading: Reading, config: Config,
                          digest: set<nat> -> Text, skipped: nat)
    returns (r: CommunityFindings)
    requires DistinctIds(facts) && IsDigest(digest)
    ensures IsBuilt(facts, membership, reading, config, digest, r.communities) && r.skipped == skipped
  {
    var circles := FindCircles(membership, config.minSize, digest);
    CirclesDisjoint(circles, membership, config.minSize, digest);
    ghost var same := CirclesOf(membership, config.minSize, digest);
    NumbersDoNotMatter(membership, membership, circles, same, config.minSize, digest);
    var placed := Placements(facts, circles, config.minShare, reading.round);
    KeysKnown(circles);
    var all := SetOf(facts);
    r := CommunityFindings(Listed(Sorted(circles.Keys), circles, placed, all, reading), skipped);
    assert BuiltWith(facts, same, placed, reading, config, r.communities);
  }

  /**
   * Two numberings of one partition, and the messages in any order: the same circles under the
   * same keys, with the same members, messages, names and dates.
   */
  lemma BuiltIgnoresNumbers(facts: seq<MessageFacts>, facts': seq<MessageFacts>, one: map<nat, nat>,
                            other: map<nat, nat>, reading: Reading, config: Config, digest: set<nat> -> Text,
                            r: seq<CommunityFacts>, r': seq<CommunityFacts>)
    requires IsDigest(digest) && SamePartition(one, other) && forall message :: message in facts <==> message in facts'
    requires IsBuilt(facts, one, reading, config, digest, r) && IsBuilt(facts', other, reading, config, digest, r')
    ensures r == r'
  {
    var circles, circles' := CirclesOf(one, config.minSize, digest), CirclesOf(other, config.minSize, digest);
    NumbersDoNotMatter(one, other, circles, circles', config.minSize, digest);
    var placed :| BuiltWith(facts, circles, placed, reading, config, r);
    var placed' :| BuiltWith(facts', circles', placed', reading, config, r');
    OneBuilding(facts, facts', circles, placed, placed', reading, config, r, r');
  }

  lemma OneBuilding(facts: seq<MessageFacts>, facts': seq<MessageFacts>, circles: map<Text, set<nat>>,
                    placed: map<Text, map<nat, real>>, placed': map<Text, map<nat, real>>, reading: Reading,
                    config: Config, r: seq<CommunityFacts>, r': seq<CommunityFacts>)
    requires forall message :: message in facts <==> message in facts'
    requires BuiltWith(facts, circles, placed, reading, config, r)
    requires BuiltWith(facts', circles, placed', reading, config, r')
    ensures r == r'
  {
    PlacedUnique(placed, placed', facts, facts', circles, config.minShare, reading.round);
    assert SetOf(facts) == SetOf(facts');
  }
}
