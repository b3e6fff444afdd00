/**
 * What the circles' findings say (`derived/communities.py`), counted out: whose message a circle
 * gets, at which share, and what a circle is described with.
 */
module CircleFindings {
  import opened Order
  import opened Sums
  import opened Facts
  import opened Communities

  // ----- Shares, counted out

  /** The part of the people who are members. */
  ghost predicate IsPart(part: real, people: set<nat>, members: set<nat>) {
    part * (|people| as real) == |people * members| as real
  }

  lemma ShareIsPart(people: set<nat>, members: set<nat>)
    requires people != {}
    ensures IsPart(Share(people, members), people, members)
  {}

  lemma OnePart(part: real, other: real, people: set<nat>, members: set<nat>)
    requires people != {} && IsPart(part, people, members) && IsPart(other, people, members)
    ensures part == other
  {
    assert (part - other) * (|people| as real) == 0.0;
  }

  /** More members among the people is a larger share, and enough of them is enough. */
  lemma SharesCompare(people: set<nat>, members: set<nat>, others: set<nat>, minShare: real)
    requires people != {}
    ensures Share(people, members) < Share(people, others) <==> |people * members| < |people * others|
    ensures Share(people, members) >= minShare <==> |people * members| as real >= minShare * (|people| as real)
  {
    var n := |people| as real;
    ShareIsPart(people, members);
    ShareIsPart(people, others);
    Compared(Share(people, members), Share(people, others), n, |people * members| as real, |people * others| as real);
    Compared(Share(people, members), minShare, n, |people * members| as real, minShare * n);
  }

  /** Somebody on the message is a member, and of its people at least the minimum share are. */
  ghost predicate MayTake(people: set<nat>, members: set<nat>, minShare: real) {
    0 < |people * members| && |people * members| as real >= minShare * (|people| as real)
  }

  lemma EligibleIsMayTake(people: set<nat>, members: set<nat>, minShare: real)
    ensures Eligible(people, members, minShare) <==> MayTake(people, members, minShare)
  {
    if people != {} {
      SharesCompare(people, members, members, minShare);
    } else {
      assert people * members == {};
    }
  }

  /** The place of a message: of the circles that may take it the one with most of its people, then the smallest id. */
  lemma PlaceByCount(people: set<nat>, circles: map<Text, set<nat>>, minShare: real, key: Text)
    ensures IsPlace(people, circles, minShare, key)
       <==> && key in circles && MayTake(people, circles[key], minShare)
            && forall other | other in circles && MayTake(people, circles[other], minShare) ::
                 |people * circles[other]| <= |people * circles[key]|
                 && (|people * circles[other]| == |people * circles[key]| ==> key <= other)
  {
    forall other | other in circles
      ensures Eligible(people, circles[other], minShare) <==> MayTake(people, circles[other], minShare)
      ensures key in circles && people != {} ==>
                && (Share(people, circles[other]) < Share(people, circles[key])
                    <==> |people * circles[other]| < |people * circles[key]|)
                && (Share(people, circles[key]) < Share(people, circles[other])
                    <==> |people * circles[key]| < |people * circles[other]|)
    {
      EligibleIsMayTake(people, circles[other], minShare);
      if key in circles && people != {} {
        SharesCompare(people, circles[other], circles[key], minShare);
        SharesCompare(people, circles[key], circles[other], minShare);
      }
    }
  }

  /** A message stands in a circle at the rounded part of its people who belong to it. */
  lemma StandsAtItsPart(placed: map<Text, map<nat, real>>, facts: seq<MessageFacts>, circles: map<Text, set<nat>>,
                        minShare: real, round: real -> real, key: Text, one: MessageFacts, part: real)
    requires AllPlaced(placed, facts, circles, minShare, round) && one in facts && key in circles
    requires one.id in placed[key] && IsPart(part, one.participants, circles[key])
    ensures placed[key][one.id] == round(part)
  {
    RightAt(placed, facts, circles, minShare, round, one);
    assert IsPlace(one.participants, circles, minShare, key);
    ShareIsPart(one.participants, circles[key]);
    OnePart(part, Share(one.participants, circles[key]), one.participants, circles[key]);
  }

  // ----- One circle, read back

  /** The messages that circulate in a circle. */
  ghost function Circulating(circle: CommunityFacts, facts: seq<MessageFacts>): set<MessageFacts> {
    set one | one in facts && one.id in circle.messages
  }

  /** A circle carries every member with its rank, zero where it has none, and when its mail starts and stops. */
  ghost predicate Reads(circle: CommunityFacts, members: set<nat>, facts: seq<MessageFacts>, reading: Reading) {
    && circle.members.Keys == members
    && (forall one | one in members && one in reading.ranks :: circle.members[one] == reading.ranks[one])
    && (forall one | one in members && one !in reading.ranks :: circle.members[one] == 0.0)
    && circle.name == reading.naming(members, reading.ranks)
    && IsFirstSeen(circle.firstSeen, Circulating(circle, facts))
    && IsLastSeen(circle.lastSeen, Circulating(circle, facts))
  }

  /** Every circle of the findings, under the digest of its members. */
  lemma CirclesRead(facts: seq<MessageFacts>, membership: map<nat, nat>, reading: Reading, config: Config,
                    digest: set<nat> -> Text, r: seq<CommunityFacts>, k: nat)
    requires IsDigest(digest) && IsBuilt(facts, membership, reading, config, digest, r) && k < |r|
    ensures r[k].members.Keys in CircleSets(membership, config.minSize) && r[k].id == digest(r[k].members.Keys)
    ensures Reads(r[k], r[k].members.Keys, facts, reading)
    ensures forall l | k < l < |r| :: r[k].id < r[l].id
  {
    var circles := CirclesOf(membership, config.minSize, digest);
    var placed :| BuiltWith(facts, circles, placed, reading, config, r);
    KeysKnown(circles);
    var key := Sorted(circles.Keys)[k];
    CircleReads(key, circles[key], placed[key], facts, reading);
    InKeyOrder(circles, placed, facts, reading, r, k);
  }

  lemma DatedAreCirculating(circle: CommunityFacts, facts: seq<MessageFacts>)
    ensures Dated(circle.messages, SetOf(facts))
         == Sorted(set one | one in Circulating(circle, facts) && one.sentAt.Some? :: one.sentAt.value)
  {
    assert (set one | one in Circulating(circle, facts) && one.sentAt.Some? :: one.sentAt.value)
        == set one | one in SetOf(facts) && one.id in circle.messages && one.sentAt.Some? :: one.sentAt.value;
  }

  lemma CircleReads(key: Text, members: set<nat>, messages: map<nat, real>, facts: seq<MessageFacts>, reading: Reading)
    ensures var circle := CommunityOf(key, members, messages, SetOf(facts), reading);
            circle.id == key && circle.members.Keys == members && Reads(circle, members, facts, reading)
  {
    var circle := CommunityOf(key, members, messages, SetOf(facts), reading);
    DatedAreCirculating(circle, facts);
    DatesEnd(Circulating(circle, facts), Dated(messages, SetOf(facts)));
  }

  lemma IdAt(keys: seq<Text>, circles: map<Text, set<nat>>, placed: map<Text, map<nat, real>>,
             facts: seq<MessageFacts>, reading: Reading, l: nat)
    requires forall k | 0 <= k < |keys| :: keys[k] in circles && keys[k] in placed
    requires l < |keys|
    ensures Listed(keys, circles, placed, SetOf(facts), reading)[l].id == keys[l]
  {}

  lemma InKeyOrder(circles: map<Text, set<nat>>, placed: map<Text, map<nat, real>>, facts: seq<MessageFacts>,
                   reading: Reading, r: seq<CommunityFacts>, k: nat)
    requires placed.Keys == circles.Keys && r == CommunitiesOf(circles, placed, SetOf(facts), reading) && k < |r|
    ensures forall l | k < l < |r| :: r[k].id < r[l].id
  {
    var keys := Sorted(circles.Keys);
    KeysKnown(circles);
    forall l | k < l < |r| ensures r[k].id < r[l].id {
      IdAt(keys, circles, placed, facts, reading, k);
      IdAt(keys, circles, placed, facts, reading, l);
    }
  }

  /** And every circle of the partition is among them. */
  lemma AllCirclesRead(facts: seq<MessageFacts>, membership: map<nat, nat>, reading: Reading, config: Config,
                       digest: set<nat> -> Text, r: seq<CommunityFacts>, members: set<nat>)
    requires IsDigest(digest) && IsBuilt(facts, membership, reading, config, digest, r)
    requires members in CircleSets(membership, config.minSize)
    ensures exists k :: 0 <= k < |r| && r[k].id == digest(members)
  {
    var circles := CirclesOf(membership, config.minSize, digest);
    var placed :| BuiltWith(facts, circles, placed, reading, config, r);
    var k := CircleUnder(circles, placed, facts, reading, r, digest(members));
  }

  lemma CircleUnder(circles: map<Text, set<nat>>, placed: map<Text, map<nat, real>>, facts: seq<MessageFacts>,
                    reading: Reading, r: seq<CommunityFacts>, key: Text) returns (k: nat)
    requires placed.Keys == circles.Keys && r == CommunitiesOf(circles, placed, SetOf(facts), reading) && key in circles
    ensures k < |r| && r[k].id == key
  {
    KeysKnown(circles);
    assert key in Sorted(circles.Keys);
    k :| 0 <= k < |Sorted(circles.Keys)| && Sorted(circles.Keys)[k] == key;
  }
}
