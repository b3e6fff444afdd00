/**
 * Arguments for tagging a message (`derived/suggestions.py`): one row for each
 * pair some group argues for, with the best case made.
 */
module Suggestions {
  import opened Order

  /** What a group is; the order is that of the strength. */
  datatype Kind = THREAD | TOPIC | COMMUNITY

  datatype Grouping = Grouping(kind: Kind, members: set<nat>)

  datatype Config = Config(minTagged: int, minShare: real)

  datatype Suggestion = Suggestion(score: real, how: Kind)

  type Offer = (Text, nat)

  /** `SUGGESTION_WEIGHTS`. */
  function Weight(kind: Kind): real {
    match kind
    case THREAD => 0.9
    case TOPIC => 0.7
    case COMMUNITY => 0.5
  }

  /** How much of a group wears the tag. */
  function Share(group: set<nat>, wearing: set<nat>): real
    requires group != {}
  {
    |group * wearing| as real / |group| as real
  }

  /** The two guards. */
  predicate Argues(group: Grouping, members: set<nat>, config: Config) {
    && group.members != {}
    && |group.members * members| >= config.minTagged
    && Share(group.members, members) >= config.minShare
  }

  function Scale(weight: real, share: real): real {
    weight * share
  }

  /** The case a group makes; `round` stands for rounding to six places. */
  function Made(group: Grouping, members: set<nat>, round: real -> real): Suggestion
    requires group.members != {}
  {
    Suggestion(round(Scale(Weight(group.kind), Share(group.members, members))), group.kind)
  }

  /** `made > _strength(standing)`: the score, then the kind. */
  predicate Stronger(made: Suggestion, standing: Suggestion) {
    made.score > standing.score || (made.score == standing.score && Weight(made.how) > Weight(standing.how))
  }

  // ----- The strongest argument, whatever the order

  ghost predicate ArguesFor(group: Grouping, members: set<nat>, message: nat, config: Config) {
    Argues(group, members, config) && message in group.members && message !in members
  }

  ghost predicate IsStrongest(made: Suggestion, groups: seq<Grouping>, members: set<nat>, message: nat, config: Config,
                              round: real -> real)
  {
    && (exists i :: 0 <= i < |groups| && ArguesFor(groups[i], members, message, config)
          && made == Made(groups[i], members, round))
    && forall i | 0 <= i < |groups| && ArguesFor(groups[i], members, message, config) ::
          !Stronger(Made(groups[i], members, round), made)
  }

  ghost predicate SomeArgues(groups: seq<Grouping>, members: set<nat>, message: nat, config: Config) {
    exists i :: 0 <= i < |groups| && ArguesFor(groups[i], members, message, config)
  }

  /** One tag's offers: a row where some group argues, and in it the strongest case. */
  ghost predicate OfferedTo(found: map<Offer, Suggestion>, tag: Text, members: set<nat>, groups: seq<Grouping>,
        config: Config,
                            round: real -> real)
  {
    forall message: nat {:trigger (tag, message) in found} ::
      && ((tag, message) in found <==> SomeArgues(groups, members, message, config))
      && ((tag, message) in found ==> IsStrongest(found[(tag, message)], groups, members, message, config, round))
  }

  /** The whole answer. */
  ghost predicate IsAnswer(found: map<Offer, Suggestion>, tagged: map<Text, set<nat>>, groups: seq<Grouping>,
        config: Config,
                           round: real -> real)
  {
    && (forall offer | offer in found :: offer.0 in tagged)
    && (forall tag {:trigger OfferedTo(found, tag, tagged[tag], groups, config, round)} | tag in tagged ::
          OfferedTo(found, tag, tagged[tag], groups, config, round))
  }

  /** Two cases neither of which is stronger are the same row. */
  lemma StrongestIsOne(one: Suggestion, other: Suggestion, groups: seq<Grouping>, groups': seq<Grouping>,
        members: set<nat>,
                       message: nat, config: Config, round: real -> real)
    requires IsStrongest(one, groups, members, message, config, round)
    requires IsStrongest(other, groups', members, message, config, round)
    requires forall group :: group in groups <==> group in groups'
    ensures one == other
  {
    var i :| 0 <= i < |groups| && ArguesFor(groups[i], members, message, config)
          && one == Made(groups[i], members, round);
    var j :| 0 <= j < |groups'| && ArguesFor(groups'[j], members, message, config)
          && other == Made(groups'[j], members, round);
    assert groups[i] in groups' && groups'[j] in groups;
    var k :| 0 <= k < |groups'| && groups'[k] == groups[i];
    var l :| 0 <= l < |groups| && groups[l] == groups'[j];
    assert !Stronger(Made(groups'[k], members, round), other) && !Stronger(Made(groups[l], members, round), one);
  }

  lemma SomeArguesAlike(groups: seq<Grouping>, groups': seq<Grouping>, members: set<nat>, message: nat, config: Config)
    requires (forall group :: group in groups <==> group in groups') && SomeArgues(groups, members, message, config)
    ensures SomeArgues(groups', members, message, config)
  {
    var i :| 0 <= i < |groups| && ArguesFor(groups[i], members, message, config);
    assert groups[i] in groups';
  }

  /** The order of the groups, and how often one is listed, change nothing. */
  lemma OrderDoesNotMatter(found: map<Offer, Suggestion>, found': map<Offer, Suggestion>, tagged: map<Text, set<nat>>,
                           groups: seq<Grouping>, groups': seq<Grouping>, config: Config, round: real -> real)
    requires IsAnswer(found, tagged, groups, config, round) && IsAnswer(found', tagged, groups', config, round)
    requires forall group :: group in groups <==> group in groups'
    ensures found == found'
  {
    forall offer ensures offer in found <==> offer in found' {
      if offer.0 in tagged {
        assert OfferedTo(found, offer.0, tagged[offer.0], groups, config, round);
        assert OfferedTo(found', offer.0, tagged[offer.0], groups', config, round);
        if (offer.0, offer.1) in found { SomeArguesAlike(groups, groups', tagged[offer.0], offer.1, config); }
        if (offer.0, offer.1) in found' { SomeArguesAlike(groups', groups, tagged[offer.0], offer.1, config); }
      }
    }
    forall offer | offer in found ensures found[offer] == found'[offer] {
      assert OfferedTo(found, offer.0, tagged[offer.0], groups, config, round);
      assert OfferedTo(found', offer.0, tagged[offer.0], groups', config, round);
      assert (offer.0, offer.1) in found && (offer.0, offer.1) in found';
      StrongestIsOne(found[offer], found'[offer], groups, groups', tagged[offer.0], offer.1, config, round);
    }
  }

  // ----- The loops

  /** One message hears one more case. */
  function Heard(found: map<Offer, Suggestion>, offer: Offer, made: Suggestion): map<Offer, Suggestion> {
    if offer !in found || Stronger(made, found[offer]) then found[offer := made] else found
  }

  /** `_offer`: the rows of the untagged members, replaced where this case is stronger. */
  method LetArgue(found: map<Offer, Suggestion>, tag: Text, members: set<nat>, group: Grouping, config: Config,
                  round: real -> real)
    returns (after: map<Offer, Suggestion>)
    ensures !Argues(group, members, config) ==> after == found
    ensures Argues(group, members, config) ==>
              forall offer: Offer {:trigger offer in after} {:trigger after[offer]} ::
                if offer.0 == tag && offer.1 in group.members - members then
                  offer in after && after[offer] == Heard(found, offer, Made(group, members, round))[offer]
                else
                  (offer in after <==> offer in found) && (offer in found ==> after[offer] == found[offer])
  {
    after := found;
    var people := group.members;
    if people == {} {
      return;
    }
    var wearing := people * members;
    if |wearing| < config.minTagged {
      return;
    }
    if Share(people, members) < config.minShare {
      return;
    }
    var made := Made(group, members, round);
    var rest := people - members;
    while rest != {}
      invariant rest <= people - members
      invariant forall offer: Offer {:trigger offer in after} {:trigger after[offer]} ::
                  if offer.0 == tag && offer.1 in people - members - rest then
                    offer in after && after[offer] == Heard(found, offer, made)[offer]
                  else
                    (offer in after <==> offer in found) && (offer in found ==> after[offer] == found[offer])
      decreases |rest|
    {
      var message :| message in rest;
      var key := (tag, message);
      if key !in after || Stronger(made, after[key]) {
        after := after[key := made];
      }
      rest := rest - {message};
    }
  }

  lemma ArgumentHeard(found: map<Offer, Suggestion>, tag: Text, members: set<nat>, groups: seq<Grouping>,
                      group: Grouping,
                      config: Config, round: real -> real, message: nat, after: map<Offer, Suggestion>)
    requires OfferedTo(found, tag, members, groups, config, round)
    requires if ArguesFor(group, members, message, config)
             then (tag, message) in after && after[(tag, message)]
                   == Heard(found, (tag, message), Made(group, members, round))[(tag, message)]
             else ((tag, message) in after <==> (tag, message) in found)
                  && ((tag, message) in found ==> after[(tag, message)] == found[(tag, message)])
    ensures (tag, message) in after <==> SomeArgues(groups + [group], members, message, config)
    ensures (tag, message) in after ==> IsStrongest(after[(tag, message)], groups + [group], members, message,
          config, round)
  {
    var all := groups + [group];
    assert all[|groups|] == group && forall i | 0 <= i < |groups| :: all[i] == groups[i];
    if (tag, message) in found {
      var i :| 0 <= i < |groups| && ArguesFor(groups[i], members, message, config)
            && found[(tag, message)] == Made(groups[i], members, round);
      assert ArguesFor(all[i], members, message, config);
    }
    if SomeArgues(all, members, message, config) && !ArguesFor(group, members, message, config) {
      var i :| 0 <= i < |all| && ArguesFor(all[i], members, message, config);
      assert i < |groups| && ArguesFor(groups[i], members, message, config);
    }
  }

  /** All groups argue for one tag. */
  method SuggestFor(found: map<Offer, Suggestion>, tag: Text, members: set<nat>, groups: seq<Grouping>, config: Config,
                    round: real -> real)
    returns (after: map<Offer, Suggestion>)
    requires forall message: nat {:trigger (tag, message) in found} :: (tag, message) !in found
    ensures OfferedTo(after, tag, members, groups, config, round)
    ensures forall offer: Offer | offer.0 != tag ::
              (offer in after <==> offer in found) && (offer in found ==> after[offer] == found[offer])
  {
    after := found;
    for i := 0 to |groups|
      invariant OfferedTo(after, tag, members, groups[..i], config, round)
      invariant forall offer: Offer | offer.0 != tag ::
            (offer in after <==> offer in found) && (offer in found ==> after[offer] == found[offer])
    {
      ghost var before := after;
      after := LetArgue(after, tag, members, groups[i], config, round);
      assert groups[..i + 1] == groups[..i] + [groups[i]];
      forall message: nat
        ensures (tag, message) in after <==> SomeArgues(groups[..i + 1], members, message, config)
        ensures (tag, message) in after ==> IsStrongest(after[(tag, message)], groups[..i + 1], members, message,
              config, round)
      {
        ArgumentHeard(before, tag, members, groups[..i], groups[i], config, round, message, after);
      }
    }
    assert groups[..|groups|] == groups;
  }

  /** Exactly the rows the groups argue for, each under its strongest case. */
  method Suggest(tagged: map<Text, set<nat>>, groups: seq<Grouping>, config: Config, round: real -> real)
    returns (found: map<Offer, Suggestion>)
    ensures IsAnswer(found, tagged, groups, config, round)
  {
    found := map[];
    var rest := tagged.Keys;
    while rest != {}
      invariant rest <= tagged.Keys
      invariant forall offer | offer in found :: offer.0 in tagged && offer.0 !in rest
      invariant forall tag {:trigger OfferedTo(found, tag, tagged[tag], groups, config, round)} | tag in tagged
            && tag !in rest ::
                  OfferedTo(found, tag, tagged[tag], groups, config, round)
      decreases |rest|
    {
      var tag :| tag in rest;
      ghost var before := found;
      found := SuggestFor(found, tag, tagged[tag], groups, config, round);
      forall other | other in tagged && other !in rest ensures OfferedTo(found, other, tagged[other], groups, config,
            round) {
        OthersKept(before, found, other, tagged[other], groups, config, round);
      }
      rest := rest - {tag};
    }
  }

  lemma OthersKept(before: map<Offer, Suggestion>, after: map<Offer, Suggestion>, tag: Text, members: set<nat>,
                   groups: seq<Grouping>, config: Config, round: real -> real)
    requires OfferedTo(before, tag, members, groups, config, round)
    requires forall offer: Offer | offer.0 == tag ::
               (offer in after <==> offer in before) && (offer in before ==> after[offer] == before[offer])
    ensures OfferedTo(after, tag, members, groups, config, round)
  {
    forall message: nat
      ensures (tag, message) in after <==> SomeArgues(groups, members, message, config)
      ensures (tag, message) in after ==> IsStrongest(after[(tag, message)], groups, members, message, config, round)
    {
      assert (tag, message) in after <==> (tag, message) in before;
    }
  }

  // ----- What never happens

  ghost predicate Monotone(round: real -> real) {
    forall a, b {:trigger round(a), round(b)} | a <= b :: round(a) <= round(b)
  }

  lemma ShareAtMostOne(group: set<nat>, wearing: set<nat>)
    requires group != {}
    ensures 0.0 <= Share(group, wearing) <= 1.0
  {
    SubsetSize(group * wearing, group);
    var some, all := |group * wearing| as real, |group| as real;
    assert all > 0.0 && 0.0 <= some <= all;
    assert some / all <= 1.0 && some / all >= 0.0;
  }

  lemma ScaleAtMost(weight: real, share: real)
    requires weight >= 0.0 && 0.0 <= share <= 1.0
    ensures Scale(weight, share) <= weight
  {
    assert weight * (1.0 - share) >= 0.0;
  }

  /** An offer never scores above the rounded weight of its kind, and never names a message that wears the tag. */
  lemma OffersAreBounded(found: map<Offer, Suggestion>, tagged: map<Text, set<nat>>, groups: seq<Grouping>,
        config: Config,
                         round: real -> real, offer: Offer)
    requires IsAnswer(found, tagged, groups, config, round) && Monotone(round) && offer in found
    ensures offer.1 !in tagged[offer.0]
    ensures found[offer].score <= round(Weight(found[offer].how))
  {
    assert OfferedTo(found, offer.0, tagged[offer.0], groups, config, round);
    assert (offer.0, offer.1) in found;
    var members := tagged[offer.0];
    var i :| 0 <= i < |groups| && ArguesFor(groups[i], members, offer.1, config)
          && found[offer] == Made(groups[i], members, round);
    ShareAtMostOne(groups[i].members, members);
    ScaleAtMost(Weight(groups[i].kind), Share(groups[i].members, members));
  }

  /** A message only circles argue for stays below every threshold above a circle's rounded weight. */
  lemma CircleNeverAutoAccepts(found: map<Offer, Suggestion>, tagged: map<Text, set<nat>>, groups: seq<Grouping>,
                               config: Config, round: real -> real, offer: Offer, threshold: real)
    requires IsAnswer(found, tagged, groups, config, round) && Monotone(round) && offer in found
    requires round(0.5) < threshold
    requires forall i | 0 <= i < |groups| && ArguesFor(groups[i], tagged[offer.0], offer.1, config) ::
          groups[i].kind == COMMUNITY
    ensures found[offer].score < threshold
  {
    OffersAreBounded(found, tagged, groups, config, round, offer);
    assert OfferedTo(found, offer.0, tagged[offer.0], groups, config, round);
    assert (offer.0, offer.1) in found;
    assert found[offer].how == COMMUNITY;
  }

  // ----- What an offer is worth

  /** What a group of a kind is worth when all of it wears the tag. */
  ghost predicate Worth(kind: Kind, worth: real) {
    (kind == THREAD && worth == 0.9) || (kind == TOPIC && worth == 0.7) || (kind == COMMUNITY && worth == 0.5)
  }

  /** The part of a group that wears the tag. */
  ghost predicate IsPart(part: real, group: set<nat>, wearing: set<nat>) {
    part * (|group| as real) == |group * wearing| as real
  }

  lemma ShareIsPart(group: set<nat>, wearing: set<nat>)
    requires group != {}
    ensures IsPart(Share(group, wearing), group, wearing)
  {}

  lemma OnePart(part: real, other: real, group: set<nat>, wearing: set<nat>)
    requires group != {} && IsPart(part, group, wearing) && IsPart(other, group, wearing)
    ensures part == other
  {
    assert (part - other) * (|group| as real) == 0.0;
  }

  lemma MadeOf(group: Grouping, members: set<nat>, round: real -> real, worth: real, part: real)
    requires group.members != {} && Worth(group.kind, worth) && IsPart(part, group.members, members)
    ensures Made(group, members, round) == Suggestion(round(worth * part), group.kind)
    ensures Weight(group.kind) == worth
  {
    ShareIsPart(group.members, members);
    OnePart(part, Share(group.members, members), group.members, members);
  }

  /** Every offer is the case of a group that argues: its kind's worth times the part that wears the tag, rounded. */
  lemma OfferIsMade(found: map<Offer, Suggestion>, tagged: map<Text, set<nat>>, groups: seq<Grouping>,
                    config: Config, round: real -> real, offer: Offer)
    returns (group: Grouping, worth: real, part: real)
    requires IsAnswer(found, tagged, groups, config, round) && offer in found
    ensures offer.0 in tagged && group in groups && ArguesFor(group, tagged[offer.0], offer.1, config)
    ensures found[offer].how == group.kind && Worth(group.kind, worth)
    ensures IsPart(part, group.members, tagged[offer.0]) && found[offer].score == round(worth * part)
  {
    assert OfferedTo(found, offer.0, tagged[offer.0], groups, config, round);
    assert (offer.0, offer.1) in found;
    var i :| 0 <= i < |groups| && ArguesFor(groups[i], tagged[offer.0], offer.1, config)
             && found[offer] == Made(groups[i], tagged[offer.0], round);
    group, part := groups[i], Share(groups[i].members, tagged[offer.0]);
    worth := match group.kind case THREAD => 0.9 case TOPIC => 0.7 case COMMUNITY => 0.5;
    ShareIsPart(group.members, tagged[offer.0]);
    MadeOf(group, tagged[offer.0], round, worth, part);
  }

  /** No group that argues makes a better case than the offer: none scores more, and none as much and is worth more. */
  lemma NoBetterCase(found: map<Offer, Suggestion>, tagged: map<Text, set<nat>>, groups: seq<Grouping>,
                     config: Config, round: real -> real, tag: Text, message: nat, group: Grouping, worth: real,
                     part: real, kept: real)
    requires IsAnswer(found, tagged, groups, config, round) && tag in tagged
    requires group in groups && ArguesFor(group, tagged[tag], message, config)
    requires Worth(group.kind, worth) && IsPart(part, group.members, tagged[tag])
    ensures (tag, message) in found && round(worth * part) <= found[(tag, message)].score
    ensures round(worth * part) == found[(tag, message)].score && Worth(found[(tag, message)].how, kept) ==>
              worth <= kept
  {
    assert OfferedTo(found, tag, tagged[tag], groups, config, round);
    var i :| 0 <= i < |groups| && groups[i] == group;
    assert ArguesFor(groups[i], tagged[tag], message, config);
    MadeOf(group, tagged[tag], round, worth, part);
    var row := found[(tag, message)];
    assert !Stronger(Made(groups[i], tagged[tag], round), row);
    assert Worth(row.how, kept) ==> Weight(row.how) == kept;
  }

  /** A thread and a circle of the same two messages: the thread's case is the one offered. */
  lemma ThreadBeatsCircle(found: map<Offer, Suggestion>, round: real -> real)
    requires forall x: real :: round(x) == x
    requires IsAnswer(found, map[7 := {1}], [Grouping(COMMUNITY, {1, 2}), Grouping(THREAD, {1, 2})],
                      Config(1, 0.5), round)
    ensures (7, 2) in found && found[(7, 2)] == Suggestion(0.45, THREAD)
  {
    var tagged: map<Text, set<nat>> := map[7 := {1}];
    var circle, thread := Grouping(COMMUNITY, {1, 2}), Grouping(THREAD, {1, 2});
    var groups := [circle, thread];
    assert groups[1] == thread && thread in groups;
    assert {1, 2} * {1} == {1} && |{1, 2}| == 2 && |{1}| == 1;
    assert IsPart(0.5, {1, 2}, {1});
    ShareIsPart({1, 2}, {1});
    OnePart(0.5, Share({1, 2}, {1}), {1, 2}, {1});
    assert ArguesFor(thread, tagged[7], 2, Config(1, 0.5));
    NoBetterCase(found, tagged, groups, Config(1, 0.5), round, 7, 2, thread, 0.9, 0.5, 0.9);
    var group, worth, part := OfferIsMade(found, tagged, groups, Config(1, 0.5), round, (7, 2));
    OnePart(0.5, part, {1, 2}, {1});
  }
}
