/**
 * What a template is made of (`derived/templates.py`, `_group`), said from the messages: who
 * stands for it, who is in it and how far from each other they are.
 */
module TemplateGroups {
  import opened Order
  import opened Closure
  import opened Partition
  import opened Buckets
  import opened Fingerprints
  import opened Facts
  import opened Templates

  /** A message of one direction with a body to fingerprint. */
  ghost predicate Wrote(facts: seq<MessageFacts>, direction: Direction, one: MessageFacts) {
    one in facts && one.simhash != 0 && (direction == Sent <==> one.outbound)
  }

  lemma PrintedBy(facts: seq<MessageFacts>, direction: Direction, m: nat) returns (one: MessageFacts)
    requires DistinctIds(facts) && m in PrintsOf(facts, direction)
    ensures Wrote(facts, direction, one) && one.id == m && one.simhash == PrintsOf(facts, direction)[m]
  {
    var v := PrintsOf(facts, direction)[m];
    PrintsAre(facts, direction, m, v);
    one :| one in facts && one.id == m && one.simhash == v && v != 0 && DirectionOf(one) == direction;
  }

  lemma PrintKept(facts: seq<MessageFacts>, direction: Direction, one: MessageFacts)
    requires DistinctIds(facts) && Wrote(facts, direction, one)
    ensures one.id in PrintsOf(facts, direction) && PrintsOf(facts, direction)[one.id] == one.simhash
  {
    PrintsAre(facts, direction, one.id, one.simhash);
    assert Prints(facts, direction, one.id, one.simhash);
  }

  // ----- One group

  ghost predicate HasMember(g: TemplateGroup, m: nat) {
    exists i :: 0 <= i < |g.members| && g.members[i].messageId == m
  }

  /** Members in increasing order; the first of them, the smallest, stands for all. */
  ghost predicate LedBySmallest(g: TemplateGroup) {
    && g.members != [] && g.members[0].messageId == g.representative
    && forall i, j | 0 <= i < j < |g.members| :: g.members[i].messageId < g.members[j].messageId
  }

  /** The fingerprint is that of the message standing for the group. */
  ghost predicate Represented(facts: seq<MessageFacts>, g: TemplateGroup) {
    exists one :: Wrote(facts, g.direction, one) && one.id == g.representative && one.simhash == g.representativeSimhash
  }

  /** A member is a message of the group's direction, as far from the representative as their fingerprints are. */
  ghost predicate Measured(facts: seq<MessageFacts>, g: TemplateGroup, i: nat)
    requires i < |g.members|
  {
    exists one :: Wrote(facts, g.direction, one) && one.id == g.members[i].messageId
                  && g.members[i].distance == HammingDistance(one.simhash, g.representativeSimhash)
  }

  /** The members are everything the paid links connect to the representative. */
  ghost predicate Whole(g: TemplateGroup, printOf: map<nat, nat>, config: Config) {
    forall m :: HasMember(g, m) <==> m in printOf && Connected(PaidLinks(printOf, config), g.representative, m)
  }

  lemma SmallestFirst(component: seq<nat>, all: set<nat>)
    requires component != [] && Increasing(component) && all == set m | m in component
    ensures component[0] in all && Min(all) == component[0]
  {
    assert component[0] in all;
    var least := Min(all);
    var i :| 0 <= i < |component| && component[i] == least;
  }

  ghost predicate InPrints(component: seq<nat>, printOf: map<nat, nat>) {
    component != [] && forall i | 0 <= i < |component| :: component[i] in printOf
  }

  lemma GroupParts(component: seq<nat>, printOf: map<nat, nat>, direction: Direction)
    requires InPrints(component, printOf) && Increasing(component)
    ensures var g := GroupOf(component, printOf, direction);
            && g.direction == direction && LedBySmallest(g) && |g.members| == |component|
            && g.representativeSimhash == printOf[component[0]]
            && forall i | 0 <= i < |component| ::
                 g.members[i]
                 == TemplateMember(component[i], HammingDistance(printOf[component[i]], printOf[component[0]]))
  {
    SmallestFirst(component, set m | m in component);
  }

  lemma GroupMembers(component: seq<nat>, printOf: map<nat, nat>, direction: Direction, m: nat)
    requires InPrints(component, printOf) && Increasing(component)
    ensures HasMember(GroupOf(component, printOf, direction), m) <==> m in component
  {
    GroupParts(component, printOf, direction);
    var g := GroupOf(component, printOf, direction);
    if m in component {
      var i :| 0 <= i < |component| && component[i] == m;
      assert g.members[i].messageId == m;
    }
  }

  lemma GroupMeasured(facts: seq<MessageFacts>, component: seq<nat>, direction: Direction, i: nat)
    requires DistinctIds(facts) && Increasing(component) && i < |component|
    requires InPrints(component, PrintsOf(facts, direction))
    ensures |GroupOf(component, PrintsOf(facts, direction), direction).members| == |component|
    ensures Measured(facts, GroupOf(component, PrintsOf(facts, direction), direction), i)
  {
    GroupParts(component, PrintsOf(facts, direction), direction);
    var one := PrintedBy(facts, direction, component[i]);
  }

  lemma GroupRepresented(facts: seq<MessageFacts>, component: seq<nat>, direction: Direction)
    requires DistinctIds(facts) && Increasing(component) && InPrints(component, PrintsOf(facts, direction))
    ensures Represented(facts, GroupOf(component, PrintsOf(facts, direction), direction))
  {
    GroupParts(component, PrintsOf(facts, direction), direction);
    var one := PrintedBy(facts, direction, component[0]);
  }

  /** An archive is refused when there is something to fingerprint and the bands are not of one to 64 bits. */
  lemma RefusedWhen(facts: seq<MessageFacts>, config: Config)
    requires DistinctIds(facts)
    ensures GroupingOf(facts, config).None?
       <==> (exists one :: one in facts && one.simhash != 0) && (config.bandBits < 1 || config.bandBits > 64)
  {
    if one :| one in facts && one.simhash != 0 {
      PrintKept(facts, if one.outbound then Sent else Received, one);
    }
    forall direction: Direction | PrintsOf(facts, direction) != map[]
      ensures exists one :: one in facts && one.simhash != 0
    {
      assert PrintsOf(facts, direction).Keys != {};
      var m :| m in PrintsOf(facts, direction);
      var one := PrintedBy(facts, direction, m);
    }
  }

  // ----- The budget

  /** The comparisons made stay within the setting, and no bucket left out would have fitted; below zero it is zero. */
  lemma ComparisonsWithinBudget(printOf: map<nat, nat>, config: Config)
    ensures var pending, n := PendingOf(printOf, config), |PendingOf(printOf, config)| - DroppedOf(printOf, config);
            var limit := if config.maxComparisons < 0 then 0 else config.maxComparisons;
            && 0 <= n <= |pending| && Charged(pending[..n]) <= limit
            && forall k | n <= k < |pending| :: Charged(pending[..n]) + Pairs(|pending[k].members|) > limit
  {
    BudgetSpent(PendingOf(printOf, config), Budget(config));
  }

  // ----- The groups of an archive

  /** A group says what its direction, its members and its smallest member's text make of it. */
  ghost predicate Sound(g: TemplateGroup, facts: seq<MessageFacts>, config: Config) {
    && |g.members| >= config.minOccurrences && LedBySmallest(g) && Represented(facts, g)
    && (forall i | 0 <= i < |g.members| :: Measured(facts, g, i))
    && Whole(g, PrintsOf(facts, g.direction), config)
  }

  lemma ComponentOrdered(printOf: map<nat, nat>, links: set<Link>, k: nat)
    requires k < |ComponentsOf(printOf.Keys, links)|
    ensures InPrints(ComponentsOf(printOf.Keys, links)[k], printOf)
    ensures Increasing(ComponentsOf(printOf.Keys, links)[k])
    ensures forall m :: m in ComponentsOf(printOf.Keys, links)[k]
                   <==> m in printOf && Connected(links, ComponentsOf(printOf.Keys, links)[k][0], m)
  {
    ComponentsGrouping(printOf, links);
    var component := ComponentsOf(printOf.Keys, links)[k];
    assert component[0] in component;
    ComponentsWhole(printOf.Keys, links, k, component[0]);
  }

  lemma ComponentSound(facts: seq<MessageFacts>, direction: Direction, config: Config, k: nat)
    requires DistinctIds(facts)
    requires k < |ComponentsOf(PrintsOf(facts, direction).Keys, PaidLinks(PrintsOf(facts, direction), config))|
    ensures var printOf := PrintsOf(facts, direction);
            var component := ComponentsOf(printOf.Keys, PaidLinks(printOf, config))[k];
            InPrints(component, printOf)
            && (|component| >= config.minOccurrences ==> Sound(GroupOf(component, printOf, direction), facts, config))
  {
    var printOf := PrintsOf(facts, direction);
    var component := ComponentsOf(printOf.Keys, PaidLinks(printOf, config))[k];
    ComponentOrdered(printOf, PaidLinks(printOf, config), k);
    GroupParts(component, printOf, direction);
    GroupRepresented(facts, component, direction);
    forall i | 0 <= i < |component| ensures Measured(facts, GroupOf(component, printOf, direction), i) {
      GroupMeasured(facts, component, direction, i);
    }
    forall m ensures HasMember(GroupOf(component, printOf, direction), m) <==> m in component {
      GroupMembers(component, printOf, direction, m);
    }
  }

  lemma DirectionSound(facts: seq<MessageFacts>, direction: Direction, config: Config, i: nat)
    requires DistinctIds(facts) && i < |TemplatesOf(PrintsOf(facts, direction), direction, config)|
    ensures Sound(TemplatesOf(PrintsOf(facts, direction), direction, config)[i], facts, config)
    ensures TemplatesOf(PrintsOf(facts, direction), direction, config)[i].direction == direction
  {
    var printOf := PrintsOf(facts, direction);
    ComponentsGrouping(printOf, PaidLinks(printOf, config));
    var components := ComponentsOf(printOf.Keys, PaidLinks(printOf, config));
    var k := GroupFrom(components, printOf, direction, config.minOccurrences, i);
    ComponentSound(facts, direction, config, k);
  }

  ghost predicate AllSound(groups: seq<TemplateGroup>, facts: seq<MessageFacts>, config: Config) {
    forall i | 0 <= i < |groups| :: Sound(groups[i], facts, config)
  }

  lemma DirectionAllSound(facts: seq<MessageFacts>, direction: Direction, config: Config)
    requires DistinctIds(facts)
    ensures AllSound(TemplatesOf(PrintsOf(facts, direction), direction, config), facts, config)
  {
    var groups := TemplatesOf(PrintsOf(facts, direction), direction, config);
    forall i | 0 <= i < |groups| ensures Sound(groups[i], facts, config) {
      DirectionSound(facts, direction, config, i);
    }
  }

  lemma BothSound(sent: seq<TemplateGroup>, received: seq<TemplateGroup>, facts: seq<MessageFacts>, config: Config)
    requires AllSound(sent, facts, config) && AllSound(received, facts, config)
    ensures AllSound(sent + received, facts, config)
  {}

  lemma OneSound(groups: seq<TemplateGroup>, facts: seq<MessageFacts>, config: Config, i: nat)
    requires AllSound(groups, facts, config) && i < |groups|
    ensures Sound(groups[i], facts, config)
  {}

  /** Every template of an archive is one whole component with enough copies, led by its smallest member. */
  lemma TemplatesAreSound(facts: seq<MessageFacts>, config: Config, i: nat)
    requires DistinctIds(facts) && GroupingOf(facts, config).Some? && i < |GroupingOf(facts, config).value.groups|
    ensures Sound(GroupingOf(facts, config).value.groups[i], facts, config)
  {
    var sent := TemplatesOf(PrintsOf(facts, Sent), Sent, config);
    var received := TemplatesOf(PrintsOf(facts, Received), Received, config);
    DirectionAllSound(facts, Sent, config);
    DirectionAllSound(facts, Received, config);
    BothSound(sent, received, facts, config);
    OneSound(sent + received, facts, config, i);
  }

  lemma {:induction false} GroupAt(components: seq<seq<nat>>, printOf: map<nat, nat>, direction: Direction,
                                   minOccurrences: int, k: nat) returns (i: nat)
    requires Grouping(components, printOf) && k < |components| && |components[k]| >= minOccurrences
    ensures i < |GroupsOf(components, printOf, direction, minOccurrences)|
    ensures GroupsOf(components, printOf, direction, minOccurrences)[i] == GroupOf(components[k], printOf, direction)
  {
    if k == 0 {
      i := 0;
    } else {
      var later := GroupAt(components[1..], printOf, direction, minOccurrences, k - 1);
      i := later + if |components[0]| >= minOccurrences then 1 else 0;
    }
  }

  lemma DirectionFound(facts: seq<MessageFacts>, direction: Direction, config: Config, one: MessageFacts)
    returns (i: nat)
    requires DistinctIds(facts) && Wrote(facts, direction, one)
    requires var printOf := PrintsOf(facts, direction);
             |Component(printOf.Keys, PaidLinks(printOf, config), one.id)| >= config.minOccurrences
    ensures i < |TemplatesOf(PrintsOf(facts, direction), direction, config)|
    ensures HasMember(TemplatesOf(PrintsOf(facts, direction), direction, config)[i], one.id)
  {
    var printOf := PrintsOf(facts, direction);
    var links := PaidLinks(printOf, config);
    PrintKept(facts, direction, one);
    ComponentsGrouping(printOf, links);
    var k := ComponentsCover(printOf.Keys, links, one.id);
    ComponentOrdered(printOf, links, k);
    i := GroupAt(ComponentsOf(printOf.Keys, links), printOf, direction, config.minOccurrences, k);
    GroupMembers(ComponentsOf(printOf.Keys, links)[k], printOf, direction, one.id);
  }

  ghost predicate Holds(groups: seq<TemplateGroup>, direction: Direction, m: nat) {
    exists i :: 0 <= i < |groups| && groups[i].direction == direction && HasMember(groups[i], m)
  }

  lemma FoundInBoth(sent: seq<TemplateGroup>, received: seq<TemplateGroup>, direction: Direction, m: nat, at: nat)
    requires var own := if direction == Sent then sent else received;
             at < |own| && own[at].direction == direction && HasMember(own[at], m)
    ensures Holds(sent + received, direction, m)
  {
    var i := if direction == Sent then at else |sent| + at;
    assert (sent + received)[i] == if direction == Sent then sent[at] else received[at];
  }

  /** And every message whose component has enough copies is in a template of its direction. */
  lemma TemplatesAreComplete(facts: seq<MessageFacts>, direction: Direction, config: Config, one: MessageFacts)
    requires DistinctIds(facts) && GroupingOf(facts, config).Some? && Wrote(facts, direction, one)
    requires var printOf := PrintsOf(facts, direction);
             |Component(printOf.Keys, PaidLinks(printOf, config), one.id)| >= config.minOccurrences
    ensures Holds(GroupingOf(facts, config).value.groups, direction, one.id)
  {
    var at := DirectionFound(facts, direction, config, one);
    DirectionSound(facts, direction, config, at);
    var sent := TemplatesOf(PrintsOf(facts, Sent), Sent, config);
    var received := TemplatesOf(PrintsOf(facts, Received), Received, config);
    FoundInBoth(sent, received, direction, one.id, at);
  }
}
