/**
 * A3, templates: single-linkage clustering of fingerprints through LSH buckets, leaders,
 * skipped comparisons and a comparison budget (`derived/templates.py`).
 */
module Templates {
  import opened Order
  import opened Closure
  import opened Forest
  import opened Partition
  import opened Joining
  import opened Buckets
  import opened Fingerprints
  import opened Facts

  datatype Direction = Sent | Received

  datatype Config = Config(maxDistance: int, bandBits: int, minOccurrences: int, maxComparisons: int)

  // ----- The relation the clusters close

  ghost predicate CloseIn(compared: seq<Bucket>, v: nat, w: nat, maxDistance: int) {
    && HammingDistance(v, w) <= maxDistance
    && exists k :: 0 <= k < |compared| && v in compared[k].members && w in compared[k].members
  }

  /** Two messages whose texts hash alike, or lie close together in a bucket that was compared. */
  ghost function TemplateLinks(printOf: map<nat, nat>, compared: seq<Bucket>, maxDistance: int): set<Link> {
    set a, b | a in printOf && b in printOf
               && (printOf[a] == printOf[b] || CloseIn(compared, printOf[a], printOf[b], maxDistance)) :: (a, b)
  }

  // ----- The budget

  /** A negative budget is none. */
  function Budget(config: Config): nat {
    if config.maxComparisons > 0 then config.maxComparisons else 0
  }

  /** How many buckets the budget pays for: each charged whole, up front, until one does not fit. */
  ghost function Afforded(pending: seq<Bucket>, budget: int): (n: nat)
    ensures n <= |pending|
  {
    if pending == [] || Pairs(|pending[0].members|) > budget then 0
    else 1 + Afforded(pending[1..], budget - Pairs(|pending[0].members|))
  }

  ghost function Charged(pending: seq<Bucket>): nat {
    if pending == [] then 0 else Pairs(|pending[0].members|) + Charged(pending[1..])
  }

  /** The charge stays within the budget, and no bucket that went without would have fitted. */
  lemma {:induction false} BudgetSpent(pending: seq<Bucket>, budget: int)
    requires budget >= 0 && Ascending(pending)
    ensures Charged(pending[..Afforded(pending, budget)]) <= budget
    ensures forall k | Afforded(pending, budget) <= k < |pending| ::
              Charged(pending[..Afforded(pending, budget)]) + Pairs(|pending[k].members|) > budget
    decreases |pending|
  {
    var n := Afforded(pending, budget);
    if n == 0 {
      forall k | 0 <= k < |pending| ensures Pairs(|pending[k].members|) > budget {
        if k > 0 {
          assert Before(pending[0], pending[k]);
          PairsMonotone(|pending[0].members|, |pending[k].members|);
        }
      }
    } else {
      var rest := pending[1..];
      BudgetSpent(rest, budget - Pairs(|pending[0].members|));
      assert pending[..n][1..] == rest[..n - 1];
      forall k | n <= k < |pending|
        ensures Charged(pending[..n]) + Pairs(|pending[k].members|) > budget
      {
        assert rest[k - 1] == pending[k];
      }
    }
  }

  // ----- Comparing one bucket

  ghost predicate LeadersOf(leaders: map<nat, nat>, byPrint: map<nat, set<nat>>) {
    && leaders.Keys == byPrint.Keys
    && forall v | v in leaders :: leaders[v] in byPrint[v]
  }

  /** The pair of fingerprints at p < q is dealt with: joined if it is close. */
  ghost predicate Dealt(s: seq<nat>, p: nat, q: nat, leaders: map<nat, nat>, maxDistance: int, links: set<Link>) {
    p < |s| && q < |s| && s[p] in leaders && s[q] in leaders
    && (HammingDistance(s[p], s[q]) <= maxDistance ==> Connected(links, leaders[s[p]], leaders[s[q]]))
  }

  /** Every pair the double loop has reached: all of row p < i, and row i up to j. */
  ghost predicate DealtTo(s: seq<nat>, i: nat, j: nat, leaders: map<nat, nat>, maxDistance: int, links: set<Link>) {
    forall p, q {:trigger Dealt(s, p, q, leaders, maxDistance, links)} |
      0 <= p < q < |s| && (p < i || (p == i && q < j)) :: Dealt(s, p, q, leaders, maxDistance, links)
  }

  lemma DealtMonotone(s: seq<nat>, i: nat, j: nat, leaders: map<nat, nat>, maxDistance: int,
                      links: set<Link>, more: set<Link>)
    requires links <= more && DealtTo(s, i, j, leaders, maxDistance, links)
    ensures DealtTo(s, i, j, leaders, maxDistance, more)
  {
    MonotoneAll(links, more);
    forall p, q | 0 <= p < q < |s| && (p < i || (p == i && q < j))
      ensures Dealt(s, p, q, leaders, maxDistance, more)
    {
      assert Dealt(s, p, q, leaders, maxDistance, links);
    }
  }

  ghost function LeaderLinks(values: set<nat>, leaders: map<nat, nat>, maxDistance: int): set<Link> {
    set v, w | v in values && w in values && v in leaders && w in leaders
               && HammingDistance(v, w) <= maxDistance :: (leaders[v], leaders[w])
  }

  /** One comparison of the inner loop, left out when it could join nothing new. */
  method ComparePair(partition: DisjointSet, left: nat, right: nat, here: nat, there: nat, maxDistance: int)
    requires partition.Valid() && here in partition.roots && there in partition.roots
    modifies partition
    ensures partition.Valid() && partition.roots.Keys == old(partition.roots.Keys)
    ensures old(partition.links) <= partition.links <= old(partition.links) + {(here, there)}
    ensures HammingDistance(left, right) > maxDistance ==> partition.links == old(partition.links)
    ensures HammingDistance(left, right) <= maxDistance ==> Connected(partition.links, here, there)
  {
    var first := partition.Find(here);
    var second := partition.Find(there);
    if first == second {
      SharedRoot(partition.roots, partition.links, here, there);
      return;
    }
    if HammingDistance(left, right) <= maxDistance {
      partition.Union(here, there);
      Step(partition.links, here, there);
    }
  }

  /** The inner loop: one fingerprint of the bucket against all later ones. */
  method CompareRow(partition: DisjointSet, s: seq<nat>, i: nat, leaders: map<nat, nat>, maxDistance: int,
                    ghost values: set<nat>)
    requires partition.Valid() && i < |s|
    requires forall k | 0 <= k < |s| :: s[k] in values && s[k] in leaders && leaders[s[k]] in partition.roots
    requires DealtTo(s, i, 0, leaders, maxDistance, partition.links)
    modifies partition
    ensures partition.Valid() && partition.roots.Keys == old(partition.roots.Keys)
    ensures Grown(old(partition.links), partition.links, LeaderLinks(values, leaders, maxDistance))
    ensures DealtTo(s, i + 1, 0, leaders, maxDistance, partition.links)
  {
    for j := i + 1 to |s|
      invariant partition.Valid() && partition.roots.Keys == old(partition.roots.Keys)
      invariant Grown(old(partition.links), partition.links, LeaderLinks(values, leaders, maxDistance))
      invariant DealtTo(s, i, j, leaders, maxDistance, partition.links)
    {
      ghost var before := partition.links;
      ComparePair(partition, s[i], s[j], leaders[s[i]], leaders[s[j]], maxDistance);
      DealtMonotone(s, i, j, leaders, maxDistance, before, partition.links);
      assert Dealt(s, i, j, leaders, maxDistance, partition.links);
    }
  }

  method CompareBucket(partition: DisjointSet, values: set<nat>, leaders: map<nat, nat>, maxDistance: int)
    requires partition.Valid() && forall v | v in values :: v in leaders && leaders[v] in partition.roots
    modifies partition
    ensures partition.Valid() && partition.roots.Keys == old(partition.roots.Keys)
    ensures Grown(old(partition.links), partition.links, LeaderLinks(values, leaders, maxDistance))
    ensures DealtTo(Sorted(values), |values|, 0, leaders, maxDistance, partition.links)
  {
    var s := Sorted(values);
    assert forall k | 0 <= k < |s| :: s[k] in s;
    for i := 0 to |s|
      invariant partition.Valid() && partition.roots.Keys == old(partition.roots.Keys)
      invariant Grown(old(partition.links), partition.links, LeaderLinks(values, leaders, maxDistance))
      invariant DealtTo(s, i, 0, leaders, maxDistance, partition.links)
    {
      CompareRow(partition, s, i, leaders, maxDistance, values);
    }
  }

  // ----- Spending the budget

  ghost predicate ComparedAt(pending: seq<Bucket>, k: nat, leaders: map<nat, nat>, maxDistance: int, links: set<Link>)
    requires k < |pending|
  {
    DealtTo(Sorted(pending[k].members), |pending[k].members|, 0, leaders, maxDistance, links)
  }

  /** The first n buckets are compared. */
  ghost predicate Compared(pending: seq<Bucket>, n: nat, leaders: map<nat, nat>, maxDistance: int, links: set<Link>) {
    n <= |pending| &&
    forall k {:trigger ComparedAt(pending, k, leaders, maxDistance, links)} | 0 <= k < n ::
      ComparedAt(pending, k, leaders, maxDistance, links)
  }

  lemma ComparedMonotone(pending: seq<Bucket>, n: nat, leaders: map<nat, nat>, maxDistance: int,
                         links: set<Link>, more: set<Link>)
    requires links <= more && Compared(pending, n, leaders, maxDistance, links)
    ensures Compared(pending, n, leaders, maxDistance, more)
  {
    forall k | 0 <= k < n ensures ComparedAt(pending, k, leaders, maxDistance, more) {
      assert ComparedAt(pending, k, leaders, maxDistance, links);
      DealtMonotone(Sorted(pending[k].members), |pending[k].members|, 0, leaders, maxDistance, links, more);
    }
  }

  ghost function AllLeaderLinks(pending: seq<Bucket>, leaders: map<nat, nat>, maxDistance: int): set<Link> {
    if pending == [] then {}
    else (
      AllLeaderLinks(pending[..|pending| - 1], leaders, maxDistance)
      + LeaderLinks(pending[|pending| - 1].members, leaders, maxDistance)
    )
  }

  /** The first n buckets are compared, and only leaders of one of them were joined. */
  ghost predicate SpentOn(pending: seq<Bucket>, n: nat, leaders: map<nat, nat>, maxDistance: int,
                          was: set<Link>, links: set<Link>)
  {
    && Compared(pending, n, leaders, maxDistance, links)
    && Grown(was, links, AllLeaderLinks(pending[..n], leaders, maxDistance))
  }

  lemma SpentOnStep(pending: seq<Bucket>, n: nat, leaders: map<nat, nat>, maxDistance: int,
                    was: set<Link>, before: set<Link>, links: set<Link>)
    requires n < |pending| && SpentOn(pending, n, leaders, maxDistance, was, before)
    requires Grown(before, links, LeaderLinks(pending[n].members, leaders, maxDistance))
    requires DealtTo(Sorted(pending[n].members), |pending[n].members|, 0, leaders, maxDistance, links)
    ensures SpentOn(pending, n + 1, leaders, maxDistance, was, links)
  {
    ComparedMonotone(pending, n, leaders, maxDistance, before, links);
    assert pending[..n + 1][..n] == pending[..n];
  }

  ghost predicate LedWithin(pending: seq<Bucket>, leaders: map<nat, nat>, roots: set<nat>) {
    && (forall v | v in leaders :: leaders[v] in roots)
    && (forall k | 0 <= k < |pending| :: pending[k].members <= leaders.Keys)
  }

  /** One bucket the budget has room for, compared whole. */
  method CompareNext(partition: DisjointSet, pending: seq<Bucket>, index: nat, leaders: map<nat, nat>, maxDistance: int,
                     ghost was: set<Link>)
    requires partition.Valid() && LedWithin(pending, leaders, partition.roots.Keys)
    requires index < |pending| && SpentOn(pending, index, leaders, maxDistance, was, partition.links)
    modifies partition
    ensures partition.Valid() && partition.roots.Keys == old(partition.roots.Keys)
    ensures SpentOn(pending, index + 1, leaders, maxDistance, was, partition.links)
  {
    ghost var before := partition.links;
    CompareBucket(partition, pending[index].members, leaders, maxDistance);
    SpentOnStep(pending, index, leaders, maxDistance, was, before, partition.links);
  }

  /** Where the budget stands before a bucket. */
  ghost predicate Walked(pending: seq<Bucket>, index: nat, budget: int, whole: int) {
    index <= |pending| && index + Afforded(pending[index..], budget) == Afforded(pending, whole)
  }

  lemma WalkedOn(pending: seq<Bucket>, index: nat, budget: int, whole: int)
    requires index < |pending| && Walked(pending, index, budget, whole)
    ensures if Pairs(|pending[index].members|) > budget then index == Afforded(pending, whole)
            else Walked(pending, index + 1, budget - Pairs(|pending[index].members|), whole)
  {
    assert pending[index..][1..] == pending[index + 1..];
  }

  method CompareBuckets(partition: DisjointSet, pending: seq<Bucket>, leaders: map<nat, nat>, config: Config)
    returns (dropped: nat)
    requires partition.Valid() && LedWithin(pending, leaders, partition.roots.Keys)
    modifies partition
    ensures partition.Valid() && partition.roots.Keys == old(partition.roots.Keys)
    ensures dropped == |pending| - Afforded(pending, Budget(config))
    ensures SpentOn(pending, Afforded(pending, Budget(config)), leaders, config.maxDistance, old(partition.links),
          partition.links)
  {
    var budget := Budget(config);
    dropped := 0;
    var index := 0;
    ghost var was, keys := partition.links, partition.roots.Keys;
    assert pending[0..] == pending && pending[..0] == [];
    while index < |pending|
      invariant Walked(pending, index, budget, Budget(config))
      invariant partition.Valid() && partition.roots.Keys == keys
      invariant SpentOn(pending, index, leaders, config.maxDistance, was, partition.links)
    {
      WalkedOn(pending, index, budget, Budget(config));
      var comparisons := Pairs(|pending[index].members|);
      if comparisons > budget {
        dropped := |pending| - index;
        break;
      }
      budget := budget - comparisons;
      CompareNext(partition, pending, index, leaders, config.maxDistance, was);
      index := index + 1;
    }
  }

  // ----- The buckets

  ghost predicate InBand(buckets: map<(nat, nat), set<nat>>, v: nat, i: nat, bandBits: nat) {
    (i, Band(v, i, bandBits)) in buckets && v in buckets[(i, Band(v, i, bandBits))]
  }

  /** A bucket belongs to a band there is, and holds at least one fingerprint, each with its value in its band. */
  ghost predicate OnlyBands(buckets: map<(nat, nat), set<nat>>, prints: set<nat>, bandBits: nat)
    requires 1 <= bandBits
  {
    && (forall key | key in buckets :: key.0 < BandCount(bandBits) && buckets[key] != {})
    && (forall key, v | key in buckets && v in buckets[key] :: v in prints && Band(v, key.0, bandBits) == key.1)
  }

  ghost predicate AllBands(buckets: map<(nat, nat), set<nat>>, prints: set<nat>, bandBits: nat)
    requires 1 <= bandBits
  {
    forall v, i: nat {:trigger InBand(buckets, v, i, bandBits)} |
      v in prints && i < BandCount(bandBits) :: InBand(buckets, v, i, bandBits)
  }

  /** Fingerprints are unsigned by construction. */
  ghost predicate Unsigned(prints: set<nat>) {
    forall v | v in prints :: v < 0x1_0000_0000_0000_0000
  }

  method BandBuckets(prints: set<nat>, bandBits: nat) returns (buckets: map<(nat, nat), set<nat>>)
    requires 1 <= bandBits <= SIMHASH_BITS && Unsigned(prints)
    ensures OnlyBands(buckets, prints, bandBits) && AllBands(buckets, prints, bandBits)
  {
    buckets := map[];
    var todo := prints;
    while todo != {}
      invariant todo <= prints
      invariant OnlyBands(buckets, prints, bandBits) && AllBands(buckets, prints - todo, bandBits)
      decreases todo
    {
      var value :| value in todo;
      var keys := BandKeys(value, bandBits).keys;
      for i := 0 to |keys|
        invariant OnlyBands(buckets, prints, bandBits) && AllBands(buckets, prints - todo, bandBits)
        invariant forall l: nat {:trigger InBand(buckets, value, l, bandBits)} | l < i ::
              InBand(buckets, value, l, bandBits)
      {
        var key := keys[i];
        ghost var before := buckets;
        buckets := buckets[key := (if key in buckets then buckets[key] else {}) + {value}];
        forall v, l: nat | InBand(before, v, l, bandBits) ensures InBand(buckets, v, l, bandBits) {}
        assert InBand(buckets, value, i, bandBits);
      }
      todo := todo - {value};
    }
  }

  function Listed(buckets: map<(nat, nat), set<nat>>): (r: set<Bucket>)
    ensures Keyed(r)
  {
    set key | key in buckets :: Bucket(key.0, key.1, buckets[key])
  }

  /** The fingerprints with one value in one band. */
  function Sharers(prints: set<nat>, key: (nat, nat), bandBits: nat): set<nat> {
    set v | v in prints && Band(v, key.0, bandBits) == key.1
  }

  function BandIndex(prints: set<nat>, bandBits: nat): set<(nat, nat)>
    requires 1 <= bandBits
  {
    set v, i | v in prints && 0 <= i < BandCount(bandBits) :: (i, Band(v, i, bandBits))
  }

  /** The buckets a set of fingerprints falls into, one for each value each band takes. */
  function Banded(prints: set<nat>, bandBits: nat): (r: set<Bucket>)
    requires 1 <= bandBits
    ensures Keyed(r)
  {
    set key | key in BandIndex(prints, bandBits) :: Bucket(key.0, key.1, Sharers(prints, key, bandBits))
  }

  lemma ListedAt(buckets: map<(nat, nat), set<nat>>, prints: set<nat>, bandBits: nat, key: (nat, nat))
    requires 1 <= bandBits && OnlyBands(buckets, prints, bandBits) && AllBands(buckets, prints, bandBits)
    requires key in buckets
    ensures key in BandIndex(prints, bandBits) && buckets[key] == Sharers(prints, key, bandBits)
  {
    var v :| v in buckets[key];
    assert v in prints && Band(v, key.0, bandBits) == key.1;
    assert 0 <= key.0 < BandCount(bandBits);
    assert key == (key.0, Band(v, key.0, bandBits));
    forall w | w in Sharers(prints, key, bandBits) ensures w in buckets[key] {
      assert InBand(buckets, w, key.0, bandBits);
    }
  }

  lemma ListedIsBanded(buckets: map<(nat, nat), set<nat>>, prints: set<nat>, bandBits: nat)
    requires 1 <= bandBits && OnlyBands(buckets, prints, bandBits) && AllBands(buckets, prints, bandBits)
    ensures Listed(buckets) == Banded(prints, bandBits)
  {
    forall key | key in buckets
      ensures key in BandIndex(prints, bandBits) && buckets[key] == Sharers(prints, key, bandBits)
    {
      ListedAt(buckets, prints, bandBits, key);
    }
    forall key | key in BandIndex(prints, bandBits) ensures key in buckets {
      var v, i: nat :| v in prints && i < BandCount(bandBits) && key == (i, Band(v, i, bandBits));
      assert InBand(buckets, v, i, bandBits);
    }
  }

  /** The buckets one direction is clustered over, in the order the budget is spent on them. */
  function PendingOf(printOf: map<nat, nat>, config: Config): seq<Bucket> {
    if config.bandBits < 1 then [] else SortedBuckets(Banded(printOf.Values, config.bandBits))
  }

  // ----- What the partition draws

  lemma {:induction false} LeaderLinkClose(printOf: map<nat, nat>, byPrint: map<nat, set<nat>>, leaders: map<nat, nat>,
                                           pending: seq<Bucket>, n: nat, maxDistance: int, a: nat, b: nat)
    requires GroupedBy(byPrint, printOf) && LeadersOf(leaders, byPrint) && n <= |pending|
    requires (a, b) in AllLeaderLinks(pending[..n], leaders, maxDistance)
    ensures (a, b) in TemplateLinks(printOf, pending, maxDistance)
  {
    assert pending[..n][..n - 1] == pending[..n - 1];
    if (a, b) in AllLeaderLinks(pending[..n - 1], leaders, maxDistance) {
      LeaderLinkClose(printOf, byPrint, leaders, pending, n - 1, maxDistance, a, b);
    } else {
      var values := pending[n - 1].members;
      var v, w :| v in values && w in values && v in leaders && w in leaders
                  && HammingDistance(v, w) <= maxDistance && (a, b) == (leaders[v], leaders[w]);
      assert a in byPrint[v] && b in byPrint[w];
      assert CloseIn(pending, v, w, maxDistance);
    }
  }

  /** Every message is joined to its fingerprint's leader, whatever the budget. */
  lemma JoinedToLeader(printOf: map<nat, nat>, byPrint: map<nat, set<nat>>, leaders: map<nat, nat>,
                       links: set<Link>, a: nat)
    requires GroupedBy(byPrint, printOf) && GroupsAll(byPrint, printOf, printOf.Keys)
    requires LeadersOf(leaders, byPrint) && Chained(byPrint, {}, links) && a in printOf
    ensures printOf[a] in leaders && Connected(links, a, leaders[printOf[a]])
  {
    var members := byPrint[printOf[a]];
    assert leaders[printOf[a]] in members;
    ChainJoins(Sorted(members), links, a, leaders[printOf[a]]);
  }

  lemma LeadersJoined(leaders: map<nat, nat>, s: seq<nat>, p: nat, q: nat, maxDistance: int, links: set<Link>)
    requires DealtTo(s, |s|, 0, leaders, maxDistance, links)
    requires p < |s| && q < |s| && s[p] in leaders && s[q] in leaders
    requires HammingDistance(s[p], s[q]) <= maxDistance
    ensures Connected(links, leaders[s[p]], leaders[s[q]])
  {
    if p < q {
      assert Dealt(s, p, q, leaders, maxDistance, links);
    } else if q < p {
      HammingSymmetric(s[p], s[q]);
      assert Dealt(s, q, p, leaders, maxDistance, links);
      Symmetric(links, leaders[s[q]], leaders[s[p]]);
    } else {
      Reflexive(links, leaders[s[p]]);
    }
  }

  lemma TemplateLinkJoined(printOf: map<nat, nat>, byPrint: map<nat, set<nat>>, leaders: map<nat, nat>,
                           compared: seq<Bucket>, maxDistance: int, links: set<Link>, a: nat, b: nat)
    requires GroupedBy(byPrint, printOf) && GroupsAll(byPrint, printOf, printOf.Keys)
    requires LeadersOf(leaders, byPrint) && Chained(byPrint, {}, links)
    requires Compared(compared, |compared|, leaders, maxDistance, links)
    requires (a, b) in TemplateLinks(printOf, compared, maxDistance)
    ensures Connected(links, a, b)
  {
    JoinedToLeader(printOf, byPrint, leaders, links, a);
    JoinedToLeader(printOf, byPrint, leaders, links, b);
    var v, w := printOf[a], printOf[b];
    Symmetric(links, b, leaders[w]);
    if v != w {
      var k :| 0 <= k < |compared| && v in compared[k].members && w in compared[k].members;
      assert ComparedAt(compared, k, leaders, maxDistance, links);
      var s := Sorted(compared[k].members);
      var p :| 0 <= p < |s| && s[p] == v;
      var q :| 0 <= q < |s| && s[q] == w;
      LeadersJoined(leaders, s, p, q, maxDistance, links);
      Transitive(links, a, leaders[v], leaders[w]);
    }
    Transitive(links, a, leaders[w], b);
  }

  /**
   * Leaders, skipped comparisons and chained duplicates change nothing: the partition draws
   * exactly the closure of "equal, or close together in a bucket that was compared".
   */
  lemma ClusterDraws(printOf: map<nat, nat>, byPrint: map<nat, set<nat>>, leaders: map<nat, nat>,
                     pending: seq<Bucket>, n: nat, maxDistance: int, chained: set<Link>, links: set<Link>)
    requires GroupedBy(byPrint, printOf) && GroupsAll(byPrint, printOf, printOf.Keys)
    requires LeadersOf(leaders, byPrint) && n <= |pending|
    requires Chained(byPrint, {}, chained) && chained <= SameKey(printOf, byPrint.Keys)
    requires SpentOn(pending, n, leaders, maxDistance, chained, links)
    ensures SameComponents(links, TemplateLinks(printOf, pending[..n], maxDistance))
  {
    var compared := pending[..n];
    var spec := TemplateLinks(printOf, compared, maxDistance);
    assert compared[..n] == compared;
    assert Chained(byPrint, {}, links);
    forall a, b | (a, b) in links ensures Connected(spec, a, b) {
      if (a, b) !in chained {
        LeaderLinkClose(printOf, byPrint, leaders, compared, n, maxDistance, a, b);
      }
      Step(spec, a, b);
    }
    forall k | 0 <= k < n ensures ComparedAt(compared, k, leaders, maxDistance, links) {
      assert ComparedAt(pending, k, leaders, maxDistance, links) && compared[k] == pending[k];
    }
    forall a, b | (a, b) in spec ensures Connected(links, a, b) {
      TemplateLinkJoined(printOf, byPrint, leaders, compared, maxDistance, links, a, b);
    }
    MutualAbsorb(links, spec);
  }

  // ----- The clusters

  datatype TemplateMember = TemplateMember(messageId: nat, distance: nat)

  datatype TemplateGroup = TemplateGroup(direction: Direction, representative: nat,
                                         representativeSimhash: nat, members: seq<TemplateMember>)

  /** What a template is known by: no two of one archive share it. */
  datatype TemplateId = TemplateId(simhash: nat, direction: Direction)

  function IdOf(group: TemplateGroup): TemplateId {
    TemplateId(ToUnsigned64(group.representativeSimhash), group.direction)
  }

  /** The smallest member stands for the component; every member carries its distance to it. */
  function GroupOf(component: seq<nat>, printOf: map<nat, nat>, direction: Direction): TemplateGroup
    requires component != [] && forall i | 0 <= i < |component| :: component[i] in printOf
  {
    var all := set m | m in component;
    assert component[0] in all;
    var representative := Min(all);
    TemplateGroup(direction, representative, printOf[representative],
                  seq(|component|, i requires 0 <= i < |component| =>
                    TemplateMember(component[i], HammingDistance(printOf[component[i]], printOf[representative]))))
  }

  ghost predicate Grouping(components: seq<seq<nat>>, printOf: map<nat, nat>) {
    forall k | 0 <= k < |components| ::
      components[k] != [] && forall i | 0 <= i < |components[k]| :: components[k][i] in printOf
  }

  function GroupsOf(components: seq<seq<nat>>, printOf: map<nat, nat>, direction: Direction,
                    minOccurrences: int): seq<TemplateGroup>
    requires Grouping(components, printOf)
  {
    if components == [] then []
    else
      (if |components[0]| >= minOccurrences then [GroupOf(components[0], printOf, direction)] else [])
      + GroupsOf(components[1..], printOf, direction, minOccurrences)
  }

  lemma ComponentsGrouping(printOf: map<nat, nat>, links: set<Link>)
    ensures Grouping(ComponentsOf(printOf.Keys, links), printOf)
  {
    var components := ComponentsOf(printOf.Keys, links);
    forall k | 0 <= k < |components|
      ensures components[k] != [] && forall i | 0 <= i < |components[k]| :: components[k][i] in printOf
    {
      var leader := Sorted(Leaders(printOf.Keys, links))[k];
      assert leader in Sorted(Leaders(printOf.Keys, links));
      Reflexive(links, leader);
      assert leader in components[k];
      forall i | 0 <= i < |components[k]| ensures components[k][i] in printOf {
        assert components[k][i] in components[k];
      }
    }
  }

  datatype Clustering = BadBands | Clustered(groups: seq<TemplateGroup>, dropped: nat)

  /** A bucket of the list stands for the fingerprint's value in this band. */
  ghost predicate Bucketed(pending: seq<Bucket>, v: nat, i: nat, bandBits: nat) {
    exists k :: 0 <= k < |pending| && pending[k].major == i && pending[k].minor == Band(v, i, bandBits)
                && v in pending[k].members
  }

  /** A bucket of a band there is, and of no other fingerprints than those with its value in it. */
  ghost predicate Genuine(b: Bucket, prints: set<nat>, bandBits: nat)
    requires 1 <= bandBits
  {
    && b.major < BandCount(bandBits) && b.members != {} && b.members <= prints
    && forall v | v in b.members :: Band(v, b.major, bandBits) == b.minor
  }

  /** Every fingerprint stands in the bucket of each of its bands, and that is all there is. */
  ghost predicate Pending(pending: seq<Bucket>, prints: set<nat>, bandBits: nat)
    requires 1 <= bandBits
  {
    && Ascending(pending)
    && (forall k | 0 <= k < |pending| :: Genuine(pending[k], prints, bandBits))
    && (forall k, l | 0 <= k < |pending| && 0 <= l < |pending| ::
          pending[k].major == pending[l].major && pending[k].minor == pending[l].minor ==> pending[k] == pending[l])
    && (forall v, i: nat {:trigger Bucketed(pending, v, i, bandBits)} | v in prints && i < BandCount(bandBits) ::
          Bucketed(pending, v, i, bandBits))
  }

  lemma PendingMembers(pending: seq<Bucket>, prints: set<nat>, bandBits: nat, k: nat)
    requires 1 <= bandBits && Pending(pending, prints, bandBits) && k < |pending|
    ensures pending[k] in Banded(prints, bandBits)
  {
    var b := pending[k];
    assert Genuine(b, prints, bandBits);
    var key := (b.major, b.minor);
    var v :| v in b.members;
    assert key in BandIndex(prints, bandBits);
    forall w | w in Sharers(prints, key, bandBits) ensures w in b.members {
      assert Bucketed(pending, w, b.major, bandBits);
    }
    assert b.members == Sharers(prints, key, bandBits);
  }

  lemma BandedPending(pending: seq<Bucket>, prints: set<nat>, bandBits: nat, b: Bucket)
    requires 1 <= bandBits && Pending(pending, prints, bandBits) && b in Banded(prints, bandBits)
    ensures b in pending
  {
    var v, i: nat :| v in prints && i < BandCount(bandBits) && b.major == i && b.minor == Band(v, i, bandBits);
    assert Bucketed(pending, v, i, bandBits);
    var k :| 0 <= k < |pending| && pending[k].major == i && pending[k].minor == Band(v, i, bandBits);
    PendingMembers(pending, prints, bandBits, k);
    assert pending[k] in pending;
  }

  lemma SortedPending(prints: set<nat>, bandBits: nat)
    requires 1 <= bandBits
    ensures Pending(SortedBuckets(Banded(prints, bandBits)), prints, bandBits)
  {
    var pending := SortedBuckets(Banded(prints, bandBits));
    forall k | 0 <= k < |pending| ensures Genuine(pending[k], prints, bandBits) {
      assert pending[k] in pending;
      var v, i: nat :| v in prints && i < BandCount(bandBits) && pending[k].major == i
                       && pending[k].minor == Band(v, i, bandBits);
      assert v in pending[k].members;
    }
    forall k, l | 0 <= k < |pending| && 0 <= l < |pending|
      ensures pending[k].major == pending[l].major && pending[k].minor == pending[l].minor ==> pending[k] == pending[l]
    {
      assert pending[k] in pending && pending[l] in pending;
    }
    forall v, i: nat | v in prints && i < BandCount(bandBits) ensures Bucketed(pending, v, i, bandBits) {
      var key := (i, Band(v, i, bandBits));
      assert key in BandIndex(prints, bandBits);
      assert Bucket(key.0, key.1, Sharers(prints, key, bandBits)) in pending;
    }
  }

  /** The fingerprints and the band width decide the list: no other list is. */
  lemma PendingUnique(pending: seq<Bucket>, prints: set<nat>, bandBits: nat)
    requires 1 <= bandBits
    ensures Pending(pending, prints, bandBits) <==> pending == SortedBuckets(Banded(prints, bandBits))
  {
    SortedPending(prints, bandBits);
    if Pending(pending, prints, bandBits) {
      forall b ensures b in pending <==> b in Banded(prints, bandBits) {
        if b in pending {
          var k :| 0 <= k < |pending| && pending[k] == b;
          PendingMembers(pending, prints, bandBits, k);
        }
        if b in Banded(prints, bandBits) {
          BandedPending(pending, prints, bandBits, b);
        }
      }
      AscendingUnique(pending, SortedBuckets(Banded(prints, bandBits)));
    }
  }

  method PendingBuckets(prints: set<nat>, bandBits: nat) returns (pending: seq<Bucket>)
    requires 1 <= bandBits <= SIMHASH_BITS && Unsigned(prints)
    ensures Pending(pending, prints, bandBits)
    ensures pending == SortedBuckets(Banded(prints, bandBits))
  {
    var buckets := BandBuckets(prints, bandBits);
    pending := SortedBuckets(Listed(buckets));
    ListedIsBanded(buckets, prints, bandBits);
    PendingUnique(pending, prints, bandBits);
  }

  /** The links the budget paid for. */
  ghost function PaidLinks(printOf: map<nat, nat>, config: Config): set<Link> {
    PaidOver(printOf, PendingOf(printOf, config), config)
  }

  ghost function PaidOver(printOf: map<nat, nat>, pending: seq<Bucket>, config: Config): set<Link> {
    TemplateLinks(printOf, pending[..Afforded(pending, Budget(config))], config.maxDistance)
  }

  /** The buckets nothing is spent on. */
  ghost function DroppedOf(printOf: map<nat, nat>, config: Config): nat {
    |PendingOf(printOf, config)| - Afforded(PendingOf(printOf, config), Budget(config))
  }

  /** One group per component of at least so many copies. */
  ghost function TemplatesOf(printOf: map<nat, nat>, direction: Direction, config: Config): seq<TemplateGroup> {
    ComponentsGrouping(printOf, PaidLinks(printOf, config));
    GroupsOf(ComponentsOf(printOf.Keys, PaidLinks(printOf, config)), printOf, direction, config.minOccurrences)
  }

  /** What one direction's fingerprints and the configuration decide. */
  ghost function ClusteringOf(printOf: map<nat, nat>, direction: Direction, config: Config): Clustering {
    if BandsRefused(printOf, config) then BadBands
    else Clustered(TemplatesOf(printOf, direction, config), DroppedOf(printOf, config))
  }

  predicate BandsRefused(printOf: map<nat, nat>, config: Config) {
    printOf != map[] && (config.bandBits < 1 || config.bandBits > SIMHASH_BITS)
  }

  /** The smallest id of each fingerprint. */
  function LeadersFor(groups: map<nat, set<nat>>): (leaders: map<nat, nat>)
    requires forall key | key in groups :: groups[key] != {}
    ensures LeadersOf(leaders, groups)
  {
    map v | v in groups :: Min(groups[v])
  }

  lemma LeadersKnown(leaders: map<nat, nat>, byPrint: map<nat, set<nat>>, printOf: map<nat, nat>)
    requires LeadersOf(leaders, byPrint) && GroupedBy(byPrint, printOf)
    ensures forall v | v in leaders :: leaders[v] in printOf
  {
    forall v | v in leaders ensures leaders[v] in printOf {
      assert leaders[v] in byPrint[v];
    }
  }

  /** Equal fingerprints first, outside the budget: one chain and one leader each. */
  method JoinEqual(partition: DisjointSet, printOf: map<nat, nat>)
    returns (leaders: map<nat, nat>, ghost byPrint: map<nat, set<nat>>)
    requires partition.Valid() && partition.roots.Keys == printOf.Keys && partition.links == {}
    modifies partition
    ensures partition.Valid() && partition.roots.Keys == printOf.Keys
    ensures GroupedBy(byPrint, printOf) && GroupsAll(byPrint, printOf, printOf.Keys) && LeadersOf(leaders, byPrint)
    ensures Chained(byPrint, {}, partition.links) && partition.links <= SameKey(printOf, byPrint.Keys)
    ensures leaders.Keys == printOf.Values && forall v | v in leaders :: leaders[v] in printOf
  {
    var groups := GroupByKey(printOf);
    byPrint := groups;
    JoinGroups(partition, groups, printOf);
    leaders := LeadersFor(groups);
    LeadersKnown(leaders, byPrint, printOf);
  }

  method OrderedBuckets(printOf: map<nat, nat>, config: Config) returns (pending: seq<Bucket>)
    requires Unsigned(printOf.Values) && !BandsRefused(printOf, config)
    ensures pending == PendingOf(printOf, config)
    ensures forall k | 0 <= k < |pending| :: pending[k].members <= printOf.Values
  {
    pending := [];
    if printOf != map[] {
      pending := PendingBuckets(printOf.Values, config.bandBits);
      assert forall k | 0 <= k < |pending| :: Genuine(pending[k], printOf.Values, config.bandBits);
    } else {
      assert config.bandBits >= 1 ==> Banded({}, config.bandBits) == {};
    }
  }

  lemma ClusterComponents(printOf: map<nat, nat>, byPrint: map<nat, set<nat>>, leaders: map<nat, nat>,
                          pending: seq<Bucket>, config: Config, chained: set<Link>, links: set<Link>)
    requires GroupedBy(byPrint, printOf) && GroupsAll(byPrint, printOf, printOf.Keys)
    requires LeadersOf(leaders, byPrint)
    requires Chained(byPrint, {}, chained) && chained <= SameKey(printOf, byPrint.Keys)
    requires SpentOn(pending, Afforded(pending, Budget(config)), leaders, config.maxDistance, chained, links)
    ensures ComponentsOf(printOf.Keys, links) == ComponentsOf(printOf.Keys, PaidOver(printOf, pending, config))
    ensures Grouping(ComponentsOf(printOf.Keys, links), printOf)
  {
    ClusterDraws(printOf, byPrint, leaders, pending, Afforded(pending, Budget(config)), config.maxDistance, chained,
          links);
    ComponentsSame(printOf.Keys, links, PaidOver(printOf, pending, config));
    ComponentsGrouping(printOf, links);
  }

  /** Duplicates joined, then the buckets compared as far as the budget goes. */
  method DrawTemplates(partition: DisjointSet, printOf: map<nat, nat>, pending: seq<Bucket>, config: Config)
    returns (dropped: nat)
    requires partition.Valid() && partition.roots.Keys == printOf.Keys && partition.links == {}
    requires forall k | 0 <= k < |pending| :: pending[k].members <= printOf.Values
    modifies partition
    ensures partition.Valid() && partition.roots.Keys == printOf.Keys
    ensures dropped == |pending| - Afforded(pending, Budget(config))
    ensures ComponentsOf(printOf.Keys, partition.links)
         == ComponentsOf(printOf.Keys, PaidOver(printOf, pending, config))
  {
    var leaders, byPrint := JoinEqual(partition, printOf);
    ghost var chained := partition.links;
    dropped := CompareBuckets(partition, pending, leaders, config);
    ClusterComponents(printOf, byPrint, leaders, pending, config, chained, partition.links);
  }

  /** The groups are the components of the links the budget paid for; what it did not reach is counted. */
  method Cluster(printOf: map<nat, nat>, direction: Direction, config: Config) returns (r: Clustering)
    requires Unsigned(printOf.Values)
    ensures r == ClusteringOf(printOf, direction, config)
  {
    if BandsRefused(printOf, config) {
      return BadBands;
    }
    var pending := OrderedBuckets(printOf, config);
    var partition := new DisjointSet(printOf.Keys);
    var dropped := DrawTemplates(partition, printOf, pending, config);
    var components := partition.Components();
    ComponentsGrouping(printOf, PaidLinks(printOf, config));
    r := Clustered(GroupsOf(components, printOf, direction, config.minOccurrences), dropped);
  }

  // ----- Both directions

  function DirectionOf(one: MessageFacts): Direction {
    if one.outbound then Sent else Received
  }

  /** The fingerprints of one direction, empty bodies discarded. */
  function PrintsOf(facts: seq<MessageFacts>, direction: Direction): map<nat, nat> {
    if facts == [] then map[]
    else
      var last := facts[|facts| - 1];
      var rest := PrintsOf(facts[..|facts| - 1], direction);
      if last.simhash != 0 && DirectionOf(last) == direction then rest[last.id := last.simhash] else rest
  }

  ghost predicate UnsignedFacts(facts: seq<MessageFacts>) {
    forall i | 0 <= i < |facts| :: facts[i].simhash < 0x1_0000_0000_0000_0000
  }

  lemma {:induction false} PrintsUnsigned(facts: seq<MessageFacts>, direction: Direction)
    requires UnsignedFacts(facts)
    ensures Unsigned(PrintsOf(facts, direction).Values)
    ensures forall m | m in PrintsOf(facts, direction) ::
              0 < PrintsOf(facts, direction)[m] < 0x1_0000_0000_0000_0000
  {
    if facts != [] {
      PrintsUnsigned(facts[..|facts| - 1], direction);
    }
    forall v | v in PrintsOf(facts, direction).Values ensures v < 0x1_0000_0000_0000_0000 {
      var m :| m in PrintsOf(facts, direction) && PrintsOf(facts, direction)[m] == v;
    }
  }

  function Unhashable(facts: seq<MessageFacts>): nat {
    if facts == [] then 0
    else Unhashable(facts[..|facts| - 1]) + if facts[|facts| - 1].simhash == 0 then 1 else 0
  }

  datatype TemplateGrouping = TemplateGrouping(groups: seq<TemplateGroup>, unhashable: nat, dropped: nat)

  /** What an archive and the configuration decide; nothing when the band width is refused. */
  ghost function GroupingOf(facts: seq<MessageFacts>, config: Config): Option<TemplateGrouping> {
    Both(ClusteringOf(PrintsOf(facts, Sent), Sent, config), ClusteringOf(PrintsOf(facts, Received), Received, config),
         Unhashable(facts))
  }

  function Both(sent: Clustering, received: Clustering, unhashable: nat): Option<TemplateGrouping> {
    match (sent, received)
    case (Clustered(first, few), Clustered(second, more)) =>
      Some(TemplateGrouping(first + second, unhashable, few + more))
    case _ => None
  }

  /** `group_templates`: the two directions clustered apart, sent mail first. */
  method GroupTemplates(facts: seq<MessageFacts>, config: Config) returns (r: Option<TemplateGrouping>)
    requires DistinctIds(facts) && UnsignedFacts(facts)
    ensures r == GroupingOf(facts, config)
    ensures r.None? <==> BandsRefused(PrintsOf(facts, Sent), config) || BandsRefused(PrintsOf(facts, Received), config)
    ensures r.Some? ==> r.value.groups == TemplatesOf(PrintsOf(facts, Sent), Sent, config)
                                        + TemplatesOf(PrintsOf(facts, Received), Received, config)
    ensures r.Some? ==> r.value.unhashable == Unhashable(facts)
    ensures r.Some? ==> r.value.dropped == DroppedOf(PrintsOf(facts, Sent), config)
                                         + DroppedOf(PrintsOf(facts, Received), config)
  {
    PrintsUnsigned(facts, Sent);
    PrintsUnsigned(facts, Received);
    var sent := Cluster(PrintsOf(facts, Sent), Sent, config);
    var received := Cluster(PrintsOf(facts, Received), Received, config);
    r := Both(sent, received, Unhashable(facts));
  }

  // ----- The order of the archive

  ghost predicate Prints(facts: seq<MessageFacts>, direction: Direction, m: nat, v: nat) {
    exists one :: one in facts && one.id == m && one.simhash == v && v != 0 && DirectionOf(one) == direction
  }

  lemma DistinctPrefix(facts: seq<MessageFacts>)
    requires DistinctIds(facts) && facts != []
    ensures DistinctIds(facts[..|facts| - 1])
    ensures forall one | one in facts[..|facts| - 1] :: one.id != facts[|facts| - 1].id
    ensures forall one | one in facts :: one in facts[..|facts| - 1] || one == facts[|facts| - 1]
  {}

  lemma {:induction false} PrintsAre(facts: seq<MessageFacts>, direction: Direction, m: nat, v: nat)
    requires DistinctIds(facts)
    ensures m in PrintsOf(facts, direction) && PrintsOf(facts, direction)[m] == v
       <==> Prints(facts, direction, m, v)
  {
    if facts != [] {
      var rest, last := facts[..|facts| - 1], facts[|facts| - 1];
      DistinctPrefix(facts);
      PrintsAre(rest, direction, m, v);
      if m == last.id {
        assert m in PrintsOf(rest, direction) ==> !Prints(rest, direction, m, PrintsOf(rest, direction)[m]);
        if m in PrintsOf(rest, direction) {
          PrintsAre(rest, direction, m, PrintsOf(rest, direction)[m]);
        }
      }
    }
  }

  lemma {:induction false} UnhashableCounted(facts: seq<MessageFacts>)
    requires DistinctIds(facts)
    ensures Unhashable(facts) == |set one | one in facts && one.simhash == 0|
  {
    if facts != [] {
      var rest, last := facts[..|facts| - 1], facts[|facts| - 1];
      DistinctPrefix(facts);
      UnhashableCounted(rest);
      var before := set one | one in rest && one.simhash == 0;
      assert (set one | one in facts && one.simhash == 0) == before + if last.simhash == 0 then {last} else {};
    }
  }

  lemma SamePrints(facts: seq<MessageFacts>, facts': seq<MessageFacts>, direction: Direction)
    requires DistinctIds(facts) && DistinctIds(facts') && forall one :: one in facts <==> one in facts'
    ensures PrintsOf(facts, direction) == PrintsOf(facts', direction)
  {
    var a, b := PrintsOf(facts, direction), PrintsOf(facts', direction);
    forall m | m in a ensures m in b && b[m] == a[m] {
      PrintsAre(facts, direction, m, a[m]);
      PrintsAre(facts', direction, m, a[m]);
    }
    forall m | m in b ensures m in a {
      PrintsAre(facts, direction, m, b[m]);
      PrintsAre(facts', direction, m, b[m]);
    }
  }

  /** The same messages in any order give the same templates in the same order, and the same two counts. */
  lemma OrderIndependent(facts: seq<MessageFacts>, facts': seq<MessageFacts>, config: Config)
    requires DistinctIds(facts) && DistinctIds(facts') && forall one :: one in facts <==> one in facts'
    ensures GroupingOf(facts, config) == GroupingOf(facts', config)
  {
    SamePrints(facts, facts', Sent);
    SamePrints(facts, facts', Received);
    UnhashableCounted(facts);
    UnhashableCounted(facts');
    assert (set one | one in facts && one.simhash == 0) == (set one | one in facts' && one.simhash == 0);
  }

  // ----- Single linkage

  /** Plain single linkage at distance d: no bands, no leaders, no budget. */
  ghost function Linkage(printOf: map<nat, nat>, d: int): set<Link> {
    set a, b | a in printOf && b in printOf
               && (printOf[a] == printOf[b] || HammingDistance(printOf[a], printOf[b]) <= d) :: (a, b)
  }

  /** The clusters never join more than single linkage would, whatever the budget. */
  lemma NeverTooMuch(printOf: map<nat, nat>, config: Config, x: nat, y: nat)
    requires Connected(PaidLinks(printOf, config), x, y)
    ensures Connected(Linkage(printOf, config.maxDistance), x, y)
  {
    var links, linkage := PaidLinks(printOf, config), Linkage(printOf, config.maxDistance);
    assert links <= linkage;
    Monotone(links, linkage, x, y);
  }

  /** With every bucket paid for they join all that single linkage joins below the number of bands. */
  lemma NeverTooLittle(printOf: map<nat, nat>, config: Config, d: int, x: nat, y: nat)
    requires config.bandBits >= 1 && DroppedOf(printOf, config) == 0
    requires d <= config.maxDistance && d < BandCount(config.bandBits)
    requires Connected(Linkage(printOf, d), x, y)
    ensures Connected(PaidLinks(printOf, config), x, y)
  {
    var links, pending := PaidLinks(printOf, config), PendingOf(printOf, config);
    assert pending[..|pending|] == pending;
    forall a, b | (a, b) in Linkage(printOf, d) ensures Connected(links, a, b) {
      if printOf[a] != printOf[b] {
        ShareBucket(printOf, config, printOf[a], printOf[b]);
      }
      assert (a, b) in links;
      Step(links, a, b);
    }
    Absorb(Linkage(printOf, d), links, x, y);
  }

  lemma ShareBucket(printOf: map<nat, nat>, config: Config, v: nat, w: nat)
    requires config.bandBits >= 1 && v in printOf.Values && w in printOf.Values
    requires HammingDistance(v, w) <= config.maxDistance && HammingDistance(v, w) < BandCount(config.bandBits)
    ensures CloseIn(PendingOf(printOf, config), v, w, config.maxDistance)
  {
    var pending := PendingOf(printOf, config);
    SortedPending(printOf.Values, config.bandBits);
    var i := NearShareBand(v, w, config.bandBits);
    assert Bucketed(pending, v, i, config.bandBits) && Bucketed(pending, w, i, config.bandBits);
    var k :| 0 <= k < |pending| && pending[k].major == i && pending[k].minor == Band(v, i, config.bandBits)
             && v in pending[k].members;
    var l :| 0 <= l < |pending| && pending[l].major == i && pending[l].minor == Band(w, i, config.bandBits)
             && w in pending[l].members;
    assert pending[k] == pending[l];
  }

  /** Where the distance stays below the number of bands, banding is exactly single linkage. */
  lemma BandingIsSingleLinkage(printOf: map<nat, nat>, config: Config)
    requires config.bandBits >= 1 && DroppedOf(printOf, config) == 0
    requires config.maxDistance < BandCount(config.bandBits)
    ensures SameComponents(PaidLinks(printOf, config), Linkage(printOf, config.maxDistance))
  {
    forall x, y
      ensures Connected(PaidLinks(printOf, config), x, y)
         <==> Connected(Linkage(printOf, config.maxDistance), x, y)
    {
      if Connected(PaidLinks(printOf, config), x, y) {
        NeverTooMuch(printOf, config, x, y);
      }
      if Connected(Linkage(printOf, config.maxDistance), x, y) {
        NeverTooLittle(printOf, config, config.maxDistance, x, y);
      }
    }
  }

  // ----- What no budget can cost

  /** Messages with equal fingerprints are in one component whatever the budget. */
  lemma EqualStayTogether(printOf: map<nat, nat>, config: Config, x: nat, y: nat)
    requires x in printOf && y in printOf && printOf[x] == printOf[y]
    ensures Connected(PaidLinks(printOf, config), x, y)
  {
    Step(PaidLinks(printOf, config), x, y);
  }

  lemma {:induction false} AffordedMore(pending: seq<Bucket>, budget: int, more: int)
    requires budget <= more
    ensures Afforded(pending, budget) <= Afforded(pending, more)
  {
    if pending != [] && Pairs(|pending[0].members|) <= budget {
      var cost := Pairs(|pending[0].members|);
      AffordedMore(pending[1..], budget - cost, more - cost);
    }
  }

  /** A smaller budget only ever splits what a larger one joins. */
  lemma BudgetRefines(printOf: map<nat, nat>, config: Config, more: int, x: nat, y: nat)
    requires config.maxComparisons <= more
    requires Connected(PaidLinks(printOf, config), x, y)
    ensures Connected(PaidLinks(printOf, config.(maxComparisons := more)), x, y)
  {
    var richer := config.(maxComparisons := more);
    var pending := PendingOf(printOf, config);
    AffordedMore(pending, Budget(config), Budget(richer));
    var few, many := pending[..Afforded(pending, Budget(config))], pending[..Afforded(pending, Budget(richer))];
    forall v, w | CloseIn(few, v, w, config.maxDistance) ensures CloseIn(many, v, w, config.maxDistance) {
      var k :| 0 <= k < |few| && v in few[k].members && w in few[k].members;
      assert many[k] == few[k];
    }
    Monotone(PaidLinks(printOf, config), PaidLinks(printOf, richer), x, y);
  }

  // ----- The keys

  lemma {:induction false} GroupFrom(components: seq<seq<nat>>, printOf: map<nat, nat>, direction: Direction,
                                     minOccurrences: int, i: nat) returns (k: nat)
    requires Grouping(components, printOf)
    requires i < |GroupsOf(components, printOf, direction, minOccurrences)|
    ensures i <= k < |components| && |components[k]| >= minOccurrences
    ensures GroupsOf(components, printOf, direction, minOccurrences)[i] == GroupOf(components[k], printOf, direction)
  {
    var first := if |components[0]| >= minOccurrences then 1 else 0;
    if i < first {
      k := 0;
    } else {
      var later := GroupFrom(components[1..], printOf, direction, minOccurrences, i - first);
      k := later + 1;
    }
  }

  /** Different components have representatives with different fingerprints. */
  ghost predicate Apart(components: seq<seq<nat>>, printOf: map<nat, nat>)
    requires Grouping(components, printOf)
  {
    forall k, l | 0 <= k < l < |components| ::
      GroupOf(components[k], printOf, Sent).representativeSimhash
      != GroupOf(components[l], printOf, Sent).representativeSimhash
  }

  lemma RestApart(components: seq<seq<nat>>, printOf: map<nat, nat>)
    requires components != [] && Grouping(components, printOf) && Apart(components, printOf)
    ensures Grouping(components[1..], printOf) && Apart(components[1..], printOf)
  {
    var rest := components[1..];
    forall k, l | 0 <= k < l < |rest|
      ensures GroupOf(rest[k], printOf, Sent).representativeSimhash
           != GroupOf(rest[l], printOf, Sent).representativeSimhash
    {
      assert rest[k] == components[k + 1] && rest[l] == components[l + 1];
    }
  }

  lemma {:induction false} GroupsApart(components: seq<seq<nat>>, printOf: map<nat, nat>, direction: Direction,
                                       minOccurrences: int, i: nat, j: nat)
    requires Grouping(components, printOf) && Apart(components, printOf)
    requires i < j < |GroupsOf(components, printOf, direction, minOccurrences)|
    ensures var groups := GroupsOf(components, printOf, direction, minOccurrences);
            groups[i].representativeSimhash != groups[j].representativeSimhash
  {
    var first := if |components[0]| >= minOccurrences then 1 else 0;
    var rest := components[1..];
    RestApart(components, printOf);
    if i < first {
      var k := GroupFrom(rest, printOf, direction, minOccurrences, j - first);
      assert rest[k] == components[k + 1];
    } else {
      GroupsApart(rest, printOf, direction, minOccurrences, i - first, j - first);
    }
  }

  lemma ComponentsApart(printOf: map<nat, nat>, config: Config, k: nat, l: nat)
    requires Grouping(ComponentsOf(printOf.Keys, PaidLinks(printOf, config)), printOf)
    requires k < l < |ComponentsOf(printOf.Keys, PaidLinks(printOf, config))|
    ensures var components := ComponentsOf(printOf.Keys, PaidLinks(printOf, config));
            GroupOf(components[k], printOf, Sent).representativeSimhash
            != GroupOf(components[l], printOf, Sent).representativeSimhash
  {
    var links := PaidLinks(printOf, config);
    var components := ComponentsOf(printOf.Keys, links);
    var x := GroupOf(components[k], printOf, Sent).representative;
    var y := GroupOf(components[l], printOf, Sent).representative;
    assert x in components[k] && y in components[l];
    if printOf[x] == printOf[y] {
      EqualStayTogether(printOf, config, x, y);
      ComponentsSplit(printOf.Keys, links, k, x, y);
      ComponentsDisjoint(printOf.Keys, links, k, l, y);
    }
  }

  lemma AllApart(printOf: map<nat, nat>, config: Config)
    ensures Grouping(ComponentsOf(printOf.Keys, PaidLinks(printOf, config)), printOf)
    ensures Apart(ComponentsOf(printOf.Keys, PaidLinks(printOf, config)), printOf)
  {
    ComponentsGrouping(printOf, PaidLinks(printOf, config));
    var components := ComponentsOf(printOf.Keys, PaidLinks(printOf, config));
    forall k, l | 0 <= k < l < |components|
      ensures GroupOf(components[k], printOf, Sent).representativeSimhash
           != GroupOf(components[l], printOf, Sent).representativeSimhash
    {
      ComponentsApart(printOf, config, k, l);
    }
  }

  lemma GroupKey(components: seq<seq<nat>>, printOf: map<nat, nat>, direction: Direction, minOccurrences: int, i: nat)
    requires Grouping(components, printOf) && Unsigned(printOf.Values)
    requires i < |GroupsOf(components, printOf, direction, minOccurrences)|
    ensures var group := GroupsOf(components, printOf, direction, minOccurrences)[i];
            IdOf(group) == TemplateId(group.representativeSimhash, direction)
  {
    var k := GroupFrom(components, printOf, direction, minOccurrences, i);
    GroupPrint(components[k], printOf, direction);
    Unsigned64(GroupOf(components[k], printOf, direction).representativeSimhash);
  }

  lemma GroupPrint(component: seq<nat>, printOf: map<nat, nat>, direction: Direction)
    requires component != [] && forall i | 0 <= i < |component| :: component[i] in printOf
    ensures GroupOf(component, printOf, direction).direction == direction
    ensures GroupOf(component, printOf, direction).representativeSimhash in printOf.Values
  {
    var representative := GroupOf(component, printOf, direction).representative;
    assert representative in component;
    assert representative in printOf;
  }

  lemma Unsigned64(v: nat)
    requires v < 0x1_0000_0000_0000_0000
    ensures ToUnsigned64(v) == v
  {}

  ghost predicate DistinctKeys(groups: seq<TemplateGroup>) {
    forall i, j | 0 <= i < j < |groups| :: IdOf(groups[i]) != IdOf(groups[j])
  }

  ghost predicate KeyedBy(groups: seq<TemplateGroup>, direction: Direction) {
    forall i | 0 <= i < |groups| :: IdOf(groups[i]).direction == direction
  }

  /** No two templates of one direction share a key. */
  lemma KeysApart(printOf: map<nat, nat>, direction: Direction, config: Config)
    requires Unsigned(printOf.Values)
    ensures DistinctKeys(TemplatesOf(printOf, direction, config))
    ensures KeyedBy(TemplatesOf(printOf, direction, config), direction)
  {
    AllApart(printOf, config);
    var components := ComponentsOf(printOf.Keys, PaidLinks(printOf, config));
    var groups := GroupsOf(components, printOf, direction, config.minOccurrences);
    forall i | 0 <= i < |groups|
      ensures IdOf(groups[i]) == TemplateId(groups[i].representativeSimhash, direction)
    {
      GroupKey(components, printOf, direction, config.minOccurrences, i);
    }
    forall i, j | 0 <= i < j < |groups| ensures IdOf(groups[i]) != IdOf(groups[j]) {
      GroupsApart(components, printOf, direction, config.minOccurrences, i, j);
    }
  }

  lemma DirectionsApart(sent: seq<TemplateGroup>, received: seq<TemplateGroup>)
    requires DistinctKeys(sent) && DistinctKeys(received) && KeyedBy(sent, Sent) && KeyedBy(received, Received)
    ensures DistinctKeys(sent + received)
  {}

  /** All keys of both directions are pairwise distinct, whatever the budget. */
  lemma TemplateIdsDistinct(facts: seq<MessageFacts>, config: Config)
    requires UnsignedFacts(facts)
    ensures DistinctKeys(TemplatesOf(PrintsOf(facts, Sent), Sent, config)
                         + TemplatesOf(PrintsOf(facts, Received), Received, config))
  {
    PrintsUnsigned(facts, Sent);
    PrintsUnsigned(facts, Received);
    KeysApart(PrintsOf(facts, Sent), Sent, config);
    KeysApart(PrintsOf(facts, Received), Received, config);
    DirectionsApart(TemplatesOf(PrintsOf(facts, Sent), Sent, config),
                    TemplatesOf(PrintsOf(facts, Received), Received, config));
  }
}
