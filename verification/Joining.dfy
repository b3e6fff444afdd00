/** Feeding a partition: chains of members, and one chain per group of a dictionary. */
module Joining {
  import opened Order
  import opened Closure
  import opened Partition

  /** Links were added, none but the allowed ones. */
  ghost predicate Grown(was: set<Link>, links: set<Link>, allowed: set<Link>) {
    was <= links <= was + allowed
  }

  /** Every member joined to the next one. */
  method UnionChain(partition: DisjointSet, members: seq<nat>)
    requires partition.Valid() && forall i | 0 <= i < |members| :: members[i] in partition.roots
    modifies partition
    ensures partition.Valid() && partition.roots.Keys == old(partition.roots.Keys)
    ensures partition.links == old(partition.links) + Chain(members)
  {
    assert members[..|members|] == members;
    var i := 1;
    while i < |members|
      invariant 1 <= i && (i <= |members| || |members| == 0)
      invariant partition.Valid() && partition.roots.Keys == old(partition.roots.Keys)
      invariant i <= |members| ==> partition.links == old(partition.links) + Chain(members[..i])
      invariant |members| == 0 ==> partition.links == old(partition.links)
    {
      partition.Union(members[i - 1], members[i]);
      assert members[..i + 1][..i] == members[..i];
      i := i + 1;
    }
  }

  /** Every member of a group carries the group's key. */
  ghost predicate GroupedBy(groups: map<nat, set<nat>>, keyOf: map<nat, nat>) {
    forall key, m | key in groups && m in groups[key] :: m in keyOf && keyOf[m] == key
  }

  /** And every item is in its key's group. */
  ghost predicate GroupsAll(groups: map<nat, set<nat>>, keyOf: map<nat, nat>, items: set<nat>) {
    forall m | m in items && m in keyOf :: keyOf[m] in groups && m in groups[keyOf[m]]
  }

  /** The members of each key. */
  method GroupByKey(keyOf: map<nat, nat>) returns (groups: map<nat, set<nat>>)
    ensures GroupedBy(groups, keyOf) && GroupsAll(groups, keyOf, keyOf.Keys)
    ensures groups.Keys == keyOf.Values && forall key | key in groups :: groups[key] != {}
  {
    groups := map[];
    var todo := keyOf.Keys;
    while todo != {}
      invariant todo <= keyOf.Keys
      invariant GroupedBy(groups, keyOf) && GroupsAll(groups, keyOf, keyOf.Keys - todo)
      invariant groups.Keys <= keyOf.Values && forall key | key in groups :: groups[key] != {}
      decreases todo
    {
      var item :| item in todo;
      todo := todo - {item};
      var key := keyOf[item];
      groups := groups[key := (if key in groups then groups[key] else {}) + {item}];
    }
    forall key | key in keyOf.Values ensures key in groups {
      var m :| m in keyOf && keyOf[m] == key;
    }
  }

  /** Two items that carry one key of a given set of keys. */
  ghost function SameKey(keyOf: map<nat, nat>, keys: set<nat>): set<Link> {
    set a, b | a in keyOf && b in keyOf && keyOf[a] == keyOf[b] && keyOf[a] in keys :: (a, b)
  }

  /** Every group but those still to come is chained. */
  ghost predicate Chained(groups: map<nat, set<nat>>, todo: set<nat>, links: set<Link>) {
    forall key | key in groups && key !in todo :: Chain(Sorted(groups[key])) <= links
  }

  lemma {:induction false} KeyChain(members: seq<nat>, keyOf: map<nat, nat>, key: nat, keys: set<nat>)
    requires key in keys && forall i | 0 <= i < |members| :: members[i] in keyOf && keyOf[members[i]] == key
    ensures Chain(members) <= SameKey(keyOf, keys)
    decreases |members|
  {
    var n := |members|;
    if n >= 2 {
      KeyChain(members[..n - 1], keyOf, key, keys);
      assert (members[n - 2], members[n - 1]) in SameKey(keyOf, keys);
    }
  }

  lemma GroupChain(groups: map<nat, set<nat>>, keyOf: map<nat, nat>, key: nat)
    requires GroupedBy(groups, keyOf) && key in groups
    ensures var members := Sorted(groups[key]);
            && (forall i | 0 <= i < |members| :: members[i] in keyOf)
            && Chain(members) <= SameKey(keyOf, groups.Keys)
  {
    var members := Sorted(groups[key]);
    forall i | 0 <= i < |members| ensures members[i] in keyOf && keyOf[members[i]] == key {
      assert members[i] in members;
    }
    KeyChain(members, keyOf, key, groups.Keys);
  }

  /** One chain per group, whatever order the dictionary yields its groups in. */
  method JoinGroups(partition: DisjointSet, groups: map<nat, set<nat>>, ghost keyOf: map<nat, nat>)
    requires partition.Valid() && keyOf.Keys <= partition.roots.Keys && GroupedBy(groups, keyOf)
    modifies partition
    ensures partition.Valid() && partition.roots.Keys == old(partition.roots.Keys)
    ensures Grown(old(partition.links), partition.links, SameKey(keyOf, groups.Keys))
    ensures Chained(groups, {}, partition.links)
  {
    var todo := groups.Keys;
    while todo != {}
      invariant todo <= groups.Keys
      invariant partition.Valid() && partition.roots.Keys == old(partition.roots.Keys)
      invariant Grown(old(partition.links), partition.links, SameKey(keyOf, groups.Keys))
      invariant Chained(groups, todo, partition.links)
      decreases todo
    {
      var key :| key in todo;
      todo := todo - {key};
      GroupChain(groups, keyOf, key);
      UnionChain(partition, Sorted(groups[key]));
    }
  }
}
