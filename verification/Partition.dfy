/**
 * The union-find the two remaining analyses share (`derived/partition.py`).
 */
module Partition {
  import opened Order
  import opened Closure
  import opened Forest
  import opened Powers

  /** Everything among the items that the links connect to x. */
  ghost function Component(items: set<nat>, links: set<Link>, x: nat): set<nat> {
    set y | y in items && Connected(links, x, y)
  }

  ghost predicate Leads(items: set<nat>, links: set<Link>, x: nat) {
    forall y | y in Component(items, links, x) :: x <= y
  }

  /** The smallest member of every component. */
  ghost function Leaders(items: set<nat>, links: set<Link>): set<nat> {
    set x | x in items && Leads(items, links, x)
  }

  ghost function Led(items: set<nat>, links: set<Link>, leaders: seq<nat>): (r: seq<seq<nat>>)
    ensures |r| == |leaders|
    ensures forall k | 0 <= k < |r| :: r[k] == Sorted(Component(items, links, leaders[k]))
  {
    seq(|leaders|, k requires 0 <= k < |leaders| => Sorted(Component(items, links, leaders[k])))
  }

  /**
   * What `components` has to answer for a set of items under a set of links: every
   * component once, members increasing, the components ordered by their smallest member
   * (which for disjoint increasing lists is the lexicographic order of the lists).
   */
  ghost function ComponentsOf(items: set<nat>, links: set<Link>): seq<seq<nat>> {
    Led(items, links, Sorted(Leaders(items, links)))
  }

  /**
   * The answer depends on nothing but the induced equivalence: not on which unions were
   * made, nor in which order they arrived, nor on which item became a root.
   */
  lemma ComponentsSame(items: set<nat>, left: set<Link>, right: set<Link>)
    requires forall x, y | x in items && y in items :: Connected(left, x, y) <==> Connected(right, x, y)
    ensures ComponentsOf(items, left) == ComponentsOf(items, right)
  {
    forall x | x in items
      ensures Component(items, left, x) == Component(items, right, x)
      ensures Leads(items, left, x) <==> Leads(items, right, x)
    {}
    assert Leaders(items, left) == Leaders(items, right);
    var leaders := Sorted(Leaders(items, left));
    forall k | 0 <= k < |leaders| ensures Component(items, left, leaders[k]) == Component(items, right, leaders[k]) {
      assert leaders[k] in leaders;
    }
  }

  // ----- What a component list says

  lemma ComponentShared(items: set<nat>, links: set<Link>, x: nat, y: nat)
    requires x in items && y in Component(items, links, x)
    ensures Component(items, links, y) == Component(items, links, x)
  {
    Symmetric(links, x, y);
    forall z | z in items ensures Connected(links, x, z) <==> Connected(links, y, z) {
      if Connected(links, x, z) { Transitive(links, y, x, z); }
      if Connected(links, y, z) { Transitive(links, x, y, z); }
    }
  }

  /** Each list is the whole component of any of its members. */
  lemma ComponentsWhole(items: set<nat>, links: set<Link>, k: nat, x: nat)
    requires k < |ComponentsOf(items, links)| && x in ComponentsOf(items, links)[k]
    ensures x in items && ComponentsOf(items, links)[k] == Sorted(Component(items, links, x))
  {
    var leader := Sorted(Leaders(items, links))[k];
    assert leader in Sorted(Leaders(items, links));
    ComponentShared(items, links, leader, x);
  }

  /** Every item is on a list: its own component's. */
  lemma ComponentsCover(items: set<nat>, links: set<Link>, x: nat) returns (k: nat)
    requires x in items
    ensures k < |ComponentsOf(items, links)| && x in ComponentsOf(items, links)[k]
    ensures ComponentsOf(items, links)[k] == Sorted(Component(items, links, x))
  {
    Reflexive(links, x);
    assert x in Component(items, links, x);
    var leader := Min(Component(items, links, x));
    ComponentShared(items, links, x, leader);
    assert Leads(items, links, leader) && leader in Leaders(items, links);
    k :| 0 <= k < |Sorted(Leaders(items, links))| && Sorted(Leaders(items, links))[k] == leader;
  }

  /** Two items stand on one list exactly when the links connect them. */
  lemma ComponentsSplit(items: set<nat>, links: set<Link>, k: nat, x: nat, y: nat)
    requires k < |ComponentsOf(items, links)| && x in ComponentsOf(items, links)[k] && y in items
    ensures y in ComponentsOf(items, links)[k] <==> Connected(links, x, y)
  {
    ComponentsWhole(items, links, k, x);
  }

  lemma OneLeader(items: set<nat>, links: set<Link>, a: nat, b: nat, x: nat)
    requires a in Leaders(items, links) && b in Leaders(items, links)
    requires x in Component(items, links, a) && x in Component(items, links, b)
    ensures a == b
  {
    ComponentShared(items, links, a, x);
    ComponentShared(items, links, b, x);
    Reflexive(links, a);
    Reflexive(links, b);
    assert a in Component(items, links, b) && b in Component(items, links, a);
  }

  lemma OneList(items: set<nat>, links: set<Link>, k: nat, l: nat, x: nat)
    requires k <= l < |ComponentsOf(items, links)|
    requires x in ComponentsOf(items, links)[k] && x in ComponentsOf(items, links)[l]
    ensures k == l
  {
    var leaders := Sorted(Leaders(items, links));
    assert leaders[k] in leaders && leaders[l] in leaders;
    OneLeader(items, links, leaders[k], leaders[l], x);
  }

  /** No item stands on two lists. */
  lemma ComponentsDisjoint(items: set<nat>, links: set<Link>, k: nat, l: nat, x: nat)
    requires k < l < |ComponentsOf(items, links)|
    requires x in ComponentsOf(items, links)[k]
    ensures x !in ComponentsOf(items, links)[l]
  {
    if x in ComponentsOf(items, links)[l] {
      OneList(items, links, k, l, x);
      assert false;
    }
  }

  class DisjointSet {
    var parent: map<nat, nat>
    var rank: map<nat, nat>
    /** Every item's representative, which only a union may change. */
    ghost var roots: map<nat, nat>
    /** Every union ever asked for. */
    ghost var links: set<Link>

    ghost predicate Valid()
      reads this
    {
      Draws(parent, rank, roots, links)
    }

    constructor (items: set<nat>)
      ensures Valid() && roots.Keys == items && links == {}
    {
      parent := map item | item in items :: item;
      rank := map item | item in items :: 0;
      roots := map item | item in items :: item;
      links := {};
      new;
      FreshDraws(parent, rank);
    }

    /**
     * The representative, flattening the path. No component changes, and the first loop
     * takes at most log2 of the number of items hops.
     */
    method Find(item: nat) returns (root: nat)
      requires Valid() && item in roots
      modifies this`parent
      ensures Valid() && root == roots[item] && parent[item] == root
      ensures root in roots && roots[root] == root
    {
      root := item;
      ghost var hops := 0;
      assert Climbs(parent, rank, roots, root);
      while parent[root] != root
        invariant Climbs(parent, rank, roots, root) && roots[root] == roots[item]
        invariant rank[item] + hops <= rank[root]
        decreases rank[roots[item]] - rank[root]
      {
        root := parent[root];
        hops := hops + 1;
        assert Climbs(parent, rank, roots, root);
      }
      assert Pow2(hops) <= |parent| by { RankIsLogarithmic(parent, rank, roots, root, hops); }
      var at: nat := item;
      while parent[at] != root
        invariant Draws(parent, rank, roots, links) && Climbs(parent, rank, roots, at) && roots[at] == root
        invariant at == item || parent[item] == root
        decreases rank[root] - rank[at]
      {
        var next: nat := parent[at];
        CompressionRanks(parent, rank, roots, at);
        parent := parent[at := root];
        at := next;
        assert Climbs(parent, rank, roots, at);
      }
    }

    /** Afterwards the links connect left and right as well. */
    method Union(left: nat, right: nat)
      requires Valid() && left in roots && right in roots
      modifies this
      ensures Valid() && roots.Keys == old(roots.Keys)
      ensures links == old(links) + {(left, right)}
    {
      var first: nat := Find(left);
      var second: nat := Find(right);
      if first == second {
        RepeatDraws(parent, rank, roots, links, left, right);
        links := links + {(left, right)};
        return;
      }
      if rank[first] < rank[second] {
        first, second := second, first;
      }
      Hang(second, first, left, right);
    }

    /** One root below another, which gains a rank when they had the same. */
    method Hang(loser: nat, winner: nat, ghost left: nat, ghost right: nat)
      requires Valid() && left in roots && right in roots && loser in rank && winner in rank
      requires (loser, winner) == (roots[left], roots[right]) || (loser, winner) == (roots[right], roots[left])
      requires loser != winner && rank[loser] <= rank[winner]
      modifies this
      ensures Valid() && roots.Keys == old(roots.Keys)
      ensures links == old(links) + {(left, right)}
    {
      LinkDraws(parent, rank, roots, links, left, right, loser, winner);
      links, roots := links + {(left, right)}, Moved(roots, loser, winner);
      parent := parent[loser := winner];
      if rank[winner] == rank[loser] {
        rank := rank[winner := rank[winner] + 1];
      }
    }

    /** The loop of `components`: every item appended to its root's list. */
    method Gather(items: seq<nat>) returns (found: Dictionary)
      requires Valid() && Known(items, roots)
      modifies this`parent
      ensures Valid() && found == Gathered(items, |items|, roots)
    {
      found := Dictionary(map[], []);
      for i := 0 to |items|
        invariant Valid() && found == Gathered(items, i, roots)
      {
        var root := Find(items[i]);
        found := found.Append(root, items[i]);
      }
    }

    /** The component list of all links drawn so far. */
    method Components() returns (r: seq<seq<nat>>)
      requires Valid()
      modifies this`parent
      ensures Valid() && r == ComponentsOf(roots.Keys, links)
    {
      var items := Sorted(parent.Keys);
      SortedKnown(items, roots);
      var found := Gather(items);
      GatheredComponents(items, roots, links);
      // The dictionary lists its values in order of arrival, that is by smallest member, so
      // the sort on the way out finds them in order.
      r := Values(found.lists, found.order);
    }
  }

  // ----- The dictionary `components` fills

  /** A dictionary of lists, its keys in order of insertion. */
  datatype Dictionary = Dictionary(lists: map<nat, seq<nat>>, order: seq<nat>) {

    /** An item under its key; a new key goes to the end. */
    function Append(key: nat, item: nat): Dictionary {
      if key in lists then Dictionary(lists[key := lists[key] + [item]], order)
      else Dictionary(lists[key := [item]], order + [key])
    }
  }

  ghost predicate Known(items: seq<nat>, roots: map<nat, nat>) {
    forall k | 0 <= k < |items| :: items[k] in roots
  }

  ghost predicate Covers(items: seq<nat>, roots: map<nat, nat>) {
    Known(items, roots) && forall x | x in roots :: x in items
  }

  lemma SortedKnown(items: seq<nat>, roots: map<nat, nat>)
    requires items == Sorted(roots.Keys)
    ensures Covers(items, roots)
  {
    forall k | 0 <= k < |items| ensures items[k] in roots { assert items[k] in items; }
  }

  /** The dictionary after the first n items. */
  ghost function Gathered(items: seq<nat>, n: nat, roots: map<nat, nat>): Dictionary
    requires n <= |items| && Known(items, roots)
  {
    if n == 0 then Dictionary(map[], [])
    else Gathered(items, n - 1, roots).Append(roots[items[n - 1]], items[n - 1])
  }

  function Values(found: map<nat, seq<nat>>, order: seq<nat>): (r: seq<seq<nat>>)
    requires forall k | 0 <= k < |order| :: order[k] in found
    ensures |r| == |order| && forall k | 0 <= k < |r| :: r[k] == found[order[k]]
  {
    if order == [] then []
    else [found[order[0]]] + Values(found, order[1..])
  }

  /** Each list holds, in increasing order, exactly its root's items. */
  lemma {:induction false} GatheredMembers(items: seq<nat>, n: nat, roots: map<nat, nat>, root: nat)
    requires n <= |items| && Increasing(items) && Known(items, roots)
    ensures var found := Gathered(items, n, roots).lists;
            (root in found <==> root in Gathered(items, n, roots).order)
            && (root in found ==> found[root] != [] && Increasing(found[root]))
            && (forall i | 0 <= i < n && roots[items[i]] == root :: root in found && items[i] in found[root])
            && (root in found ==> forall x | x in found[root] :: x in items[..n] && x in roots && roots[x] == root)
  {
    if n > 0 {
      var last := items[n - 1];
      var before := Gathered(items, n - 1, roots).lists;
      assert items[..n] == items[..n - 1] + [last];
      GatheredMembers(items, n - 1, roots, root);
      if root in before && root == roots[last] {
        forall i | 0 <= i < |before[root]| ensures before[root][i] < last {
          assert before[root][i] in before[root];
        }
      }
    }
  }

  ghost predicate Listed(found: Dictionary, k: nat)
    requires k < |found.order|
  {
    found.order[k] in found.lists && found.lists[found.order[k]] != []
  }

  lemma GatheredListed(items: seq<nat>, n: nat, roots: map<nat, nat>, k: nat)
    requires n <= |items| && Increasing(items) && Known(items, roots)
    requires k < |Gathered(items, n, roots).order|
    ensures var found := Gathered(items, n, roots);
            Listed(found, k) && found.lists[found.order[k]][0] in items[..n]
  {
    var found := Gathered(items, n, roots);
    assert found.order[k] in found.order;
    GatheredMembers(items, n, roots, found.order[k]);
    assert found.lists[found.order[k]][0] in found.lists[found.order[k]];
  }

  /** Appending moves no list and no head. */
  lemma AppendKeeps(found: Dictionary, key: nat, item: nat, k: nat)
    requires k < |found.order| && Listed(found, k)
    ensures var after := found.Append(key, item);
            && k < |after.order| && after.order[k] == found.order[k]
            && Listed(after, k) && after.lists[after.order[k]][0] == found.lists[found.order[k]][0]
  {}

  /** The lists stand in order of their smallest members. */
  lemma {:induction false} GatheredOrder(items: seq<nat>, n: nat, roots: map<nat, nat>, k: nat, l: nat)
    requires n <= |items| && Increasing(items) && Known(items, roots)
    requires k < l < |Gathered(items, n, roots).order|
    ensures var found := Gathered(items, n, roots);
            Listed(found, k) && Listed(found, l) && found.lists[found.order[k]][0] < found.lists[found.order[l]][0]
  {
    var last := items[n - 1];
    var before := Gathered(items, n - 1, roots);
    GatheredListed(items, n - 1, roots, k);
    AppendKeeps(before, roots[last], last, k);
    if l < |before.order| {
      GatheredListed(items, n - 1, roots, l);
      AppendKeeps(before, roots[last], last, l);
      GatheredOrder(items, n - 1, roots, k, l);
    }
  }

  lemma GatheredIsComponent(items: seq<nat>, roots: map<nat, nat>, links: set<Link>, root: nat)
    requires Increasing(items) && Covers(items, roots) && Represents(roots, links)
    requires root in Gathered(items, |items|, roots).lists
    ensures var list := Gathered(items, |items|, roots).lists[root];
            list != [] && list[0] in Leaders(roots.Keys, links) && roots[list[0]] == root
            && list == Sorted(Component(roots.Keys, links, list[0]))
  {
    GatheredMembers(items, |items|, roots, root);
    var list := Gathered(items, |items|, roots).lists[root];
    assert list[0] in list;
    forall y ensures y in list <==> y in Component(roots.Keys, links, list[0]) {
      if y in roots {
        SharedRoot(roots, links, list[0], y);
        var i :| 0 <= i < |items| && items[i] == y;
      }
    }
    IncreasingUnique(list, Sorted(Component(roots.Keys, links, list[0])));
  }

  /** The smallest member of every list, in the order of the lists. */
  ghost function Heads(items: seq<nat>, roots: map<nat, nat>, n: nat): (heads: seq<nat>)
    requires Increasing(items) && Covers(items, roots) && n <= |Gathered(items, |items|, roots).order|
    ensures |heads| == n
    ensures forall k | 0 <= k < n ::
              var root := Gathered(items, |items|, roots).order[k];
              root in Gathered(items, |items|, roots).lists
              && Gathered(items, |items|, roots).lists[root] != []
              && heads[k] == Gathered(items, |items|, roots).lists[root][0]
  {
    if n == 0 then []
    else
      var found := Gathered(items, |items|, roots);
      assert found.order[n - 1] in found.order;
      GatheredMembers(items, |items|, roots, found.order[n - 1]);
      Heads(items, roots, n - 1) + [found.lists[found.order[n - 1]][0]]
  }

  lemma HeadsAreLeaders(items: seq<nat>, roots: map<nat, nat>, links: set<Link>, heads: seq<nat>)
    requires Increasing(items) && Covers(items, roots) && Represents(roots, links)
    requires heads == Heads(items, roots, |Gathered(items, |items|, roots).order|)
    ensures heads == Sorted(Leaders(roots.Keys, links))
  {
    forall k, l | 0 <= k < l < |heads| ensures heads[k] < heads[l] {
      GatheredOrder(items, |items|, roots, k, l);
    }
    forall x ensures x in heads <==> x in Leaders(roots.Keys, links) {
      if x in heads {
        var k :| 0 <= k < |heads| && heads[k] == x;
        GatheredIsComponent(items, roots, links, Gathered(items, |items|, roots).order[k]);
      }
      if x in Leaders(roots.Keys, links) {
        LeaderIsHead(items, roots, links, x);
      }
    }
    IncreasingUnique(heads, Sorted(Leaders(roots.Keys, links)));
  }

  lemma ListsInOrder(found: Dictionary, keys: set<nat>, links: set<Link>, heads: seq<nat>)
    requires |heads| == |found.order| && heads == Sorted(Leaders(keys, links))
    requires forall k | 0 <= k < |heads| ::
               found.order[k] in found.lists && found.lists[found.order[k]] == Sorted(Component(keys, links, heads[k]))
    ensures Values(found.lists, found.order) == ComponentsOf(keys, links)
  {}

  lemma GatheredComponents(items: seq<nat>, roots: map<nat, nat>, links: set<Link>)
    requires items == Sorted(roots.Keys) && Known(items, roots) && Represents(roots, links)
    ensures var found := Gathered(items, |items|, roots);
            && (forall k | 0 <= k < |found.order| :: found.order[k] in found.lists)
            && Values(found.lists, found.order) == ComponentsOf(roots.Keys, links)
  {
    SortedKnown(items, roots);
    var found := Gathered(items, |items|, roots);
    var heads := Heads(items, roots, |found.order|);
    HeadsAreLeaders(items, roots, links, heads);
    forall k | 0 <= k < |heads|
      ensures found.order[k] in found.lists
      ensures found.lists[found.order[k]] == Sorted(Component(roots.Keys, links, heads[k]))
    {
      GatheredIsComponent(items, roots, links, found.order[k]);
    }
    ListsInOrder(found, roots.Keys, links, heads);
  }

  lemma LeaderIsHead(items: seq<nat>, roots: map<nat, nat>, links: set<Link>, x: nat)
    requires Increasing(items) && Covers(items, roots) && Represents(roots, links)
    requires x in Leaders(roots.Keys, links)
    ensures x in Heads(items, roots, |Gathered(items, |items|, roots).order|)
  {
    var found := Gathered(items, |items|, roots);
    var i :| 0 <= i < |items| && items[i] == x;
    GatheredMembers(items, |items|, roots, roots[x]);
    GatheredIsComponent(items, roots, links, roots[x]);
    var head := found.lists[roots[x]][0];
    SharedRoot(roots, links, x, head);
    assert head in Component(roots.Keys, links, x);
    assert head == x;
    var heads := Heads(items, roots, |found.order|);
    var k :| 0 <= k < |found.order| && found.order[k] == roots[x];
    assert heads[k] == x;
  }
}
