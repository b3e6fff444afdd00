/**
 * Connected components, said declaratively: two ids belong together when a walk over the
 * links leads from one to the other. Nothing here knows about union-find; this is the
 * relation every clustering pass is measured against.
 */
module Closure {

  type Link = (nat, nat)

  ghost predicate Adjacent(links: set<Link>, x: nat, y: nat) {
    (x, y) in links || (y, x) in links
  }

  ghost predicate Hop(links: set<Link>, p: seq<nat>, i: nat) {
    0 < i < |p| && Adjacent(links, p[i - 1], p[i])
  }

  ghost predicate Walk(links: set<Link>, p: seq<nat>) {
    |p| > 0 && forall i {:trigger Hop(links, p, i)} | 0 < i < |p| :: Hop(links, p, i)
  }

  ghost predicate Connected(links: set<Link>, x: nat, y: nat) {
    exists p :: Walk(links, p) && p[0] == x && p[|p| - 1] == y
  }

  lemma Reflexive(links: set<Link>, x: nat)
    ensures Connected(links, x, x)
  {
    assert Walk(links, [x]);
  }

  lemma Step(links: set<Link>, x: nat, y: nat)
    requires Adjacent(links, x, y)
    ensures Connected(links, x, y)
  {
    assert Hop(links, [x, y], 1);
    assert Walk(links, [x, y]);
  }

  lemma WalkShorter(links: set<Link>, p: seq<nat>)
    requires Walk(links, p) && |p| > 1
    ensures Walk(links, p[..|p| - 1])
  {
    var q := p[..|p| - 1];
    forall i | 0 < i < |q| ensures Hop(links, q, i) {
      assert Hop(links, p, i);
    }
  }

  lemma Symmetric(links: set<Link>, x: nat, y: nat)
    requires Connected(links, x, y)
    ensures Connected(links, y, x)
  {
    var p :| Walk(links, p) && p[0] == x && p[|p| - 1] == y;
    var q := seq(|p|, i requires 0 <= i < |p| => p[|p| - 1 - i]);
    forall i | 0 < i < |q| ensures Hop(links, q, i) {
      assert Hop(links, p, |p| - i);
    }
    assert Walk(links, q);
  }

  lemma Transitive(links: set<Link>, x: nat, y: nat, z: nat)
    requires Connected(links, x, y) && Connected(links, y, z)
    ensures Connected(links, x, z)
  {
    var p :| Walk(links, p) && p[0] == x && p[|p| - 1] == y;
    var q :| Walk(links, q) && q[0] == y && q[|q| - 1] == z;
    var r := p + q[1..];
    forall i | 0 < i < |r| ensures Hop(links, r, i) {
      if i < |p| {
        assert Hop(links, p, i);
      } else {
        assert Hop(links, q, i - |p| + 1);
      }
    }
    assert Walk(links, r);
  }

  /**
   * The workhorse. When every link of one set is a connection of another, every connection
   * of the first is a connection of the second: this is what lets a chain stand for a
   * clique and a skipped comparison cost nothing.
   */
  lemma {:induction false} Absorb(links: set<Link>, into: set<Link>, x: nat, y: nat)
    requires forall a, b | (a, b) in links :: Connected(into, a, b)
    requires Connected(links, x, y)
    ensures Connected(into, x, y)
  {
    var p :| Walk(links, p) && p[0] == x && p[|p| - 1] == y;
    AbsorbWalk(links, into, p);
  }

  lemma {:induction false} AbsorbWalk(links: set<Link>, into: set<Link>, p: seq<nat>)
    requires forall a, b | (a, b) in links :: Connected(into, a, b)
    requires Walk(links, p)
    ensures Connected(into, p[0], p[|p| - 1])
    decreases |p|
  {
    var last := |p| - 1;
    if last == 0 {
      Reflexive(into, p[0]);
    } else {
      WalkShorter(links, p);
      AbsorbWalk(links, into, p[..last]);
      assert Hop(links, p, last);
      if (p[last - 1], p[last]) !in links {
        Symmetric(into, p[last], p[last - 1]);
      }
      Transitive(into, p[0], p[last - 1], p[last]);
    }
  }

  lemma Monotone(links: set<Link>, more: set<Link>, x: nat, y: nat)
    requires links <= more && Connected(links, x, y)
    ensures Connected(more, x, y)
  {
    var p :| Walk(links, p) && p[0] == x && p[|p| - 1] == y;
    forall i | 0 < i < |p| ensures Hop(more, p, i) {
      assert Hop(links, p, i);
    }
    assert Walk(more, p);
  }

  lemma MonotoneAll(links: set<Link>, more: set<Link>)
    requires links <= more
    ensures forall x, y | Connected(links, x, y) :: Connected(more, x, y)
  {
    forall x, y | Connected(links, x, y) ensures Connected(more, x, y) { Monotone(links, more, x, y); }
  }

  /** A labelling that no link changes is constant on every component. */
  lemma {:induction false} Labelled(links: set<Link>, mark: map<nat, nat>, p: seq<nat>)
    requires forall a, b {:trigger (a, b) in links} | (a, b) in links :: a in mark && b in mark && mark[a] == mark[b]
    requires Walk(links, p) && p[0] in mark
    ensures p[|p| - 1] in mark && mark[p[|p| - 1]] == mark[p[0]]
    decreases |p|
  {
    if |p| > 1 {
      WalkShorter(links, p);
      Labelled(links, mark, p[..|p| - 1]);
      assert Hop(links, p, |p| - 1);
    }
  }

  lemma Unlinked(x: nat, y: nat)
    requires x != y
    ensures !Connected({}, x, y)
  {
    if Connected({}, x, y) {
      var p :| Walk({}, p) && p[0] == x && p[|p| - 1] == y;
      Labelled({}, map[x := x, y := y], p);
    }
  }

  /** The two link sets draw the same components. */
  ghost predicate SameComponents(left: set<Link>, right: set<Link>) {
    forall x, y :: Connected(left, x, y) <==> Connected(right, x, y)
  }

  lemma MutualAbsorb(left: set<Link>, right: set<Link>)
    requires forall a, b | (a, b) in left :: Connected(right, a, b)
    requires forall a, b | (a, b) in right :: Connected(left, a, b)
    ensures SameComponents(left, right)
  {
    forall x, y ensures Connected(left, x, y) <==> Connected(right, x, y) {
      if Connected(left, x, y) { Absorb(left, right, x, y); }
      if Connected(right, x, y) { Absorb(right, left, x, y); }
    }
  }

  // ----- Chains and cliques

  /** Consecutive members linked: what `pairwise` over a member list hands to the union. */
  ghost function Chain(members: seq<nat>): set<Link> {
    var n := |members|;
    if n < 2 then {} else Chain(members[..n - 1]) + {(members[n - 2], members[n - 1])}
  }

  /** Every pair of members linked. */
  ghost function Clique(members: set<nat>): set<Link> {
    set a, b | a in members && b in members :: (a, b)
  }

  /** From the first member of a chain to any other. */
  lemma {:induction false} ChainConnects(members: seq<nat>, links: set<Link>, i: nat)
    requires i < |members| && Chain(members) <= links
    ensures Connected(links, members[0], members[i])
    decreases |members|
  {
    var n := |members|;
    if i < n - 1 {
      ChainConnects(members[..n - 1], links, i);
    } else if n == 1 {
      Reflexive(links, members[0]);
    } else {
      ChainConnects(members[..n - 1], links, n - 2);
      Step(links, members[n - 2], members[n - 1]);
      Transitive(links, members[0], members[n - 2], members[n - 1]);
    }
  }

  lemma {:induction false} ChainWithin(members: seq<nat>, a: nat, b: nat)
    requires (a, b) in Chain(members)
    ensures a in members && b in members
    decreases |members|
  {
    var n := |members|;
    if (a, b) != (members[n - 2], members[n - 1]) {
      ChainWithin(members[..n - 1], a, b);
    }
  }

  /** Members chained are members connected: no pair of the clique is lost. */
  lemma ChainIsClique(members: seq<nat>)
    ensures SameComponents(Chain(members), Clique(set m | m in members))
  {
    var clique := Clique(set m | m in members);
    forall a, b | (a, b) in Chain(members) ensures Connected(clique, a, b) {
      ChainWithin(members, a, b);
      Step(clique, a, b);
    }
    forall a, b | (a, b) in clique ensures Connected(Chain(members), a, b) {
      ChainJoins(members, Chain(members), a, b);
    }
    MutualAbsorb(Chain(members), clique);
  }

  lemma ChainJoins(members: seq<nat>, links: set<Link>, a: nat, b: nat)
    requires a in members && b in members && Chain(members) <= links
    ensures Connected(links, a, b)
  {
    var i :| 0 <= i < |members| && members[i] == a;
    var j :| 0 <= j < |members| && members[j] == b;
    ChainConnects(members, links, i);
    ChainConnects(members, links, j);
    Symmetric(links, members[0], a);
    Transitive(links, a, members[0], b);
  }
}
