/**
 * The parent and rank tables of a union-find, read as a forest.
 *
 * `roots` is the representative of every item. It is pinned to the two tables item by item:
 * a root represents itself, anything else is represented by whatever represents its parent.
 * Ranks grow strictly towards the root, which is the termination argument of `find` and is
 * what path compression and union by rank both keep.
 */
module Forest {
  import opened Closure
  import opened Powers

  ghost predicate Climbs(parent: map<nat, nat>, rank: map<nat, nat>, roots: map<nat, nat>, x: nat) {
    && x in parent && x in rank && x in roots
    && var p, r := parent[x], roots[x];
    && p in parent && p in rank && p in roots
    && r in parent && r in rank
    && parent[r] == r && roots[p] == r
    && (p == x <==> r == x)
    && (p != x ==> rank[x] < rank[p] <= rank[r])
  }

  ghost predicate Ranked(parent: map<nat, nat>, rank: map<nat, nat>, roots: map<nat, nat>) {
    && parent.Keys == rank.Keys == roots.Keys
    && forall x {:trigger Climbs(parent, rank, roots, x)} | x in parent :: Climbs(parent, rank, roots, x)
  }

  /** Everything a representative stands for. */
  ghost function Class(roots: map<nat, nat>, r: nat): set<nat> {
    set x | x in roots && roots[x] == r
  }

  /**
   * The representatives draw exactly the components of the links: no link crosses two of
   * them, and every item really is connected to its own.
   */
  ghost predicate Represents(roots: map<nat, nat>, links: set<Link>) {
    && (forall a, b {:trigger (a, b) in links} | (a, b) in links ::
          a in roots && b in roots && roots[a] == roots[b])
    && (forall x {:trigger Connected(links, x, roots[x])} | x in roots :: Connected(links, x, roots[x]))
  }

  /** A root of rank r stands for at least 2^r items. */
  ghost predicate Populated(roots: map<nat, nat>, rank: map<nat, nat>) {
    forall r {:trigger Class(roots, r)} | r in roots && r in rank && roots[r] == r ::
      Pow2(rank[r]) <= |Class(roots, r)|
  }

  /** The tables are a ranked forest of well-populated trees that draws the links' components. */
  ghost predicate Draws(parent: map<nat, nat>, rank: map<nat, nat>, roots: map<nat, nat>, links: set<Link>) {
    && Ranked(parent, rank, roots)
    && Represents(roots, links)
    && Populated(roots, rank)
  }

  /** Two items share a representative exactly when the links connect them. */
  lemma SharedRoot(roots: map<nat, nat>, links: set<Link>, x: nat, y: nat)
    requires Represents(roots, links) && x in roots && y in roots
    ensures roots[x] == roots[y] <==> Connected(links, x, y)
  {
    assert Connected(links, x, roots[x]) && Connected(links, y, roots[y]);
    if roots[x] == roots[y] {
      Symmetric(links, y, roots[y]);
      Transitive(links, x, roots[x], y);
    }
    if Connected(links, x, y) {
      var p :| Walk(links, p) && p[0] == x && p[|p| - 1] == y;
      Labelled(links, roots, p);
    }
  }

  /** No rank exceeds the logarithm of the number of items, and no path is longer than a rank. */
  lemma RankIsLogarithmic(parent: map<nat, nat>, rank: map<nat, nat>, roots: map<nat, nat>, r: nat, hops: nat)
    requires Ranked(parent, rank, roots) && Populated(roots, rank)
    requires r in parent && parent[r] == r && hops <= rank[r]
    ensures Pow2(hops) <= |parent|
  {
    assert Climbs(parent, rank, roots, r);
    Pow2Monotone(hops, rank[r]);
    var rest := roots.Keys - Class(roots, r);
    assert roots.Keys == Class(roots, r) + rest;
    assert |parent.Keys| == |Class(roots, r)| + |rest|;
  }

  /** Where the first loop of `find` stands after k hops. */
  ghost function Ancestor(parent: map<nat, nat>, x: nat, k: nat): nat {
    if k == 0 then x
    else
      var below := Ancestor(parent, x, k - 1);
      if below in parent then parent[below] else below
  }

  /** No root met in the first k hops. */
  ghost predicate StillClimbing(parent: map<nat, nat>, x: nat, k: nat) {
    forall j {:trigger Ancestor(parent, x, j)} | 0 <= j < k ::
      Ancestor(parent, x, j) in parent && parent[Ancestor(parent, x, j)] != Ancestor(parent, x, j)
  }

  lemma {:induction false} EveryHopClimbs(parent: map<nat, nat>, rank: map<nat, nat>, roots: map<nat, nat>, x: nat,
                                         k: nat)
    requires Ranked(parent, rank, roots) && x in parent && StillClimbing(parent, x, k)
    ensures var at := Ancestor(parent, x, k);
            at in parent && at in rank && at in roots && roots[at] == roots[x] && x in rank && rank[x] + k <= rank[at]
  {
    assert Climbs(parent, rank, roots, x);
    if k > 0 {
      EveryHopClimbs(parent, rank, roots, x, k - 1);
      assert Climbs(parent, rank, roots, Ancestor(parent, x, k - 1));
    }
  }

  /** A walk that has not met its root after k hops needs a forest of 2^k items: `find` takes at most log2 n. */
  lemma HopsAreLogarithmic(parent: map<nat, nat>, rank: map<nat, nat>, roots: map<nat, nat>, x: nat, k: nat)
    requires Ranked(parent, rank, roots) && Populated(roots, rank) && x in parent && StillClimbing(parent, x, k)
    ensures Pow2(k) <= |parent|
  {
    EveryHopClimbs(parent, rank, roots, x, k);
    assert Climbs(parent, rank, roots, Ancestor(parent, x, k));
    RankIsLogarithmic(parent, rank, roots, roots[x], k);
  }

  // ----- What the three updates keep

  lemma FreshDraws(parent: map<nat, nat>, rank: map<nat, nat>)
    requires parent.Keys == rank.Keys && forall x | x in parent :: parent[x] == x && rank[x] == 0
    ensures Draws(parent, rank, parent, {})
  {
    forall x | x in parent ensures Climbs(parent, rank, parent, x) {}
    forall x | x in parent ensures Connected({}, x, parent[x]) { Reflexive({}, x); }
    forall r | r in parent ensures Pow2(rank[r]) <= |Class(parent, r)| { assert Class(parent, r) == {r}; }
  }

  /** Path compression: an item may hang straight below its own root. */
  lemma CompressionRanks(parent: map<nat, nat>, rank: map<nat, nat>, roots: map<nat, nat>, x: nat)
    requires Ranked(parent, rank, roots) && x in parent && parent[x] != x
    ensures Ranked(parent[x := roots[x]], rank, roots)
  {
    assert Climbs(parent, rank, roots, x);
    assert Climbs(parent, rank, roots, roots[x]);
    forall y | y in parent ensures Climbs(parent[x := roots[x]], rank, roots, y) {
      assert Climbs(parent, rank, roots, y);
    }
  }

  /** The rank table once `loser` hangs below `winner`: only a tie raises anything. */
  function Raised(rank: map<nat, nat>, loser: nat, winner: nat): map<nat, nat>
    requires loser in rank && winner in rank
  {
    if rank[loser] == rank[winner] then rank[winner := rank[winner] + 1] else rank
  }

  /** The representatives once `loser` hangs below `winner`. */
  ghost function Moved(roots: map<nat, nat>, loser: nat, winner: nat): map<nat, nat> {
    map x | x in roots :: if roots[x] == loser then winner else roots[x]
  }

  lemma LinkClimbs(parent: map<nat, nat>, rank: map<nat, nat>, roots: map<nat, nat>, loser: nat, winner: nat, y: nat)
    requires Climbs(parent, rank, roots, loser) && Climbs(parent, rank, roots, winner) && Climbs(parent, rank, roots, y)
    requires Climbs(parent, rank, roots, roots[y]) && loser != winner
    requires parent[loser] == loser && parent[winner] == winner && rank[loser] <= rank[winner]
    ensures Climbs(parent[loser := winner], Raised(rank, loser, winner), Moved(roots, loser, winner), y)
  {}

  lemma LinkClimbsAll(parent: map<nat, nat>, rank: map<nat, nat>, roots: map<nat, nat>, loser: nat, winner: nat, y: nat)
    requires Ranked(parent, rank, roots) && loser in parent && winner in parent && loser != winner && y in parent
    requires parent[loser] == loser && parent[winner] == winner && rank[loser] <= rank[winner]
    ensures Climbs(parent[loser := winner], Raised(rank, loser, winner), Moved(roots, loser, winner), y)
  {
    assert Climbs(parent, rank, roots, loser) && Climbs(parent, rank, roots, winner);
    assert Climbs(parent, rank, roots, y);
    assert Climbs(parent, rank, roots, roots[y]);
    LinkClimbs(parent, rank, roots, loser, winner, y);
  }

  lemma LinkKeys(parent: map<nat, nat>, rank: map<nat, nat>, roots: map<nat, nat>, loser: nat, winner: nat)
    requires parent.Keys == rank.Keys == roots.Keys && loser in parent && winner in parent
    ensures parent[loser := winner].Keys == Raised(rank, loser, winner).Keys
         == Moved(roots, loser, winner).Keys == parent.Keys
  {}

  lemma LinkRanks(parent: map<nat, nat>, rank: map<nat, nat>, roots: map<nat, nat>, loser: nat, winner: nat)
    requires Ranked(parent, rank, roots) && loser in parent && winner in parent && loser != winner
    requires parent[loser] == loser && parent[winner] == winner && rank[loser] <= rank[winner]
    ensures Ranked(parent[loser := winner], Raised(rank, loser, winner), Moved(roots, loser, winner))
  {
    LinkKeys(parent, rank, roots, loser, winner);
    var parent', rank', roots' := parent[loser := winner], Raised(rank, loser, winner), Moved(roots, loser, winner);
    forall y | y in parent' ensures Climbs(parent', rank', roots', y) {
      LinkClimbsAll(parent, rank, roots, loser, winner, y);
    }
  }

  lemma LinkRepresents(roots: map<nat, nat>, links: set<Link>, left: nat, right: nat, loser: nat, winner: nat)
    requires Represents(roots, links) && left in roots && right in roots
    requires (loser == roots[left] && winner == roots[right]) || (loser == roots[right] && winner == roots[left])
    ensures Represents(Moved(roots, loser, winner), links + {(left, right)})
  {
    var more := links + {(left, right)};
    var near, far := if loser == roots[left] then left else right, if loser == roots[left] then right else left;
    assert roots[near] == loser && (roots[far] == winner || loser == winner);
    assert Connected(more, near, far) by { Step(more, near, far); }
    forall x | x in roots ensures Connected(more, x, Moved(roots, loser, winner)[x]) {
      assert Connected(links, x, roots[x]);
      Monotone(links, more, x, roots[x]);
      if roots[x] == loser && loser != winner {
        assert Connected(links, near, roots[near]) && Connected(links, far, roots[far]);
        Monotone(links, more, near, loser);
        Monotone(links, more, far, winner);
        Symmetric(more, near, loser);
        Transitive(more, x, loser, near);
        Transitive(more, x, near, far);
        Transitive(more, x, far, winner);
      }
    }
  }

  lemma LinkPopulates(roots: map<nat, nat>, rank: map<nat, nat>, loser: nat, winner: nat)
    requires Populated(roots, rank) && loser in roots && winner in roots && loser != winner
    requires loser in rank && winner in rank && roots[loser] == loser && roots[winner] == winner
    requires rank[loser] <= rank[winner]
    ensures Populated(Moved(roots, loser, winner), Raised(rank, loser, winner))
  {
    var moved, raised := Moved(roots, loser, winner), Raised(rank, loser, winner);
    forall r | r in moved && r in raised && moved[r] == r
      ensures Pow2(raised[r]) <= |Class(moved, r)|
    {
      if r == winner {
        assert Class(moved, winner) == Class(roots, winner) + Class(roots, loser);
        assert Class(roots, winner) !! Class(roots, loser);
        assert |Class(moved, winner)| == |Class(roots, winner)| + |Class(roots, loser)|;
      } else {
        assert roots[r] == r;
        assert Class(moved, r) == Class(roots, r);
      }
    }
  }

  lemma RepeatDraws(parent: map<nat, nat>, rank: map<nat, nat>, roots: map<nat, nat>, links: set<Link>,
                    left: nat, right: nat)
    requires Draws(parent, rank, roots, links) && left in roots && right in roots && roots[left] == roots[right]
    ensures Draws(parent, rank, roots, links + {(left, right)})
  {
    LinkRepresents(roots, links, left, right, roots[left], roots[right]);
    assert Moved(roots, roots[left], roots[right]) == roots;
  }

  lemma LinkDraws(parent: map<nat, nat>, rank: map<nat, nat>, roots: map<nat, nat>, links: set<Link>,
                  left: nat, right: nat, loser: nat, winner: nat)
    requires Draws(parent, rank, roots, links) && left in roots && right in roots
    requires (loser == roots[left] && winner == roots[right]) || (loser == roots[right] && winner == roots[left])
    requires loser != winner
    requires loser in rank && winner in rank && rank[loser] <= rank[winner]
    ensures Draws(parent[loser := winner], Raised(rank, loser, winner), Moved(roots, loser, winner),
                  links + {(left, right)})
  {
    assert Climbs(parent, rank, roots, left) && Climbs(parent, rank, roots, right);
    assert Climbs(parent, rank, roots, loser) && Climbs(parent, rank, roots, winner);
    LinkRanks(parent, rank, roots, loser, winner);
    LinkRepresents(roots, links, left, right, loser, winner);
    LinkPopulates(roots, rank, loser, winner);
  }
}
