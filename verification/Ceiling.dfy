/**
 * What an edge ceiling does to the promise that names do not matter
 * (`derived/centrality.py`, `_within`).
 */
module Ceiling {
  import opened Sums
  import opened Centrality

  /** One archive under two sets of names, its pairs listed in any order. */
  ghost predicate Relabelled(pairs: seq<CoAddressedPair>, others: seq<CoAddressedPair>, rename: nat -> nat) {
    exists renamed :: Renaming(pairs, renamed, rename) && multiset(renamed) == multiset(others)
  }

  ghost predicate RankAlike(pairs: seq<CoAddressedPair>, others: seq<CoAddressedPair>, rename: nat -> nat,
                            damping: real, passes: nat, maxEdges: int, round: real -> real)
  {
    RanksRenamed(Ranking(pairs, damping, passes, maxEdges, round),
                 Ranking(others, damping, passes, maxEdges, round), rename)
  }

  /** Each unordered pair once, smaller name first, in order. */
  ghost predicate Canonical(pairs: seq<CoAddressedPair>) {
    && (forall i | 0 <= i < |pairs| :: pairs[i].left < pairs[i].right)
    && (forall i, j | 0 <= i < j < |pairs| :: pairs[i].left < pairs[j].left
                                         || (pairs[i].left == pairs[j].left && pairs[i].right < pairs[j].right))
  }

  /** A ceiling that leaves nothing out sees no names. */
  lemma UncutIgnoresNames(pairs: seq<CoAddressedPair>, others: seq<CoAddressedPair>, rename: nat -> nat,
                          damping: real, passes: nat, maxEdges: int, round: real -> real)
    requires Relabelled(pairs, others, rename) && (maxEdges <= 0 || |pairs| <= maxEdges)
    ensures RankAlike(pairs, others, rename, damping, passes, maxEdges, round)
  {
    var renamed :| Renaming(pairs, renamed, rename) && multiset(renamed) == multiset(others);
    assert |multiset(renamed)| == |multiset(others)|;
    assert |others| == |pairs|;
    if Nodes(pairs) != {} {
      RankingIgnoresNames(pairs, renamed, others, rename, damping, passes);
    }
  }

  // ----- Addresses in pairs, and two pairs that change names

  function Rung(i: nat): CoAddressedPair {
    CoAddressedPair(2 * i + 1, 2 * i + 2, 1)
  }

  function Rungs(n: nat): (r: seq<CoAddressedPair>)
    ensures |r| == n && forall i | 0 <= i < n :: r[i] == Rung(i)
  {
    if n == 0 then [] else Rungs(n - 1) + [Rung(n - 1)]
  }

  /** The first two addresses and the last two of n pairs change names. */
  function Swap(n: nat, x: nat): nat
    requires n >= 2
  {
    if x == 1 then 2 * n - 1 else if x == 2 then 2 * n
    else if x == 2 * n - 1 then 1 else if x == 2 * n then 2 else x
  }

  function Swapping(n: nat): nat -> nat
    requires n >= 2
  {
    (x: nat) => Swap(n, x)
  }

  lemma SwapIsInjective(n: nat)
    requires n >= 2
    ensures Injective(Swapping(n))
  {
    var rename := Swapping(n);
    forall x, y | rename(x) == rename(y) ensures x == y {
      assert Swap(n, x) == Swap(n, y);
    }
  }

  function Partner(n: nat, i: nat): nat
    requires i < n
  {
    if i == 0 then n - 1 else if i == n - 1 then 0 else i
  }

  lemma RungRenamed(n: nat, i: nat)
    requires n >= 2 && i < n
    ensures IsRenamed(Rung(i), Rung(Partner(n, i)), Swapping(n))
  {}

  /** The same pairs with the first and the last in each other's place. */
  lemma EndsSwapped<T>(first: T, mid: seq<T>, last: T)
    ensures multiset([last] + mid + [first]) == multiset([first] + mid + [last])
  {}

  lemma RungsRelabelled(n: nat)
    requires n >= 2
    ensures Relabelled(Rungs(n), Rungs(n), Swapping(n))
  {
    var rungs, mid := Rungs(n), Rungs(n)[1..n - 1];
    var swapped := [Rung(n - 1)] + mid + [Rung(0)];
    assert rungs == [Rung(0)] + mid + [Rung(n - 1)];
    EndsSwapped(Rung(0), mid, Rung(n - 1));
    forall i | 0 <= i < n ensures IsRenamed(rungs[i], swapped[i], Swapping(n)) {
      assert swapped[i] == Rung(Partner(n, i));
      RungRenamed(n, i);
    }
    SwapIsInjective(n);
    assert Renaming(rungs, swapped, Swapping(n)) && multiset(swapped) == multiset(rungs);
  }

  lemma {:induction false} RungNodes(n: nat, c: nat)
    requires c <= n
    ensures forall x :: x in Nodes(Rungs(n)[..c]) <==> 1 <= x <= 2 * c
  {
    if c > 0 {
      RungNodes(n, c - 1);
      assert Rungs(n)[..c][..c - 1] == Rungs(n)[..c - 1];
      assert Rungs(n)[..c][c - 1] == Rung(c - 1);
    }
  }

  /** A ceiling that does leave pairs out ranks the first address, and nobody under its other name. */
  lemma CutSeesNames(n: nat, damping: real, passes: nat, maxEdges: int, round: real -> real)
    requires 0 < maxEdges < n
    ensures !RankAlike(Rungs(n), Rungs(n), Swapping(n), damping, passes, maxEdges, round)
  {
    var walked := Within(Rungs(n), maxEdges);
    RungNodes(n, maxEdges);
    assert 1 in Nodes(walked) && Swap(n, 1) !in Nodes(walked);
    RanksSumToOne(walked, damping, passes);
  }

  lemma RungsCanonical(n: nat)
    ensures Canonical(Rungs(n))
  {}

  /**
   * Archives of n pairs rank alike under all names and in all orders exactly when the ceiling
   * leaves no pair out; lists in canonical order are no exception.
   */
  lemma CeilingSeesNames(n: nat, damping: real, passes: nat, maxEdges: int, round: real -> real)
    ensures (maxEdges <= 0 || n <= maxEdges)
       <==> forall pairs, others, rename
              {:trigger RankAlike(pairs, others, rename, damping, passes, maxEdges, round)} |
              |pairs| == n && Relabelled(pairs, others, rename) ::
              RankAlike(pairs, others, rename, damping, passes, maxEdges, round)
    ensures (maxEdges <= 0 || n <= maxEdges)
       <==> forall pairs, others, rename
              {:trigger RankAlike(pairs, others, rename, damping, passes, maxEdges, round)} |
              |pairs| == n && Relabelled(pairs, others, rename) && Canonical(pairs) && Canonical(others) ::
              RankAlike(pairs, others, rename, damping, passes, maxEdges, round)
  {
    if maxEdges <= 0 || n <= maxEdges {
      forall pairs, others, rename | |pairs| == n && Relabelled(pairs, others, rename)
        ensures RankAlike(pairs, others, rename, damping, passes, maxEdges, round)
      {
        UncutIgnoresNames(pairs, others, rename, damping, passes, maxEdges, round);
      }
    } else {
      RungsRelabelled(n);
      RungsCanonical(n);
      CutSeesNames(n, damping, passes, maxEdges, round);
    }
  }
}
