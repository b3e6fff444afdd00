/**
 * Buckets of an inverted index and the order both budgets are spent in: smallest first,
 * ties by key.
 */
module Buckets {
  /** A key in two parts and what shares it. */
  datatype Bucket = Bucket(major: nat, minor: nat, members: set<nat>)

  /** How many comparisons a bucket of n takes: k(k-1)/2. */
  function Pairs(n: nat): nat {
    if n == 0 then 0 else n - 1 + Pairs(n - 1)
  }

  lemma {:induction false} PairsClosedForm(n: nat)
    ensures Pairs(n) == n * (n - 1) / 2
  {
    if n > 0 {
      PairsClosedForm(n - 1);
      assert n * (n - 1) == (n - 1) * (n - 2) + 2 * (n - 1);
    }
  }

  lemma {:induction false} PairsMonotone(m: nat, n: nat)
    requires m <= n
    ensures Pairs(m) <= Pairs(n)
    decreases n
  {
    if m < n {
      PairsMonotone(m, n - 1);
    }
  }

  /** `(len(members), key)` compared as tuples. */
  predicate Before(a: Bucket, b: Bucket) {
    || |a.members| < |b.members|
    || (|a.members| == |b.members| && a.major < b.major)
    || (|a.members| == |b.members| && a.major == b.major && a.minor < b.minor)
  }

  /** A dictionary's items: no key twice. */
  predicate Keyed(s: set<Bucket>) {
    forall a, b | a in s && b in s && a.major == b.major && a.minor == b.minor :: a == b
  }

  predicate IsFirst(b: Bucket, s: set<Bucket>) {
    b in s && forall c | c in s :: c == b || Before(b, c)
  }

  lemma {:induction false} FirstExists(s: set<Bucket>) returns (b: Bucket)
    requires s != {} && Keyed(s)
    ensures IsFirst(b, s)
  {
    b :| b in s;
    var rest := s - {b};
    if rest != {} {
      var other := FirstExists(rest);
      assert forall c | c in s :: c == b || c in rest;
      b := if Before(b, other) then b else other;
    } else {
      assert forall c | c in s :: c == b || c in rest;
    }
  }

  ghost predicate Ascending(r: seq<Bucket>) {
    forall i, j | 0 <= i < j < |r| :: Before(r[i], r[j])
  }

  /** The buckets in the order the budget meets them. */
  function SortedBuckets(s: set<Bucket>): (r: seq<Bucket>)
    requires Keyed(s)
    ensures Ascending(r)
    ensures forall b :: b in r <==> b in s
  {
    if s == {} then []
    else
      assert exists b :: IsFirst(b, s) by { var first := FirstExists(s); }
      var b :| IsFirst(b, s);
      var rest := SortedBuckets(s - {b});
      assert forall i | 0 <= i < |rest| :: rest[i] in rest;
      [b] + rest
  }

  /** Smaller buckets come first; among buckets of one size the key decides, part by part. */
  lemma SortedInOrder(s: set<Bucket>, i: nat, j: nat)
    requires Keyed(s) && i < j < |SortedBuckets(s)|
    ensures var a, b := SortedBuckets(s)[i], SortedBuckets(s)[j];
            && |a.members| <= |b.members|
            && (|a.members| == |b.members| ==> a.major <= b.major && (a.major == b.major ==> a.minor < b.minor))
  {
    assert Before(SortedBuckets(s)[i], SortedBuckets(s)[j]);
  }

  /** Ascending lists of the same buckets are one list. */
  lemma {:induction false} AscendingUnique(a: seq<Bucket>, b: seq<Bucket>)
    requires Ascending(a) && Ascending(b)
    requires forall c :: c in a <==> c in b
    ensures a == b
  {
    assert b != [] ==> b[0] in a;
    if a != [] {
      assert a[0] in b && a[0] in a;
      assert b != [] && b[0] in b && b[0] in a;
      assert a[0] == b[0];
      forall c ensures c in a[1..] <==> c in b[1..] {
        if c in a[1..] { assert c in a && c != a[0]; assert c in b; }
        if c in b[1..] { assert c in b && c != b[0]; assert c in a; }
      }
      AscendingUnique(a[1..], b[1..]);
    }
  }
}
