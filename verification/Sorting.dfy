/** Python's `sorted(..., key=...)` over a set, for keys no two members share. */
module Sorting {

  ghost predicate TotalOrder<T(!new)>(s: set<T>, before: (T, T) -> bool) {
    && (forall x, y | x in s && y in s && before(x, y) :: !before(y, x))
    && (forall x, y, z | x in s && y in s && z in s && before(x, y) && before(y, z) :: before(x, z))
    && (forall x, y | x in s && y in s && x != y :: before(x, y) || before(y, x))
  }

  predicate IsFirst<T(==, !new)>(x: T, s: set<T>, before: (T, T) -> bool) {
    x in s && forall y | y in s :: x == y || before(x, y)
  }

  lemma {:induction false} FirstExists<T(!new)>(s: set<T>, before: (T, T) -> bool) returns (x: T)
    requires s != {} && TotalOrder(s, before)
    ensures IsFirst(x, s, before)
  {
    x :| x in s;
    var rest := s - {x};
    if rest != {} {
      var other := FirstExists(rest, before);
      assert forall y | y in s :: y == x || y in rest;
      x := if before(x, other) then x else other;
    } else {
      assert forall y | y in s :: y == x || y in rest;
    }
  }

  ghost predicate Ascending<T(!new)>(r: seq<T>, before: (T, T) -> bool) {
    forall i, j | 0 <= i < j < |r| :: before(r[i], r[j])
  }

  function SortedBy<T(==, !new)>(s: set<T>, before: (T, T) -> bool): (r: seq<T>)
    requires TotalOrder(s, before)
    ensures Ascending(r, before)
    ensures forall x :: x in r <==> x in s
    ensures |r| == |s|
  {
    if s == {} then []
    else
      assert exists x :: IsFirst(x, s, before) by { var first := FirstExists(s, before); }
      var x :| IsFirst(x, s, before);
      var rest := SortedBy(s - {x}, before);
      assert forall i | 0 <= i < |rest| :: rest[i] in rest;
      [x] + rest
  }
}
