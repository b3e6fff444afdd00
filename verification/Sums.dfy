/** Finite sums of reals over sets of ids, in the order `sorted` would take them. */
module Sums {
  import opened Order

  function Sum(s: set<nat>, f: nat -> real): real {
    if s == {} then 0.0
    else
      var m := Min(s);
      f(m) + Sum(s - {m}, f)
  }

  /** The order a sum is taken in does not matter. */
  lemma {:induction false} SumRemove(s: set<nat>, x: nat, f: nat -> real)
    requires x in s
    ensures Sum(s, f) == f(x) + Sum(s - {x}, f)
    decreases s
  {
    var m := Min(s);
    if m != x {
      SumRemove(s - {m}, x, f);
      assert s - {m} - {x} == s - {x} - {m};
      assert m in s - {x} && Min(s - {x}) in s;
    }
  }

  lemma {:induction false} SumEqual(s: set<nat>, f: nat -> real, g: nat -> real)
    requires forall x | x in s :: f(x) == g(x)
    ensures Sum(s, f) == Sum(s, g)
  {
    if s != {} {
      SumEqual(s - {Min(s)}, f, g);
    }
  }

  lemma {:induction false} SumAdd(s: set<nat>, f: nat -> real, g: nat -> real, h: nat -> real)
    requires forall x | x in s :: h(x) == f(x) + g(x)
    ensures Sum(s, h) == Sum(s, f) + Sum(s, g)
  {
    if s != {} {
      SumAdd(s - {Min(s)}, f, g, h);
    }
  }

  lemma {:induction false} SumScale(s: set<nat>, c: real, f: nat -> real, h: nat -> real)
    requires forall x | x in s :: h(x) == c * f(x)
    ensures Sum(s, h) == c * Sum(s, f)
  {
    if s != {} {
      SumScale(s - {Min(s)}, c, f, h);
      Distribute(c, f(Min(s)), Sum(s - {Min(s)}, f));
    }
  }

  lemma Distribute(c: real, a: real, b: real)
    ensures c * (a + b) == c * a + c * b
  {}

  lemma {:induction false} SumConstant(s: set<nat>, c: real, f: nat -> real)
    requires forall x | x in s :: f(x) == c
    ensures Sum(s, f) == (|s| as real) * c
  {
    if s != {} {
      SumConstant(s - {Min(s)}, c, f);
      assert |s| as real == 1.0 + |s - {Min(s)}| as real;
      DistributeRight(1.0, |s - {Min(s)}| as real, c);
    }
  }

  lemma DistributeRight(a: real, b: real, c: real)
    ensures (a + b) * c == a * c + b * c
  {}

  /** Multiples compare as what they are multiples of. */
  lemma Compared(a: real, b: real, n: real, x: real, y: real)
    requires n > 0.0 && a * n == x && b * n == y
    ensures a < b <==> x < y
  {
    if a < b { assert (b - a) * n > 0.0; } else { assert (a - b) * n >= 0.0; }
  }

  /** Terms that are zero may be left out: the sparse sum is the dense one. */
  lemma {:induction false} SumSparse(few: set<nat>, all: set<nat>, f: nat -> real)
    requires few <= all && forall x | x in all - few :: f(x) == 0.0
    ensures Sum(few, f) == Sum(all, f)
    decreases all
  {
    if all != {} {
      var x := Min(all);
      if x in few {
        SumRemove(few, x, f);
        SumSparse(few - {x}, all - {x}, f);
      } else {
        SumSparse(few, all - {x}, f);
      }
    } else {
      assert few == {};
    }
  }

  lemma {:induction false} SumNonNegative(s: set<nat>, f: nat -> real)
    requires forall x | x in s :: f(x) >= 0.0
    ensures Sum(s, f) >= 0.0
  {
    if s != {} {
      SumNonNegative(s - {Min(s)}, f);
    }
  }

  /** Rows first or columns first. */
  lemma {:induction false} SumSwap(s: set<nat>, t: set<nat>, g: (nat, nat) -> real,
                                   rows: nat -> real, columns: nat -> real)
    requires forall x | x in s :: rows(x) == Sum(t, (y: nat) => g(x, y))
    requires forall y | y in t :: columns(y) == Sum(s, (x: nat) => g(x, y))
    ensures Sum(s, rows) == Sum(t, columns)
    decreases s
  {
    if s == {} {
      SumConstant(t, 0.0, columns);
    } else {
      var m := Min(s);
      var row := (y: nat) => g(m, y);
      var others := (y: nat) => Sum(s - {m}, (x: nat) => g(x, y));
      SumSwap(s - {m}, t, g, rows, others);
      SumAdd(t, row, others, columns);
      SumEqual(t, row, (y: nat) => g(m, y));
    }
  }

  ghost function Image(s: set<nat>, rename: nat -> nat): set<nat> {
    set x | x in s :: rename(x)
  }

  ghost predicate Injective(rename: nat -> nat) {
    forall x, y {:trigger rename(x), rename(y)} | rename(x) == rename(y) :: x == y
  }

  /** Summing over renamed ids is summing over the ids. */
  lemma {:induction false} SumImage(s: set<nat>, rename: nat -> nat, f: nat -> real, h: nat -> real)
    requires Injective(rename) && forall x | x in s :: h(x) == f(rename(x))
    ensures Sum(Image(s, rename), f) == Sum(s, h)
  {
    if s == {} {
      assert Image(s, rename) == {};
    } else {
      var m := Min(s);
      SumImage(s - {m}, rename, f, h);
      assert rename(m) in Image(s, rename);
      assert Image(s, rename) - {rename(m)} == Image(s - {m}, rename);
      SumRemove(Image(s, rename), rename(m), f);
    }
  }
}
