/** Powers of two, and the division facts behind shifting and masking. */
module Powers {

  function Pow2(n: nat): (p: nat)
    ensures p > n
  {
    if n == 0 then 1 else 2 * Pow2(n - 1)
  }

  lemma {:induction false} Pow2Monotone(m: nat, n: nat)
    requires m <= n
    ensures Pow2(m) <= Pow2(n)
    decreases n
  {
    if m < n {
      Pow2Monotone(m, n - 1);
    }
  }

  /** `value >> n` on an unsigned value. */
  function Shifted(value: nat, n: nat): nat {
    value / Pow2(n)
  }

  /** `value & ((1 << n) - 1)` on an unsigned value. */
  function Masked(value: nat, n: nat): nat {
    value % Pow2(n)
  }

  lemma ShiftedHalf(value: nat, n: nat)
    requires n > 0
    ensures Shifted(value, n) == Shifted(value / 2, n - 1)
    ensures Masked(value, n) == 2 * Masked(value / 2, n - 1) + value % 2
  {
    HalveQuotient(value, Pow2(n - 1));
  }

  lemma DivModUnique(x: nat, d: nat, q: nat, r: nat)
    requires d > 0 && x == q * d + r && r < d
    ensures x / d == q && x % d == r
  {
    var q', r' := x / d, x % d;
    assert x == q' * d + r';
    assert q' < q ==> (q' + 1) * d <= q * d;
    assert q < q' ==> (q + 1) * d <= q' * d;
  }

  /** One bit off the bottom of a quotient. */
  lemma HalveQuotient(x: nat, p: nat)
    requires p > 0
    ensures x / (2 * p) == (x / 2) / p
    ensures x % (2 * p) == 2 * ((x / 2) % p) + x % 2
  {
    var q, r := (x / 2) / p, (x / 2) % p;
    assert x / 2 == q * p + r;
    assert x == 2 * (x / 2) + x % 2;
    assert q * (2 * p) == 2 * (q * p);
    DivModUnique(x, 2 * p, q, 2 * r + x % 2);
  }
}
