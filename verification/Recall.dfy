/**
 * What banding costs (`derived/templates.py`): below the number of bands it is single
 * linkage, and from there on two fingerprints are enough to tell the two apart.
 */
module Recall {
  import opened Closure
  import opened Buckets
  import opened Powers
  import opened Fingerprints
  import opened Templates

  // ----- Two fingerprints that share no band, at one bit a band

  /** `rest` with the band `low` put below it. */
  function Under(low: nat, rest: nat, bandBits: nat): nat {
    low + Pow2(bandBits) * rest
  }

  lemma UnderBand(low: nat, rest: nat, bandBits: nat, i: nat)
    requires low < Pow2(bandBits)
    ensures Band(Under(low, rest, bandBits), i, bandBits) == if i == 0 then low else Band(rest, i - 1, bandBits)
  {
    UnderParts(low, rest, bandBits);
    if i == 0 {
      LowestBand(Under(low, rest, bandBits), bandBits);
    } else {
      BandAbove(Under(low, rest, bandBits), i, bandBits);
    }
  }

  lemma LowestBand(value: nat, bandBits: nat)
    ensures Band(value, 0, bandBits) == Masked(value, bandBits)
  {
    ShiftedNone(value, 0 * bandBits);
  }

  lemma BandAbove(value: nat, i: nat, bandBits: nat)
    requires i > 0
    ensures Band(value, i, bandBits) == Band(Shifted(value, bandBits), i - 1, bandBits)
  {
    Stepped(i, bandBits);
    ShiftedTwice(value, bandBits, (i - 1) * bandBits);
  }

  lemma UnderParts(low: nat, rest: nat, bits: nat)
    requires low < Pow2(bits)
    ensures Shifted(Under(low, rest, bits), bits) == rest && Masked(Under(low, rest, bits), bits) == low
  {
    DivModUnique(Under(low, rest, bits), Pow2(bits), rest, low);
  }

  lemma ShiftedNone(value: nat, n: nat)
    requires n == 0
    ensures Shifted(value, n) == value
  {}

  lemma Stepped(i: nat, bandBits: nat)
    requires i > 0
    ensures i * bandBits == bandBits + (i - 1) * bandBits
  {}

  lemma {:induction false} ShiftedTwice(value: nat, m: nat, n: nat)
    ensures Shifted(value, m + n) == Shifted(Shifted(value, m), n)
  {
    if m > 0 {
      ShiftedHalf(value, m + n);
      ShiftedHalf(value, m);
      ShiftedTwice(value / 2, m - 1, n);
    }
  }

  lemma {:induction false} UnderDistance(a: nat, b: nat, v: nat, w: nat, bits: nat)
    requires a < Pow2(bits) && b < Pow2(bits)
    ensures HammingDistance(Under(a, v, bits), Under(b, w, bits)) == HammingDistance(a, b) + HammingDistance(v, w)
  {
    var left, right := Under(a, v, bits), Under(b, w, bits);
    if bits > 0 {
      UnderHalf(a, v, bits);
      UnderHalf(b, w, bits);
      UnderDistance(a / 2, b / 2, v, w, bits - 1);
    }
  }

  lemma UnderHalf(low: nat, rest: nat, bits: nat)
    requires bits > 0
    ensures Under(low, rest, bits) / 2 == Under(low / 2, rest, bits - 1)
    ensures Under(low, rest, bits) % 2 == low % 2
  {
    var half := Pow2(bits - 1) * rest;
    assert Pow2(bits) * rest == 2 * half;
  }

  lemma UnderBound(low: nat, rest: nat, bits: nat, more: nat)
    requires low < Pow2(bits) && rest < Pow2(more)
    ensures Under(low, rest, bits) < Pow2(bits + more)
  {
    Pow2Adds(bits, more);
    TimesLess(Pow2(bits), rest, Pow2(more));
  }

  lemma TimesLess(p: nat, m: nat, n: nat)
    requires m < n
    ensures p * m + p <= p * n
  {
    assert p * (m + 1) <= p * n;
  }

  lemma {:induction false} Pow2Adds(m: nat, n: nat)
    ensures Pow2(m + n) == Pow2(m) * Pow2(n)
  {
    if m > 0 {
      Pow2Adds(m - 1, n);
      assert Pow2(m) * Pow2(n) == 2 * (Pow2(m - 1) * Pow2(n));
    }
  }

  /** One bit in each of the lowest `bands` bands. */
  function Comb(bandBits: nat, bands: nat): nat {
    if bands == 0 then 0 else Under(1, Comb(bandBits, bands - 1), bandBits)
  }

  lemma {:induction false} CombBand(bandBits: nat, bands: nat, i: nat)
    requires bandBits >= 1 && i < bands
    ensures Band(Comb(bandBits, bands), i, bandBits) == 1 && Band(0, i, bandBits) == 0
  {
    UnderBand(1, Comb(bandBits, bands - 1), bandBits, i);
    assert Shifted(0, i * bandBits) == 0;
    if i > 0 {
      CombBand(bandBits, bands - 1, i - 1);
    }
  }

  lemma OneBit()
    ensures HammingDistance(0, 1) == 1
  {
    assert HammingDistance(0 / 2, 1 / 2) == 0;
  }

  lemma {:induction false} CombDistance(bandBits: nat, bands: nat)
    requires bandBits >= 1
    ensures HammingDistance(0, Comb(bandBits, bands)) == bands
  {
    if bands > 0 {
      CombDistance(bandBits, bands - 1);
      UnderDistance(0, 1, 0, Comb(bandBits, bands - 1), bandBits);
      OneBit();
    }
  }

  lemma {:induction false} CombBound(bandBits: nat, bands: nat)
    requires bandBits >= 1
    ensures Comb(bandBits, bands) < Pow2(bands * bandBits)
  {
    if bands > 0 {
      CombBound(bandBits, bands - 1);
      UnderBound(1, Comb(bandBits, bands - 1), bandBits, (bands - 1) * bandBits);
      Stepped(bands, bandBits);
    }
  }

  lemma {:induction false} FewPairs(pending: seq<Bucket>, budget: int)
    requires budget >= 0 && forall k | 0 <= k < |pending| :: |pending[k].members| <= 1
    ensures Afforded(pending, budget) == |pending|
  {
    if pending != [] {
      assert Pairs(|pending[0].members|) == 0;
      FewPairs(pending[1..], budget);
    }
  }

  // ----- Two messages apart

  /** Two messages with two fingerprints that share no band. */
  ghost predicate BandsApart(v: nat, w: nat, bandBits: nat)
    requires 1 <= bandBits
  {
    v != w && NoSharedBand(v, w, bandBits, BandCount(bandBits))
  }

  lemma LonelyBucket(b: Bucket, v: nat, w: nat, bandBits: nat)
    requires 1 <= bandBits && BandsApart(v, w, bandBits) && Genuine(b, {v, w}, bandBits)
    ensures (v !in b.members || w !in b.members) && |b.members| <= 1
  {
    assert !ShareBand(v, w, b.major, bandBits);
    AtMostOne(b.members, if w in b.members then w else v);
  }

  lemma LonelyBuckets(v: nat, w: nat, config: Config, k: nat)
    requires config.bandBits >= 1 && BandsApart(v, w, config.bandBits)
    requires k < |PendingOf(map[1 := v, 2 := w], config)|
    ensures var b := PendingOf(map[1 := v, 2 := w], config)[k];
            (v !in b.members || w !in b.members) && |b.members| <= 1
  {
    var printOf := map[1 := v, 2 := w];
    TwoPrints(v, w);
    SortedPending({v, w}, config.bandBits);
    LonelyBucket(PendingOf(printOf, config)[k], v, w, config.bandBits);
  }

  lemma AtMostOne(s: set<nat>, x: nat)
    requires s <= {x}
    ensures |s| <= 1
  {
    assert s == {} || s == {x};
  }

  /** Nothing joins them, and the comparisons cost nothing. */
  lemma StayApart(v: nat, w: nat, config: Config)
    requires config.bandBits >= 1 && BandsApart(v, w, config.bandBits)
    ensures DroppedOf(map[1 := v, 2 := w], config) == 0
    ensures !Connected(PaidLinks(map[1 := v, 2 := w], config), 1, 2)
  {
    var printOf := map[1 := v, 2 := w];
    var pending, links := PendingOf(printOf, config), PaidLinks(printOf, config);
    forall k | 0 <= k < |pending|
      ensures |pending[k].members| <= 1 && (v !in pending[k].members || w !in pending[k].members)
    {
      LonelyBuckets(v, w, config, k);
    }
    FewPairs(pending, Budget(config));
    forall a, b | (a, b) in links ensures a in printOf && b in printOf && printOf[a] == printOf[b] {}
    if Connected(links, 1, 2) {
      var p :| Walk(links, p) && p[0] == 1 && p[|p| - 1] == 2;
      Labelled(links, printOf, p);
    }
  }

  /** Single linkage joins them from their distance on. */
  lemma LinkageJoins(v: nat, w: nat, d: int)
    requires HammingDistance(v, w) <= d
    ensures Connected(Linkage(map[1 := v, 2 := w], d), 1, 2)
  {
    Step(Linkage(map[1 := v, 2 := w], d), 1, 2);
  }

  // ----- The exact condition

  lemma {:induction false} LowBits(bits: nat)
    ensures bits >= 1 ==> Pow2(bits) >= 2
    ensures bits >= 2 ==> Pow2(bits) >= 4
  {
    if bits > 0 {
      LowBits(bits - 1);
    }
  }

  lemma WitnessBands(low: nat, other: nat, more: nat, bandBits: nat)
    requires bandBits >= 1 && low < Pow2(bandBits) && other < Pow2(bandBits) && low != other
    ensures NoSharedBand(Under(low, 0, bandBits), Under(other, Comb(bandBits, more), bandBits), bandBits, more + 1)
  {
    var v, w := Under(low, 0, bandBits), Under(other, Comb(bandBits, more), bandBits);
    forall i: nat | i < more + 1 ensures !ShareBand(v, w, i, bandBits) {
      UnderBand(low, 0, bandBits, i);
      UnderBand(other, Comb(bandBits, more), bandBits, i);
      if i > 0 {
        CombBand(bandBits, more, i - 1);
      }
    }
  }

  lemma WitnessDistance(low: nat, other: nat, more: nat, bandBits: nat)
    requires bandBits >= 1 && low < Pow2(bandBits) && other < Pow2(bandBits)
    requires low / 2 == other / 2 && low % 2 != other % 2
    ensures HammingDistance(Under(low, 0, bandBits), Under(other, Comb(bandBits, more), bandBits)) == more + 1
  {
    UnderDistance(low, other, 0, Comb(bandBits, more), bandBits);
    CombDistance(bandBits, more);
    HammingZero(low / 2, other / 2);
  }

  lemma WitnessBounds(low: nat, other: nat, more: nat, bandBits: nat)
    requires bandBits >= 1 && low < Pow2(bandBits) && other < Pow2(bandBits)
    requires more + 1 == BandCount(bandBits)
    ensures Under(low, 0, bandBits) < 0x1_0000_0000_0000_0000
    ensures Under(other, Comb(bandBits, more), bandBits) < 0x1_0000_0000_0000_0000
  {
    CombBound(bandBits, more);
    BandsFit(more, bandBits);
    UnderFits(low, 0, bandBits, more * bandBits);
    UnderFits(other, Comb(bandBits, more), bandBits, more * bandBits);
  }

  lemma UnderFits(low: nat, rest: nat, bits: nat, more: nat)
    requires low < Pow2(bits) && rest < Pow2(more) && bits + more <= SIMHASH_BITS
    ensures Under(low, rest, bits) < 0x1_0000_0000_0000_0000
  {
    UnderBound(low, rest, bits, more);
    Pow2Monotone(bits + more, SIMHASH_BITS);
    SixtyFour(SIMHASH_BITS);
  }

  lemma BandsFit(more: nat, bandBits: nat)
    requires bandBits >= 1 && more + 1 == BandCount(bandBits)
    ensures bandBits + more * bandBits <= SIMHASH_BITS
  {
    Stepped(more + 1, bandBits);
  }

  lemma Twice(n: nat, p: nat)
    requires Pow2(n) == p
    ensures Pow2(n + n) == p * p
  {
    Pow2Adds(n, n);
  }

  lemma FourBits(n: nat)
    requires n == 4
    ensures Pow2(n) == 16
  {
    assert Pow2(n) == 2 * Pow2(n - 1) == 4 * Pow2(n - 2);
    assert Pow2(n - 2) == 2 * Pow2(n - 3) == 4 * Pow2(n - 4);
  }

  lemma SixtyFour(n: nat)
    requires n == SIMHASH_BITS
    ensures Pow2(n) == 0x1_0000_0000_0000_0000
  {
    FourBits(n / 16);
    Twice(n / 16, 16);
    Twice(n / 8, 256);
    Twice(n / 4, 0x1_0000);
    Twice(n / 2, 0x1_0000_0000);
  }

  lemma CombPositive(more: nat, bandBits: nat)
    requires more > 0
    ensures Under(0, Comb(bandBits, more), bandBits) > 0
  {
    assert Comb(bandBits, more) > 0;
    assert Pow2(bandBits) * Comb(bandBits, more) > 0;
  }

  /** With at least two bands their lowest bits suffice; in a single one a second bit keeps both from being zero. */
  lemma Witness(bandBits: nat) returns (v: nat, w: nat)
    requires 1 <= bandBits <= SIMHASH_BITS
    ensures 0 < v < 0x1_0000_0000_0000_0000 && 0 < w < 0x1_0000_0000_0000_0000
    ensures BandsApart(v, w, bandBits) && HammingDistance(v, w) == BandCount(bandBits)
  {
    var n, more := BandCount(bandBits), BandCount(bandBits) - 1;
    var low, other := if n == 1 then 3 else 1, if n == 1 then 2 else 0;
    v, w := Under(low, 0, bandBits), Under(other, Comb(bandBits, more), bandBits);
    LowBits(bandBits);
    WitnessBands(low, other, more, bandBits);
    WitnessDistance(low, other, more, bandBits);
    WitnessBounds(low, other, more, bandBits);
    if n > 1 {
      CombPositive(more, bandBits);
    }
  }

  /** Whatever an archive of these fingerprints looks like, its clusters are those of single linkage. */
  ghost predicate Recalls(printOf: map<nat, nat>, config: Config) {
    SameComponents(PaidLinks(printOf, config), Linkage(printOf, config.maxDistance))
  }

  /** An archive whose comparisons are all paid for. */
  ghost predicate Affordable(printOf: map<nat, nat>, config: Config) {
    Unsigned(printOf.Values) && 0 !in printOf.Values && DroppedOf(printOf, config) == 0
  }

  /** From the number of bands on two messages are enough to see a difference. */
  lemma TwoMissed(config: Config) returns (printOf: map<nat, nat>)
    requires 1 <= config.bandBits <= SIMHASH_BITS && config.maxDistance >= BandCount(config.bandBits)
    ensures Affordable(printOf, config) && !Recalls(printOf, config)
  {
    var v, w := Witness(config.bandBits);
    printOf := map[1 := v, 2 := w];
    StayApart(v, w, config);
    LinkageJoins(v, w, config.maxDistance);
    TwoPrints(v, w);
  }

  lemma TwoPrints(v: nat, w: nat)
    ensures (map[1 := v, 2 := w]).Values == {v, w}
  {
    var printOf := map[1 := v, 2 := w];
    assert printOf[1] == v && printOf[2] == w;
  }

  /**
   * Banding is single linkage for every archive the budget can pay for exactly when the
   * distance stays below the number of bands.
   */
  lemma BandingIsExactBelowTheBands(config: Config)
    requires 1 <= config.bandBits <= SIMHASH_BITS
    ensures config.maxDistance < BandCount(config.bandBits)
       <==> forall printOf: map<nat, nat> {:trigger Recalls(printOf, config)} | Affordable(printOf, config) ::
              Recalls(printOf, config)
  {
    if config.maxDistance < BandCount(config.bandBits) {
      forall printOf: map<nat, nat> | Affordable(printOf, config) ensures Recalls(printOf, config) {
        BandingIsSingleLinkage(printOf, config);
      }
    } else {
      var printOf := TwoMissed(config);
    }
  }
}
