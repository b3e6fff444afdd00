/**
 * SimHash fingerprints: the Hamming distance between two of them and the LSH bands one
 * falls into (`derived/templates.py`).
 *
 * A fingerprint is the unsigned 64-bit number; shifting right is dividing by a power of
 * two and masking is the remainder.
 */
module Fingerprints {
  import opened Powers

  const SIMHASH_BITS: nat := 64

  /** What the graph stored is signed; the reader's boundary takes the sign off again. */
  function ToUnsigned64(stored: int): nat {
    stored % 0x1_0000_0000_0000_0000
  }

  /** The number of bits in which two unsigned values differ. */
  function HammingDistance(left: nat, right: nat): nat
    decreases left + right
  {
    if left == 0 && right == 0 then 0
    else (if left % 2 == right % 2 then 0 else 1) + HammingDistance(left / 2, right / 2)
  }

  /** The bits of one band, as a number. */
  function Band(value: nat, index: nat, bandBits: nat): nat {
    Masked(Shifted(value, index * bandBits), bandBits)
  }

  function BandCount(bandBits: nat): nat
    requires 1 <= bandBits
  {
    SIMHASH_BITS / bandBits
  }

  datatype Bands = ValueError | Keys(keys: seq<(nat, nat)>)

  /** One key for each band: its index and its bits; an error for a width that cuts no band. */
  function BandKeys(stored: int, bandBits: int): (r: Bands)
    ensures r.ValueError? <==> bandBits < 1 || bandBits > SIMHASH_BITS
    ensures r.Keys? ==> |r.keys| == BandCount(bandBits)
    ensures r.Keys? ==> forall i | 0 <= i < |r.keys| :: r.keys[i] == (i, Band(ToUnsigned64(stored), i, bandBits))
  {
    if bandBits < 1 || bandBits > SIMHASH_BITS then ValueError
    else
      var value := ToUnsigned64(stored);
      Keys(seq(BandCount(bandBits), i requires 0 <= i < BandCount(bandBits) => (i, Band(value, i, bandBits))))
  }

  // ----- The bands of a signed fingerprint are the bands of the unsigned one

  /** A signed 64-bit number loses its sign and nothing else; a second conversion finds none. */
  lemma UnsignedOnce(stored: int)
    ensures ToUnsigned64(stored) < 0x1_0000_0000_0000_0000
    ensures ToUnsigned64(ToUnsigned64(stored)) == ToUnsigned64(stored)
    ensures -0x8000_0000_0000_0000 <= stored < 0x8000_0000_0000_0000 ==>
              ToUnsigned64(stored) == if stored < 0 then stored + 0x1_0000_0000_0000_0000 else stored
  {}

  // ----- The distance

  lemma {:induction false} HammingSymmetric(left: nat, right: nat)
    ensures HammingDistance(left, right) == HammingDistance(right, left)
    decreases left + right
  {
    if left > 0 || right > 0 {
      HammingSymmetric(left / 2, right / 2);
    }
  }

  /** Distance zero is equality. */
  lemma {:induction false} HammingZero(left: nat, right: nat)
    ensures HammingDistance(left, right) == 0 <==> left == right
    decreases left + right
  {
    if left > 0 || right > 0 {
      HammingZero(left / 2, right / 2);
    }
  }

  /** Differing bits among the lowest n. */
  function Differing(v: nat, w: nat, n: nat): (d: nat)
    ensures d <= n
  {
    if n == 0 then 0
    else (if v % 2 == w % 2 then 0 else 1) + Differing(v / 2, w / 2, n - 1)
  }

  lemma {:induction false} DifferingCounted(v: nat, w: nat, n: nat)
    ensures Differing(v, w, n) <= HammingDistance(v, w)
  {
    if n > 0 {
      DifferingCounted(v / 2, w / 2, n - 1);
    }
  }

  /** The lowest m bits and the n above them. */
  lemma {:induction false} DifferingSplit(v: nat, w: nat, m: nat, n: nat)
    ensures Differing(v, w, m + n) == Differing(v, w, m) + Differing(Shifted(v, m), Shifted(w, m), n)
  {
    if m > 0 {
      DifferingSplit(v / 2, w / 2, m - 1, n);
      ShiftedHalf(v, m);
      ShiftedHalf(w, m);
    }
  }

  lemma {:induction false} DifferingNone(v: nat, w: nat, n: nat)
    ensures Differing(v, w, n) == 0 <==> Masked(v, n) == Masked(w, n)
  {
    if n > 0 {
      DifferingNone(v / 2, w / 2, n - 1);
      ShiftedHalf(v, n);
      ShiftedHalf(w, n);
    }
  }

  // ----- The pigeonhole behind banding

  predicate ShareBand(v: nat, w: nat, index: nat, bandBits: nat) {
    Band(v, index, bandBits) == Band(w, index, bandBits)
  }

  lemma OtherBand(v: nat, w: nat, index: nat, bandBits: nat)
    requires !ShareBand(v, w, index, bandBits)
    ensures Differing(Shifted(v, index * bandBits), Shifted(w, index * bandBits), bandBits) >= 1
  {
    DifferingNone(Shifted(v, index * bandBits), Shifted(w, index * bandBits), bandBits);
  }

  /** Each of the lowest `bands` bands that differs costs at least one bit. */
  lemma {:induction false} BandsCostBits(v: nat, w: nat, bandBits: nat, bands: nat)
    requires forall i: nat | i < bands :: !ShareBand(v, w, i, bandBits)
    ensures Differing(v, w, bands * bandBits) >= bands
  {
    if bands > 0 {
      BandsCostBits(v, w, bandBits, bands - 1);
      OtherBand(v, w, bands - 1, bandBits);
      DifferingSplit(v, w, (bands - 1) * bandBits, bandBits);
      assert (bands - 1) * bandBits + bandBits == bands * bandBits;
    }
  }

  ghost predicate NoSharedBand(v: nat, w: nat, bandBits: nat, bands: nat) {
    forall i: nat | i < bands :: !ShareBand(v, w, i, bandBits)
  }

  lemma NoSharedBandIsFar(v: nat, w: nat, bandBits: nat)
    requires 1 <= bandBits && NoSharedBand(v, w, bandBits, BandCount(bandBits))
    ensures HammingDistance(v, w) >= BandCount(bandBits)
  {
    BandsCostBits(v, w, bandBits, BandCount(bandBits));
    DifferingCounted(v, w, BandCount(bandBits) * bandBits);
  }

  /** Two fingerprints closer than the number of bands share a bucket. */
  lemma NearShareBand(v: nat, w: nat, bandBits: nat) returns (index: nat)
    requires 1 <= bandBits
    requires HammingDistance(v, w) < BandCount(bandBits)
    ensures index < BandCount(bandBits) && ShareBand(v, w, index, bandBits)
  {
    if NoSharedBand(v, w, bandBits, BandCount(bandBits)) {
      NoSharedBandIsFar(v, w, bandBits);
      assert false;
    }
    index :| index < BandCount(bandBits) && ShareBand(v, w, index, bandBits);
  }
}
