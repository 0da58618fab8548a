/** Bits of unsigned machine words, the words being kept as natural numbers. */
module Bits {
  function Pow2(n: nat): (p: nat)
    ensures p >= 1
  {
    if n == 0 then 1 else 2 * Pow2(n - 1)
  }

  /** `w & (1 << k)` is non-zero. */
  predicate Bit(w: nat, k: nat) {
    if k == 0 then w % 2 == 1 else Bit(w / 2, k - 1)
  }

  /** `w | (1 << k)` */
  function SetBit(w: nat, k: nat): nat {
    if k == 0 then w - w % 2 + 1 else 2 * SetBit(w / 2, k - 1) + w % 2
  }

  /** The word whose bit i is bits[i]. */
  function FromBits(bits: seq<bool>): nat {
    if bits == [] then 0 else (if bits[0] then 1 else 0) + 2 * FromBits(bits[1..])
  }

  lemma {:induction false} ZeroHasNoBit(k: nat)
    ensures !Bit(0, k)
  {
    if k == 0 {
    } else {
      ZeroHasNoBit(k - 1);
    }
  }

  lemma {:induction false} SomeBit(w: nat) returns (k: nat)
    requires w > 0
    ensures Bit(w, k)
  {
    if w % 2 == 1 {
      k := 0;
    } else {
      k := SomeBit(w / 2);
      k := k + 1;
    }
  }

  lemma {:induction false} BitOfSetBit(w: nat, j: nat, k: nat)
    ensures Bit(SetBit(w, j), k) <==> k == j || Bit(w, k)
    ensures SetBit(w, j) > 0
  {
    if j == 0 {
    } else {
      BitOfSetBit(w / 2, j - 1, if k > 0 then k - 1 else 0);
    }
  }

  lemma QuotientUnique(w: int, d: int, q: int, r: int)
    requires d > 0 && 0 <= r < d && w == q * d + r
    ensures w / d == q && w % d == r
  {
    var q', r' := w / d, w % d;
    assert w == q' * d + r';
    NoMultipleBetween(q - q', d, r' - r);
  }

  lemma NoMultipleBetween(k: int, d: int, x: int)
    requires d > 0 && -d < x < d && k * d == x
    ensures k == 0
  {
    if k >= 1 {
      MulAtLeast(k, d);
    } else if k <= -1 {
      MulAtLeast(-k, d);
    }
  }

  lemma MulAtLeast(k: int, d: int)
    requires k >= 1 && d > 0
    ensures k * d >= d
  {
    assert k * d == (k - 1) * d + d;
  }

  lemma {:induction false} FromBitsBit(bits: seq<bool>, k: nat)
    ensures Bit(FromBits(bits), k) <==> k < |bits| && bits[k]
    ensures FromBits(bits) < Pow2(|bits|)
  {
    if bits == [] {
      ZeroHasNoBit(k);
    } else {
      FromBitsBit(bits[1..], if k > 0 then k - 1 else 0);
    }
  }
}
