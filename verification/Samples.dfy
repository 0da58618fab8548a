/**
 * The sample window handed to a protocol decoder: one bit-packed buffer per channel, or a
 * constant level where the capture stores no buffer for the channel.
 */
module Samples {
  datatype Line = Fixed(level: bool) | Packed(bytes: seq<bv8>)

  /** Samples start .. end - 1 of a capture. */
  datatype Chunk = Chunk(start: nat, end: nat, lines: seq<Line>) {
    /** abs_start_samplenum: `start & ~7`, the sample held by bit 0 of byte 0. */
    function Origin(): nat {
      start - start % 8
    }

    /** The channel has no buffer in this chunk. */
    predicate IsFixed(ch: int) {
      !(0 <= ch < |lines| && lines[ch].Packed?)
    }

    /** The level of channel ch at sample s, as the matcher reads it. */
    function Pin(ch: int, s: nat): (level: nat)
      ensures level <= 1
    {
      if !(0 <= ch < |lines|) then 0
      else match lines[ch]
        case Fixed(level) => if level then 1 else 0
        case Packed(bytes) =>
          if Origin() <= s && (s - Origin()) / 8 < |bytes|
             && TestBit(bytes[(s - Origin()) / 8], (s - Origin()) % 8) then 1 else 0
    }

    function Pins(n: nat, s: nat): (levels: seq<nat>)
      ensures |levels| == n
      ensures forall ch :: 0 <= ch < n ==> levels[ch] == Pin(ch, s)
    {
      seq(n, ch => Pin(ch, s))
    }

    /** Every buffer reaches sample s. */
    predicate Covers(s: nat) {
      && Origin() <= s
      && forall ch :: 0 <= ch < |lines| && lines[ch].Packed? ==> (s - Origin()) / 8 < |lines[ch].bytes|
    }
  }

  /** `*sample_pos & (1 << bit_offset) ? 1 : 0` */
  predicate TestBit(b: bv8, k: nat)
    requires k < 8
  {
    b & (1 << k) != 0
  }

  /** `(byte >> bi) & 1` */
  function ShiftedBit(b: bv8, k: nat): bv8
    requires k < 8
  {
    (b >> k) & 1
  }

  /** The two ways the decoder library picks a bit out of a byte agree. */
  lemma ShiftedIsTested(b: bv8, k: nat)
    requires k < 8
    ensures ShiftedBit(b, k) == if TestBit(b, k) then 1 else 0
  {
    if k == 0 {
    } else if k == 1 {
    } else if k == 2 {
    } else if k == 3 {
    } else if k == 4 {
    } else if k == 5 {
    } else if k == 6 {
    } else {
      assert k == 7;
    }
  }

  lemma AllOnes(k: nat)
    requires k < 8
    ensures TestBit(0xFF, k)
  {
    if k == 0 {
    } else if k == 1 {
    } else if k == 2 {
    } else if k == 3 {
    } else if k == 4 {
    } else if k == 5 {
    } else if k == 6 {
    } else {
      assert k == 7;
    }
  }

  /** Where a sample's level stands: eight samples to a byte, the first in the least significant bit,
      counted from the last multiple of eight before the chunk's start. */
  lemma PinPlaces()
    ensures var c := Chunk(9, 24, [Packed([0x02, 0x01]), Fixed(true), Fixed(false)]);
            && c.Pin(0, 9) == 1 && c.Pin(0, 10) == 0 && c.Pin(0, 16) == 1 && c.Pin(0, 17) == 0
            && c.Pin(1, 9) == 1 && c.Pin(2, 9) == 0
  {
    assert TestBit(0x02, 1) && !TestBit(0x02, 2) && TestBit(0x01, 0) && !TestBit(0x01, 1);
  }
}
