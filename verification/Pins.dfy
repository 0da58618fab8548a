/** The pins a decoder reads back after a match. */
module Pins {
  import opened Samples
  import opened Matcher
  import opened Chunking
  import opened Instance

  /** The window is loaded at a multiple of eight; that makes no difference to the search. */
  function Aligned(c: Chunk): Chunk {
    c.(start := c.Origin())
  }

  lemma AlignedPin(c: Chunk, ch: int, s: nat)
    ensures Aligned(c).Pin(ch, s) == c.Pin(ch, s) && Aligned(c).IsFixed(ch) == c.IsFixed(ch)
  {
    assert Aligned(c).Origin() == c.Origin();
  }

  lemma AlignedPins(c: Chunk, n: nat, s: nat)
    ensures Aligned(c).Pins(n, s) == c.Pins(n, s)
  {
    forall ch | 0 <= ch < n ensures Aligned(c).Pin(ch, s) == c.Pin(ch, s) {
      AlignedPin(c, ch, s);
    }
  }

  lemma {:induction false} TermsAligned(c: Chunk, s: nat, prev: seq<nat>, matched: bool, z: bool, ts: seq<Term>)
    ensures EvalTerms(Aligned(c), s, prev, matched, z, ts) == EvalTerms(c, s, prev, matched, z, ts)
    decreases ts
  {
    if ts == [] {
    } else {
      AlignedPin(c, ts[0].channel, s);
      hide Aligned;
      TermsAligned(c, s, prev, matched, z || (matched && ZeroSkip(ts[0])), ts[1..]);
    }
  }

  lemma {:induction false} GroupsAligned(c: Chunk, e: Engine, j: nat, allow: bool)
    requires j <= |e.conds|
    ensures EvalGroups(Aligned(c), e, j, allow) == EvalGroups(c, e, j, allow)
    decreases |e.conds| - j
  {
    hide EvalTerms;
    if j == |e.conds| {
    } else {
      TermsAligned(c, e.cur, e.prev, e.matched, e.skipZero, e.conds[j]);
      var (e1, allow1) := EvalGroup(c, e, j, allow);
      GroupsAligned(c, e1, j + 1, allow1);
    }
  }

  lemma {:induction false} ScanAligned(c: Chunk, e: Engine, allow: bool)
    requires e.word == 0
    ensures Scan(Aligned(c), e, allow) == Scan(c, e, allow)
    decreases c.end - e.cur
  {
    hide EvalGroups;
    if e.cur >= c.end {
    } else {
      GroupsAligned(c, e, 0, allow);
      var (e1, allow1) := Step(c, e, allow);
      AlignedPins(c, |e.prev|, e1.cur);
      if !e1.matched && !allow1 {
        ScanAligned(c, e1.(cur := e.cur + 1), allow1);
      }
    }
  }

  /** What an instance finds in the window it aligned is what the chunk it was given holds, for
      every start sample, a multiple of eight or not. */
  lemma AlignmentIsInvisible(c: Chunk, e: Engine)
    requires HasGroup(e.conds)
    ensures FindMatch(Aligned(c), e) == Find(c, e, true)
  {
    assert Prepare(Aligned(c), e) == Prepare(c, e) by {
      assert InitialPins(Aligned(c), e.prev, e.cur) == InitialPins(c, e.prev, e.cur);
    }
    ScanAligned(c, Prepare(c, e), true);
  }

  lemma {:induction false} ScanRemembersPins(c: Chunk, e: Engine, allow: bool)
    requires e.word == 0
    ensures var r := Scan(c, e, allow); r.0 ==> r.1.prev == c.Pins(|e.prev|, r.1.cur)
    decreases c.end - e.cur
  {
    hide EvalGroups;
    if e.cur >= c.end {
    } else {
      var (e1, allow1) := Step(c, e, allow);
      if !e1.matched && !allow1 {
        ScanRemembersPins(c, e1.(cur := e.cur + 1), allow1);
      }
    }
  }

  /** After a match the remembered pins are the levels the matcher tested at the matching sample. */
  lemma MatchRemembersPins(c: Chunk, e: Engine)
    requires HasGroup(e.conds)
    ensures var r := FindMatch(c, e); r.0 ==> r.1.prev == c.Pins(|e.prev|, r.1.cur)
  {
    ScanRemembersPins(c, Prepare(c, e), true);
  }

  /** c_pin agrees with the matcher on one sample: unless the channel is buffered, high, and the
      announced buffer length does not reach the sample's byte. */
  lemma CachedPinAgrees(w: Chunk, inbufLen: nat, mapped: int, ch: int, s: nat)
    requires mapped >= 0 && 0 <= ch < |w.lines| && w.Covers(s)
    ensures CachedPin(w, inbufLen, mapped, ch, s) == w.Pin(ch, s)
       <==> w.IsFixed(ch) || w.Pin(ch, s) == 0 || (s - w.Origin()) / 8 < (inbufLen + 7) / 8
  {
    if w.lines[ch].Packed? {
      ShiftedIsTested(w.lines[ch].bytes[(s - w.Origin()) / 8], (s - w.Origin()) % 8);
    }
  }

  /** Every c_pin after a match in start .. end - 1 tells the level the matcher tested. */
  ghost predicate PinsAlwaysAgree(start: nat, end: nat, inbufLen: nat) {
    forall w: Chunk, mapped: int, ch: int, s: nat ::
      (w.start == start && w.end == end && mapped >= 0 && 0 <= ch < |w.lines| && start <= s < end && w.Covers(s))
        ==> CachedPin(w, inbufLen, mapped, ch, s) == w.Pin(ch, s)
  }

  /** Pin agreement, for every alignment of the chunk: it holds for all contents exactly when the
      announced length reaches the byte of the last sample, counted from the aligned start. */
  lemma PinAgreementIff(start: nat, end: nat, inbufLen: nat)
    requires start < end
    ensures PinsAlwaysAgree(start, end, inbufLen)
       <==> (end - 1 - (start - start % 8)) / 8 < (inbufLen + 7) / 8
  {
    var origin := start - start % 8;
    if (end - 1 - origin) / 8 < (inbufLen + 7) / 8 {
      forall w: Chunk, mapped: int, ch: int, s: nat |
        w.start == start && w.end == end && mapped >= 0 && 0 <= ch < |w.lines| && start <= s < end && w.Covers(s)
        ensures CachedPin(w, inbufLen, mapped, ch, s) == w.Pin(ch, s)
      {
        assert (s - origin) / 8 <= (end - 1 - origin) / 8;
        CachedPinAgrees(w, inbufLen, mapped, ch, s);
      }
    } else {
      var s := end - 1;
      var w := Chunk(start, end, [Packed(seq((s - origin) / 8 + 1, _ => 0xFF))]);
      assert TestBit(0xFF, (s - origin) % 8) by { AllOnes((s - origin) % 8); }
      CachedPinAgrees(w, inbufLen, 0, 0, s);
      assert w.Covers(s) && w.Pin(0, s) == 1;
      assert CachedPin(w, inbufLen, 0, 0, s) != w.Pin(0, s);
    }
  }

  /** When the announced length is the number of samples, an aligned start always suffices, and an
      unaligned one loses the last pin for some lengths: eight samples from sample 1. */
  lemma SampleCountAsLength(start: nat, end: nat)
    requires start < end
    ensures start % 8 == 0 ==> PinsAlwaysAgree(start, end, end - start)
    ensures !PinsAlwaysAgree(1, 9, 8)
  {
    PinAgreementIff(start, end, end - start);
    PinAgreementIff(1, 9, 8);
  }
}
