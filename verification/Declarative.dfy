/**
 * What a condition list means, without counters or a cursor, and the theorem that the scan finds
 * the earliest sample at which it holds.
 */
module Declarative {
  import opened Bits
  import opened Samples
  import opened Matcher

  /** The pins before sample s in a scan that starts at sample a with remembered pins `prev`. */
  function PrevPins(c: Chunk, a: nat, prev: seq<nat>, s: nat): (r: seq<nat>)
    ensures |r| == |prev|
  {
    if s <= a then prev else c.Pins(|prev|, s - 1)
  }

  /** What the kinds ask of a channel's level and of its level one sample earlier. */
  predicate Shows(kind: TermKind, before: nat, now: nat) {
    match kind
    case High => now > 0
    case Low => now < 1
    case Rising => before < now
    case Falling => before == 1 && now == 0
    case Either => before + now == 1
    case NoEdge => before == now
    case _ => false
  }

  /** The level of a channel one sample earlier, the remembered pin at the first sample. */
  function Before(c: Chunk, a: nat, prev: seq<nat>, ch: int, s: nat): nat {
    if 0 <= ch < |prev| then (if s <= a then prev[ch] else c.Pin(ch, s - 1)) else 2
  }

  /** Term i of the condition holds at sample s. A SKIP term holds once the samples at which the
      terms before it held add up to its target. */
  predicate TermTrue(c: Chunk, a: nat, prev: seq<nat>, ts: seq<Term>, i: nat, s: nat)
    requires i < |ts|
    decreases s, i, 1
  {
    if ts[i].kind == Skip then
      ts[i].skipped + Reached(c, a, prev, ts, i, s) >= ts[i].toSkip
    else
      Shows(ts[i].kind, Before(c, a, prev, ts[i].channel, s), c.Pin(ts[i].channel, s))
  }

  /** The first i terms of the condition hold at sample s. */
  predicate PrefixTrue(c: Chunk, a: nat, prev: seq<nat>, ts: seq<Term>, i: nat, s: nat)
    requires i <= |ts|
    decreases s, i, 0
  {
    forall k :: 0 <= k < i ==> TermTrue(c, a, prev, ts, k, s)
  }

  /** How many samples of a .. s - 1 have the first i terms true. */
  function Reached(c: Chunk, a: nat, prev: seq<nat>, ts: seq<Term>, i: nat, s: nat): nat
    requires i < |ts|
    decreases s, i, 0
  {
    if s <= a then 0
    else Reached(c, a, prev, ts, i, s - 1) + (if PrefixTrue(c, a, prev, ts, i, s - 1) then 1 else 0)
  }

  /** Condition j of a scan that starts in state e holds at sample s. */
  predicate GroupTrue(c: Chunk, e: Engine, j: nat, s: nat) {
    j < |e.conds| && e.conds[j] != [] && PrefixTrue(c, e.cur, e.prev, e.conds[j], |e.conds[j]|, s)
  }

  predicate SomeGroupTrue(c: Chunk, e: Engine, s: nat) {
    exists j :: 0 <= j < |e.conds| && GroupTrue(c, e, j, s)
  }

  /** No SKIP counter has passed its target. */
  predicate CountersBounded(conds: Conditions) {
    forall j, i :: 0 <= j < |conds| && 0 <= i < |conds[j]| && conds[j][i].kind == Skip
      ==> conds[j][i].skipped <= conds[j][i].toSkip
  }

  predicate NoZeroSkip(conds: Conditions) {
    forall j, i :: 0 <= j < |conds| && 0 <= i < |conds[j]| ==> !ZeroSkip(conds[j][i])
  }

  /** The cursor is not moved back: no SKIP 0 is pending after a match. */
  predicate Steady(e: Engine) {
    !e.skipZero && (!e.matched || NoZeroSkip(e.conds))
  }

  function Min(a: nat, b: nat): nat { if a <= b then a else b }

  // The state of the scan loop at sample s, when nothing matched before s.

  function CountedTerm(c: Chunk, a: nat, prev: seq<nat>, ts: seq<Term>, i: nat, s: nat): Term
    requires i < |ts|
  {
    if ts[i].kind == Skip then
      ts[i].(skipped := Min(ts[i].toSkip, ts[i].skipped + Reached(c, a, prev, ts, i, s)))
    else ts[i]
  }

  function Counted(c: Chunk, a: nat, prev: seq<nat>, ts: seq<Term>, s: nat): (r: seq<Term>)
    ensures |r| == |ts|
    ensures forall i :: 0 <= i < |ts| ==> r[i] == CountedTerm(c, a, prev, ts, i, s)
  {
    seq(|ts|, i requires 0 <= i < |ts| => CountedTerm(c, a, prev, ts, i, s))
  }

  function CountedConds(c: Chunk, e: Engine, s: nat): (r: Conditions)
    ensures |r| == |e.conds|
    ensures forall j :: 0 <= j < |r| ==> r[j] == Counted(c, e.cur, e.prev, e.conds[j], s)
  {
    seq(|e.conds|, j requires 0 <= j < |e.conds| => Counted(c, e.cur, e.prev, e.conds[j], s))
  }

  function Advanced(c: Chunk, e: Engine, s: nat): Engine {
    e.(cur := s, conds := CountedConds(c, e, s), prev := PrevPins(c, e.cur, e.prev, s),
       matched := s <= e.cur && e.matched)
  }

  lemma AdvancedStart(c: Chunk, e: Engine)
    requires CountersBounded(e.conds)
    ensures Advanced(c, e, e.cur) == e
  {
    forall j | 0 <= j < |e.conds| ensures CountedConds(c, e, e.cur)[j] == e.conds[j] {
      assert Counted(c, e.cur, e.prev, e.conds[j], e.cur) == e.conds[j];
    }
    assert CountedConds(c, e, e.cur) == e.conds;
  }

  /** The level test of the matcher is what the kind asks for. */
  lemma MatchIsShown(c: Chunk, a: nat, prev: seq<nat>, t: Term, s: nat)
    requires t.kind != Skip
    ensures TermHolds(c, s, PrevPins(c, a, prev, s), t)
       <==> Shows(t.kind, Before(c, a, prev, t.channel, s), c.Pin(t.channel, s))
  {
  }

  /** One term, its counter up to date. */
  lemma TermExact(c: Chunk, a: nat, prev: seq<nat>, ts: seq<Term>, i: nat, s: nat)
    requires i < |ts| && (ts[i].kind == Skip ==> ts[i].skipped <= ts[i].toSkip)
    ensures TermHolds(c, s, PrevPins(c, a, prev, s), CountedTerm(c, a, prev, ts, i, s))
              == TermTrue(c, a, prev, ts, i, s)
  {
    if ts[i].kind != Skip {
      MatchIsShown(c, a, prev, ts[i], s);
    }
  }

  /** The terms from i on, when those before i hold at s: the short-circuit AND computes the
      declarative verdict, and every counter moves on to the next sample. */
  lemma {:induction false} EvalTermsExact(c: Chunk, a: nat, prev: seq<nat>, ts: seq<Term>, i: nat, s: nat,
      matched: bool)
    requires i <= |ts| && a <= s
    requires forall k :: 0 <= k < |ts| && ts[k].kind == Skip ==> ts[k].skipped <= ts[k].toSkip
    requires !matched || forall k :: 0 <= k < |ts| ==> !ZeroSkip(ts[k])
    requires PrefixTrue(c, a, prev, ts, i, s)
    ensures var r := EvalTerms(c, s, PrevPins(c, a, prev, s), matched, false, Counted(c, a, prev, ts, s)[i..]);
            && r.ok == PrefixTrue(c, a, prev, ts, |ts|, s)
            && r.terms == Counted(c, a, prev, ts, s + 1)[i..]
            && !r.skipZero
    decreases |ts| - i
  {
    var now, next := Counted(c, a, prev, ts, s), Counted(c, a, prev, ts, s + 1);
    var pp := PrevPins(c, a, prev, s);
    if i == |ts| {
      assert now[i..] == [] && next[i..] == [];
    } else {
      assert now[i..][0] == now[i] && now[i..][1..] == now[i + 1..];
      TermExact(c, a, prev, ts, i, s);
      PrefixStep(c, a, prev, ts, i, s);
      CountStep(c, a, prev, ts, i, s);
      hide TermHolds, TermTrue, PrefixTrue, CountedTerm;
      if TermTrue(c, a, prev, ts, i, s) {
        EvalTermsExact(c, a, prev, ts, i + 1, s, matched);
        assert next[i..] == [next[i]] + next[i + 1..];
      } else {
        LaterCountsStay(c, a, prev, ts, i, s);
        assert next[i..] == [Failed(now[i])] + now[i + 1..];
      }
    }
  }

  lemma PrefixStep(c: Chunk, a: nat, prev: seq<nat>, ts: seq<Term>, i: nat, s: nat)
    requires i < |ts| && PrefixTrue(c, a, prev, ts, i, s)
    ensures TermTrue(c, a, prev, ts, i, s) <==> PrefixTrue(c, a, prev, ts, i + 1, s)
    ensures !TermTrue(c, a, prev, ts, i, s) ==> !PrefixTrue(c, a, prev, ts, |ts|, s)
  {
  }

  /** The counter of the first term that may fail. */
  lemma CountStep(c: Chunk, a: nat, prev: seq<nat>, ts: seq<Term>, i: nat, s: nat)
    requires i < |ts| && a <= s && PrefixTrue(c, a, prev, ts, i, s)
    requires ts[i].kind == Skip ==> ts[i].skipped <= ts[i].toSkip
    ensures CountedTerm(c, a, prev, ts, i, s + 1)
         == if TermTrue(c, a, prev, ts, i, s) then CountedTerm(c, a, prev, ts, i, s)
            else Failed(CountedTerm(c, a, prev, ts, i, s))
    ensures CountedTerm(c, a, prev, ts, i, s) == ts[i].(skipped := CountedTerm(c, a, prev, ts, i, s).skipped)
  {
    assert Reached(c, a, prev, ts, i, s + 1) == Reached(c, a, prev, ts, i, s) + 1;
  }

  /** Terms behind one that fails count nothing. */
  lemma LaterCountsStay(c: Chunk, a: nat, prev: seq<nat>, ts: seq<Term>, i: nat, s: nat)
    requires i < |ts| && a <= s && !TermTrue(c, a, prev, ts, i, s)
    ensures Counted(c, a, prev, ts, s + 1)[i + 1..] == Counted(c, a, prev, ts, s)[i + 1..]
  {
    forall k | i < k < |ts| ensures CountedTerm(c, a, prev, ts, k, s + 1) == CountedTerm(c, a, prev, ts, k, s) {
      assert !PrefixTrue(c, a, prev, ts, k, s);
    }
  }

  /** The state while sample s is being tested, conditions 0 .. j - 1 being done. */
  function Midway(c: Chunk, e: Engine, s: nat, j: nat, w: nat): Engine
    requires j <= |e.conds|
  {
    Advanced(c, e, s).(conds := CountedConds(c, e, s + 1)[..j] + CountedConds(c, e, s)[j..], word := w)
  }

  lemma EvalGroupExact(c: Chunk, e: Engine, s: nat, j: nat, w: nat, allow: bool)
    requires e.cur <= s && j < |e.conds|
    requires CountersBounded(e.conds) && Steady(e)
    ensures EvalGroup(c, Midway(c, e, s, j, w), j, allow).0
         == Midway(c, e, s, j + 1, if GroupTrue(c, e, j, s) then SetBit(w, j) else w)
  {
    var m := Midway(c, e, s, j, w);
    var ts := e.conds[j];
    var now, next := CountedConds(c, e, s), CountedConds(c, e, s + 1);
    assert m.conds[j] == now[j];
    assert m.conds[j := next[j]] == next[..j + 1] + now[j + 1..];
    if ts == [] {
      assert now[j] == [] && next[j] == [];
      assert m.conds == next[..j + 1] + now[j + 1..];
    } else {
      EvalTermsExact(c, e.cur, e.prev, ts, 0, s, m.matched);
      assert now[j][0..] == now[j] && next[j][0..] == next[j];
    }
  }

  /** Testing all conditions at sample s sets exactly the bits of those that hold there. */
  lemma {:induction false} EvalGroupsExact(c: Chunk, e: Engine, s: nat, j: nat, w: nat, allow: bool)
    requires e.cur <= s && j <= |e.conds|
    requires CountersBounded(e.conds) && Steady(e)
    ensures var r := EvalGroups(c, Midway(c, e, s, j, w), j, allow);
            && r.0 == Midway(c, e, s, |e.conds|, r.0.word)
            && forall k :: Bit(r.0.word, k) <==> Bit(w, k) || (j <= k && GroupTrue(c, e, k, s))
    decreases |e.conds| - j
  {
    hide EvalGroup;
    hide PrefixTrue;
    var m := Midway(c, e, s, j, w);
    if j == |e.conds| {
    } else {
      var w1 := if GroupTrue(c, e, j, s) then SetBit(w, j) else w;
      EvalGroupExact(c, e, s, j, w, allow);
      var r1 := EvalGroup(c, m, j, allow);
      EvalGroupsExact(c, e, s, j + 1, w1, r1.1);
      var r := EvalGroups(c, m, j, allow);
      assert r == EvalGroups(c, r1.0, j + 1, r1.1);
      forall k ensures Bit(r.0.word, k) <==> Bit(w, k) || (j <= k && GroupTrue(c, e, k, s)) {
        BitOfSetBit(w, j, k);
      }
    }
  }

  /** A match word with exactly the bits of the true conditions is zero iff none is true. */
  lemma WordIsZero(c: Chunk, e: Engine, s: nat, w: nat)
    requires forall k :: Bit(w, k) <==> GroupTrue(c, e, k, s)
    ensures w != 0 <==> SomeGroupTrue(c, e, s)
  {
    if w != 0 {
      var k := SomeBit(w);
      assert GroupTrue(c, e, k, s);
    } else if SomeGroupTrue(c, e, s) {
      var k :| 0 <= k < |e.conds| && GroupTrue(c, e, k, s);
      ZeroHasNoBit(k);
    }
  }

  /** A list of one condition: its match word. */
  lemma WordOfOneGroup(c: Chunk, p: Engine, m: nat, w: nat)
    requires |p.conds| == 1 && SomeGroupTrue(c, p, m)
    requires forall k :: Bit(w, k) <==> GroupTrue(c, p, k, m)
    ensures w == 1
  {
    var j :| 0 <= j < |p.conds| && GroupTrue(c, p, j, m);
    assert Bit(w, 0);
    if w > 1 {
      var k := SomeBit(w / 2);
      assert Bit(w, k + 1);
    }
  }

  lemma Splice(x: Conditions, y: Conditions, n: nat)
    requires n == |x| == |y|
    ensures x[..n] + y[n..] == x
    ensures x[..0] + y[0..] == y
  {
  }

  lemma MidwayStart(c: Chunk, e: Engine, s: nat)
    requires e.word == 0
    ensures Midway(c, e, s, 0, 0) == Advanced(c, e, s)
  {
    var x, y := CountedConds(c, e, s + 1), CountedConds(c, e, s);
    Splice(x, y, |e.conds|);
    assert Midway(c, e, s, 0, 0).conds == x[..0] + y[0..];
  }

  lemma MidwayEnd(c: Chunk, e: Engine, s: nat, w: nat)
    ensures Midway(c, e, s, |e.conds|, w) == Advanced(c, e, s).(conds := CountedConds(c, e, s + 1), word := w)
  {
    var x, y, n := CountedConds(c, e, s + 1), CountedConds(c, e, s), |e.conds|;
    Splice(x, y, n);
    assert Midway(c, e, s, n, w).conds == x[..n] + y[n..];
  }

  lemma AllGroupsExact(c: Chunk, e: Engine, s: nat, allow: bool)
    requires e.cur <= s && e.word == 0
    requires CountersBounded(e.conds) && Steady(e)
    ensures var r := EvalGroups(c, Advanced(c, e, s), 0, allow).0;
            && r == Advanced(c, e, s).(conds := CountedConds(c, e, s + 1), word := r.word)
            && forall k :: Bit(r.word, k) <==> GroupTrue(c, e, k, s)
  {
    var m := Midway(c, e, s, 0, 0);
    var r := EvalGroups(c, m, 0, allow).0;
    MidwayStart(c, e, s);
    MidwayEnd(c, e, s, r.word);
    assert m == Advanced(c, e, s);
    assert r == Midway(c, e, s, |e.conds|, r.word) && forall k :: Bit(r.word, k) <==> GroupTrue(c, e, k, s) by {
      EvalGroupsExact(c, e, s, 0, 0, allow);
      forall k ensures Bit(r.word, k) <==> GroupTrue(c, e, k, s) {
        ZeroHasNoBit(k);
      }
    }
  }

  /** One pass at sample s leaves the state that the next sample starts from. */
  lemma StepExact(c: Chunk, e: Engine, s: nat, allow: bool)
    requires e.cur <= s && e.word == 0
    requires CountersBounded(e.conds) && Steady(e)
    ensures var r := Step(c, Advanced(c, e, s), allow).0;
            && r == Stopped(c, e, s, r.word).(matched := SomeGroupTrue(c, e, s))
            && (r.word != 0 <==> SomeGroupTrue(c, e, s))
            && forall k :: Bit(r.word, k) <==> GroupTrue(c, e, k, s)
  {
    AllGroupsExact(c, e, s, allow);
    WordIsZero(c, e, s, EvalGroups(c, Advanced(c, e, s), 0, allow).0.word);
  }

  /** The state in which the scan stops at a match on sample m with match word w. */
  function Stopped(c: Chunk, e: Engine, m: nat, w: nat): Engine {
    Advanced(c, e, m + 1).(cur := m, matched := true, word := w)
  }

  /** The result r of a scan that starts in state e, over samples up to `end`: it stops exactly at
      the least sample where some condition holds, or at the end. */
  ghost predicate EarliestMatch(c: Chunk, e: Engine, r: (bool, Engine), end: nat) {
    if r.0 then
      && e.cur <= r.1.cur < end
      && SomeGroupTrue(c, e, r.1.cur)
      && NoneBefore(c, e, r.1.cur)
      && r.1 == Stopped(c, e, r.1.cur, r.1.word)
      && forall k :: Bit(r.1.word, k) <==> GroupTrue(c, e, k, r.1.cur)
    else
      && NoneBefore(c, e, end)
      && r.1 == Advanced(c, e, if e.cur <= end then end else e.cur)
  }

  predicate NoneBefore(c: Chunk, e: Engine, s: nat) {
    forall t :: e.cur <= t < s ==> !SomeGroupTrue(c, e, t)
  }

  /** Scanning sample by sample from s on, when nothing matched before s. */
  lemma {:induction false} StepwiseExact(c: Chunk, e: Engine, s: nat)
    requires e.cur <= s && e.word == 0 && (s == e.cur || s <= c.end)
    requires CountersBounded(e.conds) && Steady(e)
    requires NoneBefore(c, e, s)
    ensures EarliestMatch(c, e, Scan(c, Advanced(c, e, s), false), c.end)
    decreases c.end - s
  {
    hide Step;
    var m := Advanced(c, e, s);
    if s < c.end {
      StepExact(c, e, s, false);
      var r1 := Step(c, m, false);
      StepNeverAllows(c, m);
      if SomeGroupTrue(c, e, s) {
        assert Scan(c, m, false) == (true, r1.0);
      } else {
        assert r1.0.(cur := s + 1) == Advanced(c, e, s + 1);
        StepwiseExact(c, e, s + 1);
        assert Scan(c, m, false) == Scan(c, Advanced(c, e, s + 1), false);
      }
    } else {
      assert Scan(c, m, false) == (false, m);
    }
  }

  lemma {:induction false} GroupsNeverAllow(c: Chunk, e: Engine, j: nat)
    requires j <= |e.conds|
    ensures !EvalGroups(c, e, j, false).1
    decreases |e.conds| - j
  {
    if j == |e.conds| {
    } else {
      GroupsNeverAllow(c, EvalGroup(c, e, j, false).0, j + 1);
    }
  }

  /** all_skip_allow is never set again once it has been cleared. */
  lemma StepNeverAllows(c: Chunk, e: Engine)
    ensures !Step(c, e, false).1
  {
    GroupsNeverAllow(c, e, 0);
  }
}
