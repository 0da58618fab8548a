/**
 * Condition lists and the sample matcher, as functions of an immutable engine state. The class
 * Instance.DecoderInst updates its fields step by step and is proved against these functions.
 */
module Matcher {
  import opened Bits
  import opened Samples

  datatype TermKind = High | Low | Rising | Falling | Either | NoEdge | Skip | Unknown

  /** struct srd_term */
  datatype Term = Term(kind: TermKind, channel: int, toSkip: nat, skipped: nat)

  /** OR of ANDs: a list of conditions, each a list of terms. An empty condition is a NULL one. */
  type Conditions = seq<seq<Term>>

  /** The fields of a decoder instance that the matcher reads and writes. */
  datatype Engine = Engine(
    cur: nat,            // abs_cur_samplenum
    conds: Conditions,   // condition_list
    prev: seq<nat>,       // old_pins_array
    matched: bool,       // abs_cur_matched
    skipZero: bool,      // skip_zero
    word: nat,           // match_array
    first: bool)         // first_pos

  /** SRD_INITIAL_PIN_SAME_AS_SAMPLE0 */
  const SAME_AS_SAMPLE0: nat := 2

  const U64_MAX: nat := 0xFFFF_FFFF_FFFF_FFFF

  /** A decrement of an unsigned 64-bit counter. */
  function Dec(n: nat): nat {
    if n == 0 then U64_MAX else n - 1
  }

  function PrevPin(prev: seq<nat>, ch: int): nat {
    if 0 <= ch < |prev| then prev[ch] else SAME_AS_SAMPLE0
  }

  predicate HasGroup(conds: Conditions) {
    exists j :: 0 <= j < |conds| && conds[j] != []
  }

  /** The level test of one term; a SKIP term holds once its counter has reached its target. */
  predicate SampleMatches(prev: nat, sample: nat, t: Term) {
    match t.kind
    case High => sample == 1
    case Low => sample == 0
    case Rising => prev == 0 && sample == 1
    case Falling => prev == 1 && sample == 0
    case Either => (prev == 1 && sample == 0) || (prev == 0 && sample == 1)
    case NoEdge => (prev == 0 && sample == 0) || (prev == 1 && sample == 1)
    case Skip => t.skipped == t.toSkip
    case Unknown => false
  }

  predicate TermHolds(c: Chunk, s: nat, prev: seq<nat>, t: Term) {
    SampleMatches(PrevPin(prev, t.channel), c.Pin(t.channel, s), t)
  }

  /** The term after it failed: a SKIP term counts the sample. */
  function Failed(t: Term): Term {
    if t.kind == Skip then t.(skipped := t.skipped + 1) else t
  }

  predicate ZeroSkip(t: Term) {
    t.kind == Skip && t.toSkip == 0
  }

  /** What testing one condition does: its verdict, its terms afterwards, and the two flags.
      skipAllow belongs to the term that failed; a condition that holds clears all_skip_allow. */
  datatype TermsEval = TermsEval(ok: bool, terms: seq<Term>, skipAllow: bool, skipZero: bool)

  /** all_terms_match up to the cursor correction: stop at the first term that fails. */
  function EvalTerms(c: Chunk, s: nat, prev: seq<nat>, matched: bool, skipZero: bool, ts: seq<Term>): (r: TermsEval)
    ensures |r.terms| == |ts|
    decreases ts
  {
    if ts == [] then TermsEval(true, [], false, skipZero)
    else
      var z := skipZero || (matched && ZeroSkip(ts[0]));
      var allow := ts[0].kind != Skip && c.IsFixed(ts[0].channel);
      if !TermHolds(c, s, prev, ts[0]) then
        TermsEval(false, [Failed(ts[0])] + ts[1..], allow, z)
      else
        var r := EvalTerms(c, s, prev, matched, z, ts[1..]);
        TermsEval(r.ok, [ts[0]] + r.terms, r.skipAllow, r.skipZero)
  }

  /** One condition of the list, with the match word, the cursor and all_skip_allow updated. */
  function EvalGroup(c: Chunk, e: Engine, j: nat, allow: bool): (r: (Engine, bool))
    requires j < |e.conds|
    ensures |r.0.conds| == |e.conds|
  {
    if e.conds[j] == [] then (e, allow)
    else
      var t := EvalTerms(c, e.cur, e.prev, e.matched, e.skipZero, e.conds[j]);
      var e1 := e.(conds := e.conds[j := t.terms]);
      if t.ok then
        (e1.(cur := if t.skipZero then Dec(e.cur) else e.cur, skipZero := false, word := SetBit(e.word, j)), false)
      else
        (e1.(skipZero := t.skipZero), allow && t.skipAllow)
  }

  /** The conditions from index j on. */
  function EvalGroups(c: Chunk, e: Engine, j: nat, allow: bool): (r: (Engine, bool))
    requires j <= |e.conds|
    ensures |r.0.conds| == |e.conds|
    ensures |r.0.prev| == |e.prev|
    ensures r.0.word >= e.word
    ensures r.0.word == e.word ==> r.0.cur == e.cur || e.word != 0
    decreases |e.conds| - j
  {
    if j == |e.conds| then (e, allow)
    else
      var (e1, allow1) := EvalGroup(c, e, j, allow);
      SetBitGrows(e.word, j);
      BitOfSetBit(e.word, j, j);
      EvalGroups(c, e1, j + 1, allow1)
  }

  lemma {:induction false} SetBitGrows(w: nat, j: nat)
    ensures SetBit(w, j) >= w
  {
    if j == 0 {
    } else {
      SetBitGrows(w / 2, j - 1);
    }
  }

  /** One pass of the scan loop: test every condition, then remember the pins. */
  function Step(c: Chunk, e: Engine, allow: bool): (r: (Engine, bool))
    ensures |r.0.conds| == |e.conds|
    ensures |r.0.prev| == |e.prev|
    ensures e.word == 0 && !r.0.matched ==> r.0.cur == e.cur && r.0.word == 0
  {
    var (e1, allow1) := EvalGroups(c, e, 0, allow);
    (e1.(prev := c.Pins(|e.prev|, e1.cur), matched := e1.word != 0), allow1)
  }

  /** The scan loop of find_match; `allow` is all_skip_allow. */
  function Scan(c: Chunk, e: Engine, allow: bool): (r: (bool, Engine))
    requires e.word == 0
    ensures |r.1.conds| == |e.conds|
    ensures |r.1.prev| == |e.prev|
    decreases c.end - e.cur
  {
    if e.cur >= c.end then (false, e)
    else
      var (e1, allow1) := Step(c, e, allow);
      if e1.matched then (true, e1)
      else if allow1 then (false, e1.(cur := c.end))
      else Scan(c, e1.(cur := e1.cur + 1), allow1)
  }

  /** The SKIP counters after a match: the sample that follows it is already counted. */
  function ResetTerm(t: Term): Term {
    if t.kind == Skip && t.toSkip > 0 then t.(skipped := 1) else t
  }

  function ResetGroup(ts: seq<Term>): (r: seq<Term>)
    ensures |r| == |ts|
    ensures forall i :: 0 <= i < |ts| ==> r[i] == ResetTerm(ts[i])
  {
    seq(|ts|, i requires 0 <= i < |ts| => ResetTerm(ts[i]))
  }

  function ResetSkips(conds: Conditions): (r: Conditions)
    ensures |r| == |conds|
    ensures forall j :: 0 <= j < |conds| ==> r[j] == ResetGroup(conds[j])
  {
    seq(|conds|, j requires 0 <= j < |conds| => ResetGroup(conds[j]))
  }

  /** Pins declared "same as sample 0" take their level from the first sample. */
  function InitialPins(c: Chunk, prev: seq<nat>, s: nat): (r: seq<nat>)
    ensures |r| == |prev|
    ensures forall ch :: 0 <= ch < |prev| ==> r[ch] == if prev[ch] == SAME_AS_SAMPLE0 then c.Pin(ch, s) else prev[ch]
  {
    seq(|prev|, ch requires 0 <= ch < |prev| => if prev[ch] == SAME_AS_SAMPLE0 then c.Pin(ch, s) else prev[ch])
  }

  /** find_match before its loop. */
  function Prepare(c: Chunk, e: Engine): (r: Engine)
    ensures |r.conds| == |e.conds|
    ensures |r.prev| == |e.prev|
  {
    var e0 := if e.first then e.(word := 0, first := false, prev := InitialPins(c, e.prev, e.cur)) else e.(word := 0);
    if e.matched then e0.(cur := e.cur + 1, conds := ResetSkips(e.conds)) else e0
  }

  /** find_match: whether a match was found, and the state it leaves. */
  function FindMatch(c: Chunk, e: Engine): (r: (bool, Engine)) {
    if !HasGroup(e.conds) then (true, e) else Scan(c, Prepare(c, e), true)
  }

  /** Installing a condition list, as set_new_condition_list and set_skip_condition do. */
  function InitTerm(t: Term, matched: bool): Term {
    if t.kind == Skip then t.(skipped := if matched && t.toSkip != 0 then 1 else 0) else t
  }
}
