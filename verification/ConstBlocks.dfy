/**
 * The constant-block jump of the scan loop: when the first sample fails every condition at a term
 * on a channel without a buffer, the rest of the chunk is skipped.
 */
module ConstBlocks {
  import opened Samples
  import opened Matcher
  import opened Declarative

  /** Index of the first term that fails at sample s, |ts| if none does. */
  function FirstFailing(c: Chunk, s: nat, prev: seq<nat>, ts: seq<Term>): (f: nat)
    ensures f <= |ts|
    ensures f < |ts| ==> !TermHolds(c, s, prev, ts[f])
    ensures forall i :: 0 <= i < f ==> TermHolds(c, s, prev, ts[i])
    decreases ts
  {
    if ts == [] || !TermHolds(c, s, prev, ts[0]) then 0 else 1 + FirstFailing(c, s, prev, ts[1..])
  }

  /** The condition fails at sample s, at a term on a constant channel. */
  predicate FailsOnConstant(c: Chunk, s: nat, prev: seq<nat>, ts: seq<Term>) {
    var f := FirstFailing(c, s, prev, ts);
    f < |ts| && ts[f].kind != Skip && c.IsFixed(ts[f].channel)
  }

  /** The guard of the jump: all_skip_allow is still set after the first sample. */
  predicate JumpTaken(c: Chunk, e: Engine) {
    forall j :: 0 <= j < |e.conds| && e.conds[j] != [] ==> FailsOnConstant(c, e.cur, e.prev, e.conds[j])
  }

  /** The term at which condition j fails is not a NO_EDGE term. */
  predicate NotOnNoEdge(c: Chunk, e: Engine) {
    forall j :: 0 <= j < |e.conds| && FailsOnConstant(c, e.cur, e.prev, e.conds[j]) ==>
      e.conds[j][FirstFailing(c, e.cur, e.prev, e.conds[j])].kind != NoEdge
  }

  lemma {:induction false} EvalTermsFailing(c: Chunk, s: nat, prev: seq<nat>, matched: bool, z: bool, ts: seq<Term>)
    ensures var r := EvalTerms(c, s, prev, matched, z, ts);
            var f := FirstFailing(c, s, prev, ts);
            && r.ok == (f == |ts|)
            && r.terms == (if r.ok then ts else ts[f := Failed(ts[f])])
            && (!r.ok ==> r.skipAllow == FailsOnConstant(c, s, prev, ts))
            && (!matched ==> r.skipZero == z)
            && (z ==> r.skipZero)
    decreases ts
  {
    if ts == [] || !TermHolds(c, s, prev, ts[0]) {
    } else {
      var z1 := z || (matched && ZeroSkip(ts[0]));
      EvalTermsFailing(c, s, prev, matched, z1, ts[1..]);
    }
  }

  /** all_skip_allow survives the conditions from j on exactly when each of them fails at a term on
      a constant channel; nothing but skip_zero has then changed. */
  lemma {:induction false} GroupsJump(c: Chunk, e: Engine, j: nat)
    requires j <= |e.conds|
    ensures var r := EvalGroups(c, e, j, true);
            && (r.1 <==> forall k :: j <= k < |e.conds| && e.conds[k] != [] ==>
                FailsOnConstant(c, e.cur, e.prev, e.conds[k]))
            && (r.1 ==> r.0 == e.(skipZero := r.0.skipZero))
            && (!e.matched && r.1 ==> r.0 == e)
    decreases |e.conds| - j
  {
    hide EvalTerms;
    hide FirstFailing;
    if j == |e.conds| {
    } else {
      var (e1, allow1) := EvalGroup(c, e, j, true);
      var ts := e.conds[j];
      if ts != [] {
        EvalTermsFailing(c, e.cur, e.prev, e.matched, e.skipZero, ts);
      }
      if allow1 {
        if ts != [] {
          var f := FirstFailing(c, e.cur, e.prev, ts);
          assert ts[f := ts[f]] == ts;
        }
        assert e.conds[j := ts] == e.conds;
        assert e1 == e.(skipZero := e1.skipZero);
        GroupsJump(c, e1, j + 1);
      } else {
        GroupsNeverAllow(c, e1, j + 1);
      }
    }
  }

  lemma StepJump(c: Chunk, e: Engine)
    ensures var r := Step(c, e, true);
            && (r.1 <==> JumpTaken(c, e))
            && (r.1 ==> r.0 == e.(skipZero := r.0.skipZero, prev := c.Pins(|e.prev|, e.cur), matched := e.word != 0))
            && (!e.matched && r.1 ==> r.0.skipZero == e.skipZero)
  {
    GroupsJump(c, e, 0);
  }

  /** Whether all_skip_allow is set or not makes no difference to the state a pass leaves. */
  lemma {:induction false} AllowOnlyAllows(c: Chunk, e: Engine, j: nat, a: bool, b: bool)
    requires j <= |e.conds|
    ensures EvalGroups(c, e, j, a).0 == EvalGroups(c, e, j, b).0
    decreases |e.conds| - j
  {
    if j == |e.conds| {
    } else {
      AllowOnlyAllows(c, EvalGroup(c, e, j, a).0, j + 1, EvalGroup(c, e, j, a).1, EvalGroup(c, e, j, b).1);
    }
  }

  /** A condition that can no longer hold in this chunk: it has a term on a constant channel that
      fails for good, and every SKIP term before that one has reached its target. */
  predicate StuckAt(c: Chunk, s: nat, prev: seq<nat>, ts: seq<Term>, f: nat) {
    && f < |ts|
    && ts[f].kind != Skip && ts[f].kind != NoEdge
    && c.IsFixed(ts[f].channel)
    && !TermHolds(c, s, prev, ts[f])
    && forall i :: 0 <= i < f && ts[i].kind == Skip ==> ts[i].skipped == ts[i].toSkip
  }

  predicate Stuck(c: Chunk, s: nat, prev: seq<nat>, ts: seq<Term>) {
    exists f :: 0 <= f < |ts| && StuckAt(c, s, prev, ts, f)
  }

  predicate AllStuck(c: Chunk, e: Engine) {
    forall j :: 0 <= j < |e.conds| && e.conds[j] != [] ==> Stuck(c, e.cur, e.prev, e.conds[j])
  }

  lemma StuckFails(c: Chunk, s: nat, prev: seq<nat>, matched: bool, z: bool, ts: seq<Term>)
    requires Stuck(c, s, prev, ts)
    ensures var r := EvalTerms(c, s, prev, matched, z, ts); !r.ok && r.terms == ts && (!matched ==> r.skipZero == z)
  {
    EvalTermsFailing(c, s, prev, matched, z, ts);
    var f :| 0 <= f < |ts| && StuckAt(c, s, prev, ts, f);
    var g := FirstFailing(c, s, prev, ts);
    assert g <= f;
    assert ts[g].kind != Skip;
    assert ts[g := ts[g]] == ts;
  }

  /** A constant channel shows no edge after the first sample. */
  lemma StuckStays(c: Chunk, s: nat, prev: seq<nat>, ts: seq<Term>)
    requires Stuck(c, s, prev, ts)
    ensures Stuck(c, s + 1, c.Pins(|prev|, s), ts)
  {
    var f :| 0 <= f < |ts| && StuckAt(c, s, prev, ts, f);
    assert StuckAt(c, s + 1, c.Pins(|prev|, s), ts, f);
  }

  lemma {:induction false} StuckGroups(c: Chunk, e: Engine, j: nat)
    requires j <= |e.conds| && !e.matched && AllStuck(c, e)
    ensures EvalGroups(c, e, j, false) == (e, false)
    decreases |e.conds| - j
  {
    if j == |e.conds| {
    } else {
      if e.conds[j] != [] {
        StuckFails(c, e.cur, e.prev, e.matched, e.skipZero, e.conds[j]);
        assert e.conds[j := e.conds[j]] == e.conds;
      }
      assert EvalGroup(c, e, j, false) == (e, false);
      StuckGroups(c, e, j + 1);
    }
  }

  /** Stepping on when every condition is stuck finds nothing and changes nothing but the pins. */
  lemma {:induction false} StuckScan(c: Chunk, e: Engine)
    requires e.word == 0 && !e.matched && e.cur <= c.end && AllStuck(c, e)
    ensures var r := Scan(c, e, false);
            !r.0 && r.1 == e.(cur := c.end, prev := if e.cur == c.end then e.prev else c.Pins(|e.prev|, c.end - 1))
    decreases c.end - e.cur
  {
    if e.cur >= c.end {
    } else {
      StuckGroups(c, e, 0);
      var e1 := Step(c, e, false).0;
      assert e1 == e.(prev := c.Pins(|e.prev|, e.cur));
      var e2 := e1.(cur := e.cur + 1);
      forall j | 0 <= j < |e2.conds| && e2.conds[j] != [] ensures Stuck(c, e2.cur, e2.prev, e2.conds[j]) {
        StuckStays(c, e.cur, e.prev, e.conds[j]);
      }
      StuckScan(c, e2);
    }
  }

  /** Equal but for the remembered pins of channels that have a buffer. */
  predicate SameButBufferedPins(c: Chunk, a: Engine, b: Engine) {
    && a == b.(prev := a.prev)
    && |a.prev| == |b.prev|
    && forall ch :: 0 <= ch < |a.prev| && c.IsFixed(ch) ==> a.prev[ch] == b.prev[ch]
  }

  lemma JumpIsStuck(c: Chunk, e: Engine)
    requires JumpTaken(c, e) && NotOnNoEdge(c, e)
    ensures AllStuck(c, e)
  {
    forall j | 0 <= j < |e.conds| && e.conds[j] != [] ensures Stuck(c, e.cur, e.prev, e.conds[j]) {
      assert StuckAt(c, e.cur, e.prev, e.conds[j], FirstFailing(c, e.cur, e.prev, e.conds[j]));
    }
  }

  /** Both scans after the first sample, when the jump is taken. */
  lemma JumpUnfolds(c: Chunk, e: Engine)
    requires e.word == 0 && e.cur < c.end && JumpTaken(c, e)
    ensures var e1 := Step(c, e, true).0;
            && Scan(c, e, true) == (false, e1.(cur := c.end))
            && Scan(c, e, false) == Scan(c, e1.(cur := e.cur + 1), false)
            && e1 == e.(skipZero := e1.skipZero, prev := c.Pins(|e.prev|, e.cur), matched := false)
  {
    hide EvalGroups;
    hide JumpTaken;
    StepJump(c, e);
    StepNeverAllows(c, e);
    AllowOnlyAllows(c, e, 0, true, false);
  }

  lemma StuckAfterFirst(c: Chunk, e: Engine, e2: Engine)
    requires JumpTaken(c, e) && NotOnNoEdge(c, e)
    requires e2.conds == e.conds && e2.cur == e.cur + 1 && e2.prev == c.Pins(|e.prev|, e.cur)
    ensures AllStuck(c, e2)
  {
    JumpIsStuck(c, e);
    forall j | 0 <= j < |e2.conds| && e2.conds[j] != [] ensures Stuck(c, e2.cur, e2.prev, e2.conds[j]) {
      StuckStays(c, e.cur, e.prev, e.conds[j]);
    }
  }

  /** The jump refines scanning. If every condition fails at its first sample at a term on a
      constant channel, of any type but NO_EDGE, the jump is taken, no later sample of the chunk
      matches, and stepping through them gives the same verdict and the same state, but for the
      remembered pins of the channels that have a buffer. */
  lemma JumpRefinesScan(c: Chunk, e: Engine)
    requires e.word == 0 && e.cur < c.end
    requires JumpTaken(c, e) && NotOnNoEdge(c, e)
    ensures !Scan(c, e, true).0 && !Scan(c, e, false).0
    ensures SameButBufferedPins(c, Scan(c, e, true).1, Scan(c, e, false).1)
    ensures Scan(c, e, true).1.cur == c.end && Scan(c, e, true).1.conds == e.conds
  {
    hide Scan;
    hide Step;
    JumpUnfolds(c, e);
    var e2 := Step(c, e, true).0.(cur := e.cur + 1);
    StuckAfterFirst(c, e, e2);
    StuckScan(c, e2);
  }

  /** Without the jump the two scans coincide. */
  lemma NoJumpNoDifference(c: Chunk, e: Engine)
    requires e.word == 0 && (e.cur >= c.end || !JumpTaken(c, e))
    ensures Scan(c, e, true) == Scan(c, e, false)
  {
    hide EvalGroups;
    hide JumpTaken;
    if e.cur < c.end {
      StepJump(c, e);
      StepNeverAllows(c, e);
      AllowOnlyAllows(c, e, 0, true, false);
    }
  }

  /** For every state the scan with the jump agrees with the scan without it, provided no condition
      is failing at a NO_EDGE term on a constant channel. */
  lemma ScanRefinesStepping(c: Chunk, e: Engine)
    requires e.word == 0 && NotOnNoEdge(c, e)
    ensures var a, b := Scan(c, e, true), Scan(c, e, false);
            a.0 == b.0 && SameButBufferedPins(c, a.1, b.1) && (a.0 ==> a == b)
  {
    if e.cur < c.end && JumpTaken(c, e) {
      JumpRefinesScan(c, e);
    } else {
      NoJumpNoDifference(c, e);
    }
  }

  /** A term on a channel that is constant in this chunk. */
  predicate OnConstant(c: Chunk, t: Term) {
    t.kind != Skip && c.IsFixed(t.channel)
  }

  /** A term on a constant channel that holds from the second sample on: the level is right, or no edge
      is asked for. */
  predicate TermSettles(c: Chunk, t: Term) {
    match t.kind
    case NoEdge => true
    case High => c.Pin(t.channel, 0) == 1
    case Low => c.Pin(t.channel, 0) == 0
    case _ => false
  }

  /** All the terms of the condition that are on constant channels settle. */
  predicate ConstantsSettle(c: Chunk, ts: seq<Term>) {
    forall i :: 0 <= i < |ts| && OnConstant(c, ts[i]) ==> TermSettles(c, ts[i])
  }

  /** The terms of condition j that are not on constant channels hold at sample m. */
  predicate OthersTrue(c: Chunk, e: Engine, j: nat, m: nat)
    requires j < |e.conds|
  {
    forall i :: 0 <= i < |e.conds[j]| && !OnConstant(c, e.conds[j][i]) ==> TermTrue(c, e.cur, e.prev, e.conds[j], i, m)
  }

  /** Sample m is one that the jump passes over and condition j holds at. */
  predicate Missed(c: Chunk, e: Engine, j: nat, m: nat) {
    && j < |e.conds| && e.conds[j] != []
    && e.cur < m < c.end
    && ConstantsSettle(c, e.conds[j]) && OthersTrue(c, e, j, m)
  }

  /** The condition tests constant channels and nothing else. */
  predicate ConstantOnly(c: Chunk, ts: seq<Term>) {
    forall i :: 0 <= i < |ts| ==> OnConstant(c, ts[i])
  }

  /** Wherever a condition fails at a NO_EDGE term, it tests constant channels only. */
  predicate NoEdgeAmongConstants(c: Chunk, e: Engine) {
    forall j :: 0 <= j < |e.conds| && FailsOnConstant(c, e.cur, e.prev, e.conds[j]) ==>
      (e.conds[j][FirstFailing(c, e.cur, e.prev, e.conds[j])].kind == NoEdge ==> ConstantOnly(c, e.conds[j]))
  }

  predicate ChannelsBelow(conds: Conditions, n: nat) {
    forall j, i :: 0 <= j < |conds| && 0 <= i < |conds[j]| && conds[j][i].kind != Skip ==> 0 <= conds[j][i].channel < n
  }

  /** Behind the first sample a term on a constant channel holds always or never. */
  lemma ConstantTermBehind(c: Chunk, e: Engine, ts: seq<Term>, i: nat, m: nat)
    requires i < |ts| && OnConstant(c, ts[i]) && 0 <= ts[i].channel < |e.prev| && e.cur < m
    ensures TermTrue(c, e.cur, e.prev, ts, i, m) <==> TermSettles(c, ts[i])
  {
    var ch := ts[i].channel;
    assert c.Pin(ch, m) == c.Pin(ch, m - 1) == c.Pin(ch, 0);
    assert PrevPin(PrevPins(c, e.cur, e.prev, m), ch) == c.Pin(ch, m - 1);
  }

  /** A condition holds behind the first sample iff its constant terms settle and its others hold. */
  lemma GroupBehind(c: Chunk, e: Engine, j: nat, m: nat)
    requires j < |e.conds| && ChannelsBelow(e.conds, |e.prev|) && e.cur < m
    ensures GroupTrue(c, e, j, m) <==> e.conds[j] != [] && ConstantsSettle(c, e.conds[j]) && OthersTrue(c, e, j, m)
  {
    var ts := e.conds[j];
    forall i | 0 <= i < |ts| && OnConstant(c, ts[i])
      ensures TermTrue(c, e.cur, e.prev, ts, i, m) <==> TermSettles(c, ts[i])
    {
      ConstantTermBehind(c, e, ts, i, m);
    }
    assert PrefixTrue(c, e.cur, e.prev, ts, |ts|, m) <==> ConstantsSettle(c, ts) && OthersTrue(c, e, j, m);
  }

  /** Where the jump is taken no condition holds at the first sample. */
  lemma NoneAtFirst(c: Chunk, e: Engine)
    requires JumpTaken(c, e)
    ensures !SomeGroupTrue(c, e, e.cur)
  {
    forall j | 0 <= j < |e.conds| && e.conds[j] != [] ensures !GroupTrue(c, e, j, e.cur) {
      var f := FirstFailing(c, e.cur, e.prev, e.conds[j]);
      assert FailsOnConstant(c, e.cur, e.prev, e.conds[j]);
      assert !TermTrue(c, e.cur, e.prev, e.conds[j], f, e.cur);
    }
  }

  /** What the jump misses, exactly, for every list: when it is taken, stepping finds a match behind it
      iff at some later sample of the chunk there is a condition whose terms on constant channels
      settle and whose other terms hold. */
  lemma JumpMissesIff(c: Chunk, e: Engine)
    requires e.word == 0 && e.cur < c.end && JumpTaken(c, e)
    requires CountersBounded(e.conds) && Steady(e) && ChannelsBelow(e.conds, |e.prev|)
    ensures !Scan(c, e, true).0
    ensures Scan(c, e, false).0 <==> exists j, m :: Missed(c, e, j, m)
  {
    hide Scan, JumpTaken;
    JumpUnfolds(c, e);
    NoneAtFirst(c, e);
    AdvancedStart(c, e);
    StepwiseExact(c, e, e.cur);
    if Scan(c, e, false).0 {
      var m := Scan(c, e, false).1.cur;
      var j :| 0 <= j < |e.conds| && GroupTrue(c, e, j, m);
      GroupBehind(c, e, j, m);
      assert Missed(c, e, j, m);
    }
    if j: nat, m: nat :| Missed(c, e, j, m) {
      GroupBehind(c, e, j, m);
      assert SomeGroupTrue(c, e, m);
    }
  }

  /** The jump is right if no condition's terms on constant channels settle. */
  lemma NoneSettlesNoneMissed(c: Chunk, e: Engine)
    requires e.word == 0 && e.cur < c.end && JumpTaken(c, e)
    requires CountersBounded(e.conds) && Steady(e) && ChannelsBelow(e.conds, |e.prev|)
    requires forall j :: 0 <= j < |e.conds| && e.conds[j] != [] ==> !ConstantsSettle(c, e.conds[j])
    ensures !Scan(c, e, true).0 && !Scan(c, e, false).0
  {
    hide Scan, JumpTaken;
    JumpMissesIff(c, e);
  }

  /** That is the case if no condition is failing at NO_EDGE. */
  lemma NotOnNoEdgeNoneSettles(c: Chunk, e: Engine)
    requires JumpTaken(c, e) && NotOnNoEdge(c, e)
    ensures forall j :: 0 <= j < |e.conds| && e.conds[j] != [] ==> !ConstantsSettle(c, e.conds[j])
  {
    forall j | 0 <= j < |e.conds| && e.conds[j] != [] ensures !ConstantsSettle(c, e.conds[j]) {
      var f := FirstFailing(c, e.cur, e.prev, e.conds[j]);
      assert FailsOnConstant(c, e.cur, e.prev, e.conds[j]);
      assert OnConstant(c, e.conds[j][f]) && !TermSettles(c, e.conds[j][f]);
    }
  }

  /** If conditions that fail at NO_EDGE test nothing but constant channels, the chunk's contents do not
      matter: a match is missed iff there is another sample and a condition that has settled. */
  lemma JumpExactIff(c: Chunk, e: Engine)
    requires e.word == 0 && e.cur < c.end && JumpTaken(c, e)
    requires CountersBounded(e.conds) && Steady(e)
    requires ChannelsBelow(e.conds, |e.prev|) && NoEdgeAmongConstants(c, e)
    ensures Scan(c, e, false).0 <==>
      e.cur + 1 < c.end && exists j :: 0 <= j < |e.conds| && e.conds[j] != [] && ConstantsSettle(c, e.conds[j])
  {
    hide Scan;
    JumpMissesIff(c, e);
    forall j | 0 <= j < |e.conds| && e.conds[j] != [] && ConstantsSettle(c, e.conds[j])
      ensures ConstantOnly(c, e.conds[j])
    {
      var f := FirstFailing(c, e.cur, e.prev, e.conds[j]);
      assert FailsOnConstant(c, e.cur, e.prev, e.conds[j]);
      assert TermSettles(c, e.conds[j][f]) && e.conds[j][f].kind == NoEdge;
    }
    if e.cur + 1 < c.end && exists j :: 0 <= j < |e.conds| && e.conds[j] != [] && ConstantsSettle(c, e.conds[j]) {
      var j :| 0 <= j < |e.conds| && e.conds[j] != [] && ConstantsSettle(c, e.conds[j]);
      assert Missed(c, e, j, e.cur + 1);
    }
  }

  /** NO_EDGE on a channel that is constantly low, remembered high: the jump passes over a match. */
  lemma NoEdgeIsMissed()
    ensures var c := Chunk(0, 8, [Fixed(false)]);
            var e := Engine(0, [[Term(NoEdge, 0, 0, 0)]], [1], false, false, 0, false);
            !FindMatch(c, e).0 && Scan(c, e, false).0
  {
    var c := Chunk(0, 8, [Fixed(false)]);
    var e := Engine(0, [[Term(NoEdge, 0, 0, 0)]], [1], false, false, 0, false);
    assert e.conds[0] != [];
    assert FirstFailing(c, 0, [1], e.conds[0]) == 0;
    assert Missed(c, e, 0, 1);
    JumpMissesIff(c, e);
  }
}
