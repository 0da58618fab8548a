/** find_match as a whole: the earliest exact match, for every condition list without SKIP 0. */
module EarliestMatches {
  import opened Samples
  import opened Matcher
  import opened Declarative
  import opened ConstBlocks

  function Max(a: nat, b: nat): nat { if a >= b then a else b }

  /** The same list of terms, whatever their counters. */
  predicate SameShape(x: Conditions, y: Conditions) {
    && |x| == |y|
    && (forall j :: 0 <= j < |x| ==> |x[j]| == |y[j]|)
    && forall j, i :: 0 <= j < |x| && 0 <= i < |x[j]| ==> x[j][i] == y[j][i].(skipped := x[j][i].skipped)
  }

  lemma ShapeKeeps(x: Conditions, y: Conditions)
    requires SameShape(x, y)
    ensures HasGroup(x) ==> HasGroup(y)
    ensures NoZeroSkip(x) ==> NoZeroSkip(y)
    ensures SameShape(y, x)
  {
    if HasGroup(x) {
      var j :| 0 <= j < |x| && x[j] != [];
      assert |y[j]| == |x[j]|;
    }
    forall j, i | 0 <= j < |y| && 0 <= i < |y[j]|
      ensures y[j][i] == x[j][i].(skipped := y[j][i].skipped)
      ensures NoZeroSkip(x) ==> !ZeroSkip(y[j][i])
    {
      assert x[j][i] == y[j][i].(skipped := x[j][i].skipped);
      assert NoZeroSkip(x) ==> !ZeroSkip(x[j][i]);
    }
  }

  lemma ShapeChain(x: Conditions, y: Conditions, z: Conditions)
    requires SameShape(x, y) && SameShape(y, z)
    ensures SameShape(x, z)
  {
    forall j, i | 0 <= j < |x| && 0 <= i < |x[j]| ensures x[j][i] == z[j][i].(skipped := x[j][i].skipped) {
      assert x[j][i] == y[j][i].(skipped := x[j][i].skipped);
      assert y[j][i] == z[j][i].(skipped := y[j][i].skipped);
    }
  }

  lemma ResetKeeps(conds: Conditions)
    ensures SameShape(ResetSkips(conds), conds)
    ensures CountersBounded(conds) ==> CountersBounded(ResetSkips(conds))
    ensures NoZeroSkip(conds) ==> NoZeroSkip(ResetSkips(conds))
  {
    var r := ResetSkips(conds);
    forall j, i | 0 <= j < |conds| && 0 <= i < |conds[j]| ensures r[j][i] == ResetTerm(conds[j][i]) {}
    ShapeKeeps(conds, r);
  }

  lemma PrepareKeeps(c: Chunk, e: Engine)
    requires CountersBounded(e.conds) && Steady(e)
    ensures var p := Prepare(c, e);
            && SameShape(p.conds, e.conds) && CountersBounded(p.conds) && Steady(p)
            && p.word == 0 && p.cur == e.cur + (if e.matched then 1 else 0)
  {
    ResetKeeps(e.conds);
  }

  /** A list without terms matches at once, and nothing changes. */
  lemma NoTermsMatch(c: Chunk, e: Engine)
    requires forall j :: 0 <= j < |e.conds| ==> e.conds[j] == []
    ensures FindMatch(c, e) == (true, e)
  {
  }

  /** find_match succeeds iff some sample of its range satisfies some condition; it then stops at
      the least such sample and sets exactly the bits of the conditions true there, and otherwise
      it stops at the end of the chunk with every SKIP counter up to date. */
  lemma EarliestExactMatch(c: Chunk, e: Engine)
    requires HasGroup(e.conds) && CountersBounded(e.conds) && Steady(e)
    requires NotOnNoEdge(c, Prepare(c, e))
    ensures var p, r := Prepare(c, e), FindMatch(c, e);
            && (r.0 <==> exists s :: p.cur <= s < c.end && SomeGroupTrue(c, p, s))
            && (r.0 ==> EarliestMatch(c, p, r, c.end))
            && (!r.0 ==> NoneBefore(c, p, c.end) && SameButBufferedPins(c, r.1, Advanced(c, p, Max(p.cur, c.end))))
  {
    var p := Prepare(c, e);
    PrepareKeeps(c, e);
    AdvancedStart(c, p);
    StepwiseExact(c, p, p.cur);
    ScanRefinesStepping(c, p);
  }

  /** ... and without that hypothesis: what find_match finds is the earliest match for every list, and
      it finds one whenever there is one, except when it takes the jump over it. */
  lemma EarliestMatchIff(c: Chunk, e: Engine)
    requires HasGroup(e.conds) && CountersBounded(e.conds) && Steady(e) && ChannelsBelow(e.conds, |e.prev|)
    ensures var p, r := Prepare(c, e), FindMatch(c, e);
            && (r.0 ==> EarliestMatch(c, p, r, c.end))
            && ((r.0 <==> exists s :: p.cur <= s < c.end && SomeGroupTrue(c, p, s))
                <==> !(p.cur < c.end && JumpTaken(c, p) && exists j, m :: Missed(c, p, j, m)))
  {
    hide Scan, JumpTaken;
    var p := Prepare(c, e);
    PrepareKeeps(c, e);
    PrepareChannels(c, e);
    AdvancedStart(c, p);
    StepwiseExact(c, p, p.cur);
    if p.cur < c.end && JumpTaken(c, p) {
      JumpMissesIff(c, p);
    } else {
      NoJumpNoDifference(c, p);
    }
  }

  lemma PrepareChannels(c: Chunk, e: Engine)
    requires ChannelsBelow(e.conds, |e.prev|)
    ensures ChannelsBelow(Prepare(c, e).conds, |Prepare(c, e).prev|)
  {
    var r: Conditions := Prepare(c, e).conds;
    forall j: int, i: int | 0 <= j < |r| && 0 <= i < |r[j]|
      ensures r[j][i].kind == e.conds[j][i].kind && r[j][i].channel == e.conds[j][i].channel
    {
      assert e.matched ==> r[j][i] == ResetTerm(e.conds[j][i]);
    }
  }

  /** A list with no NO_EDGE term on a constant channel meets the hypothesis at every sample. */
  lemma NoEdgeOnBuffers(c: Chunk, e: Engine)
    requires forall j, i :: 0 <= j < |e.conds| && 0 <= i < |e.conds[j]| && e.conds[j][i].kind == NoEdge
               ==> !c.IsFixed(e.conds[j][i].channel)
    ensures NotOnNoEdge(c, Prepare(c, e))
  {
    var p := Prepare(c, e);
    forall j, i | 0 <= j < |p.conds| && 0 <= i < |p.conds[j]|
      ensures p.conds[j][i].kind == e.conds[j][i].kind && p.conds[j][i].channel == e.conds[j][i].channel
    {
      assert e.matched ==> p.conds[j][i] == ResetTerm(e.conds[j][i]);
    }
  }

  /** Once a SKIP term of a condition holds, it holds for the rest of the scan. */
  lemma {:induction false} SkipStaysReached(c: Chunk, a: nat, prev: seq<nat>, ts: seq<Term>, i: nat, s: nat, t: nat)
    requires i < |ts| && ts[i].kind == Skip && s <= t
    requires TermTrue(c, a, prev, ts, i, s)
    ensures TermTrue(c, a, prev, ts, i, t)
    decreases t - s
  {
    if s == t {
    } else {
      SkipStaysReached(c, a, prev, ts, i, s, t - 1);
    }
  }

  lemma CountedKeeps(c: Chunk, e: Engine, s: nat)
    ensures SameShape(CountedConds(c, e, s), e.conds)
  {
    var r: Conditions := CountedConds(c, e, s);
    forall j, i | 0 <= j < |r| && 0 <= i < |r[j]| ensures r[j][i] == e.conds[j][i].(skipped := r[j][i].skipped) {
      assert r[j][i] == CountedTerm(c, e.cur, e.prev, e.conds[j], i, s);
    }
  }

  /** What every pass keeps. */
  predicate Kept(e: Engine, r: Engine) {
    CountersBounded(r.conds) && !r.skipZero && r.first == e.first && SameShape(r.conds, e.conds)
  }

  lemma StepKeeps(c: Chunk, e: Engine, allow: bool)
    requires e.word == 0 && CountersBounded(e.conds) && Steady(e)
    ensures var r := Step(c, e, allow).0; Kept(e, r) && r.cur == e.cur && r.matched == (r.word != 0)
  {
    AdvancedStart(c, e);
    StepExact(c, e, e.cur, allow);
    CountedKeeps(c, e, e.cur + 1);
  }

  /** The scan moves forward, keeps every counter within its target and ends matched or at the end. */
  lemma {:induction false} ScanBounds(c: Chunk, e: Engine, allow: bool)
    requires e.word == 0 && CountersBounded(e.conds) && Steady(e) && e.cur <= c.end
    ensures var r := Scan(c, e, allow);
            && (if r.0 then e.cur <= r.1.cur < c.end && r.1.matched && r.1.word != 0
                else r.1.cur == c.end && r.1.word == 0)
            && (!r.0 && e.cur < c.end ==> !r.1.matched)
            && Kept(e, r.1)
    decreases c.end - e.cur
  {
    assert SameShape(e.conds, e.conds);
    if e.cur >= c.end {
    } else {
      StepKeeps(c, e, allow);
      var (e1, allow1) := Step(c, e, allow);
      if !e1.matched && !allow1 {
        ScanBounds(c, e1.(cur := e.cur + 1), allow1);
        ShapeChain(Scan(c, e1.(cur := e.cur + 1), allow1).1.conds, e1.conds, e.conds);
      }
    }
  }
}
