/** What the constant-block jump leaves behind: the pins it remembers, and when a later chunk shows it. */
module StalePins {
  import opened Samples
  import opened Matcher
  import opened Declarative
  import opened ConstBlocks
  import opened EarliestMatches
  import opened Chunking
  import opened Cuts

  /** The search for list q from state e on in chunk c, and then in chunk c2, with the jump in the first
      chunk or stepping through it. */
  function Onward(c: Chunk, c2: Chunk, e: Engine, q: Conditions, jump: bool): Outcome
    requires e.word == 0
  {
    var r := Scan(c, e.(conds := q), jump);
    if r.0 then Verdict(r) else Verdict(Find(c2, r.1, true))
  }

  /** A list on existing channels for which the jump is taken. */
  predicate Jumps(c: Chunk, e: Engine, q: Conditions) {
    HasGroup(q) && ChannelsBelow(q, |e.prev|) && JumpTaken(c, e.(conds := q))
  }

  predicate Follows(c: Chunk, c2: Chunk, n: nat) {
    c2.start == c.end < c2.end && |c2.lines| == n
  }

  /** No list and no next chunk tell the jump from stepping. */
  ghost predicate Invisible(c: Chunk, e: Engine)
    requires e.word == 0
  {
    forall q: Conditions, c2: Chunk :: Jumps(c, e, q) && Follows(c, c2, |e.prev|)
      ==> Onward(c, c2, e, q, true) == Onward(c, c2, e, q, false)
  }

  /** Every channel has a buffer. */
  predicate NoConstant(c: Chunk, n: nat) {
    forall ch :: 0 <= ch < n ==> !c.IsFixed(ch)
  }

  /** No constant channel differs from its remembered pin. */
  predicate NoFirstEdge(c: Chunk, prev: seq<nat>) {
    forall ch :: 0 <= ch < |prev| && c.IsFixed(ch) ==> prev[ch] == c.Pin(ch, 0)
  }

  /** Every buffered channel has the same level at samples s and t. */
  predicate SameEnds(c: Chunk, n: nat, s: nat, t: nat) {
    forall ch :: 0 <= ch < n && !c.IsFixed(ch) ==> c.Pin(ch, s) == c.Pin(ch, t)
  }

  /** The jump is invisible, to every list that takes it and whatever comes next, exactly when no list
      can take it, or no sample is left to pass over, or no constant channel begins with an edge and
      every buffered channel ends the chunk at the level it has at the sample the jump leaves from. */
  lemma JumpInvisibleIff(c: Chunk, e: Engine)
    requires e.word == 0 && !e.first && !e.skipZero && e.cur < c.end && |c.lines| == |e.prev|
    ensures Invisible(c, e)
       <==> NoConstant(c, |e.prev|) || e.cur + 1 == c.end
            || (NoFirstEdge(c, e.prev) && SameEnds(c, |e.prev|, e.cur, c.end - 1))
  {
    hide Scan, Find, JumpTaken;
    if NoConstant(c, |e.prev|) || e.cur + 1 == c.end
        || (NoFirstEdge(c, e.prev) && SameEnds(c, |e.prev|, e.cur, c.end - 1)) {
      forall q: Conditions, c2: Chunk | Jumps(c, e, q) ensures Onward(c, c2, e, q, true) == Onward(c, c2, e, q, false) {
        NoTrace(c, e.(conds := q));
      }
    } else if !NoFirstEdge(c, e.prev) {
      var ch :| 0 <= ch < |e.prev| && c.IsFixed(ch) && e.prev[ch] != c.Pin(ch, 0);
      MissedEdgeShows(c, e, ch);
    } else {
      var k :| 0 <= k < |e.prev| && c.IsFixed(k);
      var ch :| 0 <= ch < |e.prev| && !c.IsFixed(ch) && c.Pin(ch, e.cur) != c.Pin(ch, c.end - 1);
      StalePinShows(c, e, k, ch);
    }
  }

  /** In those cases the jump and stepping leave the same state, so nothing later can tell them apart. */
  lemma NoTrace(c: Chunk, e: Engine)
    requires e.word == 0 && e.cur < c.end && Jumps(c, e, e.conds)
    requires NoConstant(c, |e.prev|) || e.cur + 1 == c.end
             || (NoFirstEdge(c, e.prev) && SameEnds(c, |e.prev|, e.cur, c.end - 1))
    ensures Scan(c, e, true) == Scan(c, e, false)
  {
    assert e.(conds := e.conds) == e;
    JumpUnfolds(c, e);
    if e.cur + 1 < c.end {
      ConstantNeeded(c, e);
      NoEdgeHolds(c, e);
      JumpAndStepEnds(c, e);
      assert c.Pins(|e.prev|, e.cur) == c.Pins(|e.prev|, c.end - 1) by {
        forall ch | 0 <= ch < |e.prev| ensures c.Pin(ch, e.cur) == c.Pin(ch, c.end - 1) {}
      }
    }
  }

  lemma ConstantNeeded(c: Chunk, e: Engine)
    requires Jumps(c, e, e.conds)
    ensures !NoConstant(c, |e.prev|)
  {
    assert e.(conds := e.conds) == e;
    var j :| 0 <= j < |e.conds| && e.conds[j] != [];
    assert FailsOnConstant(c, e.cur, e.prev, e.conds[j]);
    assert c.IsFixed(e.conds[j][FirstFailing(c, e.cur, e.prev, e.conds[j])].channel);
  }

  /** Where no constant channel begins with an edge, no condition fails at NO_EDGE. */
  lemma NoEdgeHolds(c: Chunk, e: Engine)
    requires NoFirstEdge(c, e.prev) && ChannelsBelow(e.conds, |e.prev|)
    ensures NotOnNoEdge(c, e)
  {
    forall j | 0 <= j < |e.conds| && FailsOnConstant(c, e.cur, e.prev, e.conds[j])
      ensures e.conds[j][FirstFailing(c, e.cur, e.prev, e.conds[j])].kind != NoEdge
    {
      var t := e.conds[j][FirstFailing(c, e.cur, e.prev, e.conds[j])];
      assert !TermHolds(c, e.cur, e.prev, t);
      assert 0 <= t.channel < |e.prev| && e.prev[t.channel] == c.Pin(t.channel, 0) == c.Pin(t.channel, e.cur);
    }
  }

  /** What the jump and stepping remember. */
  lemma JumpAndStepEnds(c: Chunk, e: Engine)
    requires e.word == 0 && e.cur + 1 < c.end && JumpTaken(c, e) && NotOnNoEdge(c, e)
    ensures var a, b := Scan(c, e, true), Scan(c, e, false);
            && !a.0 && !b.0 && a.1 == b.1.(prev := a.1.prev)
            && a.1.prev == c.Pins(|e.prev|, e.cur) && b.1.prev == c.Pins(|e.prev|, c.end - 1)
            && a.1.cur == c.end && !a.1.matched && a.1.first == e.first && a.1.conds == e.conds
  {
    hide Scan, Step;
    JumpUnfolds(c, e);
    var e2 := Step(c, e, true).0.(cur := e.cur + 1);
    StuckAfterFirst(c, e, e2);
    StuckScan(c, e2);
  }

  /** With one sample left a scan tells whether some condition holds there. */
  lemma OneSampleScan(c: Chunk, e: Engine, allow: bool)
    requires e.word == 0 && CountersBounded(e.conds) && Steady(e) && e.cur + 1 == c.end
    ensures Scan(c, e, allow).0 <==> SomeGroupTrue(c, e, e.cur)
  {
    hide Step;
    AdvancedStart(c, e);
    StepExact(c, e, e.cur, allow);
  }

  /** A constant channel that differs from its remembered pin: NO_EDGE tells. */
  lemma MissedEdgeShows(c: Chunk, e: Engine, ch: nat)
    requires e.word == 0 && !e.skipZero && e.cur + 1 < c.end
    requires |c.lines| == |e.prev|
    requires ch < |e.prev| && c.IsFixed(ch) && e.prev[ch] != c.Pin(ch, 0)
    ensures !Invisible(c, e)
  {
    var q: Conditions := [[Term(NoEdge, ch, 0, 0)]];
    var c2 := Chunk(c.end, c.end + 1, c.lines);
    var a := e.(conds := q);
    assert q[0] != [];
    assert FirstFailing(c, a.cur, a.prev, q[0]) == 0;
    assert Jumps(c, e, q) && Missed(c, a, 0, a.cur + 1);
    hide Scan, Find, JumpTaken;
    JumpMissesIff(c, a);
    ScanBounds(c, a, true);
    ScanBounds(c, a, false);
    var r := Scan(c, a, true);
    ShapeKeeps(q, r.1.conds);
    FindBounds(c2, r.1, true);
    assert Onward(c, c2, e, q, true) != Onward(c, c2, e, q, false);
  }

  /** The list that shows a stale pin: wait until channel k leaves its constant level, and then for the
      edge from level x of channel ch to the other one. */
  function EdgeBehind(k: nat, level: nat, ch: nat, x: nat): Conditions {
    [[Term(if level == 1 then Low else High, k, 0, 0), Term(if x == 0 then Rising else Falling, ch, 0, 0)]]
  }

  /** One more sample, in which channel k has the other level and channel ch the level y. */
  function OneMore(c: Chunk, n: nat, k: nat, ch: nat, y: nat): (r: Chunk)
    requires k < n && ch < n && k != ch
    ensures r.start == c.end && r.end == c.end + 1 && |r.lines| == n
    ensures r.Pin(k, c.end) == 1 - c.Pin(k, 0) && r.Pin(ch, c.end) == (if y == 1 then 1 else 0)
  {
    Chunk(c.end, c.end + 1, seq(n, i => Fixed(if i == ch then y == 1 else c.Pin(k, 0) == 0)))
  }

  /** Whether the list holds there tells the remembered level. */
  lemma EdgeTells(c: Chunk, c2: Chunk, p: Engine, k: nat, ch: nat, x: nat)
    requires x <= 1 && k < |p.prev| && ch < |p.prev| && k != ch && p.prev[ch] <= 1
    requires p.conds == EdgeBehind(k, c.Pin(k, 0), ch, x) && c2 == OneMore(c, |p.prev|, k, ch, 1 - x) && p.cur == c.end
    ensures SomeGroupTrue(c2, p, p.cur) <==> p.prev[ch] == x
  {
    var ts := p.conds[0];
    assert TermTrue(c2, p.cur, p.prev, ts, 0, p.cur);
    assert TermTrue(c2, p.cur, p.prev, ts, 1, p.cur) <==> p.prev[ch] == x;
    assert PrefixTrue(c2, p.cur, p.prev, ts, 2, p.cur) <==> p.prev[ch] == x;
    assert GroupTrue(c2, p, 0, p.cur) <==> p.prev[ch] == x;
    if SomeGroupTrue(c2, p, p.cur) {
      var j :| 0 <= j < |p.conds| && GroupTrue(c2, p, j, p.cur);
      assert j == 0;
    }
  }

  /** Under way from one chunk into the next, nothing is prepared. */
  lemma FindOnOneSample(c: Chunk, p: Engine)
    requires p.word == 0 && !p.first && !p.matched && !p.skipZero && CountersBounded(p.conds) && p.cur + 1 == c.end
    ensures Find(c, p, true).0 <==> SomeGroupTrue(c, p, p.cur)
  {
    assert Prepare(c, p) == p;
    OneSampleScan(c, p, true);
  }

  /** A buffered channel that ends the chunk at another level: after the jump an edge on it is reported
      that never happened, and stepping does not report it. */
  lemma StalePinShows(c: Chunk, e: Engine, k: nat, ch: nat)
    requires e.word == 0 && !e.first && !e.skipZero && e.cur + 1 < c.end
    requires k < |e.prev| && c.IsFixed(k)
    requires ch < |e.prev| && !c.IsFixed(ch) && c.Pin(ch, e.cur) != c.Pin(ch, c.end - 1)
    ensures !Invisible(c, e)
  {
    var x := c.Pin(ch, e.cur);
    var q := EdgeBehind(k, c.Pin(k, 0), ch, x);
    var c2 := OneMore(c, |e.prev|, k, ch, 1 - x);
    var a := e.(conds := q);
    assert q[0] != [];
    assert c.Pin(k, e.cur) == c.Pin(k, 0);
    assert FirstFailing(c, a.cur, a.prev, q[0]) == 0;
    assert Jumps(c, e, q) && NotOnNoEdge(c, a);
    JumpAndStepEnds(c, a);
    hide Scan, Find, Invisible, EdgeBehind, OneMore;
    assert Steady(a) && CountersBounded(q);
    ScanBounds(c, a, true);
    var jumped, stepped := Scan(c, a, true).1, Scan(c, a, false).1;
    EdgeTells(c, c2, jumped, k, ch, x);
    EdgeTells(c, c2, stepped, k, ch, x);
    FindOnOneSample(c2, jumped);
    FindOnOneSample(c2, stepped);
    assert Onward(c, c2, e, q, true) != Onward(c, c2, e, q, false);
  }

  const HIGH_AND_RISE: Conditions := [[Term(TermKind.High, 0, 0, 0), Term(Rising, 1, 0, 0)]]

  /** Channels 0 and 1 are high in samples 8 .. 15, channel 0 being constant. */
  predicate BothHigh(c2: Chunk) {
    && c2.start == 8 && c2.end == 16 && c2.IsFixed(0)
    && forall s: nat :: 8 <= s < 16 ==> c2.Pin(0, s) == 1 && c2.Pin(1, s) == 1
  }

  /** What the list waits for there. */
  lemma RiseAt(c2: Chunk, p: Engine, s: nat)
    requires BothHigh(c2) && p.conds == HIGH_AND_RISE && |p.prev| == 2 && p.cur == 8 <= s < 16
    ensures SomeGroupTrue(c2, p, s) <==> s == 8 && p.prev[1] == 0
  {
    var ts := p.conds[0];
    assert TermTrue(c2, 8, p.prev, ts, 0, s);
    assert TermTrue(c2, 8, p.prev, ts, 1, s) <==> s == 8 && p.prev[1] == 0;
    assert PrefixTrue(c2, 8, p.prev, ts, 2, s) <==> s == 8 && p.prev[1] == 0;
    assert GroupTrue(c2, p, 0, s) <==> s == 8 && p.prev[1] == 0;
    if SomeGroupTrue(c2, p, s) {
      var j :| 0 <= j < |p.conds| && GroupTrue(c2, p, j, s);
      assert j == 0;
    }
  }

  lemma FindsRise(c2: Chunk, p: Engine)
    requires BothHigh(c2) && p.conds == HIGH_AND_RISE && |p.prev| == 2
    requires p.cur == 8 && p.word == 0 && !p.first && !p.matched && !p.skipZero
    ensures Find(c2, p, true).0 <==> p.prev[1] == 0
    ensures p.prev[1] == 0 ==> Find(c2, p, true).1.cur == 8
  {
    assert p.conds[0] != [] && Prepare(c2, p) == p;
    hide Scan, Prepare;
    NoEdgeOnBuffers(c2, p);
    EarliestExactMatch(c2, p);
    forall s: nat | 8 <= s < 16 ensures SomeGroupTrue(c2, p, s) <==> s == 8 && p.prev[1] == 0 {
      RiseAt(c2, p, s);
    }
  }

  /** Channel 0 is constantly low in samples 0 .. 7, channel 1 is low at first and high in the end. */
  predicate LateRise(c: Chunk) {
    && c.start == 0 && c.end == 8 && c.IsFixed(0) && c.Pin(0, 0) == 0
    && c.Pin(1, 0) == 0 && c.Pin(1, 7) == 1
  }

  lemma FalseEdgeBetween(c: Chunk, c2: Chunk, e: Engine)
    requires LateRise(c) && BothHigh(c2)
    requires e == Engine(0, HIGH_AND_RISE, [0, 0], false, false, 0, false)
    ensures Onward(c, c2, e, e.conds, true).Found? && Onward(c, c2, e, e.conds, true).at == 8
    ensures Onward(c, c2, e, e.conds, false).Pending?
  {
    assert FirstFailing(c, 0, e.prev, e.conds[0]) == 0;
    assert JumpTaken(c, e) && NotOnNoEdge(c, e);
    hide Scan, Find;
    JumpAndStepEnds(c, e);
    JumpUnfolds(c, e);
    ScanBounds(c, e, true);
    FindsRise(c2, Scan(c, e, true).1);
    FindsRise(c2, Scan(c, e, false).1);
    assert e.(conds := e.conds) == e;
  }

  lemma TheirPins(c: Chunk, c2: Chunk)
    requires c == Chunk(0, 8, [Fixed(false), Packed([0x80])]) && c2 == Chunk(8, 16, [Fixed(true), Packed([0xFF])])
    ensures LateRise(c) && BothHigh(c2)
  {
    assert !TestBit(0x80, 0) && TestBit(0x80, 7);
    forall s: nat | 8 <= s < 16 ensures c2.Pin(1, s) == 1 {
      AllOnes((s - 8) % 8);
    }
  }

  /** A rising edge that never happened. Channel 0 is constantly low in the first chunk, so HIGH 0 fails
      and the chunk is jumped over; channel 1 rises in it unseen. When channel 0 is high in the second
      chunk, channel 1 is compared with its pin at sample 0. */
  lemma FalseEdge(c: Chunk, c2: Chunk)
    requires c == Chunk(0, 8, [Fixed(false), Packed([0x80])]) && c2 == Chunk(8, 16, [Fixed(true), Packed([0xFF])])
    ensures var e := Engine(0, HIGH_AND_RISE, [0, 0], false, false, 0, false);
            && c.Pin(1, 7) == 1 && c2.Pin(1, 8) == 1
            && Onward(c, c2, e, e.conds, true).Found? && Onward(c, c2, e, e.conds, true).at == 8
            && Onward(c, c2, e, e.conds, false).Pending?
  {
    hide Onward;
    TheirPins(c, c2);
    FalseEdgeBetween(c, c2, Engine(0, HIGH_AND_RISE, [0, 0], false, false, 0, false));
  }
}
