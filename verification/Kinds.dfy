/** What waiting for a single term finds, kind by kind, in levels alone. */
module Kinds {
  import opened Samples
  import opened Matcher
  import opened Declarative
  import opened ConstBlocks
  import opened EarliestMatches

  /** The first sample find_match looks at. */
  function First(e: Engine): nat {
    if e.matched then e.cur + 1 else e.cur
  }

  /** The level the channel had before sample m: in the first sample looked at it is the remembered pin,
      or the declared initial one, and 2 declares "as in the first sample". */
  function LevelBefore(c: Chunk, e: Engine, ch: nat, m: nat): nat
    requires ch < |e.prev|
  {
    if m > First(e) then c.Pin(ch, m - 1)
    else if e.first && e.prev[ch] == 2 then c.Pin(ch, e.cur)
    else e.prev[ch]
  }

  /** The term's channel is at sample m what the term waits for. */
  predicate WaitedFor(c: Chunk, e: Engine, t: Term, m: nat)
    requires 0 <= t.channel < |e.prev|
  {
    var was, level := LevelBefore(c, e, t.channel, m), c.Pin(t.channel, m);
    && (t.kind == High ==> level == 1)
    && (t.kind == Low ==> level == 0)
    && (t.kind == Rising ==> was == 0 && level == 1)
    && (t.kind == Falling ==> was == 1 && level == 0)
    && (t.kind == Either ==> was != level)
    && (t.kind == NoEdge ==> was == level)
    && t.kind != Skip && t.kind != Unknown
  }

  /** A list of this one term, and pins that have levels. */
  predicate OneTerm(c: Chunk, e: Engine, t: Term) {
    && e.conds == [[t]] && t.kind != Skip
    && 0 <= t.channel < |e.prev| && !e.skipZero
    && (if e.first then e.prev[t.channel] <= 2 else e.prev[t.channel] <= 1)
  }

  lemma OneTermMeans(c: Chunk, e: Engine, t: Term, m: nat)
    requires OneTerm(c, e, t) && First(e) <= m
    ensures SomeGroupTrue(c, Prepare(c, e), m) <==> WaitedFor(c, e, t, m)
  {
    var p := Prepare(c, e);
    OneTermPrepared(c, e, t);
    assert Before(c, p.cur, p.prev, t.channel, m) == LevelBefore(c, e, t.channel, m);
    assert TermTrue(c, p.cur, p.prev, p.conds[0], 0, m) <==> WaitedFor(c, e, t, m);
    assert GroupTrue(c, p, 0, m) <==> WaitedFor(c, e, t, m);
    if SomeGroupTrue(c, p, m) {
      var j :| 0 <= j < |p.conds| && GroupTrue(c, p, j, m);
      assert j == 0;
    }
  }

  lemma OneTermPrepared(c: Chunk, e: Engine, t: Term)
    requires OneTerm(c, e, t)
    ensures var p := Prepare(c, e);
            && p.conds == [[t]] && p.cur == First(e) && |p.prev| == |e.prev| && p.word == 0
            && p.prev[t.channel] == LevelBefore(c, e, t.channel, First(e))
            && HasGroup(e.conds) && CountersBounded(e.conds) && Steady(e)
  {
    var p := Prepare(c, e);
    assert e.conds[0] != [];
    if e.matched {
      assert p.conds[0] == ResetGroup(e.conds[0]) && p.conds[0][0] == t;
      assert p.conds[0] == [t];
    }
    assert p.conds == [[t]];
  }

  /** The least sample of the chunk that is waited for, or none. */
  ghost predicate LeastFound(c: Chunk, e: Engine, t: Term, r: (bool, Engine))
    requires 0 <= t.channel < |e.prev|
  {
    && (r.0 <==> exists m :: First(e) <= m < c.end && WaitedFor(c, e, t, m))
    && (r.0 ==> First(e) <= r.1.cur < c.end && WaitedFor(c, e, t, r.1.cur) && r.1.word == 1)
    && (r.0 ==> forall m :: First(e) <= m < r.1.cur ==> !WaitedFor(c, e, t, m))
  }

  /** find_match on one term, of any kind but SKIP: it reports the least sample at which the channel is
      what the term waits for, and reports one whenever there is one. (NO_EDGE: on a channel that has a
      buffer.) */
  lemma OneTermFound(c: Chunk, e: Engine, t: Term)
    requires OneTerm(c, e, t) && (t.kind == NoEdge ==> !c.IsFixed(t.channel))
    ensures LeastFound(c, e, t, FindMatch(c, e))
  {
    hide Scan, Prepare, SomeGroupTrue, WaitedFor;
    OneTermPrepared(c, e, t);
    NoEdgeOnBuffers(c, e);
    EarliestExactMatch(c, e);
    forall m: nat | First(e) <= m ensures SomeGroupTrue(c, Prepare(c, e), m) <==> WaitedFor(c, e, t, m) {
      OneTermMeans(c, e, t, m);
    }
    if FindMatch(c, e).0 {
      WordOfOneGroup(c, Prepare(c, e), FindMatch(c, e).1.cur, FindMatch(c, e).1.word);
    }
  }

  /** The same for stepping, on any channel. */
  lemma OneTermStepped(c: Chunk, e: Engine, t: Term)
    requires OneTerm(c, e, t)
    ensures LeastFound(c, e, t, Scan(c, Prepare(c, e), false))
  {
    var p := Prepare(c, e);
    hide Scan, Prepare, SomeGroupTrue, WaitedFor;
    OneTermPrepared(c, e, t);
    PrepareKeeps(c, e);
    AdvancedStart(c, p);
    StepwiseExact(c, p, p.cur);
    forall m: nat | First(e) <= m ensures SomeGroupTrue(c, p, m) <==> WaitedFor(c, e, t, m) {
      OneTermMeans(c, e, t, m);
    }
    if Scan(c, p, false).0 {
      WordOfOneGroup(c, p, Scan(c, p, false).1.cur, Scan(c, p, false).1.word);
    }
  }

  /** The declared initial pin and the first sample of a capture: a pin declared low makes a first high
      level a rising edge, one declared high makes a first low level a falling one, and one declared "as
      in the first sample" shows no edge there. */
  lemma InitialPinTold(c: Chunk, e: Engine, t: Term)
    requires OneTerm(c, e, t) && e.first && !e.matched && e.cur < c.end && !c.IsFixed(t.channel)
    requires t.kind in {Rising, Falling, Either}
    ensures var r := FindMatch(c, e);
            var level := c.Pin(t.channel, e.cur);
            (r.0 && r.1.cur == e.cur) <==>
              && (t.kind == Rising ==> e.prev[t.channel] == 0 && level == 1)
              && (t.kind == Falling ==> e.prev[t.channel] == 1 && level == 0)
              && (t.kind == Either ==> e.prev[t.channel] + level == 1)
  {
    OneTermFound(c, e, t);
    if WaitedFor(c, e, t, e.cur) {
      assert FindMatch(c, e).0;
    }
  }
}
