/** Arithmetic of SKIP terms: where the next match lies. */
module Skips {
  import opened Bits
  import opened Samples
  import opened Matcher
  import opened Declarative
  import opened ConstBlocks
  import opened EarliestMatches
  import opened Chunking
  import opened ChunkInvariance

  function SkipTerm(n: nat, counted: nat): Term {
    Term(Skip, 0, n, counted)
  }

  /** set_skip_condition */
  function SetSkip(e: Engine, n: nat): Engine {
    e.(conds := [[SkipTerm(n, if e.matched && n != 0 then 1 else 0)]])
  }

  /** A leading SKIP term counts every sample. */
  lemma {:induction false} LeadingCount(c: Chunk, a: nat, prev: seq<nat>, ts: seq<Term>, s: nat)
    requires ts != [] && a <= s
    ensures Reached(c, a, prev, ts, 0, s) == s - a
    decreases s
  {
    if s <= a {
    } else {
      LeadingCount(c, a, prev, ts, s - 1);
      assert PrefixTrue(c, a, prev, ts, 0, s - 1);
    }
  }

  /** Scanning for a lone SKIP term that has counted k samples. */
  lemma CountdownScan(c: Chunk, e: Engine, n: nat, k: nat, jump: bool)
    requires k <= n && e.conds == [[SkipTerm(n, k)]] && !e.matched && !e.skipZero && !e.first && e.cur < c.end
    ensures var r, m := Find(c, e, jump), e.cur + (n - k);
            && r.0 == (m < c.end)
            && r.1.cur == (if r.0 then m else c.end)
            && (r.0 ==> r.1.word == 1)
            && (!r.0 ==> r.1.conds == [[SkipTerm(n, k + (c.end - e.cur))]])
            && (!r.0 ==> !r.1.matched && !r.1.skipZero && !r.1.first)
  {
    var m: nat := e.cur + (n - k);
    var p := Prepare(c, e);
    assert p == e.(word := 0);
    var ts := [SkipTerm(n, k)];
    AdvancedStart(c, p);
    StepwiseExact(c, p, p.cur);
    assert FirstFailing(c, p.cur, p.prev, ts) == (if k == n then 1 else 0);
    assert p.conds[0] != [] && !FailsOnConstant(c, p.cur, p.prev, p.conds[0]);
    NoJumpNoDifference(c, p);
    CountdownMeaning(c, p, n, k);
    var r := Find(c, e, jump);
    if r.0 {
      assert SomeGroupTrue(c, p, m);
      WordOfOneGroup(c, p, r.1.cur, r.1.word);
    } else {
      LeadingCount(c, p.cur, p.prev, ts, c.end);
      assert CountedConds(c, p, c.end)[0] == Counted(c, p.cur, p.prev, ts, c.end);
      assert m < c.end ==> SomeGroupTrue(c, p, m);
      assert Counted(c, p.cur, p.prev, ts, c.end)[0] == SkipTerm(n, k + (c.end - e.cur));
      assert Counted(c, p.cur, p.prev, ts, c.end) == [SkipTerm(n, k + (c.end - e.cur))];
      assert r.1.conds == [[SkipTerm(n, k + (c.end - e.cur))]];
    }
  }

  lemma CountdownAt(c: Chunk, p: Engine, n: nat, k: nat, t: nat)
    requires k <= n && p.conds == [[SkipTerm(n, k)]] && p.cur <= t
    ensures GroupTrue(c, p, 0, t) <==> t >= p.cur + (n - k)
    ensures SomeGroupTrue(c, p, t) <==> GroupTrue(c, p, 0, t)
  {
    var ts := p.conds[0];
    LeadingCount(c, p.cur, p.prev, ts, t);
    assert TermTrue(c, p.cur, p.prev, ts, 0, t) <==> t >= p.cur + (n - k);
    if SomeGroupTrue(c, p, t) {
      var i :| 0 <= i < |p.conds| && GroupTrue(c, p, i, t);
      assert i == 0;
    }
  }

  lemma CountdownMeaning(c: Chunk, p: Engine, n: nat, k: nat)
    requires k <= n && p.conds == [[SkipTerm(n, k)]]
    ensures forall t: nat :: p.cur <= t ==> (SomeGroupTrue(c, p, t) <==> t >= p.cur + (n - k))
  {
    forall t: nat | p.cur <= t ensures SomeGroupTrue(c, p, t) <==> t >= p.cur + (n - k) {
      CountdownAt(c, p, n, k, t);
    }
  }

  /** One wait(), answered from a list of chunks. */
  function WaitAll(chunks: seq<Chunk>, e: Engine): (bool, Engine) {
    if chunks == [] then (false, e)
    else
      var r := Find(chunks[0], e, true);
      if r.0 then r else WaitAll(chunks[1..], r.1)
  }

  lemma {:induction false} CountdownAcross(chunks: seq<Chunk>, to: nat, e: Engine, n: nat, k: nat)
    requires k <= n && e.conds == [[SkipTerm(n, k)]] && !e.matched && !e.skipZero && !e.first
    requires Tiles(chunks, e.cur, to)
    ensures var r, m := WaitAll(chunks, e), e.cur + (n - k);
            r.0 == (m < to) && (r.0 ==> r.1.cur == m && r.1.word == 1)
    decreases |chunks|
  {
    TilesFacts(chunks, e.cur, to);
    if chunks == [] {
    } else {
      CountdownScan(chunks[0], e, n, k, true);
      var r := Find(chunks[0], e, true);
      TilesFacts(chunks[1..], chunks[0].end, to);
      if !r.0 {
        CountdownAcross(chunks[1..], to, r.1, n, k + (chunks[0].end - e.cur));
      }
    }
  }

  /** After a match at sample s that is not the last of its chunk, a lone SKIP n with n >= 1 next
      matches at exactly s + n, however the samples up to there are cut into chunks. */
  lemma LoneSkip(c: Chunk, rest: seq<Chunk>, to: nat, e: Engine, n: nat)
    requires e.matched && !e.first && !e.skipZero && n >= 1
    requires e.cur + 1 < c.end && Tiles(rest, c.end, to)
    ensures var r := WaitAll([c] + rest, SetSkip(e, n));
            r.0 == (e.cur + n < to) && (r.0 ==> r.1.cur == e.cur + n && r.1.word == 1)
  {
    var a := SetSkip(e, n);
    var p := Prepare(c, a).(matched := false);
    assert p.conds[0] == ResetGroup(a.conds[0]) && p.conds[0][0] == SkipTerm(n, 1);
    assert p.conds[0] == [SkipTerm(n, 1)];
    assert p.conds == [[SkipTerm(n, 1)]];
    MatchedFlagIdle(c, a);
    assert ([c] + rest)[1..] == rest;
    TilesFacts(rest, c.end, to);
    CountdownScan(c, p, n, 1, true);
    var r := Find(c, p, true);
    if !r.0 {
      CountdownAcross(rest, to, r.1, n, 1 + (c.end - p.cur));
    }
  }

  /** Past the bump of the cursor, abs_cur_matched matters to SKIP 0 alone. */
  lemma MatchedFlagIdle(c: Chunk, a: Engine)
    requires a.matched && !a.skipZero && NoZeroSkip(a.conds) && a.cur + 1 < c.end
    requires CountersBounded(a.conds)
    ensures Find(c, a, true) == Find(c, Prepare(c, a).(matched := false), true)
  {
    var p := Prepare(c, a);
    var q := p.(matched := false);
    assert Prepare(c, q) == q;
    StepIgnoresMatched(c, p, q);
  }

  lemma StepIgnoresMatched(c: Chunk, p: Engine, q: Engine)
    requires q == p.(matched := false) && NoZeroSkip(p.conds) && !p.skipZero
    ensures Step(c, p, true) == Step(c, q, true)
  {
    GroupsIgnoreMatched(c, p, q, 0, true);
  }

  lemma GroupKeepsNoZeroSkip(c: Chunk, p: Engine, j: nat, allow: bool)
    requires NoZeroSkip(p.conds) && j < |p.conds|
    ensures NoZeroSkip(EvalGroup(c, p, j, allow).0.conds)
  {
    EvalTermsFailing(c, p.cur, p.prev, p.matched, p.skipZero, p.conds[j]);
    var x := EvalGroup(c, p, j, allow).0;
    forall k, i | 0 <= k < |x.conds| && 0 <= i < |x.conds[k]| ensures !ZeroSkip(x.conds[k][i]) {
      assert !ZeroSkip(p.conds[k][i]);
    }
  }

  lemma {:induction false} GroupsIgnoreMatched(c: Chunk, p: Engine, q: Engine, j: nat, allow: bool)
    requires q == p.(matched := false) && NoZeroSkip(p.conds) && j <= |p.conds|
    ensures var x, y := EvalGroups(c, p, j, allow), EvalGroups(c, q, j, allow);
            y.0 == x.0.(matched := false) && x.1 == y.1
    decreases |p.conds| - j
  {
    hide EvalTerms;
    if j == |p.conds| {
    } else {
      TermsIgnoreMatched(c, p.cur, p.prev, p.skipZero, p.conds[j]);
      GroupKeepsNoZeroSkip(c, p, j, allow);
      var x, y := EvalGroup(c, p, j, allow), EvalGroup(c, q, j, allow);
      GroupsIgnoreMatched(c, x.0, y.0, j + 1, x.1);
    }
  }

  lemma {:induction false} TermsIgnoreMatched(c: Chunk, s: nat, prev: seq<nat>, z: bool, ts: seq<Term>)
    requires forall i :: 0 <= i < |ts| ==> !ZeroSkip(ts[i])
    ensures EvalTerms(c, s, prev, true, z, ts) == EvalTerms(c, s, prev, false, z, ts)
    decreases ts
  {
    if ts == [] {
    } else {
      TermsIgnoreMatched(c, s, prev, z, ts[1..]);
    }
  }

  /** Term t holds at sample m, given the pins one sample earlier. */
  predicate HoldsAt(c: Chunk, n: nat, t: Term, m: nat) {
    m >= 1 && Shows(t.kind, if 0 <= t.channel < n then c.Pin(t.channel, m - 1) else 2, c.Pin(t.channel, m))
  }

  /** The list that waits for SKIP n, of which k samples have been counted, and then a term. */
  function SkipAnd(n: nat, k: nat, t: Term): Conditions {
    [[SkipTerm(n, k), t]]
  }

  /** The engine is under way with such a list, and remembers the pin the term looks at. */
  predicate UnderWay(w: Chunk, e: Engine, n: nat, k: nat, t: Term) {
    && k <= n && t.kind != Skip && 0 <= t.channel < |e.prev|
    && e.conds == SkipAnd(n, k, t) && !e.matched && !e.skipZero && !e.first
    && e.cur >= 1 && e.prev[t.channel] == w.Pin(t.channel, e.cur - 1)
  }

  /** No NO_EDGE term on a constant channel. */
  predicate Judges(c: Chunk, t: Term) {
    t.kind == NoEdge ==> !c.IsFixed(t.channel)
  }

  /** The outcome of waiting from sample `due` on and up to `to`: the first sample where the term holds. */
  ghost predicate FirstHold(w: Chunk, n: nat, t: Term, due: nat, to: nat, r: (bool, Engine)) {
    && (r.0 <==> exists m :: due <= m < to && HoldsAt(w, n, t, m))
    && (r.0 ==> due <= r.1.cur < to && HoldsAt(w, n, t, r.1.cur)
                && forall m :: due <= m < r.1.cur ==> !HoldsAt(w, n, t, m))
  }

  lemma UnderWayMeaning(c: Chunk, w: Chunk, p: Engine, n: nat, k: nat, t: Term, m: nat)
    requires UnderWay(w, p, n, k, t) && p.cur <= m < c.end && SameLevels(c, w, p.cur, c.end)
    ensures SomeGroupTrue(c, p, m) <==> m >= p.cur + (n - k) && HoldsAt(w, |p.prev|, t, m)
  {
    var ts := p.conds[0];
    LeadingCount(c, p.cur, p.prev, ts, m);
    assert TermTrue(c, p.cur, p.prev, ts, 0, m) <==> m >= p.cur + (n - k);
    assert c.Pin(t.channel, m) == w.Pin(t.channel, m);
    assert m > p.cur ==> c.Pin(t.channel, m - 1) == w.Pin(t.channel, m - 1);
    assert TermTrue(c, p.cur, p.prev, ts, 1, m) <==> HoldsAt(w, |p.prev|, t, m);
    assert GroupTrue(c, p, 0, m) <==> m >= p.cur + (n - k) && HoldsAt(w, |p.prev|, t, m);
    if SomeGroupTrue(c, p, m) {
      var i :| 0 <= i < |p.conds| && GroupTrue(c, p, i, m);
      assert i == 0;
    }
  }

  /** The counter after the chunk. */
  lemma UnderWayCounts(c: Chunk, p: Engine, n: nat, k: nat, t: Term)
    requires p.conds == SkipAnd(n, k, t) && k <= n && t.kind != Skip && p.cur <= c.end
    ensures CountedConds(c, p, c.end) == SkipAnd(n, Min(n, k + (c.end - p.cur)), t)
  {
    var ts := p.conds[0];
    LeadingCount(c, p.cur, p.prev, ts, c.end);
    var r: Conditions := CountedConds(c, p, c.end);
    assert r[0] == Counted(c, p.cur, p.prev, ts, c.end);
    assert r[0][0] == SkipTerm(n, Min(n, k + (c.end - p.cur))) && r[0][1] == t;
    assert r[0] == [SkipTerm(n, Min(n, k + (c.end - p.cur))), t];
    assert r == SkipAnd(n, Min(n, k + (c.end - p.cur)), t);
  }

  /** When nothing is found the pin the term looks at is remembered right, jump or not: the jump is only
      taken when its channel is constant. */
  lemma UnderWayPin(c: Chunk, p: Engine, n: nat, k: nat, t: Term)
    requires p.word == 0 && p.cur < c.end && p.conds == SkipAnd(n, k, t) && k <= n && t.kind != Skip
    requires CountersBounded(p.conds) && Steady(p) && Judges(c, t) && 0 <= t.channel < |p.prev|
    ensures var r := Scan(c, p, true); !r.0 ==> r.1.prev[t.channel] == c.Pin(t.channel, c.end - 1)
  {
    hide Scan, SomeGroupTrue, NoneBefore, CountedConds;
    AdvancedStart(c, p);
    StepwiseExact(c, p, p.cur) by { assert NoneBefore(c, p, p.cur) by { NoneYet(c, p); } }
    if c.IsFixed(t.channel) {
      ScanRefinesStepping(c, p);
    } else {
      assert p.conds[0] != [] && !FailsOnConstant(c, p.cur, p.prev, p.conds[0]);
      NoJumpNoDifference(c, p);
    }
  }

  lemma NoneYet(c: Chunk, p: Engine)
    ensures NoneBefore(c, p, p.cur)
  {
  }

  lemma UnderWayStarts(c: Chunk, w: Chunk, e: Engine, n: nat, k: nat, t: Term)
    requires UnderWay(w, e, n, k, t) && Judges(c, t)
    ensures var p := Prepare(c, e);
            && p == e.(word := 0) && UnderWay(w, p, n, k, t)
            && HasGroup(e.conds) && CountersBounded(e.conds) && Steady(e) && NotOnNoEdge(c, p)
  {
    assert e.conds[0] != [];
    NoEdgeOnBuffers(c, e);
  }

  lemma UnderWayFinds(c: Chunk, w: Chunk, e: Engine, n: nat, k: nat, t: Term)
    requires UnderWay(w, e, n, k, t) && Judges(c, t) && e.cur < c.end && SameLevels(c, w, e.cur, c.end)
    ensures FirstHold(w, |e.prev|, t, e.cur + (n - k), c.end, Find(c, e, true))
  {
    hide SomeGroupTrue, HoldsAt, Scan, Prepare, UnderWay, SameLevels, CountersBounded, Steady, NotOnNoEdge;
    UnderWayStarts(c, w, e, n, k, t);
    EarliestExactMatch(c, e);
    var p := Prepare(c, e);
    forall m: nat | p.cur <= m < c.end
      ensures SomeGroupTrue(c, p, m) <==> m >= p.cur + (n - k) && HoldsAt(w, |p.prev|, t, m)
    {
      UnderWayMeaning(c, w, p, n, k, t, m);
    }
    assert k <= n by { UnderWayBound(w, e, n, k, t); }
  }

  lemma UnderWayBound(w: Chunk, e: Engine, n: nat, k: nat, t: Term)
    requires UnderWay(w, e, n, k, t)
    ensures k <= n && e.conds == SkipAnd(n, k, t) && t.kind != Skip && 0 <= t.channel < |e.prev|
  {
  }

  lemma UnderWayGoesOn(c: Chunk, w: Chunk, e: Engine, n: nat, k: nat, t: Term)
    requires UnderWay(w, e, n, k, t) && Judges(c, t) && e.cur < c.end && SameLevels(c, w, e.cur, c.end)
    ensures var r := Find(c, e, true);
            && |r.1.prev| == |e.prev|
            && (!r.0 ==> r.1.cur == c.end && UnderWay(w, r.1, n, Min(n, k + (c.end - e.cur)), t))
  {
    hide SomeGroupTrue, Scan, Prepare, CountersBounded, NotOnNoEdge, NoneBefore, CountedConds, Judges;
    UnderWayStarts(c, w, e, n, k, t);
    EarliestExactMatch(c, e);
    var p := Prepare(c, e);
    ScanBounds(c, p, true);
    UnderWayCounts(c, p, n, k, t);
    UnderWayPin(c, p, n, k, t);
    assert c.Pin(t.channel, c.end - 1) == w.Pin(t.channel, c.end - 1);
  }

  /** One chunk of such a wait. */
  lemma UnderWayScan(c: Chunk, w: Chunk, e: Engine, n: nat, k: nat, t: Term)
    requires UnderWay(w, e, n, k, t) && Judges(c, t) && e.cur < c.end && SameLevels(c, w, e.cur, c.end)
    ensures var r := Find(c, e, true);
            && FirstHold(w, |e.prev|, t, e.cur + (n - k), c.end, r)
            && |r.1.prev| == |e.prev|
            && (!r.0 ==> r.1.cur == c.end && UnderWay(w, r.1, n, Min(n, k + (c.end - e.cur)), t))
  {
    hide Find, FirstHold, UnderWay, SameLevels, Judges;
    UnderWayFinds(c, w, e, n, k, t);
    UnderWayGoesOn(c, w, e, n, k, t);
  }

  /** The chunks are pieces of the capture w on which the term can be judged. */
  ghost predicate PiecesOf(chunks: seq<Chunk>, w: Chunk, t: Term) {
    forall i :: 0 <= i < |chunks| ==> SameLevels(chunks[i], w, chunks[i].start, chunks[i].end) && Judges(chunks[i], t)
  }

  lemma {:induction false} UnderWayAcross(chunks: seq<Chunk>, to: nat, w: Chunk, e: Engine, n: nat, k: nat, t: Term)
    requires UnderWay(w, e, n, k, t) && Tiles(chunks, e.cur, to) && PiecesOf(chunks, w, t)
    ensures FirstHold(w, |e.prev|, t, e.cur + (n - k), to, WaitAll(chunks, e))
    decreases |chunks|
  {
    hide Find, HoldsAt;
    if chunks == [] {
    } else {
      var c, rest := chunks[0], chunks[1..];
      UnderWayScan(c, w, e, n, k, t);
      TilesFacts(rest, c.end, to);
      var r := Find(c, e, true);
      if !r.0 {
        assert forall i :: 0 <= i < |rest| ==> rest[i] == chunks[i + 1];
        UnderWayAcross(rest, to, w, r.1, n, Min(n, k + (c.end - e.cur)), t);
      }
    }
  }

  /** The same when the first chunk has been begun. */
  lemma UnderWayFrom(c: Chunk, rest: seq<Chunk>, to: nat, w: Chunk, e: Engine, n: nat, k: nat, t: Term)
    requires UnderWay(w, e, n, k, t) && e.cur < c.end && SameLevels(c, w, e.cur, c.end) && Judges(c, t)
    requires Tiles(rest, c.end, to) && PiecesOf(rest, w, t)
    ensures var r := Find(c, e, true);
            FirstHold(w, |e.prev|, t, e.cur + (n - k), to, if r.0 then r else WaitAll(rest, r.1))
  {
    hide Find, HoldsAt, WaitAll;
    UnderWayScan(c, w, e, n, k, t);
    TilesFacts(rest, c.end, to);
    var r := Find(c, e, true);
    if !r.0 {
      UnderWayAcross(rest, to, w, r.1, n, Min(n, k + (c.end - e.cur)), t);
    }
  }

  /** SKIP n followed by a term: after a match at sample s that is not the last of its
      chunk, the first sample at or after s + n where the term holds in the uncut capture, however the
      samples are cut into chunks. */
  lemma SkipThenTerm(c: Chunk, rest: seq<Chunk>, to: nat, w: Chunk, e: Engine, n: nat, t: Term)
    requires e.matched && !e.first && !e.skipZero && n >= 1
    requires t.kind != Skip && 0 <= t.channel < |e.prev| && e.prev[t.channel] == w.Pin(t.channel, e.cur)
    requires e.cur + 1 < c.end && Tiles(rest, c.end, to)
    requires SameLevels(c, w, e.cur, c.end) && Judges(c, t) && PiecesOf(rest, w, t)
    ensures FirstHold(w, |e.prev|, t, e.cur + n, to, WaitAll([c] + rest, e.(conds := SkipAnd(n, 1, t))))
  {
    hide Find, Prepare, FirstHold, WaitAll, Tiles, PiecesOf, Judges;
    var a := e.(conds := SkipAnd(n, 1, t));
    AfterMatch(c, a, n, t);
    WaitFirst(c, rest, a);
    UnderWayFrom(c, rest, to, w, a.(cur := e.cur + 1, word := 0, matched := false), n, 1, t);
  }

  /** The first chunk answers, or the others do. */
  lemma WaitFirst(c: Chunk, rest: seq<Chunk>, e: Engine)
    ensures var r := Find(c, e, true); WaitAll([c] + rest, e) == if r.0 then r else WaitAll(rest, r.1)
  {
    assert ([c] + rest)[1..] == rest;
  }

  lemma AfterMatch(c: Chunk, a: Engine, n: nat, t: Term)
    requires a.matched && !a.first && !a.skipZero && n >= 1 && t.kind != Skip && a.cur + 1 < c.end
    requires a.conds == SkipAnd(n, 1, t)
    ensures Prepare(c, a) == a.(cur := a.cur + 1, word := 0)
    ensures Find(c, a, true) == Find(c, a.(cur := a.cur + 1, word := 0, matched := false), true)
  {
    var p := Prepare(c, a);
    assert p.conds[0] == ResetGroup(a.conds[0]) && p.conds[0][0] == SkipTerm(n, 1) && p.conds[0][1] == t;
    assert p.conds[0] == [SkipTerm(n, 1), t];
    assert p.conds == [[SkipTerm(n, 1), t]];
    MatchedFlagIdle(c, a);
  }

  /** A lone SKIP 0 after a match returns the same sample again, with the same pins and word 1,
      exactly when the chunk has one more sample; otherwise it waits for the next chunk. */
  lemma LoneSkipZero(c: Chunk, e: Engine)
    requires e.matched && !e.first && !e.skipZero && e.cur < c.end
    requires e.prev == c.Pins(|e.prev|, e.cur)
    ensures var r := FindMatch(c, SetSkip(e, 0));
            if e.cur + 1 < c.end then r == (true, SetSkip(e, 0).(word := 1))
            else !r.0 && r.1.cur == c.end && r.1.matched
  {
    var a := SetSkip(e, 0);
    var t := SkipTerm(0, 0);
    assert a.conds == [[t]] && a.conds[0] != [];
    var p := Prepare(c, a);
    assert p.conds[0] == ResetGroup(a.conds[0]) && p.conds[0][0] == t;
    assert p.conds[0] == [t];
    assert p == a.(cur := e.cur + 1, word := 0);
    if e.cur + 1 < c.end {
      ZeroSkipGroup(c, p, 0, true);
      assert p.conds[0 := [t]] == p.conds;
      var (q, allow) := EvalGroup(c, p, 0, true);
      assert EvalGroups(c, p, 0, true) == EvalGroups(c, q, 1, allow) == (q, allow);
      assert SetBit(0, 0) == 1;
    }
  }

  /** A SKIP 0 condition holds at once; after a match it also moves the cursor back by one. */
  lemma ZeroSkipGroup(c: Chunk, p: Engine, j: nat, allow: bool)
    requires j < |p.conds| && p.conds[j] == [SkipTerm(0, 0)] && p.matched && !p.skipZero
    ensures EvalGroup(c, p, j, allow)
              == (p.(conds := p.conds[j := [SkipTerm(0, 0)]], cur := Dec(p.cur), word := SetBit(p.word, j)), false)
  {
    var t := SkipTerm(0, 0);
    var ts := p.conds[j];
    assert ts[1..] == [];
    assert EvalTerms(c, p.cur, p.prev, true, true, []) == TermsEval(true, [], false, true);
    assert EvalTerms(c, p.cur, p.prev, true, false, ts) == TermsEval(true, [t] + [], false, true);
    assert [t] + [] == [t];
  }

  /** n conditions SKIP 0. */
  function ZeroSkips(n: nat): (q: Conditions)
    ensures |q| == n && forall j :: 0 <= j < n ==> q[j] == [SkipTerm(0, 0)]
  {
    seq(n, _ => [SkipTerm(0, 0)])
  }

  /** The cursor s moved back n times. */
  function MovedBack(s: nat, n: nat): nat
    decreases n
  {
    if n == 0 then s else MovedBack(Dec(s), n - 1)
  }

  lemma {:induction false} MovedBackBy(s: nat, n: nat)
    ensures n <= s ==> MovedBack(s, n) == s - n
    ensures s < n <= U64_MAX ==> MovedBack(s, n) == s + U64_MAX + 1 - n
    decreases n
  {
    if n == 0 {
    } else if s == 0 {
      MovedBackBy(U64_MAX, n - 1);
    } else {
      MovedBackBy(s - 1, n - 1);
    }
  }

  /** Every one of the conditions from j on holds and moves the cursor back. */
  lemma {:induction false} ZeroSkipGroups(c: Chunk, p: Engine, j: nat, n: nat, allow: bool)
    requires j <= n && p.conds == ZeroSkips(n) && p.matched && !p.skipZero
    ensures var r := EvalGroups(c, p, j, allow).0;
            r.cur == MovedBack(p.cur, n - j) && (j < n || p.word != 0 ==> r.word != 0)
    decreases n - j
  {
    if j == n {
    } else {
      ZeroSkipGroup(c, p, j, allow);
      assert p.conds[j := [SkipTerm(0, 0)]] == p.conds;
      BitOfSetBit(p.word, j, j);
      var (q, allow1) := EvalGroup(c, p, j, allow);
      ZeroSkipGroups(c, q, j + 1, n, allow1);
    }
  }

  /** After a match at sample s, n conditions SKIP 0 in one list move the cursor back n times: with
      another sample in the chunk the wait reports s + 1 - n (modulo 2^64), the same sample again exactly
      when there is one such condition. */
  lemma ZeroSkipsGoBack(c: Chunk, e: Engine, n: nat)
    requires e.matched && !e.first && !e.skipZero && e.cur + 1 < c.end
    requires 1 <= n <= U64_MAX && e.cur < U64_MAX
    ensures var r := FindMatch(c, e.(conds := ZeroSkips(n)));
            && r.0
            && r.1.cur == (if n <= e.cur + 1 then e.cur + 1 - n else e.cur + 2 + U64_MAX - n)
            && (r.1.cur == e.cur <==> n == 1)
  {
    var a := e.(conds := ZeroSkips(n));
    assert a.conds[0] != [];
    var p := Prepare(c, a);
    forall j | 0 <= j < n ensures p.conds[j] == [SkipTerm(0, 0)] {
      assert p.conds[j] == ResetGroup(a.conds[j]) && p.conds[j][0] == ResetTerm(SkipTerm(0, 0));
    }
    assert p.conds == ZeroSkips(n);
    ZeroSkipGroups(c, p, 0, n, true);
    MovedBackBy(e.cur + 1, n);
  }

  /** A SKIP 0 that comes before a failing term is not forgotten: it moves the cursor back when another
      condition holds at the same sample. After a match at sample s, with channel 0 low at s + 1, the list
      [SKIP 0, HIGH 0], [LOW 0] reports s. */
  lemma ZeroSkipLingers(c: Chunk, e: Engine)
    requires e.matched && !e.first && !e.skipZero && e.cur + 1 < c.end && c.Pin(0, e.cur + 1) == 0
    requires e.conds == [[SkipTerm(0, 0), Term(High, 0, 0, 0)], [Term(Low, 0, 0, 0)]]
    ensures var r := FindMatch(c, e); r.0 && r.1.cur == e.cur && r.1.word == 2
  {
    var z, h, l := SkipTerm(0, 0), Term(High, 0, 0, 0), Term(Low, 0, 0, 0);
    assert e.conds[0] != [];
    var p := Prepare(c, e);
    assert p.conds[0] == ResetGroup([z, h]) && p.conds[1] == ResetGroup([l]);
    assert p.conds[0] == [z, h] && p.conds[1] == [l];
    var s := e.cur + 1;
    assert EvalTerms(c, s, p.prev, true, true, [h]) == TermsEval(false, [h], c.IsFixed(0), true) by {
      assert [h][1..] == [];
    }
    assert [z, h][1..] == [h];
    assert EvalTerms(c, s, p.prev, true, false, [z, h]) == TermsEval(false, [z] + [h], c.IsFixed(0), true);
    var (q, allow) := EvalGroup(c, p, 0, true);
    assert [z] + [h] == [z, h] && q.conds == p.conds && q.skipZero && q.word == 0 && q.cur == s;
    assert [l][1..] == [];
    assert EvalTerms(c, s, q.prev, true, true, []) == TermsEval(true, [], false, true);
    assert EvalTerms(c, s, q.prev, true, true, [l]).ok && EvalTerms(c, s, q.prev, true, true, [l]).skipZero;
    var (q2, allow2) := EvalGroup(c, q, 1, allow);
    assert q2.cur == e.cur && q2.word == SetBit(0, 1) == 2;
    assert EvalGroups(c, p, 0, true) == EvalGroups(c, q, 1, allow) == EvalGroups(c, q2, 2, allow2) == (q2, allow2);
  }

  /** The number of samples a condition-less wait() skips. */
  function CondlessCount(e: Engine): nat {
    if !e.first && e.cur != 0 then 1 else if e.conds == [] then 0 else 1
  }

  /** It skips none exactly when there was no list before, and either no sample has been looked at or the
      cursor is still at zero. */
  lemma CondlessCountIff(e: Engine)
    ensures CondlessCount(e) == 0 <==> e.conds == [] && (e.first || e.cur == 0)
    ensures CondlessCount(e) <= 1
  {
  }

  function CondlessWait(c: Chunk, e: Engine): (bool, Engine) {
    FindMatch(c, SetSkip(e, CondlessCount(e)))
  }

  /** The state after k condition-less waits. */
  function AfterWaits(c: Chunk, e: Engine, k: nat): Engine {
    if k == 0 then e else CondlessWait(c, AfterWaits(c, e, k - 1)).1
  }

  lemma FirstSampleAtOnce(c: Chunk, e: Engine)
    requires e.first && !e.matched && !e.skipZero && e.cur < c.end
    ensures var r := FindMatch(c, SetSkip(e, 0));
            r.0 && r.1.cur == e.cur && r.1.word == 1 && r.1.matched && !r.1.first && !r.1.skipZero && r.1.conds != []
  {
    var a := SetSkip(e, 0);
    assert a.conds[0] != [];
    var p := Prepare(c, a);
    var p1 := p.(first := false);
    assert p == p1;
    CountdownScan(c, p, 0, 0, true);
    assert Prepare(c, p) == p;
    ScanBounds(c, p, true);
  }

  lemma NextSampleNext(c: Chunk, e: Engine)
    requires e.matched && !e.first && !e.skipZero && e.cur + 1 < c.end
    ensures var r := FindMatch(c, SetSkip(e, 1));
            r.0 && r.1.cur == e.cur + 1 && r.1.word == 1 && r.1.matched && !r.1.first && !r.1.skipZero
                && r.1.conds != []
  {
    var a := SetSkip(e, 1);
    assert a.conds[0] != [];
    LoneSkip(c, [], c.end, e, 1);
    assert WaitAll([c] + [], a).0;
    assert ([c] + [])[0] == c && ([c] + [])[1..] == [];
    FindBounds(c, a, true);
  }

  /** Calling wait() without conditions over and over visits every sample of the chunk in order. */
  lemma {:induction false} CondlessVisitsAll(c: Chunk, e: Engine, k: nat)
    requires e.first && !e.matched && !e.skipZero && e.conds == [] && e.cur == c.start
    requires c.start + k < c.end
    ensures var r := CondlessWait(c, AfterWaits(c, e, k));
            r.0 && r.1.cur == c.start + k && r.1.word == 1
    ensures AfterWaits(c, e, k + 1).matched && !AfterWaits(c, e, k + 1).first && !AfterWaits(c, e, k + 1).skipZero
    ensures AfterWaits(c, e, k + 1).conds != [] && AfterWaits(c, e, k + 1).cur == c.start + k
  {
    if k == 0 {
      FirstSampleAtOnce(c, e);
    } else {
      CondlessVisitsAll(c, e, k - 1);
      NextSampleNext(c, AfterWaits(c, e, k));
    }
  }
}
