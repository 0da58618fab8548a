/** Chunking invariance: when a chunked run reports what the run over one whole chunk reports. */
module ChunkInvariance {
  import opened Samples
  import opened Matcher
  import opened Declarative
  import opened ConstBlocks
  import opened EarliestMatches
  import opened Chunking

  /** Only HIGH, LOW and SKIP terms: nothing looks at the remembered pins. */
  predicate LevelOnly(conds: Conditions) {
    forall j, i :: 0 <= j < |conds| && 0 <= i < |conds[j]| ==> conds[j][i].kind in {High, Low, Skip}
  }

  /** Every channel the list tests has a bit buffer in the chunk. */
  predicate Buffered(c: Chunk, conds: Conditions) {
    forall j, i :: 0 <= j < |conds| && 0 <= i < |conds[j]| ==>
      conds[j][i].kind == Skip || !c.IsFixed(conds[j][i].channel)
  }

  /** The two situations in which a chunk may be cut off: every tested channel is buffered, or
      (levels) constant blocks are allowed but only levels are tested. */
  predicate Fits(c: Chunk, conds: Conditions, levels: bool) {
    if levels then LevelOnly(conds) else Buffered(c, conds)
  }

  ghost predicate DecoderFits(c: Chunk, d: Decoder, levels: bool) {
    forall h :: Fits(c, d(h), levels)
  }

  /** The same engine state; with constant blocks about, the remembered pins may differ. */
  predicate Like(a: Engine, b: Engine, levels: bool) {
    a == b.(prev := a.prev) && |a.prev| == |b.prev| && (levels || a.prev == b.prev)
  }

  /** The two chunks show the same levels from sample `from` to sample `to - 1`. */
  ghost predicate SameLevels(c: Chunk, w: Chunk, from: nat, to: nat) {
    forall ch: int, s: nat :: from <= s < to ==> c.Pin(ch, s) == w.Pin(ch, s)
  }

  lemma {:induction false} TermsAlike(c: Chunk, w: Chunk, s: nat, p: seq<nat>, q: seq<nat>, matched: bool, z: bool,
      ts: seq<Term>, levels: bool)
    requires SameLevels(c, w, s, s + 1)
    requires if levels then forall i :: 0 <= i < |ts| ==> ts[i].kind in {High, Low, Skip} else p == q
    ensures var a, b := EvalTerms(c, s, p, matched, z, ts), EvalTerms(w, s, q, matched, z, ts);
            a.ok == b.ok && a.terms == b.terms && a.skipZero == b.skipZero
    decreases ts
  {
    if ts == [] {
    } else {
      assert c.Pin(ts[0].channel, s) == w.Pin(ts[0].channel, s);
      assert TermHolds(c, s, p, ts[0]) == TermHolds(w, s, q, ts[0]);
      TermsAlike(c, w, s, p, q, matched, z || (matched && ZeroSkip(ts[0])), ts[1..], levels);
    }
  }

  lemma {:induction false} GroupsAlike(c: Chunk, w: Chunk, a: Engine, b: Engine, j: nat, levels: bool)
    requires Like(a, b, levels) && j <= |a.conds| && Steady(a)
    requires SameLevels(c, w, a.cur, a.cur + 1)
    requires levels ==> forall k, i :: j <= k < |a.conds| && 0 <= i < |a.conds[k]| ==>
              a.conds[k][i].kind in {High, Low, Skip}
    ensures Like(EvalGroups(c, a, j, false).0, EvalGroups(w, b, j, false).0, levels)
    decreases |a.conds| - j
  {
    if j == |a.conds| {
    } else {
      TermsAlike(c, w, a.cur, a.prev, b.prev, a.matched, a.skipZero, a.conds[j], levels);
      var a1, b1 := EvalGroup(c, a, j, false), EvalGroup(w, b, j, false);
      if a.conds[j] != [] {
        NoZeroNoDecrement(c, a.cur, a.prev, a.matched, a.conds[j]);
        SteadyGroup(a, j, EvalTerms(c, a.cur, a.prev, a.matched, false, a.conds[j]).terms);
      }
      GroupsNeverAllow(c, a, j);
      GroupsNeverAllow(w, b, j);
      GroupsAlike(c, w, a1.0, b1.0, j + 1, levels);
    }
  }

  lemma {:induction false} NoZeroNoDecrement(c: Chunk, s: nat, p: seq<nat>, matched: bool, ts: seq<Term>)
    requires !matched || forall i :: 0 <= i < |ts| ==> !ZeroSkip(ts[i])
    ensures var r := EvalTerms(c, s, p, matched, false, ts);
            && !r.skipZero
            && forall i :: 0 <= i < |ts| ==> r.terms[i] == ts[i] || r.terms[i] == Failed(ts[i])
    decreases ts
  {
    if ts == [] {
    } else {
      NoZeroNoDecrement(c, s, p, matched, ts[1..]);
    }
  }

  lemma SteadyGroup(e: Engine, j: nat, ts: seq<Term>)
    requires j < |e.conds| && |ts| == |e.conds[j]| && Steady(e)
    requires forall i :: 0 <= i < |ts| ==> ts[i] == e.conds[j][i] || ts[i] == Failed(e.conds[j][i])
    ensures Steady(e.(conds := e.conds[j := ts]))
  {
    var r := e.conds[j := ts];
    if e.matched {
      forall k, i | 0 <= k < |r| && 0 <= i < |r[k]| ensures !ZeroSkip(r[k][i]) {
        assert !ZeroSkip(e.conds[k][i]);
      }
    }
  }

  lemma StepAlike(c: Chunk, w: Chunk, a: Engine, b: Engine, levels: bool)
    requires Like(a, b, levels) && a.word == 0 && CountersBounded(a.conds) && Steady(a)
    requires SameLevels(c, w, a.cur, a.cur + 1)
    requires levels ==> LevelOnly(a.conds)
    ensures Like(Step(c, a, false).0, Step(w, b, false).0, levels)
  {
    GroupsAlike(c, w, a, b, 0, levels);
    StepKeeps(c, a, false);
    assert c.Pins(|a.prev|, a.cur) == w.Pins(|a.prev|, a.cur) by {
      forall ch | 0 <= ch < |a.prev| ensures c.Pin(ch, a.cur) == w.Pin(ch, a.cur) {}
    }
  }

  lemma LevelOnlyStays(c: Chunk, e: Engine, allow: bool)
    requires e.word == 0 && CountersBounded(e.conds) && Steady(e) && LevelOnly(e.conds)
    ensures LevelOnly(Step(c, e, allow).0.conds)
  {
    AdvancedStart(c, e);
    StepExact(c, e, e.cur, allow);
    var r: Conditions := Step(c, e, allow).0.conds;
    assert r == CountedConds(c, e, e.cur + 1);
    forall j: int, i: int | 0 <= j < |r| && 0 <= i < |r[j]| ensures r[j][i].kind in {High, Low, Skip} {
      assert r[j][i] == CountedTerm(c, e.cur, e.prev, e.conds[j], i, e.cur + 1);
    }
  }

  /** Scanning a chunk and scanning the whole capture from the same state: the same match is found,
      or the scan of the whole capture goes on from the state the chunk ends in. */
  lemma {:induction false} ScanAlike(c: Chunk, w: Chunk, a: Engine, b: Engine, levels: bool) returns (b': Engine)
    requires Like(a, b, levels) && a.word == 0 && CountersBounded(a.conds) && Steady(a)
    requires a.cur <= c.end <= w.end
    requires SameLevels(c, w, a.cur, c.end)
    requires levels ==> LevelOnly(a.conds)
    ensures Like(Scan(c, a, false).1, b', levels)
    ensures if Scan(c, a, false).0 then Scan(w, b, false) == (true, b')
            else b'.word == 0 && Scan(w, b, false) == Scan(w, b', false)
    decreases c.end - a.cur
  {
    hide Step;
    if a.cur == c.end {
      b' := b;
    } else {
      StepAlike(c, w, a, b, levels);
      StepKeeps(c, a, false);
      StepNeverAllows(c, a);
      StepNeverAllows(w, b);
      var a1, b1 := Step(c, a, false).0, Step(w, b, false).0;
      if a1.matched {
        b' := b1;
      } else {
        if levels { LevelOnlyStays(c, a, false); }
        b' := ScanAlike(c, w, a1.(cur := a.cur + 1), b1.(cur := b.cur + 1), levels);
      }
    }
  }

  lemma PrepareAlike(c: Chunk, w: Chunk, a: Engine, b: Engine, levels: bool)
    requires Like(a, b, levels) && SameLevels(c, w, a.cur, a.cur + 1)
    ensures Like(Prepare(c, a), Prepare(w, b), levels)
  {
    if a.first && !levels {
      assert InitialPins(c, a.prev, a.cur) == InitialPins(w, b.prev, b.cur);
    }
  }

  lemma PrepareFits(c: Chunk, e: Engine, levels: bool)
    requires Fits(c, e.conds, levels)
    ensures Fits(c, Prepare(c, e).conds, levels)
  {
    var r: Conditions := Prepare(c, e).conds;
    forall j: int, i: int | 0 <= j < |r| && 0 <= i < |r[j]|
      ensures r[j][i].kind == e.conds[j][i].kind && r[j][i].channel == e.conds[j][i].channel
    {
      assert e.matched ==> r[j][i] == ResetTerm(e.conds[j][i]);
    }
  }

  /** The jump is never taken, or changes nothing but remembered pins. */
  lemma JumpIsHarmless(c: Chunk, e: Engine, levels: bool)
    requires e.word == 0 && Fits(c, e.conds, levels) && HasGroup(e.conds)
    ensures var a, b := Scan(c, e, true), Scan(c, e, false); a.0 == b.0 && Like(a.1, b.1, levels)
  {
    if levels {
      ScanRefinesStepping(c, e);
    } else {
      var j :| 0 <= j < |e.conds| && e.conds[j] != [];
      assert !FailsOnConstant(c, e.cur, e.prev, e.conds[j]);
      NoJumpNoDifference(c, e);
    }
  }

  /** One call of find_match on a chunk, against stepping through the whole capture. */
  lemma FindAlike(c: Chunk, w: Chunk, a: Engine, b: Engine, jump: bool, levels: bool) returns (b': Engine)
    requires Like(a, b, levels) && Ready(a) && Fits(c, a.conds, levels)
    requires a.cur < c.end <= w.end
    requires SameLevels(c, w, a.cur, c.end)
    ensures Like(Find(c, a, jump).1, b', levels)
    ensures Find(c, a, jump).0 ==> Find(w, b, false) == (true, b')
    ensures !Find(c, a, jump).0 ==> b'.word == 0 && Find(w, b, false) == Scan(w, b', false)
  {
    PrepareKeeps(c, a);
    ResetKeeps(a.conds);
    PrepareAlike(c, w, a, b, levels);
    PrepareFits(c, a, levels);
    var p, q := Prepare(c, a), Prepare(w, b);
    if jump { JumpIsHarmless(c, p, levels); }
    b' := ScanAlike(c, w, p, q, levels);
  }

  lemma FitsShape(c: Chunk, x: Conditions, y: Conditions, levels: bool)
    requires SameShape(x, y) && Fits(c, y, levels)
    ensures Fits(c, x, levels)
  {
    forall j: int, i: int | 0 <= j < |x| && 0 <= i < |x[j]|
      ensures x[j][i].kind == y[j][i].kind && x[j][i].channel == y[j][i].channel
    {
      assert x[j][i] == y[j][i].(skipped := x[j][i].skipped);
    }
  }

  /** Driving one chunk, against stepping through the whole capture from the same state. When the
      last match was not on the chunk's last sample, the run over the whole capture goes on from
      the state the chunk ends in. When it was, that run is left at this very match. */
  lemma {:induction false} DriveAlike(c: Chunk, w: Chunk, d: Decoder, a: Engine, b: Engine, h: seq<Match>,
      jump: bool, levels: bool)
    returns (b': Engine)
    requires Regular(d) && DecoderFits(c, d, levels)
    requires Like(a, b, levels) && Waiting(d, a, h)
    requires a.cur < c.end <= w.end && SameLevels(c, w, a.cur, c.end)
    ensures var (a', h') := Drive(c, d, a, h, jump);
            && Waiting(d, b', h')
            && (a'.matched ==> b'.matched && b'.cur + 1 == c.end)
            && (!a'.matched ==> Like(a', b', levels))
            && (a'.matched || c.end < w.end ==> Drive(w, d, b, h, false) == Drive(w, d, b', h', false))
            && (!a'.matched && c.end == w.end ==> Drive(w, d, b, h, false) == (b', h'))
    decreases c.end - a.cur, if a.matched then 0 else 1
  {
    hide Find;
    FindBounds(c, a, jump);
    FitsShape(c, a.conds, d(h), levels);
    var b1 := FindAlike(c, w, a, b, jump, levels);
    var (found, a1) := Find(c, a, jump);
    if found {
      var h1 := h + [Report(c, a1)];
      ReportsAlike(c, w, a1, b1, levels);
      InstallKeeps(d(h1), true);
      b' := DriveAlike(c, w, d, Answer(d, a1, h1), Answer(d, b1, h1), h1, jump, levels);
    } else if a1.matched {
      b' := b;
    } else {
      b' := b1;
      ShapeChain(b1.conds, a.conds, d(h));
      DriveContinues(w, d, b, b1, h);
    }
  }

  lemma ReportsAlike(c: Chunk, w: Chunk, a: Engine, b: Engine, levels: bool)
    requires Like(a, b, levels) && SameLevels(c, w, a.cur, a.cur + 1)
    ensures Report(c, a) == Report(w, b)
  {
    assert c.Pins(|a.prev|, a.cur) == w.Pins(|a.prev|, a.cur) by {
      forall ch | 0 <= ch < |a.prev| ensures c.Pin(ch, a.cur) == w.Pin(ch, a.cur) {}
    }
  }

  /** A run that scans on from b1 is the run from b1. */
  lemma DriveContinues(w: Chunk, d: Decoder, b: Engine, b1: Engine, h: seq<Match>)
    requires Regular(d) && Waiting(d, b, h) && Waiting(d, b1, h)
    requires b.cur < w.end && b1.word == 0 && !b1.matched && !b1.first && b1.cur <= w.end
    requires Find(w, b, false) == Scan(w, b1, false)
    ensures b1.cur < w.end ==> Drive(w, d, b, h, false) == Drive(w, d, b1, h, false)
    ensures b1.cur == w.end ==> Drive(w, d, b, h, false) == (b1, h)
  {
    assert Prepare(w, b1) == b1;
  }

  /** The sample of the last match, -1 before the first one. */
  function LastAt(h: seq<Match>): int {
    if h == [] then -1 else h[|h| - 1].at
  }

  /** abs_cur_matched is set exactly when the last match lies at the cursor. */
  predicate Tracks(e: Engine, h: seq<Match>) {
    if e.matched then LastAt(h) == e.cur else LastAt(h) < e.cur
  }

  /** abs_cur_matched outlives a chunk exactly when the last match was on the chunk's last sample. */
  lemma {:induction false} DriveTracks(c: Chunk, d: Decoder, e: Engine, h: seq<Match>, jump: bool)
    requires Regular(d) && Waiting(d, e, h) && e.cur < c.end && Tracks(e, h)
    ensures var r := Drive(c, d, e, h, jump);
            (r.0.matched <==> LastAt(r.1) + 1 == c.end) && LastAt(r.1) < c.end
    decreases c.end - e.cur, if e.matched then 0 else 1
  {
    hide Find;
    FindBounds(c, e, jump);
    var (found, e1) := Find(c, e, jump);
    if !found {
    } else {
      var h1 := h + [Report(c, e1)];
      assert LastAt(h1) == e1.cur;
      InstallKeeps(d(h1), e1.matched);
      DriveTracks(c, d, Answer(d, e1, h1), h1, jump);
    }
  }

  /** No match lies on the last sample of a chunk that is followed by another one. */
  predicate NoMatchOnCuts(chunks: seq<Chunk>, h: seq<Match>) {
    forall i, k :: 0 <= i < |chunks| - 1 && 0 <= k < |h| ==> h[k].at + 1 != chunks[i].end
  }

  /** The chunks are pieces of the capture w, in situations where cutting is allowed. */
  ghost predicate Pieces(chunks: seq<Chunk>, w: Chunk, d: Decoder, levels: bool) {
    forall i :: 0 <= i < |chunks| ==>
      SameLevels(chunks[i], w, chunks[i].start, chunks[i].end) && DecoderFits(chunks[i], d, levels)
  }

  lemma {:induction false} TilesFacts(chunks: seq<Chunk>, from: nat, to: nat)
    requires Tiles(chunks, from, to)
    ensures NonEmpty(chunks) && from <= to && (chunks != [] ==> from < to)
  {
    if chunks == [] {
    } else {
      TilesFacts(chunks[1..], chunks[0].end, to);
      forall i | 0 <= i < |chunks| ensures chunks[i].start < chunks[i].end {
        if i > 0 { assert chunks[i] == chunks[1..][i - 1]; }
      }
    }
  }

  lemma Tails(chunks: seq<Chunk>, w: Chunk, d: Decoder, h: seq<Match>, levels: bool)
    requires chunks != [] && NonEmpty(chunks) && Pieces(chunks, w, d, levels) && NoMatchOnCuts(chunks, h)
    ensures NonEmpty(chunks[1..]) && Pieces(chunks[1..], w, d, levels) && NoMatchOnCuts(chunks[1..], h)
  {
    var rest := chunks[1..];
    forall i | 0 <= i < |rest| ensures rest[i] == chunks[i + 1] {}
  }

  lemma FeedIsDrive(c: Chunk, d: Decoder, a: Engine, h: seq<Match>)
    requires Regular(d) && Waiting(d, a, h) && c.start == a.cur < c.end
    ensures Feed(c, d, a, h) == Drive(c, d, a, h, true)
  {
    assert a.(cur := c.start) == a;
  }

  lemma LastAlike(c: Chunk, w: Chunk, d: Decoder, a: Engine, b: Engine, h: seq<Match>, levels: bool)
    requires Regular(d) && Waiting(d, a, h) && Like(a, b, levels) && DecoderFits(c, d, levels)
    requires a.cur < c.end == w.end && SameLevels(c, w, a.cur, c.end)
    ensures var r, q := Drive(c, d, a, h, true), Drive(w, d, b, h, false);
            r.1 == q.1 && (!r.0.matched ==> Like(r.0, q.0, levels))
  {
    var b1 := DriveAlike(c, w, d, a, b, h, true, levels);
    if Drive(c, d, a, h, true).0.matched {
      FindBounds(w, b1, false);
    }
  }

  lemma {:induction false} FeedAllAlike(chunks: seq<Chunk>, w: Chunk, d: Decoder, a: Engine, b: Engine,
      h: seq<Match>, levels: bool)
    requires Regular(d) && Waiting(d, a, h) && Like(a, b, levels)
    requires chunks != [] && NonEmpty(chunks) && Tiles(chunks, a.cur, w.end) && Pieces(chunks, w, d, levels)
    requires a.cur < w.end && !a.matched && Tracks(a, h)
    requires NoMatchOnCuts(chunks, FeedAll(chunks, d, a, h).1)
    ensures FeedAll(chunks, d, a, h).1 == Drive(w, d, b, h, false).1
    ensures var a' := FeedAll(chunks, d, a, h).0; !a'.matched ==> Like(a', Drive(w, d, b, h, false).0, levels)
    decreases |chunks|
  {
    hide Drive;
    hide Feed;
    var c, rest := chunks[0], chunks[1..];
    TilesFacts(rest, c.end, w.end);
    FeedIsDrive(c, d, a, h);
    var (a1, h1) := Drive(c, d, a, h, true);
    if rest == [] {
      LastAlike(c, w, d, a, b, h, levels);
      FeedLast(chunks, d, a, h);
    } else {
      NotOnThisCut(chunks, d, a, h);
      Tails(chunks, w, d, FeedAll(chunks, d, a, h).1, levels);
      var b1 := DriveAlike(c, w, d, a, b, h, true, levels);
      DriveTracks(c, d, a, h, true);
      FeedFirst(chunks, d, a, h);
      FeedAllAlike(rest, w, d, a1, b1, h1, levels);
    }
  }

  lemma FeedFirst(chunks: seq<Chunk>, d: Decoder, a: Engine, h: seq<Match>)
    requires Regular(d) && Waiting(d, a, h) && chunks != [] && NonEmpty(chunks) && NonEmpty(chunks[1..])
    ensures var (a1, h1) := Feed(chunks[0], d, a, h);
            FeedAll(chunks, d, a, h) == FeedAll(chunks[1..], d, a1, h1)
  {
  }

  lemma FeedLast(chunks: seq<Chunk>, d: Decoder, a: Engine, h: seq<Match>)
    requires Regular(d) && Waiting(d, a, h) && |chunks| == 1 && NonEmpty(chunks)
    ensures FeedAll(chunks, d, a, h) == Feed(chunks[0], d, a, h)
  {
    var (a1, h1) := Feed(chunks[0], d, a, h);
    assert FeedAll(chunks[1..], d, a1, h1) == (a1, h1);
  }

  lemma NotOnThisCut(chunks: seq<Chunk>, d: Decoder, a: Engine, h: seq<Match>)
    requires Regular(d) && Waiting(d, a, h) && |chunks| >= 2 && NonEmpty(chunks)
    requires chunks[0].start == a.cur && Tracks(a, h)
    requires NoMatchOnCuts(chunks, FeedAll(chunks, d, a, h).1)
    ensures !Drive(chunks[0], d, a, h, true).0.matched
  {
    DriveTracks(chunks[0], d, a, h, true);
    var (a1, h1) := Drive(chunks[0], d, a, h, true);
    var all := FeedAll(chunks, d, a, h).1;
    assert h1 <= all;
    if h1 != [] {
      assert all[|h1| - 1] == h1[|h1| - 1];
    }
    assert LastAt(h1) + 1 != chunks[0].end;
  }

  /** A started instance: srd_inst_start, then the first list the decoder waits for. */
  ghost predicate Started(d: Decoder, e: Engine) {
    e.first && !e.matched && !e.skipZero && e.conds == Install(d([]), false)
  }

  lemma StartedWaits(d: Decoder, e: Engine)
    requires Regular(d) && Started(d, e)
    ensures Waiting(d, e, [])
  {
    InstallKeeps(d([]), false);
  }

  /** The first chunk sets the cursor. */
  lemma SameFromStart(chunks: seq<Chunk>, d: Decoder, e: Engine, a: Engine)
    requires Regular(d) && Waiting(d, e, []) && e.first
    requires chunks != [] && NonEmpty(chunks) && a == e.(cur := chunks[0].start)
    ensures Feed(chunks[0], d, e, []) == Drive(chunks[0], d, a, [], true)
    ensures FeedAll(chunks, d, e, []) == FeedAll(chunks, d, a, [])
  {
    hide Drive;
    assert Feed(chunks[0], d, a, []) == Feed(chunks[0], d, e, []);
  }

  /** A run of a decoder over chunks, from the start. */
  ghost function Run(chunks: seq<Chunk>, d: Decoder, e: Engine): (Engine, seq<Match>)
    requires Regular(d) && Started(d, e) && NonEmpty(chunks)
  {
    StartedWaits(d, e);
    FeedAll(chunks, d, e, [])
  }

  /** Chunking invariance. However a capture is cut into non-empty chunks, a decoder sees the
      matches it sees when the capture comes in one piece, with the same match words and pins, and
      the SKIP counters end up the same, provided no match lies on the last sample of a chunk that
      is followed by another and either every tested channel has bit buffers, or only HIGH, LOW and
      non-zero SKIP terms are used. */
  lemma ChunkingInvariance(chunks: seq<Chunk>, w: Chunk, d: Decoder, e: Engine, levels: bool)
    requires Regular(d) && Started(d, e)
    requires chunks != [] && NonEmpty(chunks) && Tiles(chunks, w.start, w.end)
    requires Pieces(chunks, w, d, levels) && DecoderFits(w, d, levels)
    requires w.start < w.end
    requires NoMatchOnCuts(chunks, Run(chunks, d, e).1)
    ensures Run(chunks, d, e).1 == Run([w], d, e).1
    ensures !Run(chunks, d, e).0.matched ==> Like(Run(chunks, d, e).0, Run([w], d, e).0, levels)
  {
    hide Drive;
    StartedWaits(d, e);
    var a := e.(cur := w.start);
    SameFromStart(chunks, d, e, a);
    SameFromStart([w], d, e, a);
    FeedLast([w], d, e, []);
    FeedAllAlike(chunks, w, d, a, a, [], levels);
    LastAlike(w, w, d, a, a, [], levels);
    DriveTracks(w, d, a, [], true);
    DriveTracks(w, d, a, [], false);
  }
}
