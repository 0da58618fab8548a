/** Decoders that call wait() without conditions: the runs that begin with SKIP 0. */
module Condless {
  import opened Samples
  import opened Matcher
  import opened Declarative
  import opened EarliestMatches
  import opened Chunking
  import opened ChunkInvariance
  import opened Skips

  /** The lists installed for bare calls: SKIP 0 for the first, SKIP 1 for the others. */
  function Bare(h: seq<Match>): Conditions {
    [[SkipTerm(if h == [] then 0 else 1, 0)]]
  }

  /** A decoder that only ever calls wait() without conditions. */
  const BARE: Decoder := h => Bare(h)

  /** These are the lists that Decoder_wait installs for a call without conditions. */
  lemma BareIsCondless(e: Engine, h: seq<Match>)
    requires (h == [] ==> e.conds == [] && e.first) && (h != [] ==> e.conds != [])
    ensures e.(conds := Install(Bare(h), e.matched)) == SetSkip(e, CondlessCount(e))
  {
    var q := Install(Bare(h), e.matched);
    assert q[0] == InstallGroup(Bare(h)[0], e.matched);
    assert q[0] == SetSkip(e, CondlessCount(e)).conds[0];
    assert q == SetSkip(e, CondlessCount(e)).conds;
  }

  lemma BareIsRegular()
    ensures Regular(BARE)
  {
    forall h: seq<Match> ensures HasGroup(BARE(h)) && (h != [] ==> NoZeroSkip(BARE(h))) {
      assert Bare(h)[0] != [];
    }
  }

  /** The sample numbers reported. */
  function Seen(h: seq<Match>): (r: seq<nat>)
    ensures |r| == |h| && forall k :: 0 <= k < |h| ==> r[k] == h[k].at
  {
    seq(|h|, k requires 0 <= k < |h| => h[k].at)
  }

  function Range(from: nat, to: nat): seq<nat>
    decreases to - from
  {
    if from >= to then [] else [from] + Range(from + 1, to)
  }

  /** Behind a match, or behind the end of a chunk after a match on its last sample. */
  predicate Bumped(e: Engine) {
    e.matched && !e.first && !e.skipZero && e.conds == [[SkipTerm(1, 1)]]
  }

  lemma BareWaits(e: Engine, h: seq<Match>)
    requires Bumped(e) && h != []
    ensures Waiting(BARE, e, h)
  {
    assert e.conds[0] != [];
  }

  /** One wait() from there: the next sample but one boundary, or nothing and the flag stays set. */
  lemma BareFind(c: Chunk, e: Engine)
    requires Bumped(e) && e.cur < c.end
    ensures var r := Find(c, e, true);
            if e.cur + 1 < c.end then r.0 && r.1.cur == e.cur + 1 && r.1.matched && !r.1.first && !r.1.skipZero
            else !r.0 && Bumped(r.1) && r.1.cur == c.end
  {
    if e.cur + 1 < c.end {
      assert e == SetSkip(e, 1);
      assert e.conds[0] != [];
      NextSampleNext(c, e);
    } else {
      var p := Prepare(c, e);
      assert p.conds[0] == ResetGroup(e.conds[0]) && p.conds[0][0] == SkipTerm(1, 1);
      assert p.conds[0] == [SkipTerm(1, 1)];
      assert p.conds == [[SkipTerm(1, 1)]];
    }
  }

  lemma BareAnswer(e: Engine, h: seq<Match>)
    requires e.matched && !e.first && !e.skipZero && h != []
    ensures Bumped(Answer(BARE, e, h))
  {
    var q := Install(BARE(h), true);
    assert q[0] == InstallGroup(Bare(h)[0], true) && q[0][0] == SkipTerm(1, 1);
    assert q[0] == [SkipTerm(1, 1)];
    assert q == [[SkipTerm(1, 1)]];
  }

  lemma SeenSnoc(h: seq<Match>, m: Match)
    ensures Seen(h + [m]) == Seen(h) + [m.at]
  {
  }

  /** A chunk entered in this state is reported but for the sample under the cursor. */
  lemma {:induction false} BareDrive(c: Chunk, e: Engine, h: seq<Match>)
    requires Regular(BARE) && Bumped(e) && h != [] && Waiting(BARE, e, h) && e.cur < c.end
    ensures var r := Drive(c, BARE, e, h, true);
            Seen(r.1) == Seen(h) + Range(e.cur + 1, c.end) && Bumped(r.0) && r.1 != [] && r.0.cur == c.end
    decreases c.end - e.cur
  {
    hide Find, Bumped, Bare;
    BareFind(c, e);
    FindBounds(c, e, true);
    var (found, e1) := Find(c, e, true);
    if e.cur + 1 == c.end {
      assert Seen(h) + [] == Seen(h);
    } else {
      var h1 := h + [Report(c, e1)];
      BareAnswer(e1, h1);
      InstallKeeps(BARE(h1), e1.matched);
      SeenSnoc(h, Report(c, e1));
      BareDrive(c, Answer(BARE, e1, h1), h1);
    }
  }

  /** The samples a bare decoder sees of the chunks that follow the first one. */
  function Later(chunks: seq<Chunk>): seq<nat> {
    if chunks == [] then [] else Range(chunks[0].start + 1, chunks[0].end) + Later(chunks[1..])
  }

  lemma {:induction false} BareFeed(chunks: seq<Chunk>, to: nat, e: Engine, h: seq<Match>)
    requires Regular(BARE) && Bumped(e) && h != [] && Waiting(BARE, e, h)
    requires Tiles(chunks, e.cur, to) && NonEmpty(chunks)
    ensures Seen(FeedAll(chunks, BARE, e, h).1) == Seen(h) + Later(chunks)
    decreases |chunks|
  {
    hide *;
    if chunks == [] {
      NoneLater(e, h);
    } else {
      var c, rest := chunks[0], chunks[1..];
      LaterStep(chunks, e.cur, to);
      BareDrive(c, e, h);
      FeedIsDrive(c, BARE, e, h);
      var (e1, h1) := Drive(c, BARE, e, h, true);
      TilesFacts(rest, c.end, to);
      FeedFirst(chunks, BARE, e, h);
      BareFeed(rest, to, e1, h1);
      Joined(Seen(h), Range(c.start + 1, c.end), Later(rest));
    }
  }

  lemma NoneLater(e: Engine, h: seq<Match>)
    requires Regular(BARE) && Waiting(BARE, e, h)
    ensures NonEmpty([]) && Seen(FeedAll([], BARE, e, h).1) == Seen(h) + Later([])
  {
    assert Seen(h) + [] == Seen(h);
  }

  lemma LaterStep(chunks: seq<Chunk>, from: nat, to: nat)
    requires chunks != [] && Tiles(chunks, from, to)
    ensures var c, rest := chunks[0], chunks[1..];
            && c.start == from < c.end && Tiles(rest, c.end, to)
            && Later(chunks) == Range(c.start + 1, c.end) + Later(rest)
  {
  }

  lemma Joined<T>(x: seq<T>, y: seq<T>, z: seq<T>)
    ensures x + y + z == x + (y + z)
  {
  }

  /** The first wait() of a started instance returns the first sample. */
  lemma BareFirst(c: Chunk, e: Engine)
    requires Started(BARE, e) && e.cur < c.end
    ensures var r := Find(c, e, true);
            r.0 && r.1.cur == e.cur && r.1.matched && !r.1.first && !r.1.skipZero
  {
    assert e.conds[0] == InstallGroup(Bare([])[0], false) && e.conds[0][0] == SkipTerm(0, 0);
    assert e.conds[0] == [SkipTerm(0, 0)];
    assert e.conds == [[SkipTerm(0, 0)]];
    assert e == SetSkip(e, 0);
    FirstSampleAtOnce(c, e);
    FindIsFindMatch(c, e);
  }

  lemma BareBegins(c: Chunk, e: Engine)
    requires Regular(BARE) && Started(BARE, e) && Waiting(BARE, e, []) && e.cur < c.end
    ensures var r := Drive(c, BARE, e, [], true);
            Seen(r.1) == Range(e.cur, c.end) && Bumped(r.0) && r.1 != [] && r.0.cur == c.end
  {
    hide Find, Bumped, Bare, Seen;
    BareFirst(c, e);
    FindBounds(c, e, true);
    var e1 := Find(c, e, true).1;
    var h1 := [Report(c, e1)];
    assert [] + h1 == h1;
    BareAnswer(e1, h1);
    InstallKeeps(BARE(h1), e1.matched);
    BareDrive(c, Answer(BARE, e1, h1), h1);
    SeenOne(h1);
  }

  lemma SeenOne(h: seq<Match>)
    requires |h| == 1
    ensures Seen(h) == [h[0].at]
  {
  }

  lemma FindIsFindMatch(c: Chunk, e: Engine)
    requires HasGroup(e.conds)
    ensures FindMatch(c, e) == Find(c, e, true)
  {
  }

  /** However the capture is cut, a decoder of bare calls sees every sample in order, except the first
      one of every chunk but the first. */
  lemma BareRun(c: Chunk, rest: seq<Chunk>, to: nat, e: Engine)
    requires Regular(BARE) && Started(BARE, e) && c.start < c.end && Tiles(rest, c.end, to) && NonEmpty([c] + rest)
    ensures Seen(Run([c] + rest, BARE, e).1) == Range(c.start, c.end) + Later(rest)
  {
    StartedWaits(BARE, e);
    var a := e.(cur := c.start);
    BareBegins(c, a);
    TilesFacts(rest, c.end, to);
    hide Drive;
    var chunks := [c] + rest;
    assert chunks[0] == c && chunks[1..] == rest;
    SameFromStart(chunks, BARE, e, a);
    var (e1, h1) := Drive(c, BARE, a, [], true);
    BareFeed(rest, to, e1, h1);
  }
}
