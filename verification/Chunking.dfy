/**
 * Runs of a decoder over a capture that arrives in chunks, and when cutting the capture into
 * chunks makes no difference.
 */
module Chunking {
  import opened Samples
  import opened Matcher
  import opened Declarative
  import opened EarliestMatches

  /** What wait() reports. */
  datatype Match = Match(at: nat, word: nat, pins: seq<nat>)

  /** A deterministic decoder: the condition list it waits for next, given the matches so far. */
  type Decoder = seq<Match> -> Conditions

  function InstallGroup(ts: seq<Term>, matched: bool): (r: seq<Term>)
    ensures |r| == |ts|
    ensures forall i :: 0 <= i < |ts| ==> r[i] == InitTerm(ts[i], matched)
  {
    seq(|ts|, i requires 0 <= i < |ts| => InitTerm(ts[i], matched))
  }

  /** set_new_condition_list: the counters of a fresh list. */
  function Install(conds: Conditions, matched: bool): (r: Conditions)
    ensures |r| == |conds|
    ensures forall j :: 0 <= j < |conds| ==> r[j] == InstallGroup(conds[j], matched)
  {
    seq(|conds|, j requires 0 <= j < |conds| => InstallGroup(conds[j], matched))
  }

  lemma InstallKeeps(conds: Conditions, matched: bool)
    ensures SameShape(Install(conds, matched), conds)
    ensures CountersBounded(Install(conds, matched))
    ensures HasGroup(conds) ==> HasGroup(Install(conds, matched))
    ensures NoZeroSkip(conds) ==> NoZeroSkip(Install(conds, matched))
  {
    var r := Install(conds, matched);
    forall j, i | 0 <= j < |conds| && 0 <= i < |conds[j]| ensures r[j][i] == InitTerm(conds[j][i], matched) {}
    ShapeKeeps(conds, r);
  }

  /** The Python wait() presets the counters from abs_cur_matched and the C one leaves them zero;
      find_match starts from the same state either way. */
  lemma BothWaitsAgree(c: Chunk, e: Engine, conds: Conditions)
    ensures Prepare(c, e.(conds := Install(conds, e.matched))) == Prepare(c, e.(conds := Install(conds, false)))
  {
    var a, b := Install(conds, e.matched), Install(conds, false);
    if e.matched {
      forall j | 0 <= j < |conds| ensures ResetSkips(a)[j] == ResetSkips(b)[j] {
        assert ResetGroup(a[j]) == ResetGroup(b[j]);
      }
      assert ResetSkips(a) == ResetSkips(b);
    }
  }

  /** Lists with at least one condition, and no SKIP 0 once there has been a match. The first list may
      have one, as that of a condition-less first wait() does. */
  ghost predicate Regular(d: Decoder) {
    forall h :: HasGroup(d(h)) && (h != [] ==> NoZeroSkip(d(h)))
  }

  /** The engine between two samples of a run. */
  predicate Ready(e: Engine) {
    HasGroup(e.conds) && (e.matched ==> NoZeroSkip(e.conds)) && CountersBounded(e.conds) && !e.skipZero
  }

  /** The engine is waiting for what the decoder asked after the matches h. */
  ghost predicate Waiting(d: Decoder, e: Engine, h: seq<Match>) {
    Ready(e) && SameShape(e.conds, d(h)) && (h == [] ==> !e.matched)
  }

  /** find_match with the constant-block jump (FindMatch), or stepping through every sample. */
  function Find(c: Chunk, e: Engine, jump: bool): (bool, Engine) {
    Scan(c, Prepare(c, e), jump)
  }

  function Report(c: Chunk, e: Engine): Match {
    Match(e.cur, e.word, c.Pins(|e.prev|, e.cur))
  }

  ghost function Answer(d: Decoder, e: Engine, h: seq<Match>): Engine {
    e.(conds := Install(d(h), e.matched))
  }

  /** Cursor bounds: the cursor never leaves start .. end, a failed call leaves it at the end, a match
      lies strictly after the previous one, and a match is forgotten within the chunk unless it lies on
      its last sample. */
  lemma FindBounds(c: Chunk, e: Engine, jump: bool)
    requires Ready(e) && e.cur < c.end
    ensures var r := Find(c, e, jump);
            && (if r.0 then e.cur <= r.1.cur < c.end && r.1.matched && r.1.word != 0
                else r.1.cur == c.end && r.1.word == 0)
            && (r.0 && e.matched ==> e.cur < r.1.cur)
            && (!r.0 ==> r.1.matched == (e.matched && e.cur + 1 == c.end))
            && (!r.0 || NoZeroSkip(e.conds) ==> Ready(r.1))
            && !r.1.skipZero && !r.1.first && SameShape(r.1.conds, e.conds)
  {
    PrepareKeeps(c, e);
    var p := Prepare(c, e);
    ScanBounds(c, p, jump);
    ShapeChain(Scan(c, p, jump).1.conds, p.conds, e.conds);
    ShapeKeeps(e.conds, Scan(c, p, jump).1.conds);
  }

  /** The calls of wait() that one chunk answers: the state at its end and the matches so far. */
  ghost function Drive(c: Chunk, d: Decoder, e: Engine, h: seq<Match>, jump: bool): (r: (Engine, seq<Match>))
    requires Regular(d) && Waiting(d, e, h) && e.cur < c.end
    ensures h <= r.1
    ensures r.0.cur == c.end && Waiting(d, r.0, r.1) && !r.0.first
    decreases c.end - e.cur, if e.matched then 0 else 1
  {
    var (found, e1) := Find(c, e, jump);
    FindBounds(c, e, jump);
    if found then
      var h1 := h + [Report(c, e1)];
      InstallKeeps(d(h1), e1.matched);
      Drive(c, d, Answer(d, e1, h1), h1, jump)
    else
      ShapeChain(e1.conds, e.conds, d(h));
      (e1, h)
  }

  /** The sample numbers srd_inst_decode accepts. */
  predicate Accepts(e: Engine, c: Chunk) {
    (e.first || c.start == e.cur) && c.start <= c.end
  }

  /** srd_inst_decode: a chunk with unexpected sample numbers is refused and changes nothing. */
  ghost function Feed(c: Chunk, d: Decoder, e: Engine, h: seq<Match>): (r: (Engine, seq<Match>))
    requires Regular(d) && Waiting(d, e, h) && c.start < c.end
    ensures h <= r.1 && Waiting(d, r.0, r.1)
    ensures Accepts(e, c) ==> r.0.cur == c.end && !r.0.first
    ensures !Accepts(e, c) ==> r == (e, h)
  {
    if !Accepts(e, c) then (e, h)
    else Drive(c, d, if e.first then e.(cur := c.start) else e, h, true)
  }

  predicate NonEmpty(chunks: seq<Chunk>) {
    forall i :: 0 <= i < |chunks| ==> chunks[i].start < chunks[i].end
  }

  ghost function FeedAll(chunks: seq<Chunk>, d: Decoder, e: Engine, h: seq<Match>): (r: (Engine, seq<Match>))
    requires Regular(d) && Waiting(d, e, h) && NonEmpty(chunks)
    ensures h <= r.1 && Waiting(d, r.0, r.1)
  {
    if chunks == [] then (e, h)
    else
      var (e1, h1) := Feed(chunks[0], d, e, h);
      FeedAll(chunks[1..], d, e1, h1)
  }

  /** Consecutive chunks from sample `from` to sample `to`, no gap and no overlap. */
  predicate Tiles(chunks: seq<Chunk>, from: nat, to: nat) {
    if chunks == [] then from == to
    else chunks[0].start == from < chunks[0].end && Tiles(chunks[1..], chunks[0].end, to)
  }

  /** The chunks that srd_inst_decode did not refuse. */
  ghost function Accepted(chunks: seq<Chunk>, d: Decoder, e: Engine, h: seq<Match>): (r: seq<Chunk>)
    requires Regular(d) && Waiting(d, e, h) && NonEmpty(chunks)
    ensures NonEmpty(r)
  {
    if chunks == [] then []
    else
      var (e1, h1) := Feed(chunks[0], d, e, h);
      (if Accepts(e, chunks[0]) then [chunks[0]] else []) + Accepted(chunks[1..], d, e1, h1)
  }

  /** Whatever chunks are offered, those accepted follow on each other without gap or overlap up to the
      cursor, and those refused leave no trace. */
  lemma {:induction false} AcceptedTile(chunks: seq<Chunk>, d: Decoder, e: Engine, h: seq<Match>)
    requires Regular(d) && Waiting(d, e, h) && NonEmpty(chunks)
    ensures var accepted, end := Accepted(chunks, d, e, h), FeedAll(chunks, d, e, h).0.cur;
            && (!e.first ==> Tiles(accepted, e.cur, end))
            && (e.first && accepted != [] ==> Tiles(accepted, accepted[0].start, end))
            && (e.first && accepted == [] ==> end == e.cur)
    ensures FeedAll(Accepted(chunks, d, e, h), d, e, h) == FeedAll(chunks, d, e, h)
    decreases |chunks|
  {
    hide Feed;
    hide Waiting;
    if chunks == [] {
    } else {
      var (e1, h1) := Feed(chunks[0], d, e, h);
      AcceptedTile(chunks[1..], d, e1, h1);
      var rest := Accepted(chunks[1..], d, e1, h1);
      var accepted := Accepted(chunks, d, e, h);
      if Accepts(e, chunks[0]) {
        assert accepted == [chunks[0]] + rest;
        assert accepted[1..] == rest;
      } else {
        assert accepted == rest;
      }
    }
  }
}
