/** What one cut between two chunks does to the wait() that spans it. */
module Cuts {
  import opened Samples
  import opened Matcher
  import opened Declarative
  import opened EarliestMatches
  import opened Chunking
  import opened ChunkInvariance

  /** The answer to one wait(): nothing yet, or a sample and a match word. */
  datatype Outcome = Pending | Found(at: nat, word: nat)

  function Verdict(r: (bool, Engine)): Outcome {
    if r.0 then Found(r.1.cur, r.1.word) else Pending
  }

  function WithList(e: Engine, q: Conditions): Engine {
    e.(conds := Install(q, e.matched))
  }

  /** The wait for list q, answered from chunk c and then from chunk c2. */
  function AcrossCut(c: Chunk, c2: Chunk, e: Engine, q: Conditions): Outcome {
    var r := Find(c, WithList(e, q), true);
    if r.0 then Verdict(r) else Verdict(Find(c2, r.1, true))
  }

  /** The same wait when both chunks come in one piece. */
  function InOnePiece(w: Chunk, e: Engine, q: Conditions): Outcome {
    Verdict(Find(w, WithList(e, q), true))
  }

  predicate Askable(c: Chunk, c2: Chunk, w: Chunk, q: Conditions, levels: bool) {
    HasGroup(q) && NoZeroSkip(q) && Fits(c, q, levels) && Fits(c2, q, levels) && Fits(w, q, levels)
  }

  const NEXT_SAMPLE: Conditions := [[Term(Skip, -1, 1, 0)]]

  lemma NextSampleAskable(c: Chunk, c2: Chunk, w: Chunk, levels: bool)
    ensures Askable(c, c2, w, NEXT_SAMPLE, levels)
  {
    assert NEXT_SAMPLE[0] != [];
  }

  lemma ListReady(e: Engine, q: Conditions)
    requires HasGroup(q) && NoZeroSkip(q) && !e.skipZero
    ensures Ready(WithList(e, q)) && SameShape(WithList(e, q).conds, q)
  {
    InstallKeeps(q, e.matched);
  }

  lemma NotLastIsSafe(c: Chunk, c2: Chunk, w: Chunk, e: Engine, q: Conditions, levels: bool)
    requires e.matched && !e.skipZero
    requires e.cur + 1 < c.end == c2.start < c2.end == w.end
    requires SameLevels(c, w, e.cur, c.end) && SameLevels(c2, w, c2.start, c2.end)
    requires Askable(c, c2, w, q, levels)
    ensures AcrossCut(c, c2, e, q) == InOnePiece(w, e, q)
  {
    hide Find;
    ListReady(e, q);
    var a := WithList(e, q);
    FitsShape(c, a.conds, q, levels);
    FitsShape(w, a.conds, q, levels);
    FindBounds(c, a, true);
    FindBounds(w, a, true);
    var b1 := FindAlike(c, w, a, a, true, levels);
    var b2 := FindAlike(w, w, a, a, true, levels);
    WholeEnds(w, b2);
    var r := Find(c, a, true);
    if !r.0 {
      ShapeChain(r.1.conds, a.conds, q);
      FitsShape(c2, r.1.conds, q, levels);
      assert Find(w, b1, false) == Scan(w, b1, false) by { ScanIsFind(w, b1); }
      FindBounds(c2, r.1, true);
      var b3 := FindAlike(c2, w, r.1, b1, true, levels);
      WholeEnds(w, b3);
    }
  }

  lemma ScanIsFind(w: Chunk, b: Engine)
    requires b.word == 0 && !b.matched && !b.first
    ensures Find(w, b, false) == Scan(w, b, false)
  {
    assert Prepare(w, b) == b;
  }

  /** A scan from the end of the chunk finds nothing. */
  lemma WholeEnds(w: Chunk, b: Engine)
    ensures b.word == 0 && b.cur >= w.end ==> !Scan(w, b, false).0
  {
  }

  /** Waiting for the next sample after a match finds it, if the chunk has it. */
  lemma NextSampleFound(w: Chunk, e: Engine)
    requires e.matched && !e.skipZero && e.cur + 1 < w.end
    ensures var r := Find(w, WithList(e, NEXT_SAMPLE), true); r.0 && r.1.cur == e.cur + 1
  {
    var a := WithList(e, NEXT_SAMPLE);
    ListReady(e, NEXT_SAMPLE) by { assert NEXT_SAMPLE[0] != []; }
    var p := Prepare(w, a);
    PrepareKeeps(w, a);
    assert p.conds[0] == ResetGroup(a.conds[0]);
    assert p.conds[0][0] == Term(Skip, -1, 1, 1);
    AdvancedStart(w, p);
    StepExact(w, p, p.cur, true);
    assert TermTrue(w, p.cur, p.prev, p.conds[0], 0, p.cur);
    assert GroupTrue(w, p, 0, p.cur);
  }

  /** A cut is invisible to every next wait() exactly when the last match is not on the last sample
      before it. After a match on that sample the cursor is moved on at the end of the chunk and,
      abs_cur_matched still being set, once more at the start of the next one. */
  lemma CutIsSafeIff(c: Chunk, c2: Chunk, w: Chunk, e: Engine, levels: bool)
    requires e.matched && !e.skipZero
    requires e.cur < c.end == c2.start < c2.end == w.end
    requires SameLevels(c, w, e.cur, c.end) && SameLevels(c2, w, c2.start, c2.end)
    ensures (forall q :: Askable(c, c2, w, q, levels) ==> AcrossCut(c, c2, e, q) == InOnePiece(w, e, q))
       <==> e.cur + 1 < c.end
  {
    if e.cur + 1 < c.end {
      forall q | Askable(c, c2, w, q, levels) ensures AcrossCut(c, c2, e, q) == InOnePiece(w, e, q) {
        NotLastIsSafe(c, c2, w, e, q, levels);
      }
    } else {
      SampleIsLost(c, c2, w, e, levels);
      assert AcrossCut(c, c2, e, NEXT_SAMPLE) != InOnePiece(w, e, NEXT_SAMPLE);
    }
  }

  lemma SampleIsLost(c: Chunk, c2: Chunk, w: Chunk, e: Engine, levels: bool)
    requires e.matched && !e.skipZero
    requires e.cur + 1 == c.end == c2.start < c2.end == w.end
    ensures Askable(c, c2, w, NEXT_SAMPLE, levels)
    ensures AcrossCut(c, c2, e, NEXT_SAMPLE) != InOnePiece(w, e, NEXT_SAMPLE)
  {
    hide Find;
    NextSampleAskable(c, c2, w, levels);
    ListReady(e, NEXT_SAMPLE);
    FindBounds(c, WithList(e, NEXT_SAMPLE), true);
    var r := Find(c, WithList(e, NEXT_SAMPLE), true);
    FindBounds(c2, r.1, true);
    NextSampleFound(w, e);
  }
}
