/** A decoder at work on an instance: its calls of wait(), and the chunks handed to it. */
module Decoding {
  import opened Samples
  import opened Matcher
  import opened ConstBlocks
  import opened EarliestMatches
  import opened Chunking
  import opened Instance
  import opened Pins
  import opened WaitArgs

  /** The decoder waits for lists that the instance can search. */
  ghost predicate Searches(d: Decoder, di: DecoderInst) {
    forall h :: |d(h)| <= 31 && ChannelsBelow(d(h), di.numChannels)
  }

  /** The instance holds a chunk with samples left, and waits for what the decoder asked. */
  ghost predicate AtWork(d: Decoder, di: DecoderInst, h: seq<Match>)
    reads di, di.oldPins
  {
    && Regular(d) && Searches(d, di)
    && Waiting(d, di.Abs(), h)
    && di.Loaded() && di.absCur < di.absEnd
    && di.gotNewSamples && !di.wantTerm
  }

  lemma AtWorkSearches(d: Decoder, di: DecoderInst, h: seq<Match>)
    requires AtWork(d, di, h)
    ensures di.Searchable() && HasGroup(di.conditionList)
  {
    ShapeKeepsChannels(di.conditionList, d(h), di.numChannels);
  }

  lemma ShapeKeepsChannels(x: Conditions, y: Conditions, n: nat)
    requires SameShape(x, y) && ChannelsBelow(y, n)
    ensures ChannelsBelow(x, n)
  {
    forall j: int, i: int | 0 <= j < |x| && 0 <= i < |x[j]| && x[j][i].kind != Skip ensures 0 <= x[j][i].channel < n {
      assert x[j][i] == y[j][i].(skipped := x[j][i].skipped);
    }
  }

  /** One turn of wait(), and what it reports. */
  method Turned(di: DecoderInst, ghost d: Decoder, h: seq<Match>) returns (found: bool, h': seq<Match>)
    requires AtWork(d, di, h)
    modifies di, di.oldPins, di.pinCache
    ensures di.Shaped() && di.wantTerm == old(di.wantTerm)
    ensures var r := Find(old(di.Window()), old(di.Abs()), true);
            && found == r.0 && di.Abs() == r.1
            && (!found ==> h' == h)
            && (found ==> h' == h + [Report(old(di.Window()), r.1)] && di.Window() == old(di.Window())
                          && di.Loaded() && di.absCur < di.absEnd && di.gotNewSamples)
  {
    AtWorkSearches(d, di, h);
    ghost var w, e := di.Window(), di.Abs();
    FindBounds(w, e, true);
    MatchRemembersPins(w, e);
    hide Scan, Prepare, Searches, Regular;
    var turn := di.AnswerWait();
    found, h' := turn.Matched?, h;
    if found {
      h' := h + [Match(di.absCur, di.matchArray, di.oldPins[..])];
    }
  }

  /** A search that finds a match leaves the instance ready for the next list. */
  method NextMatch(di: DecoderInst, d: Decoder, h: seq<Match>) returns (found: bool, h': seq<Match>)
    requires AtWork(d, di, h)
    modifies di, di.oldPins, di.pinCache
    ensures di.Shaped() && di.wantTerm == old(di.wantTerm)
    ensures var r := Find(old(di.Window()), old(di.Abs()), true);
            && found == r.0
            && (!found ==> di.Abs() == r.1 && h' == h)
            && (found ==> h' == h + [Report(old(di.Window()), r.1)] && di.Abs() == Answer(d, r.1, h')
                          && di.Window() == old(di.Window()) && AtWork(d, di, h'))
  {
    hide Find, Searches;
    FindBounds(di.Window(), di.Abs(), true);
    found, h' := Turned(di, d, h);
    if found {
      InstallKeeps(d(h'), di.absCurMatched);
      di.SetConditionList(d(h'));
    }
  }

  /** All the calls of wait() that one chunk answers: the class does what Drive says. */
  method AnswerChunk(di: DecoderInst, d: Decoder, h: seq<Match>) returns (h': seq<Match>)
    requires AtWork(d, di, h)
    modifies di, di.oldPins, di.pinCache
    ensures di.Shaped() && (di.Abs(), h') == Drive(old(di.Window()), d, old(di.Abs()), h, true)
  {
    hide Find;
    ghost var w := di.Window();
    ghost var all := Drive(w, d, di.Abs(), h, true);
    h' := h;
    var found := true;
    while found
      invariant found ==> AtWork(d, di, h') && di.Window() == w && all == Drive(w, d, di.Abs(), h', true)
      invariant !found ==> di.Shaped() && all == (di.Abs(), h')
      decreases found, w.end - di.absCur, if di.absCurMatched then 0 else 1
    {
      FindBounds(w, di.Abs(), true);
      found, h' := NextMatch(di, d, h');
    }
  }

  /** A C decoder: the arguments of its next c_wait, given the matches so far. */
  type CDecoder = seq<Match> -> seq<Arg>

  function Parsed(args: CDecoder): Decoder {
    h => if WellFormed(args(h)) then Parse(args(h), [], []) else []
  }

  /** A parsed list is a fresh one. */
  lemma ParsedIsFresh(args: CDecoder, h: seq<Match>)
    requires WellFormed(args(h))
    ensures Install(Parsed(args)(h), false) == Parsed(args)(h)
  {
    var q := Parsed(args)(h);
    ParsedFresh(args(h), [], []);
    forall j | 0 <= j < |q| ensures Install(q, false)[j] == q[j] {
      assert FreshTerms(q[j]);
    }
  }

  /** NextMatch for a C decoder, which goes on with c_wait: parse the arguments and take the list as it
      is. */
  method NextMatchC(di: DecoderInst, args: CDecoder, h: seq<Match>) returns (found: bool, h': seq<Match>)
    requires AtWork(Parsed(args), di, h) && forall g :: WellFormed(args(g))
    modifies di, di.oldPins, di.pinCache
    ensures di.Shaped() && di.wantTerm == old(di.wantTerm)
    ensures var r := Find(old(di.Window()), old(di.Abs()), true);
            && found == r.0
            && (!found ==> di.Abs() == r.1 && h' == h)
            && (found ==> h' == h + [Report(old(di.Window()), r.1)]
                          && di.Abs() == r.1.(conds := Install(Parsed(args)(h'), false))
                          && di.Window() == old(di.Window()) && AtWork(Parsed(args), di, h'))
  {
    hide Find, Searches;
    ghost var d := Parsed(args);
    FindBounds(di.Window(), di.Abs(), true);
    found, h' := Turned(di, d, h);
    if found {
      RegularList(d, h');
      ParsedIsFresh(args, h');
      InstallKeeps(d(h'), false);
      var conds := ParseArgs(args(h'));
      hide Parsed, Parse;
      di.TakeParsedList(conds);
    }
  }

  lemma RegularList(d: Decoder, h: seq<Match>)
    requires Regular(d)
    ensures d(h) != []
  {
    assert HasGroup(d(h));
  }

  /** It makes no difference to a run whether the counters of its list have been preset. */
  lemma PresetIsIdle(w: Chunk, d: Decoder, e: Engine, h: seq<Match>)
    requires Regular(d) && e.cur < w.end
    requires Waiting(d, Answer(d, e, h), h) && Waiting(d, e.(conds := Install(d(h), false)), h)
    ensures Drive(w, d, Answer(d, e, h), h, true) == Drive(w, d, e.(conds := Install(d(h), false)), h, true)
  {
    BothWaitsAgree(w, e, d(h));
  }

  /** All the calls of c_wait that one chunk answers: the same run. */
  method AnswerChunkC(di: DecoderInst, args: CDecoder, h: seq<Match>) returns (h': seq<Match>)
    requires AtWork(Parsed(args), di, h) && forall g :: WellFormed(args(g))
    modifies di, di.oldPins, di.pinCache
    ensures di.Shaped() && (di.Abs(), h') == Drive(old(di.Window()), Parsed(args), old(di.Abs()), h, true)
  {
    hide Find, Parsed;
    ghost var d := Parsed(args);
    ghost var w := di.Window();
    ghost var all := Drive(w, d, di.Abs(), h, true);
    h' := h;
    var found := true;
    while found
      invariant found ==> AtWork(d, di, h') && di.Window() == w && all == Drive(w, d, di.Abs(), h', true)
      invariant !found ==> di.Shaped() && all == (di.Abs(), h')
      decreases found, w.end - di.absCur, if di.absCurMatched then 0 else 1
    {
      FindBounds(w, di.Abs(), true);
      ghost var e1 := Find(w, di.Abs(), true).1;
      found, h' := NextMatchC(di, args, h');
      if found {
        InstallKeeps(d(h'), e1.matched);
        PresetIsIdle(w, d, e1, h');
      }
    }
  }

  /** Aligning the start of a chunk makes no difference to the run over it. */
  lemma {:induction false} DriveAligned(c: Chunk, d: Decoder, e: Engine, h: seq<Match>)
    requires Regular(d) && Waiting(d, e, h) && e.cur < c.end
    ensures Drive(Aligned(c), d, e, h, true) == Drive(c, d, e, h, true)
    decreases c.end - e.cur, if e.matched then 0 else 1
  {
    AlignmentIsInvisible(c, e);
    assert Find(Aligned(c), e, true) == Find(c, e, true);
    hide Find;
    FindBounds(c, e, true);
    var (found, e1) := Find(c, e, true);
    if !found {
    } else {
      var h1 := h + [Report(c, e1)];
      AlignedPins(c, |e1.prev|, e1.cur);
      InstallKeeps(d(h1), e1.matched);
      DriveAligned(c, d, Answer(d, e1, h1), h1);
    }
  }

  /** Setting the cursor is no concern of the wait under way. */
  lemma CursorAside(d: Decoder, e: Engine, s: nat, h: seq<Match>)
    requires Waiting(d, e, h)
    ensures Waiting(d, e.(cur := s), h)
  {
  }

  /** srd_inst_decode and the decoder's answer to it: the class does what Feed says. */
  method DecodeChunk(di: DecoderInst, d: Decoder, h: seq<Match>, start: nat, end: nat, lines: seq<Line>, len: nat)
    returns (h': seq<Match>)
    requires di.Shaped() && !di.wantTerm
    requires Regular(d) && Searches(d, di) && Waiting(d, di.Abs(), h)
    requires start < end && len > 0 && |lines| == di.numChannels
    requires forall ch :: 0 <= ch < |lines| && lines[ch].Packed? ==> end - (start - start % 8) <= 8 * |lines[ch].bytes|
    modifies di, di.oldPins, di.pinCache
    ensures di.Shaped() && (di.Abs(), h') == Feed(Chunk(start, end, lines), d, old(di.Abs()), h)
  {
    hide Drive, Waiting, Regular;
    ghost var c, e := Chunk(start, end, lines), di.Abs();
    h' := h;
    CursorAside(d, e, start, h);
    var ok := di.LoadChunk(start, end, lines, len);
    hide Accepts;
    if ok {
      assert di.Window() == Aligned(c);
      DriveAligned(c, d, di.Abs(), h);
      h' := AnswerChunk(di, d, h);
    }
  }

  /** wait() and then c_pin: every connected channel's pin is the one the matcher tested and remembers, if
      the announced length reaches the chunk's last byte. */
  method WaitAndReadPin(di: DecoderInst, ch: nat) returns (turn: Turn, level: nat)
    requires di.Searchable() && di.gotNewSamples && HasGroup(di.conditionList)
    requires ch < di.numChannels && di.channelMap[ch] >= 0
    requires (di.absEnd - 1 - di.absStart) / 8 < (di.inbufLen + 7) / 8
    modifies di, di.oldPins, di.pinCache
    ensures turn.Matched? ==> level == di.oldPins[ch] == di.Window().Pin(ch, di.absCur)
  {
    ghost var w, e := di.Window(), di.Abs();
    MatchRemembersPins(w, e);
    turn := di.AnswerWait();
    level := di.CPin(ch);
    if turn.Matched? {
      CachedPinAgrees(w, di.inbufLen, di.channelMap[ch], ch, di.absCur);
    }
  }
}
