/** A protocol decoder instance: the fields of struct srd_decoder_inst that wait() works on, and the
    routines that update them in place. */
module Instance {
  import opened Bits
  import opened Samples
  import opened Matcher
  import opened Declarative
  import opened ConstBlocks
  import opened Chunking
  import opened ChunkInvariance
  import opened Skips

  /** Condition g is a lone SKIP 0, and every other condition is empty. */
  predicate LoneZero(conds: Conditions, g: nat) {
    && g < |conds|
    && |conds[g]| == 1 && ZeroSkip(conds[g][0]) && conds[g][0].skipped == 0
    && forall j :: 0 <= j < |conds| && j != g ==> conds[j] == []
  }

  /** The cursor stays inside the window while the conditions from j on are tested, in a pass that
      began at sample s0: no SKIP 0 is pending after a match, or there is nothing else to test. */
  predicate Inside(e: Engine, j: nat, s0: nat) {
    && !e.skipZero
    && if !e.matched || NoZeroSkip(e.conds) then e.cur == s0
       else exists g :: 0 <= g < |e.conds| && LoneZero(e.conds, g) && e.cur == (if j <= g then s0 else Dec(s0))
  }

  lemma GroupKeepsChannels(c: Chunk, e: Engine, j: nat, allow: bool, n: nat)
    requires j < |e.conds| && ChannelsBelow(e.conds, n)
    ensures ChannelsBelow(EvalGroup(c, e, j, allow).0.conds, n)
  {
    EvalTermsFailing(c, e.cur, e.prev, e.matched, e.skipZero, e.conds[j]);
    var r: Conditions := EvalGroup(c, e, j, allow).0.conds;
    forall k: int, i: int | 0 <= k < |r| && 0 <= i < |r[k]| && r[k][i].kind != Skip ensures 0 <= r[k][i].channel < n {
      assert r[k][i].channel == e.conds[k][i].channel && r[k][i].kind == e.conds[k][i].kind;
    }
  }

  lemma GroupStaysInside(c: Chunk, e: Engine, j: nat, s0: nat, allow: bool)
    requires Inside(e, j, s0) && j < |e.conds|
    ensures Inside(EvalGroup(c, e, j, allow).0, j + 1, s0)
  {
    var r := EvalGroup(c, e, j, allow).0;
    if !e.matched || NoZeroSkip(e.conds) {
      NoZeroNoDecrement(c, e.cur, e.prev, e.matched, e.conds[j]);
      if NoZeroSkip(e.conds) {
        forall k, i | 0 <= k < |r.conds| && 0 <= i < |r.conds[k]| ensures !ZeroSkip(r.conds[k][i]) {
          assert !ZeroSkip(e.conds[k][i]);
        }
      }
    } else {
      var g :| 0 <= g < |e.conds| && LoneZero(e.conds, g) && e.cur == (if j <= g then s0 else Dec(s0));
      if j == g {
        var t := e.conds[g][0];
        assert e.conds[g] == [t] && [t][1..] == [];
        var none := EvalTerms(c, e.cur, e.prev, e.matched, true, []);
        assert EvalTerms(c, e.cur, e.prev, e.matched, false, [t]) == TermsEval(true, [t] + none.terms, false, true);
        assert [t] + none.terms == [t];
        assert r.conds == e.conds[g := [t]] == e.conds;
      }
      assert LoneZero(r.conds, g);
      assert !ZeroSkip(e.conds[g][0]) ==> false;
    }
  }

  /** What c_pin reports for channel ch after a match at sample s. */
  function CachedPin(w: Chunk, inbufLen: nat, mapped: int, ch: int, s: nat): nat {
    if mapped < 0 then 0xFF
    else if !(0 <= ch < |w.lines|) then 0
    else match w.lines[ch]
      case Fixed(level) => if level then 1 else 0
      case Packed(bytes) =>
        if w.Origin() <= s && (s - w.Origin()) / 8 < (inbufLen + 7) / 8 && (s - w.Origin()) / 8 < |bytes|
        then ShiftedBit(bytes[(s - w.Origin()) / 8], (s - w.Origin()) % 8) as nat
        else 0
  }

  /** What one turn of the loop in wait() comes to: a match, a termination request, or another turn. */
  datatype Turn = Matched | Terminated | GoesOn

  class DecoderInst {
    const numChannels: nat          // dec_num_channels
    const channelMap: seq<int>      // dec_channelmap
    const oldPins: array<nat>       // old_pins_array
    const pinCache: array<nat>      // c_pin_cache; all 0xFF stands for NULL
    var conditionList: Conditions
    var matchArray: nat
    var absStart: nat               // abs_start_samplenum
    var absEnd: nat
    var absCur: nat
    var inbuf: seq<Line>            // inbuf and inbuf_const; empty when inbuf is NULL
    var inbufLen: nat
    var absCurMatched: bool
    var firstPos: bool
    var skipZero: bool
    var gotNewSamples: bool
    var handledAllSamples: bool
    var wantTerm: bool              // want_wait_terminate

    /** srd_inst_new and srd_inst_start. */
    constructor (channelMap: seq<int>, initialPins: seq<nat>)
      requires |initialPins| == |channelMap|
      ensures numChannels == |channelMap| && this.channelMap == channelMap
      ensures fresh(oldPins) && fresh(pinCache) && oldPins != pinCache
      ensures Shaped() && oldPins[..] == initialPins
      ensures Abs() == Engine(0, [], initialPins, false, false, 0, true)
      ensures !gotNewSamples && !handledAllSamples && !wantTerm
      ensures forall ch :: 0 <= ch < numChannels ==> pinCache[ch] == 0xFF
    {
      numChannels := |channelMap|;
      this.channelMap := channelMap;
      oldPins := new nat[|initialPins|](i requires 0 <= i < |initialPins| => initialPins[i]);
      pinCache := new nat[|channelMap|](_ => 0xFF);
      conditionList, matchArray := [], 0;
      absStart, absEnd, absCur := 0, 0, 0;
      inbuf, inbufLen := [], 0;
      absCurMatched, firstPos, skipZero := false, true, false;
      gotNewSamples, handledAllSamples, wantTerm := false, false, false;
      new;
      assert oldPins[..] == initialPins;
    }

    ghost predicate Shaped()
      reads this
    {
      && |channelMap| == numChannels == oldPins.Length == pinCache.Length
      && oldPins != pinCache
      && absStart % 8 == 0
    }

    /** A window is loaded, and every buffer covers it from absStart to absEnd. */
    ghost predicate Loaded()
      reads this
    {
      && Shaped()
      && |inbuf| == numChannels
      && absStart <= absCur
      && (forall ch :: 0 <= ch < numChannels && inbuf[ch].Packed? ==> absEnd - absStart <= 8 * |inbuf[ch].bytes|)
    }

    ghost function Window(): Chunk
      reads this
    {
      Chunk(absStart, absEnd, inbuf)
    }

    ghost function Abs(): Engine
      reads this, oldPins
    {
      Engine(absCur, conditionList, oldPins[..], absCurMatched, skipZero, matchArray, firstPos)
    }

    /** What find_match asks of its caller: a loaded window with a sample left, channels that exist,
        no more conditions than the match word has bits, and a cursor that stays inside. */
    ghost predicate Searchable()
      reads this, oldPins
    {
      && Loaded()
      && |conditionList| <= 31
      && ChannelsBelow(conditionList, numChannels)
      && Inside(Abs(), 0, absCur)
      && absCur < absEnd
    }

    /** The bit of channel ch under the cursor. */
    method ReadPin(ch: nat) returns (sample: nat, isConst: bool)
      requires Loaded() && ch < numChannels && absCur < absEnd
      ensures sample == Window().Pin(ch, absCur) && isConst == Window().IsFixed(ch)
    {
      match inbuf[ch] {
        case Fixed(level) =>
          sample := if level then 1 else 0;
          isConst := true;
        case Packed(bytes) =>
          var pos := (absCur - absStart) / 8;
          var bitOffset := (absCur - absStart) % 8;
          sample := if TestBit(bytes[pos], bitOffset) then 1 else 0;
          isConst := false;
      }
    }

    method UpdateOldPins()
      requires Loaded() && absCur < absEnd
      modifies oldPins
      ensures oldPins[..] == Window().Pins(numChannels, absCur)
    {
      var i := 0;
      while i < numChannels
        invariant 0 <= i <= numChannels
        invariant forall k :: 0 <= k < i ==> oldPins[k] == Window().Pin(k, absCur)
      {
        var sample, _ := ReadPin(i);
        oldPins[i] := sample;
        i := i + 1;
      }
    }

    method UpdateOldPinsInitialPins()
      requires Loaded() && absCur < absEnd
      modifies oldPins
      ensures oldPins[..] == InitialPins(Window(), old(oldPins[..]), absCur)
    {
      var i := 0;
      while i < numChannels
        invariant 0 <= i <= numChannels
        invariant forall k :: 0 <= k < i ==> oldPins[k] == InitialPins(Window(), old(oldPins[..]), absCur)[k]
        invariant forall k :: i <= k < numChannels ==> oldPins[k] == old(oldPins[k])
      {
        if oldPins[i] == SAME_AS_SAMPLE0 {
          var sample, _ := ReadPin(i);
          oldPins[i] := sample;
        }
        i := i + 1;
      }
    }

    /** term_matches: test term i of condition j; a SKIP term that is not there yet counts. */
    method TermMatches(j: nat, i: nat) returns (ok: bool, skipAllow: bool)
      requires Shaped() && j < |conditionList| && i < |conditionList[j]|
      requires conditionList[j][i].kind != Skip ==>
                 Loaded() && absCur < absEnd && 0 <= conditionList[j][i].channel < numChannels
      modifies this`conditionList, this`skipZero
      ensures var t := old(conditionList)[j][i];
              && ok == TermHolds(Window(), absCur, oldPins[..], t)
              && conditionList == old(conditionList)[j := old(conditionList)[j][i := if ok then t else Failed(t)]]
              && skipZero == (old(skipZero) || (absCurMatched && ZeroSkip(t)))
              && skipAllow == (t.kind != Skip && Window().IsFixed(t.channel))
    {
      var term := conditionList[j][i];
      skipAllow := false;
      var oldSample, sample := 0, 0;
      if term.kind == Skip {
        if absCurMatched && term.toSkip == 0 {
          skipZero := true;
        }
      } else {
        sample, skipAllow := ReadPin(term.channel);
        oldSample := oldPins[term.channel];
      }
      ok := SampleMatches(oldSample, sample, term);
      if !ok && term.kind == Skip {
        term := term.(skipped := term.skipped + 1);
      }
      conditionList := conditionList[j := conditionList[j][i := term]];
    }

    /** all_terms_match */
    method AllTermsMatch(j: nat) returns (ok: bool, skipAllow: bool)
      requires Shaped() && j < |conditionList| && conditionList[j] != []
      requires forall i :: 0 <= i < |conditionList[j]| && conditionList[j][i].kind != Skip ==>
                 Loaded() && absCur < absEnd && 0 <= conditionList[j][i].channel < numChannels
      modifies this`conditionList, this`skipZero, this`absCur
      ensures var ts := old(conditionList)[j];
              var r := EvalTerms(old(Window()), old(absCur), oldPins[..], absCurMatched, old(skipZero), ts);
              && ok == r.ok
              && conditionList == old(conditionList)[j := r.terms]
              && skipZero == (!r.ok && r.skipZero)
              && absCur == (if r.ok && r.skipZero then Dec(old(absCur)) else old(absCur))
              && (!ok ==> skipAllow == r.skipAllow)
    {
      hide EvalTerms;
      ghost var ts, w, s, p, m := conditionList[j], Window(), absCur, oldPins[..], absCurMatched;
      ghost var full := EvalTerms(w, s, p, m, skipZero, ts);
      var i := 0;
      skipAllow := false;
      assert ts[0..] == ts;
      while i < |conditionList[j]|
        invariant 0 <= i <= |ts|
        invariant conditionList == old(conditionList) && absCur == s
        invariant EvalTerms(w, s, p, m, skipZero, ts[i..])
               == TermsEval(full.ok, full.terms[i..], full.skipAllow, full.skipZero)
        invariant full.terms[..i] == ts[..i]
      {
        assert ts[i..][0] == ts[i] && ts[i..][1..] == ts[i + 1..];
        ghost var z := skipZero;
        var b;
        b, skipAllow := TermMatches(j, i);
        if !b {
          FailingTerm(w, s, p, m, z, ts, i, full);
          return false, skipAllow;
        }
        HoldingTerm(w, s, p, m, z, ts, i, full);
        assert ts[i := ts[i]] == ts && old(conditionList)[j := ts] == old(conditionList);
        i := i + 1;
      }
      assert ts[i..] == [] && full.terms == ts;
      NoTermLeft(w, s, p, m, skipZero);
      assert old(conditionList)[j := ts] == old(conditionList);
      if skipZero {
        absCur := Dec(absCur);
        skipZero := false;
      }
      ok := true;
    }

    method HaveNonNullConds() returns (found: bool)
      ensures found == HasGroup(conditionList)
    {
      var l := 0;
      while l < |conditionList|
        invariant 0 <= l <= |conditionList|
        invariant forall k :: 0 <= k < l ==> conditionList[k] == []
      {
        if conditionList[l] != [] {
          return true;
        }
        l := l + 1;
      }
      return false;
    }

    /** After a match: move on to the next sample, which every SKIP term has then counted. */
    method BumpAfterMatch()
      modifies this`absCur, this`conditionList
      ensures absCur == old(absCur) + 1
      ensures conditionList == ResetSkips(old(conditionList))
    {
      absCur := absCur + 1;
      var l := 0;
      while l < |conditionList|
        invariant 0 <= l <= |conditionList| == |old(conditionList)| && absCur == old(absCur) + 1
        invariant forall k :: 0 <= k < l ==> conditionList[k] == ResetGroup(old(conditionList)[k])
        invariant forall k :: l <= k < |conditionList| ==> conditionList[k] == old(conditionList)[k]
      {
        var tl := 0;
        while tl < |conditionList[l]|
          invariant |conditionList| == |old(conditionList)| && absCur == old(absCur) + 1
          invariant 0 <= tl <= |conditionList[l]| == |old(conditionList)[l]|
          invariant forall k :: 0 <= k < l ==> conditionList[k] == ResetGroup(old(conditionList)[k])
          invariant forall k :: l < k < |conditionList| ==> conditionList[k] == old(conditionList)[k]
          invariant forall k :: 0 <= k < tl ==> conditionList[l][k] == ResetTerm(old(conditionList)[l][k])
          invariant forall k :: tl <= k < |conditionList[l]| ==> conditionList[l][k] == old(conditionList)[l][k]
        {
          var term := conditionList[l][tl];
          if term.kind == Skip && term.toSkip > 0 {
            conditionList := conditionList[l := conditionList[l][tl := term.(skipped := 1)]];
          }
          tl := tl + 1;
        }
        assert conditionList[l] == ResetGroup(old(conditionList)[l]);
        l := l + 1;
      }
    }

    /** Condition j at the current sample. */
    method TestCondition(j: nat, allowIn: bool, ghost s0: nat) returns (allow: bool)
      requires Loaded() && j < |conditionList| && ChannelsBelow(conditionList, numChannels)
      requires Inside(Abs(), j, s0) && s0 < absEnd
      modifies this`conditionList, this`skipZero, this`absCur, this`matchArray
      ensures (Abs(), allow) == EvalGroup(old(Window()), old(Abs()), j, allowIn)
      ensures ChannelsBelow(conditionList, numChannels) && Inside(Abs(), j + 1, s0)
    {
      hide EvalTerms;
      hide Inside;
      hide ChannelsBelow;
      ghost var w, e := Window(), Abs();
      GroupStaysInside(w, e, j, s0, allowIn);
      GroupKeepsChannels(w, e, j, allowIn, numChannels);
      allow := allowIn;
      if conditionList[j] != [] {
        NonSkipInPlace(e, j, s0, numChannels);
        var ok, skipAllow := AllTermsMatch(j);
        if ok {
          allow := false;
          matchArray := SetBit(matchArray, j);
        } else {
          allow := allow && skipAllow;
        }
      }
    }

    /** One pass over all conditions at the current sample: every condition is tested, even if
        another one has matched already. */
    method TestConditions(allowIn: bool) returns (allow: bool)
      requires Loaded() && |conditionList| <= 31 && ChannelsBelow(conditionList, numChannels)
      requires Inside(Abs(), 0, absCur) && absCur < absEnd && (absCurMatched ==> absStart < absCur)
      modifies this`conditionList, this`skipZero, this`absCur, this`matchArray
      ensures (Abs(), allow) == EvalGroups(old(Window()), old(Abs()), 0, allowIn)
      ensures ChannelsBelow(conditionList, numChannels)
      ensures Inside(Abs(), |conditionList|, old(absCur))
    {
      hide EvalGroup;
      hide Inside;
      hide ChannelsBelow;
      ghost var w, s0 := Window(), absCur;
      ghost var full := EvalGroups(w, Abs(), 0, allowIn);
      allow := allowIn;
      var j := 0;
      while j < |conditionList|
        invariant 0 <= j <= |conditionList| == |old(conditionList)|
        invariant full == EvalGroups(w, Abs(), j, allow)
        invariant ChannelsBelow(conditionList, numChannels) && Inside(Abs(), j, s0)
        invariant Window() == w && Loaded()
      {
        allow := TestCondition(j, allow, s0);
        InsideBounds(Abs(), j + 1, s0);
        j := j + 1;
      }
    }

    /** One pass of find_match's loop, up to its decision. */
    method TestSample(allowIn: bool) returns (allow: bool)
      requires Loaded() && |conditionList| <= 31 && ChannelsBelow(conditionList, numChannels)
      requires Inside(Abs(), 0, absCur) && absCur < absEnd && (absCurMatched ==> absStart < absCur)
      modifies this`conditionList, this`skipZero, this`absCur, this`matchArray, this`absCurMatched, oldPins
      ensures (Abs(), allow) == Step(old(Window()), old(Abs()), allowIn)
      ensures |conditionList| == |old(conditionList)| && ChannelsBelow(conditionList, numChannels)
      ensures Loaded() && !skipZero && absCurMatched == (matchArray != 0) && absCur < absEnd
    {
      hide EvalGroups;
      hide ChannelsBelow;
      ghost var e0 := Abs();
      allow := TestConditions(allowIn);
      InsideBounds(Abs(), |conditionList|, e0.cur);
      hide Inside;
      UpdateOldPins();
      absCurMatched := matchArray != 0;
    }

    /** find_match */
    method FindMatch() returns (found: bool)
      requires Searchable()
      modifies this`conditionList, this`skipZero, this`absCur, this`matchArray, this`firstPos, this`absCurMatched,
                oldPins
      ensures Matcher.FindMatch(old(Window()), old(Abs())) == (found, Abs())
      ensures ChannelsBelow(conditionList, numChannels) && |conditionList| == |old(conditionList)|
      ensures Loaded()
      ensures if found then absCur < absEnd else absCur >= absEnd
    {
      hide EvalTerms;
      hide EvalGroups;
      hide Step;
      hide ChannelsBelow;
      ghost var w, e := Window(), Abs();
      var nonNull := HaveNonNullConds();
      if !nonNull {
        return true;
      }
      matchArray := 0;
      if firstPos {
        firstPos := false;
        UpdateOldPinsInitialPins();
      }
      if absCurMatched {
        BumpAfterMatch();
      }
      PrepareStaysInside(w, e, numChannels);
      assert Abs() == Prepare(w, e);
      found := ScanOn();
    }

    /** The loop of find_match. */
    method ScanOn() returns (found: bool)
      requires Loaded() && |conditionList| <= 31 && ChannelsBelow(conditionList, numChannels)
      requires Inside(Abs(), 0, absCur) && (absCurMatched ==> absStart < absCur) && matchArray == 0
      modifies this`conditionList, this`skipZero, this`absCur, this`matchArray, this`absCurMatched, oldPins
      ensures Scan(old(Window()), old(Abs()), true) == (found, Abs())
      ensures |conditionList| == |old(conditionList)| && ChannelsBelow(conditionList, numChannels)
      ensures Loaded()
      ensures if found then absCur < absEnd else absCur >= absEnd
    {
      hide Step;
      hide ChannelsBelow;
      ghost var w := Window();
      var allSkipAllow := true;
      ghost var full := Scan(w, Abs(), true);
      while absCur < absEnd
        invariant Window() == w && Loaded() && matchArray == 0
        invariant |conditionList| == |old(conditionList)| && ChannelsBelow(conditionList, numChannels)
        invariant Inside(Abs(), 0, absCur) && (absCurMatched ==> absStart < absCur)
        invariant full == Scan(w, Abs(), allSkipAllow)
        decreases absEnd - absCur
      {
        allSkipAllow := TestSample(allSkipAllow);
        if absCurMatched {
          return true;
        }
        if allSkipAllow {
          absCur := absEnd;
        } else {
          absCur := absCur + 1;
        }
      }
      found := false;
    }

    /** process_samples_until_condition_match. When termination is requested it does nothing. A call of
        find_match that finds nothing uses up the window, so its loop is left in the first round. */
    method ProcessSamples() returns (found: bool)
      requires Shaped() && (!wantTerm ==> Searchable())
      modifies this`conditionList, this`skipZero, this`absCur, this`matchArray, this`firstPos, this`absCurMatched,
                oldPins
      ensures wantTerm ==> !found && Abs() == old(Abs())
      ensures !wantTerm ==> Matcher.FindMatch(old(Window()), old(Abs())) == (found, Abs())
      ensures !wantTerm ==> Loaded() && (found ==> absCur < absEnd)
    {
      if wantTerm {
        return false;
      }
      found := FindMatch();
      assert absCur >= absEnd || found;
    }

    /** One turn of the loop in c_decoder_wait_impl, from where it has woken up: leave if termination is
        requested; search the window; on a match remember the pins for c_pin, otherwise give the window
        back. The mutex is held, so no request comes in between. */
    method AnswerWait() returns (turn: Turn)
      requires Shaped() && (gotNewSamples || wantTerm) && (!wantTerm ==> Searchable())
      modifies this, oldPins, pinCache
      ensures Shaped() && wantTerm == old(wantTerm)
      ensures turn == if wantTerm then Terminated
                      else if Matcher.FindMatch(old(Window()), old(Abs())).0 then Matched else GoesOn
      ensures turn.Terminated? ==> Abs() == old(Abs()) && Window() == old(Window()) && pinCache[..] == old(pinCache[..])
                                   && gotNewSamples == old(gotNewSamples) && handledAllSamples == old(handledAllSamples)
      ensures turn.Matched? ==> Abs() == Matcher.FindMatch(old(Window()), old(Abs())).1.(first := false)
                                && Window() == old(Window()) && gotNewSamples
                                    && handledAllSamples == old(handledAllSamples)
                                && Loaded() && absCur < absEnd && inbufLen == old(inbufLen)
                                && forall ch :: 0 <= ch < numChannels ==>
                                     pinCache[ch] == CachedPin(old(Window()), old(inbufLen), channelMap[ch], ch, absCur)
      ensures turn.GoesOn? ==> Abs() == Matcher.FindMatch(old(Window()), old(Abs())).1
                               && inbuf == [] && absStart == 0 && absEnd == 0 && inbufLen == 0
                               && !gotNewSamples && handledAllSamples && pinCache[..] == old(pinCache[..])
    {
      hide Matcher.FindMatch, CachedPin, Inside, ChannelsBelow;
      if wantTerm {
        return Terminated;
      }
      var found := ProcessSamples();
      if found {
        firstPos := false;
        FillPinCache();
        turn := Matched;
      } else {
        gotNewSamples := false;
        handledAllSamples := true;
        absStart, absEnd := 0, 0;
        inbuf, inbufLen := [], 0;
        turn := GoesOn;
      }
    }

    /** The pin cache is filled from the window at the cursor. */
    method FillPinCache()
      requires Shaped() && |inbuf| == numChannels && absStart <= absCur
      requires forall ch :: 0 <= ch < numChannels && inbuf[ch].Packed? ==> (absCur - absStart) / 8 < |inbuf[ch].bytes|
      modifies pinCache
      ensures forall ch :: 0 <= ch < numChannels ==>
                pinCache[ch] == CachedPin(Window(), inbufLen, channelMap[ch], ch, absCur)
    {
      var i := 0;
      while i < numChannels
        invariant 0 <= i <= numChannels
        invariant forall ch :: 0 <= ch < i ==> pinCache[ch] == CachedPin(Window(), inbufLen, channelMap[ch], ch, absCur)
      {
        if channelMap[i] < 0 {
          pinCache[i] := 0xFF;
        } else if inbuf[i].Fixed? {
          pinCache[i] := if inbuf[i].level then 1 else 0;
        } else {
          var off := absCur - absStart;
          if off / 8 < (inbufLen + 7) / 8 {
            pinCache[i] := ShiftedBit(inbuf[i].bytes[off / 8], off % 8) as nat;
          } else {
            pinCache[i] := 0;
          }
        }
        i := i + 1;
      }
    }

    /** c_pin */
    method CPin(ch: int) returns (level: nat)
      requires Shaped()
      ensures level == if 0 <= ch < numChannels && channelMap[ch] >= 0 then pinCache[ch] else 0xFF
    {
      if ch < 0 {
        return 0xFF;
      }
      if ch >= numChannels || channelMap[ch] < 0 {
        return 0xFF;
      }
      return pinCache[ch];
    }

    /** srd_inst_decode up to waking the decoder: refuse a chunk that does not start at the cursor. */
    method LoadChunk(start: nat, end: nat, lines: seq<Line>, len: nat) returns (ok: bool)
      requires Shaped() && |lines| == numChannels
      modifies this`absCur, this`absStart, this`absEnd, this`inbuf, this`inbufLen, this`gotNewSamples,
                this`handledAllSamples
      ensures ok == (len > 0 && Accepts(old(Abs()), Chunk(start, end, lines)))
      ensures ok == (len > 0 && (old(firstPos) || start == old(absCur)) && start <= end)
      ensures ok ==> Abs() == old(Abs()).(cur := start) && gotNewSamples && !handledAllSamples
                     && Window() == Chunk(start - start % 8, end, lines) && inbufLen == len
      ensures !ok ==> Window() == old(Window()) && gotNewSamples == old(gotNewSamples)
                      && Abs() == (if len > 0 && old(firstPos) then old(Abs()).(cur := start) else old(Abs()))
      ensures Shaped()
    {
      if len == 0 {
        return false;
      }
      if firstPos {
        absCur := start;
      }
      if start != absCur || end < start {
        return false;
      }
      absStart, absEnd := start - start % 8, end;
      inbuf, inbufLen := lines, len;
      gotNewSamples := true;
      handledAllSamples := false;
      ok := true;
    }

    /** set_new_condition_list */
    method SetConditionList(conds: Conditions)
      requires Shaped()
      modifies this`conditionList
      ensures conditionList == Install(conds, absCurMatched)
    {
      conditionList := [];
      var i := 0;
      while i < |conds|
        invariant 0 <= i <= |conds| && |conditionList| == i
        invariant forall k :: 0 <= k < i ==> conditionList[k] == InstallGroup(conds[k], absCurMatched)
      {
        var termList: seq<Term> := [];
        var l := 0;
        while l < |conds[i]|
          invariant 0 <= l <= |conds[i]| && |termList| == l
          invariant forall k :: 0 <= k < l ==> termList[k] == InitTerm(conds[i][k], absCurMatched)
        {
          var term := conds[i][l];
          if term.kind == Skip {
            term := term.(skipped := if absCurMatched && term.toSkip != 0 then 1 else 0);
          }
          termList := termList + [term];
          l := l + 1;
        }
        assert termList == InstallGroup(conds[i], absCurMatched);
        conditionList := conditionList + [termList];
        i := i + 1;
      }
    }

    /** The start of c_decoder_wait_impl: a parsed list replaces the current one, its counters at zero; an
        empty argument list leaves the current one, its counters as they are. */
    method TakeParsedList(conds: Conditions)
      requires Shaped()
      modifies this`conditionList
      ensures conditionList == if conds != [] then conds else old(conditionList)
    {
      if conds != [] {
        conditionList := conds;
      }
    }

    /** The list Decoder_wait installs when it is called without conditions. */
    method SetCondlessWait()
      requires Shaped()
      modifies this`conditionList
      ensures Abs() == SetSkip(old(Abs()), CondlessCount(old(Abs())))
    {
      var count;
      if !firstPos && absCur != 0 {
        count := 1;
      } else if conditionList == [] {
        count := 0;
      } else {
        count := 1;
      }
      conditionList := [[Term(Skip, 0, count, if absCurMatched && count != 0 then 1 else 0)]];
    }
  }

  lemma InsideBounds(e: Engine, j: nat, s0: nat)
    requires Inside(e, j, s0)
    ensures !e.skipZero && (e.cur == s0 || (e.matched && e.cur == Dec(s0)))
  {
  }

  lemma PrepareStaysInside(c: Chunk, e: Engine, n: nat)
    requires Inside(e, 0, e.cur) && ChannelsBelow(e.conds, n)
    ensures var p := Prepare(c, e); Inside(p, 0, p.cur) && ChannelsBelow(p.conds, n)
  {
    var p := Prepare(c, e);
    var r: Conditions := p.conds;
    forall k: int, i: int | 0 <= k < |r| && 0 <= i < |r[k]|
      ensures r[k][i] == ResetTerm(e.conds[k][i]) || r[k][i] == e.conds[k][i]
    {
    }
    if e.matched {
      if NoZeroSkip(e.conds) {
        forall k, i | 0 <= k < |r| && 0 <= i < |r[k]| ensures !ZeroSkip(r[k][i]) {
          assert !ZeroSkip(e.conds[k][i]);
        }
      } else {
        var g :| 0 <= g < |e.conds| && LoneZero(e.conds, g);
        assert LoneZero(r, g);
        assert ZeroSkip(r[g][0]);
      }
    }
  }

  lemma NoTermLeft(c: Chunk, s: nat, p: seq<nat>, m: bool, z: bool)
    ensures EvalTerms(c, s, p, m, z, []) == TermsEval(true, [], false, z)
  {
  }

  lemma FailingTerm(c: Chunk, s: nat, p: seq<nat>, m: bool, z: bool, ts: seq<Term>, i: nat, full: TermsEval)
    requires i < |ts| == |full.terms| && full.terms[..i] == ts[..i] && !TermHolds(c, s, p, ts[i])
    requires EvalTerms(c, s, p, m, z, ts[i..]) == TermsEval(full.ok, full.terms[i..], full.skipAllow, full.skipZero)
    ensures !full.ok && full.terms == ts[i := Failed(ts[i])]
    ensures full.skipZero == (z || (m && ZeroSkip(ts[i])))
              && full.skipAllow == (ts[i].kind != Skip && c.IsFixed(ts[i].channel))
  {
    assert full.terms == full.terms[..i] + full.terms[i..];
    assert ts[i := Failed(ts[i])] == ts[..i] + ([Failed(ts[i])] + ts[i..][1..]);
  }

  lemma HoldingTerm(c: Chunk, s: nat, p: seq<nat>, m: bool, z: bool, ts: seq<Term>, i: nat, full: TermsEval)
    requires i < |ts| == |full.terms| && full.terms[..i] == ts[..i] && TermHolds(c, s, p, ts[i])
    requires EvalTerms(c, s, p, m, z, ts[i..]) == TermsEval(full.ok, full.terms[i..], full.skipAllow, full.skipZero)
    ensures EvalTerms(c, s, p, m, z || (m && ZeroSkip(ts[i])), ts[i + 1..])
         == TermsEval(full.ok, full.terms[i + 1..], full.skipAllow, full.skipZero)
    ensures full.terms[..i + 1] == ts[..i + 1]
  {
    assert ts[i..][1..] == ts[i + 1..];
    var r := EvalTerms(c, s, p, m, z || (m && ZeroSkip(ts[i])), ts[i + 1..]);
    assert full.terms[i..] == [ts[i]] + r.terms;
    assert full.terms[i + 1..] == full.terms[i..][1..] == r.terms;
    assert full.terms[..i + 1] == full.terms[..i] + [full.terms[i..][0]];
  }

  /** Where a term on a channel is tested, the cursor is where the pass began. */
  lemma NonSkipInPlace(e: Engine, j: nat, s0: nat, n: nat)
    requires Inside(e, j, s0) && j < |e.conds| && ChannelsBelow(e.conds, n)
    ensures forall i :: 0 <= i < |e.conds[j]| && e.conds[j][i].kind != Skip ==>
              e.cur == s0 && 0 <= e.conds[j][i].channel < n
  {
  }
}
