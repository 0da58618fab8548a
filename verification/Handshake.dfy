/**
 * The hand-over of sample chunks between the thread that calls srd_inst_decode and the thread of a
 * C decoder, with a third thread that may request termination at any time. One action is one
 * access to the shared state or one change of the mutex; a run is any sequence of actions.
 */
module Handshake {
  datatype Option<T> = None | Some(value: T)

  datatype Thread = Producer | Decoder | Terminator

  /** Where srd_inst_decode is. From Loaded on the call has handed over its chunk. */
  datatype ProducerAt = PIdle | PLocking | PStoring | PStored | PRelocking | PTesting | PAsleep | PWoken | PLeaving

  /** Where the decoder thread is: in decode() between two waits, or in c_decoder_wait_impl. */
  datatype DecoderAt = NoThread | DComputing | DLocking | DTesting | DAsleep | DWoken | DSearching | DLeaving
      | DHandling
                     | DExitLocking | DExiting | DExitLeaving | DExited

  datatype TerminatorAt = TIdle | TLocking | TSetting | TLeaving

  datatype State = State(
    owner: Option<Thread>,     // data_mutex
    gotNew: bool,              // got_new_samples
    handled: bool,             // handled_all_samples
    wantTerm: bool,            // want_wait_terminate
    inbuf: Option<nat>,        // the chunk inbuf points to, named by the call that supplied it
    call: nat,                 // the running, or else the last, call of srd_inst_decode
    p: ProducerAt,
    d: DecoderAt,
    t: TerminatorAt)

  datatype Action =
    | PCall | PLock | PStore | PUnlock | PRelock | PTest | PSpurious | PReacquire | PReturn
    | DEnterWait | DLock | DTest | DSpurious | DReacquire | DRead | DMatch | DNoMatch | DUnlock | DHandledUnlock
    | DFinish | DExitLock | DExitStore | DExitUnlock
    | TRequest | TLock | TStore | TUnlock
    | JoinAndReset

  const START := State(None, false, false, false, None, 0, PIdle, NoThread, TIdle)

  // g_cond_signal wakes the one thread that can be asleep on the condition.

  function SignalGotNew(s: State): State {
    if s.d == DAsleep then s.(d := DWoken) else s
  }

  function SignalHandled(s: State): State {
    if s.p == PAsleep then s.(p := PWoken) else s
  }

  predicate Enabled(s: State, a: Action) {
    match a
    // srd_inst_decode
    case PCall => s.p == PIdle
    case PLock => s.p == PLocking && s.owner == None
    case PStore => s.p == PStoring
    case PUnlock => s.p == PStored
    case PRelock => s.p == PRelocking && s.owner == None
    case PTest => s.p == PTesting
    case PSpurious => s.p == PAsleep
    case PReacquire => s.p == PWoken && s.owner == None
    case PReturn => s.p == PLeaving
    // the decoder thread
    case DEnterWait => s.d == DComputing
    case DLock => s.d == DLocking && s.owner == None
    case DTest => s.d == DTesting
    case DSpurious => s.d == DAsleep
    case DReacquire => s.d == DWoken && s.owner == None
    case DRead => s.d == DSearching
    case DMatch => s.d == DSearching
    case DNoMatch => s.d == DSearching
    case DUnlock => s.d == DLeaving
    case DHandledUnlock => s.d == DHandling
    case DFinish => s.d == DComputing
    case DExitLock => s.d == DExitLocking && s.owner == None
    case DExitStore => s.d == DExiting
    case DExitUnlock => s.d == DExitLeaving
    // srd_inst_join_decode_thread up to the join, or srd_inst_free_all
    case TRequest => s.t == TIdle && s.d != NoThread
    case TLock => s.t == TLocking && s.owner == None
    case TStore => s.t == TSetting
    case TUnlock => s.t == TLeaving
    // the join has returned; srd_inst_reset_state
    case JoinAndReset => s.p == PIdle && s.d == DExited && s.t == TIdle
  }

  function Apply(s: State, a: Action): State
    requires Enabled(s, a)
  {
    match a
    case PCall => s.(p := PLocking, call := s.call + 1, d := if s.d == NoThread then DComputing else s.d)
    case PLock => s.(p := PStoring, owner := Some(Producer))
    case PStore => SignalGotNew(s.(p := PStored, inbuf := Some(s.call), gotNew := true, handled := false))
    case PUnlock => s.(p := PRelocking, owner := None)
    case PRelock => s.(p := PTesting, owner := Some(Producer))
    case PTest => if !s.handled && !s.wantTerm then s.(p := PAsleep, owner := None) else s.(p := PLeaving)
    case PSpurious => s.(p := PWoken)
    case PReacquire => s.(p := PTesting, owner := Some(Producer))
    case PReturn => s.(p := PIdle, owner := None)
    case DEnterWait => s.(d := DLocking)
    case DLock => s.(d := DTesting, owner := Some(Decoder))
    case DTest =>
      if !s.gotNew && !s.wantTerm then s.(d := DAsleep, owner := None)
      else if s.wantTerm then s.(d := DLeaving)
      else s.(d := DSearching)
    case DSpurious => s.(d := DWoken)
    case DReacquire => s.(d := DTesting, owner := Some(Decoder))
    case DRead => s
    case DMatch => s.(d := DLeaving)
    case DNoMatch => SignalHandled(s.(d := DHandling, gotNew := false, handled := true, inbuf := None))
    case DUnlock => s.(d := DComputing, owner := None)
    case DHandledUnlock => s.(d := if s.wantTerm then DComputing else DLocking, owner := None)
    case DFinish => s.(d := DExitLocking)
    case DExitLock => s.(d := DExiting, owner := Some(Decoder))
    case DExitStore => SignalHandled(s.(d := DExitLeaving, wantTerm := true, handled := true))
    case DExitUnlock => s.(d := DExited, owner := None)
    case TRequest => s.(t := TLocking)
    case TLock => s.(t := TSetting, owner := Some(Terminator))
    case TStore => SignalGotNew(s.(t := TLeaving, wantTerm := true))
    case TUnlock => s.(t := TIdle, owner := None)
    case JoinAndReset => s.(d := NoThread, gotNew := false, handled := false, wantTerm := false, inbuf := None)
  }

  predicate PHolds(s: State) { s.p in {PStoring, PStored, PTesting, PLeaving} }
  predicate DHolds(s: State) { s.d in {DTesting, DSearching, DLeaving, DHandling, DExiting, DExitLeaving} }
  predicate THolds(s: State) { s.t in {TSetting, TLeaving} }

  /** The running call has handed its chunk over and has not found out yet that it may return. */
  predicate HandedOver(s: State) {
    s.p in {PStored, PRelocking, PTesting, PAsleep, PWoken}
  }

  predicate Inv(s: State) {
    // mutual exclusion
    && (s.owner == Some(Producer) <==> PHolds(s))
    && (s.owner == Some(Decoder) <==> DHolds(s))
    && (s.owner == Some(Terminator) <==> THolds(s))
    // a chunk marked new, with no termination requested, is the one of the running call
    && (s.gotNew && !s.wantTerm ==> HandedOver(s) && s.inbuf == Some(s.call) && !s.handled)
    && (HandedOver(s) && !s.handled && !s.wantTerm ==> s.gotNew)
    && (HandedOver(s) && s.handled && !s.wantTerm ==> s.inbuf == None)
    && (s.p == PLeaving ==> s.wantTerm || (s.handled && !s.gotNew && s.inbuf == None))
    && (s.d == DSearching ==> s.gotNew && !s.wantTerm)
    && (s.d == DHandling ==> s.handled && !s.wantTerm)
    // sleepers miss no signal
    && (s.d == DAsleep ==> !s.gotNew && !s.wantTerm)
    && (s.p == PAsleep ==> !s.handled && s.d !in {DExitLeaving, DExited})
    // a thread that has exited has asked for termination
    && (s.d in {DExitLeaving, DExited} ==> s.wantTerm)
    && (s.d == NoThread ==> s.p == PIdle && s.t == TIdle && !s.gotNew && !s.handled && !s.wantTerm)
  }

  predicate ByProducer(a: Action) {
    a in {PCall, PLock, PStore, PUnlock, PRelock, PTest, PSpurious, PReacquire, PReturn}
  }

  predicate ByDecoderWait(a: Action) {
    a in {DEnterWait, DLock, DTest, DSpurious, DReacquire, DRead, DMatch, DNoMatch}
  }

  lemma ProducerKeepsInv(s: State, a: Action)
    requires Inv(s) && Enabled(s, a) && ByProducer(a)
    ensures Inv(Apply(s, a))
  {
  }

  lemma WaitKeepsInv(s: State, a: Action)
    requires Inv(s) && Enabled(s, a) && ByDecoderWait(a)
    ensures Inv(Apply(s, a))
  {
  }

  lemma RestKeepsInv(s: State, a: Action)
    requires Inv(s) && Enabled(s, a) && !ByProducer(a) && !ByDecoderWait(a)
    ensures Inv(Apply(s, a))
  {
  }

  /** Every action keeps the invariant. */
  lemma StepKeepsInv(s: State, a: Action)
    requires Inv(s) && Enabled(s, a)
    ensures Inv(Apply(s, a))
  {
    hide Inv;
    hide Apply;
    if ByProducer(a) {
      ProducerKeepsInv(s, a);
    } else if ByDecoderWait(a) {
      WaitKeepsInv(s, a);
    } else {
      RestKeepsInv(s, a);
    }
  }

  /** A run: every action was possible when it was taken. */
  predicate Run(s: State, actions: seq<Action>)
    decreases actions
  {
    actions == [] || (Enabled(s, actions[0]) && Run(Apply(s, actions[0]), actions[1..]))
  }

  function After(s: State, actions: seq<Action>): State
    requires Run(s, actions)
    decreases actions
  {
    if actions == [] then s else After(Apply(s, actions[0]), actions[1..])
  }

  lemma {:induction false} RunKeepsInv(s: State, actions: seq<Action>)
    requires Inv(s) && Run(s, actions)
    ensures Inv(After(s, actions))
    decreases actions
  {
    if actions == [] {
    } else {
      StepKeepsInv(s, actions[0]);
      RunKeepsInv(Apply(s, actions[0]), actions[1..]);
    }
  }

  lemma ReachableInv(actions: seq<Action>)
    requires Run(START, actions)
    ensures Inv(After(START, actions))
  {
    RunKeepsInv(START, actions);
  }

  /** Every read of inbuf by wait() happens under the mutex, while the chunk is marked new and no
      termination is requested, and the chunk is that of a call of srd_inst_decode which has handed
      it over and has not returned. */
  lemma ReadsAreSafe(actions: seq<Action>)
    requires Run(START, actions)
    ensures var s := After(START, actions);
            Enabled(s, DRead) ==>
                s.owner == Some(Decoder) && s.gotNew && !s.wantTerm && s.inbuf == Some(s.call) && HandedOver(s)
  {
    ReachableInv(actions);
  }

  /** A call that returns without a termination request has had its chunk handled: nothing is marked
      new any more and inbuf points nowhere. */
  lemma ReturnMeansHandled(actions: seq<Action>)
    requires Run(START, actions)
    ensures var s := After(START, actions);
            Enabled(s, PReturn) ==> s.wantTerm || (s.handled && !s.gotNew && s.inbuf == None)
  {
    ReachableInv(actions);
  }

  /** What changes the shared flags, and into what. */
  lemma FlagsChange(s: State, a: Action)
    requires Enabled(s, a)
    ensures var t := Apply(s, a);
            && (t.gotNew != s.gotNew ==> if t.gotNew then a == PStore else a in {DNoMatch, JoinAndReset})
            && (t.handled != s.handled ==>
                if t.handled then a in {DNoMatch, DExitStore} else a in {PStore, JoinAndReset})
            && (t.wantTerm != s.wantTerm ==> if t.wantTerm then a in {TStore, DExitStore} else a == JoinAndReset)
            && (t.inbuf != s.inbuf ==> a in {PStore, DNoMatch, JoinAndReset})
            && (a == DNoMatch ==> !t.gotNew && t.handled && t.inbuf == None)
            && (a == DExitStore ==> t.wantTerm && t.handled)
            && (a == PStore ==> t.gotNew && !t.handled && t.inbuf == Some(s.call))
  {
  }

  /** wait() returns to the decoder by unlocking after a match or a request, and in no other way; when a
      chunk is used up it goes back to waiting. */
  lemma WaitReturns(s: State, a: Action)
    requires Inv(s) && Enabled(s, a)
    ensures s.d != DComputing ==>
              (Apply(s, a).d == DComputing <==> (a == DUnlock && s.d == DLeaving) || (a == PCall && s.d == NoThread))
    ensures Apply(s, a).d == DLeaving && s.d != DLeaving ==> a == DMatch || (a == DTest && s.wantTerm)
    ensures a == DMatch || (a == DTest && s.wantTerm) ==> Apply(s, a).d == DLeaving
    ensures a == DHandledUnlock ==> Apply(s, a).d == DLocking
  {
    if ByProducer(a) {
    } else if ByDecoderWait(a) {
    } else {
    }
  }

  /** The call whose chunk the decoder has searched to its end since a chunk was last handed over. */
  function Searched(actions: seq<Action>): Option<nat>
    requires Run(START, actions)
    decreases |actions|
  {
    if actions == [] then None
    else
      var n := |actions| - 1;
      RunPrefix(START, actions, n);
      if actions[n] == PStore then None
      else if actions[n] == DNoMatch then After(START, actions[..n]).inbuf
      else Searched(actions[..n])
  }

  lemma {:induction false} RunPrefix(s: State, actions: seq<Action>, n: nat)
    requires n <= |actions| && Run(s, actions)
    ensures Run(s, actions[..n])
    ensures n < |actions| ==> Run(s, actions[..n + 1]) && Enabled(After(s, actions[..n]), actions[n])
    ensures n < |actions| ==> After(s, actions[..n + 1]) == Apply(After(s, actions[..n]), actions[n])
    decreases actions
  {
    if n == 0 {
      if actions != [] {
        assert actions[..1] == [actions[0]] && [actions[0]][1..] == [];
      }
    } else {
      RunPrefix(Apply(s, actions[0]), actions[1..], n - 1);
      assert actions[..n][1..] == actions[1..][..n - 1] && actions[..n][0] == actions[0];
      if n < |actions| {
        assert actions[..n + 1][1..] == actions[1..][..n] && actions[..n + 1][0] == actions[0];
      }
    }
  }

  lemma {:induction false} HandledIsSearched(actions: seq<Action>)
    requires Run(START, actions)
    ensures var s := After(START, actions);
            s.handled && !s.wantTerm && s.p !in {PLocking, PStoring} ==> Searched(actions) == Some(s.call)
    decreases |actions|
  {
    if actions == [] {
    } else {
      var n := |actions| - 1;
      assert actions[..n + 1] == actions;
      RunPrefix(START, actions, n);
      HandledIsSearched(actions[..n]);
      ReachableInv(actions[..n]);
      SearchedStep(After(START, actions[..n]), actions[n]);
    }
  }

  /** What one action does to it. */
  lemma SearchedStep(s: State, a: Action)
    requires Inv(s) && Enabled(s, a)
    ensures var t := Apply(s, a);
            t.handled && !t.wantTerm && t.p !in {PLocking, PStoring} ==>
              && a != PStore
              && (a == DNoMatch ==> s.inbuf == Some(t.call))
              && (a != DNoMatch ==> s.handled && !s.wantTerm && s.p !in {PLocking, PStoring} && s.call == t.call)
  {
  }

  /** A call of srd_inst_decode that returns without a termination request has had its own chunk, and no
      other, searched to the end by the decoder since it handed the chunk over. */
  lemma ReturnMeansSearched(actions: seq<Action>)
    requires Run(START, actions)
    ensures var s := After(START, actions);
            Enabled(s, PReturn) && !s.wantTerm ==> Searched(actions) == Some(s.call)
  {
    ReachableInv(actions);
    HandledIsSearched(actions);
  }

  /** A chunk stays with the decoder through any number of matches: until it is searched to its end or
      termination is requested, it stays new and pointed to, its call cannot return, and the decoder's
      next look at the flags goes on searching it. */
  lemma {:induction false} ChunkStays(s: State, actions: seq<Action>)
    requires Inv(s) && s.gotNew && !s.wantTerm && Run(s, actions)
    requires DNoMatch !in actions && TStore !in actions && DExitStore !in actions
    ensures var t := After(s, actions);
            && t.gotNew && !t.handled && !t.wantTerm && t.inbuf == s.inbuf == Some(t.call) && t.call == s.call
            && !Enabled(t, PReturn)
            && (Enabled(t, DTest) ==> Apply(t, DTest).d == DSearching && Apply(t, DTest).inbuf == s.inbuf)
    decreases actions
  {
    if actions == [] {
    } else {
      var a := actions[0];
      assert a in actions;
      StepKeepsInv(s, a);
      OneStays(s, a);
      assert forall x :: x in actions[1..] ==> x in actions;
      ChunkStays(Apply(s, a), actions[1..]);
    }
  }

  lemma OneStays(s: State, a: Action)
    requires Inv(s) && s.gotNew && !s.wantTerm && Enabled(s, a) && a !in {DNoMatch, TStore, DExitStore}
    ensures var t := Apply(s, a); t.gotNew && !t.wantTerm && t.inbuf == s.inbuf && t.call == s.call
  {
  }

  /** Once termination is requested, wait() never touches a buffer again until the thread has been
      joined and the instance reset. */
  lemma {:induction false} NoReadAfterRequest(s: State, actions: seq<Action>)
    requires Inv(s) && s.wantTerm && Run(s, actions) && JoinAndReset !in actions
    ensures After(s, actions).wantTerm && !Enabled(After(s, actions), DRead)
    decreases actions
  {
    if actions == [] {
    } else {
      assert actions[0] != JoinAndReset;
      StepKeepsInv(s, actions[0]);
      NoReadAfterRequest(Apply(s, actions[0]), actions[1..]);
    }
  }

  /** The actions that move a thread forward by itself: no new request and no spurious wake-up. */
  predicate Progress(a: Action) {
    a !in {PCall, DRead, DFinish, PSpurious, DSpurious, TRequest, JoinAndReset}
  }

  function NextOf(s: State): Action {
    if s.owner == Some(Producer) then
      (if s.p == PStoring then PStore else if s.p == PStored then PUnlock else if s.p == PTesting then PTest
          else PReturn)
    else if s.owner == Some(Decoder) then
      (if s.d == DTesting then DTest else if s.d == DSearching then DNoMatch else if s.d == DLeaving then DUnlock
       else if s.d == DHandling then DHandledUnlock else if s.d == DExiting then DExitStore else DExitUnlock)
    else if s.owner == Some(Terminator) then (if s.t == TSetting then TStore else TUnlock)
    else if s.p == PLocking then PLock
    else if s.p == PRelocking then PRelock
    else if s.p == PWoken then PReacquire
    else if s.d == DComputing then DEnterWait
    else if s.d == DLocking then DLock
    else if s.d == DWoken then DReacquire
    else DExitLock
  }

  lemma SomeoneMoves(s: State)
    requires Inv(s)
    ensures !(s.p == PAsleep && s.d == DAsleep)
    ensures s.p == PAsleep ==> s.d !in {NoThread, DExited}
    ensures s.p != PIdle ==> Enabled(s, NextOf(s)) && Progress(NextOf(s))
  {
    if s.p == PAsleep {
      assert s.gotNew || s.wantTerm;
    }
    match s.owner {
      case None => assert !PHolds(s) && !DHolds(s) && !THolds(s);
      case Some(Producer) => assert PHolds(s);
      case Some(Decoder) => assert DHolds(s);
      case Some(Terminator) => assert THolds(s);
    }
  }

  /** No deadlock and no lost wake-up: the two threads are never both asleep, and while a call of
      srd_inst_decode is under way some thread can always move on by itself. */
  lemma NoLostWakeUp(actions: seq<Action>)
    requires Run(START, actions)
    ensures var s := After(START, actions);
            && !(s.p == PAsleep && s.d == DAsleep)
            && (s.p == PAsleep ==> s.d !in {NoThread, DExited})
            && (s.p != PIdle ==> Enabled(s, NextOf(s)) && Progress(NextOf(s)))
  {
    hide Inv;
    ReachableInv(actions);
    SomeoneMoves(After(START, actions));
  }

  /** The action is possible and leads to t. */
  predicate Goes(s: State, a: Action, t: State) {
    Enabled(s, a) && Apply(s, a) == t
  }

  // One run from the start to the join, in parts.

  /** A first chunk is handed over, */
  lemma HandsOver()
    ensures Goes(State(None, false, false, false, None, 0, PIdle, NoThread, TIdle),
                 PCall, State(None, false, false, false, None, 1, PLocking, DComputing, TIdle))
    ensures Goes(State(None, false, false, false, None, 1, PLocking, DComputing, TIdle),
                 PLock, State(Some(Producer), false, false, false, None, 1, PStoring, DComputing, TIdle))
    ensures Goes(State(Some(Producer), false, false, false, None, 1, PStoring, DComputing, TIdle),
                 PStore, State(Some(Producer), true, false, false, Some(1), 1, PStored, DComputing, TIdle))
  {
  }

  /** and the decoder thread waits and is served at once; */
  lemma WaitsFirst()
    ensures Goes(State(Some(Producer), true, false, false, Some(1), 1, PStored, DComputing, TIdle),
                 PUnlock, State(None, true, false, false, Some(1), 1, PRelocking, DComputing, TIdle))
    ensures Goes(State(None, true, false, false, Some(1), 1, PRelocking, DComputing, TIdle),
                 DEnterWait, State(None, true, false, false, Some(1), 1, PRelocking, DLocking, TIdle))
    ensures Goes(State(None, true, false, false, Some(1), 1, PRelocking, DLocking, TIdle),
                 DLock, State(Some(Decoder), true, false, false, Some(1), 1, PRelocking, DTesting, TIdle))
    ensures Goes(State(Some(Decoder), true, false, false, Some(1), 1, PRelocking, DTesting, TIdle),
                 DTest, State(Some(Decoder), true, false, false, Some(1), 1, PRelocking, DSearching, TIdle))
  {
  }

  /** it finds a match and returns to the decoder. */
  lemma FindsMatch()
    ensures Goes(State(Some(Decoder), true, false, false, Some(1), 1, PRelocking, DSearching, TIdle),
                 DRead, State(Some(Decoder), true, false, false, Some(1), 1, PRelocking, DSearching, TIdle))
    ensures Goes(State(Some(Decoder), true, false, false, Some(1), 1, PRelocking, DSearching, TIdle),
                 DMatch, State(Some(Decoder), true, false, false, Some(1), 1, PRelocking, DLeaving, TIdle))
    ensures Goes(State(Some(Decoder), true, false, false, Some(1), 1, PRelocking, DLeaving, TIdle),
                 DUnlock, State(None, true, false, false, Some(1), 1, PRelocking, DComputing, TIdle))
  {
  }

  /** The call goes to sleep, and the decoder waits again. */
  lemma FallsAsleep()
    ensures Goes(State(None, true, false, false, Some(1), 1, PRelocking, DComputing, TIdle),
                 PRelock, State(Some(Producer), true, false, false, Some(1), 1, PTesting, DComputing, TIdle))
    ensures Goes(State(Some(Producer), true, false, false, Some(1), 1, PTesting, DComputing, TIdle),
                 PTest, State(None, true, false, false, Some(1), 1, PAsleep, DComputing, TIdle))
    ensures Goes(State(None, true, false, false, Some(1), 1, PAsleep, DComputing, TIdle),
                 DEnterWait, State(None, true, false, false, Some(1), 1, PAsleep, DLocking, TIdle))
  {
  }

  /** The wait goes on with the same chunk, */
  lemma SearchesOn()
    ensures Goes(State(None, true, false, false, Some(1), 1, PAsleep, DLocking, TIdle),
                 DLock, State(Some(Decoder), true, false, false, Some(1), 1, PAsleep, DTesting, TIdle))
    ensures Goes(State(Some(Decoder), true, false, false, Some(1), 1, PAsleep, DTesting, TIdle),
                 DTest, State(Some(Decoder), true, false, false, Some(1), 1, PAsleep, DSearching, TIdle))
    ensures Goes(State(Some(Decoder), true, false, false, Some(1), 1, PAsleep, DSearching, TIdle),
                 DRead, State(Some(Decoder), true, false, false, Some(1), 1, PAsleep, DSearching, TIdle))
  {
  }

  /** searches it to its end, gives it back, and waits on. */
  lemma UsesUp()
    ensures Goes(State(Some(Decoder), true, false, false, Some(1), 1, PAsleep, DSearching, TIdle),
                 DNoMatch, State(Some(Decoder), false, true, false, None, 1, PWoken, DHandling, TIdle))
    ensures Goes(State(Some(Decoder), false, true, false, None, 1, PWoken, DHandling, TIdle),
                 DHandledUnlock, State(None, false, true, false, None, 1, PWoken, DLocking, TIdle))
  {
  }

  /** The call wakes up and returns. */
  lemma Returns()
    ensures Goes(State(None, false, true, false, None, 1, PWoken, DLocking, TIdle),
                 PReacquire, State(Some(Producer), false, true, false, None, 1, PTesting, DLocking, TIdle))
    ensures Goes(State(Some(Producer), false, true, false, None, 1, PTesting, DLocking, TIdle),
                 PTest, State(Some(Producer), false, true, false, None, 1, PLeaving, DLocking, TIdle))
    ensures Goes(State(Some(Producer), false, true, false, None, 1, PLeaving, DLocking, TIdle),
                 PReturn, State(None, false, true, false, None, 1, PIdle, DLocking, TIdle))
  {
  }

  /** Termination is requested, */
  lemma Requests()
    ensures Goes(State(None, false, true, false, None, 1, PIdle, DLocking, TIdle),
                 TRequest, State(None, false, true, false, None, 1, PIdle, DLocking, TLocking))
    ensures Goes(State(None, false, true, false, None, 1, PIdle, DLocking, TLocking),
                 TLock, State(Some(Terminator), false, true, false, None, 1, PIdle, DLocking, TSetting))
  {
  }

  /** and marked, */
  lemma Marks()
    ensures Goes(State(Some(Terminator), false, true, false, None, 1, PIdle, DLocking, TSetting),
                 TStore, State(Some(Terminator), false, true, true, None, 1, PIdle, DLocking, TLeaving))
    ensures Goes(State(Some(Terminator), false, true, true, None, 1, PIdle, DLocking, TLeaving),
                 TUnlock, State(None, false, true, true, None, 1, PIdle, DLocking, TIdle))
  {
  }

  /** the wait returns because of it, */
  lemma LeavesWait()
    ensures Goes(State(None, false, true, true, None, 1, PIdle, DLocking, TIdle),
                 DLock, State(Some(Decoder), false, true, true, None, 1, PIdle, DTesting, TIdle))
    ensures Goes(State(Some(Decoder), false, true, true, None, 1, PIdle, DTesting, TIdle),
                 DTest, State(Some(Decoder), false, true, true, None, 1, PIdle, DLeaving, TIdle))
    ensures Goes(State(Some(Decoder), false, true, true, None, 1, PIdle, DLeaving, TIdle),
                 DUnlock, State(None, false, true, true, None, 1, PIdle, DComputing, TIdle))
  {
  }

  /** the decoder ends, */
  lemma LeavesDecode()
    ensures Goes(State(None, false, true, true, None, 1, PIdle, DComputing, TIdle),
                 DFinish, State(None, false, true, true, None, 1, PIdle, DExitLocking, TIdle))
    ensures Goes(State(None, false, true, true, None, 1, PIdle, DExitLocking, TIdle),
                 DExitLock, State(Some(Decoder), false, true, true, None, 1, PIdle, DExiting, TIdle))
    ensures Goes(State(Some(Decoder), false, true, true, None, 1, PIdle, DExiting, TIdle),
                 DExitStore, State(Some(Decoder), false, true, true, None, 1, PIdle, DExitLeaving, TIdle))
  {
  }

  /** and its thread is joined; the instance is as at the start again. */
  lemma Joins()
    ensures Goes(State(Some(Decoder), false, true, true, None, 1, PIdle, DExitLeaving, TIdle),
                 DExitUnlock, State(None, false, true, true, None, 1, PIdle, DExited, TIdle))
    ensures Goes(State(None, false, true, true, None, 1, PIdle, DExited, TIdle),
                 JoinAndReset, State(None, false, false, false, None, 1, PIdle, NoThread, TIdle))
  {
  }
}
