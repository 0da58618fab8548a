/** The acquisition session: its table of event sources and the loop that runs them. */
module Session {
  import Interleave
  import PacketFeed
  import Mso

  /** struct source; the poll descriptor of the same index carries the same object. */
  datatype Source = Source(pollObject: int, timeout: int)

  function Objects(sources: seq<Source>): (r: seq<int>)
    ensures |r| == |sources|
    ensures forall i :: 0 <= i < |r| ==> r[i] == sources[i].pollObject
  {
    seq(|sources|, i requires 0 <= i < |sources| => sources[i].pollObject)
  }

  /** The table without its first source for the object. */
  function Without(sources: seq<Source>, pollObject: int): seq<Source> {
    if sources == [] then []
    else if sources[0].pollObject == pollObject then sources[1..]
    else [sources[0]] + Without(sources[1..], pollObject)
  }

  /** The first source for the object is at place i, or there is none. */
  lemma {:induction false} WithoutFirst(sources: seq<Source>, pollObject: int, i: nat)
    requires i <= |sources| && forall k :: 0 <= k < i ==> sources[k].pollObject != pollObject
    requires i < |sources| ==> sources[i].pollObject == pollObject
    ensures Without(sources, pollObject) == if i < |sources| then sources[..i] + sources[i + 1..] else sources
    decreases i
  {
    if i == 0 {
    } else {
      WithoutFirst(sources[1..], pollObject, i - 1);
      assert sources == [sources[0]] + sources[1..];
    }
  }

  class Session {
    var pollfds: seq<int>
    var sources: seq<Source>
    var sourceTimeout: int
    var running: bool
    var abortSession: bool

    /** sr_session_new */
    constructor ()
      ensures Valid() && sources == [] && !running && !abortSession
    {
      pollfds, sources, sourceTimeout, running, abortSession := [], [], -1, false, false;
    }

    /** The parallel arrays are in step, and an empty table has no timeout. */
    ghost predicate Valid()
      reads this
    {
      pollfds == Objects(sources) && (sources == [] ==> sourceTimeout == -1)
    }

    /** sr_session_source_add_internal */
    method SourceAdd(pollObject: int, timeout: int)
      requires Valid()
      modifies this`pollfds, this`sources, this`sourceTimeout
      ensures Valid() && sources == old(sources) + [Source(pollObject, timeout)]
      ensures var shorter := timeout > 0 && (old(sourceTimeout) == -1 || timeout < old(sourceTimeout));
              sourceTimeout == if shorter then timeout else old(sourceTimeout)
    {
      pollfds := pollfds + [pollObject];
      sources := sources + [Source(pollObject, timeout)];
      if timeout != sourceTimeout && timeout > 0 && (sourceTimeout == -1 || timeout < sourceTimeout) {
        sourceTimeout := timeout;
      }
    }

    method FindSource(pollObject: int) returns (i: nat)
      ensures i <= |sources|
      ensures i < |sources| ==> Without(sources, pollObject) == sources[..i] + sources[i + 1..]
      ensures i == |sources| ==> Without(sources, pollObject) == sources
    {
      hide Without;
      i := 0;
      while i < |sources| && sources[i].pollObject != pollObject
        invariant 0 <= i <= |sources|
        invariant forall k :: 0 <= k < i ==> sources[k].pollObject != pollObject
      {
        i := i + 1;
      }
      WithoutFirst(sources, pollObject, i);
    }

    /** sr_session_source_remove_internal: the first source for the object goes, the rest moves up. */
    method SourceRemove(pollObject: int) returns (bug: bool)
      requires Valid()
      modifies this`pollfds, this`sources, this`sourceTimeout
      ensures Valid() && bug == (old(sources) == [])
      ensures sources == Without(old(sources), pollObject)
    {
      hide Without;
      var i := FindSource(pollObject);
      bug := |sources| == 0;
      if i == |sources| {
        return;
      }
      if |sources| == 1 {
        sourceTimeout := -1;
        pollfds := [];
        sources := [];
      } else {
        pollfds := pollfds[..i] + pollfds[i + 1..];
        sources := sources[..i] + sources[i + 1..];
        assert pollfds == Objects(sources);
      }
    }

    /** sr_session_stop */
    method Stop()
      modifies this`abortSession
      ensures abortSession == (old(abortSession) || running)
    {
      if running {
        abortSession := true;
      }
    }

    /** The session is about to freewheel over the one source of a session file. */
    ghost predicate OneDummySource()
      reads this
    {
      Valid() && |sources| == 1 && sources[0].pollObject == -1 && !running && !abortSession
    }

    ghost predicate Finished()
      reads this
    {
      !running && !abortSession
    }

    /** sr_session_run over a logic or oscilloscope file. Round `stopIn` finds abort_session set, a
        negative `stopIn` stands for a run that nobody stops. */
    method RunFeed(feed: PacketFeed.Feed, stopIn: int)
      requires OneDummySource() && feed.Valid() && feed.registered && feed.sent == []
      modifies this, feed, feed.postBuf
      ensures Finished() && sources == [] && !feed.registered
      ensures EndsOnce(feed.sent) && WholeRows(feed.sent, feed.Group())
      ensures old(feed.Good()) ==> SentInOrder(feed, old(feed.Blocks()), stopIn < 0)
    {
      running := true;
      ghost var blocks, good := feed.Blocks(), feed.Good();
      var round := 0;
      while |sources| != 0
        invariant RoundInv(feed, blocks)
        invariant feed.postBuf == old(feed.postBuf) || fresh(feed.postBuf)
        invariant !feed.registered ==> EndsOnce(feed.sent) && (good ==> SentInOrder(feed, blocks, stopIn < 0))
        invariant good == feed.Good()
        decreases feed.registered, BlocksLeft(feed), BytesLeft(feed)
      {
        hide EndsOnce;
        hide SentInOrder;
        var abort := round == stopIn;
        Round(feed, if abort then -1 else 0, stopIn < 0);
        if abort {
          break;
        }
        round := round + 1;
      }
      abortSession := false;
      running := false;
    }

    /** A file in order was sent without an error, from its start, and if nobody stopped the run, all of
        it. */
    ghost predicate SentInOrder(feed: PacketFeed.Feed, blocks: nat, whole: bool)
      reads feed
    {
      && feed.sent != [] && feed.sent[|feed.sent| - 1] == PacketFeed.End(false)
      && PacketFeed.DataOf(feed.sent)
         <= PacketFeed.Stream(feed.archive, PacketFeed.DirsFrom(feed.archive, feed.n, 0), feed.Unit(), blocks)
      && (whole ==> PacketFeed.DataOf(feed.sent)
                    == PacketFeed.Stream(feed.archive, PacketFeed.DirsFrom(feed.archive, feed.n, 0), feed.Unit(),
                        blocks))
    }

    /** Between two rounds. */
    ghost predicate RoundInv(feed: PacketFeed.Feed, blocks: nat)
      reads this, feed
    {
      && Valid() && feed.Valid() && feed.Blocks() == blocks && WholeRows(feed.sent, feed.Group())
      && (if feed.registered then |sources| == 1 && sources[0].pollObject == -1 && AllData(feed.sent)
          else sources == [])
    }

    /** One round of the loop: the callback, which removes the source when it is done. */
    method Round(feed: PacketFeed.Feed, revents: int, ghost whole: bool)
      requires RoundInv(feed, feed.Blocks()) && feed.registered && (whole ==> revents != -1)
      modifies this`pollfds, this`sources, this`sourceTimeout, feed, feed.postBuf
      ensures RoundInv(feed, old(feed.Blocks())) && (feed.postBuf == old(feed.postBuf) || fresh(feed.postBuf))
      ensures !feed.registered ==> EndsOnce(feed.sent)
      ensures !feed.registered && old(feed.Good()) ==> SentInOrder(feed, old(feed.Blocks()), whole)
      ensures feed.registered ==> revents != -1
      ensures feed.registered ==> (BlocksLeft(feed) < old(BlocksLeft(feed))
                || (BlocksLeft(feed) == old(BlocksLeft(feed)) && BytesLeft(feed) < old(BytesLeft(feed))))
      ensures feed.registered ==> BlocksLeft(feed) >= 0 && BytesLeft(feed) >= 0
    {
      hide PacketFeed.Stream;
      hide PacketFeed.DataOf;
      hide PacketFeed.DirsFrom;
      hide PacketFeed.OnePacketMore, PacketFeed.Ended, PacketFeed.Place, WholeRows, AllData, EndsOnce;
      ghost var was := feed.sent;
      var _ := feed.Receive(revents);
      MoreWholeRows(was, feed.sent, feed.Group());
      MoreData(was, feed.sent, feed.Group());
      if !feed.registered {
        var _ := SourceRemove(-1);
      }
    }

    ghost function BlocksLeft(feed: PacketFeed.Feed): int
      reads feed
    {
      feed.Blocks() - feed.curBlock
    }

    ghost function BytesLeft(feed: PacketFeed.Feed): int
      reads feed
    {
      if feed.curBlock == 0 then 0
      else
        PacketFeed.BlockLen(feed.archive, PacketFeed.DirsFrom(feed.archive, feed.n, 0), feed.curBlock - 1)
        - feed.blockReadLen
    }

    /** sr_session_run over a mixed-signal file. Nobody stops it: an archive in order is sent block by
        block, logic before analog, and then comes one end packet; in any case exactly one does, and
        the table is left empty. */
    method RunMso(feed: Mso.MsoFeed)
      requires OneDummySource() && feed.Valid() && feed.registered && feed.sent == [] && feed.Steps() == 0
      modifies this, feed
      ensures Finished() && sources == [] && !feed.registered
      ensures MsoEndsOnce(feed.sent)
      ensures feed.Good() ==> feed.sent == feed.Expected(feed.logicBlocks + feed.analogBlocks + 1)
    {
      running := true;
      while |sources| != 0
        invariant MsoInv(feed)
        decreases feed.registered, feed.logicBlocks + feed.analogBlocks - feed.Steps()
      {
        hide MsoEndsOnce;
        MsoRound(feed, 0);
      }
      abortSession := false;
      running := false;
    }

    /** The same run, stopped: round `stopIn` is its last one. The callback sends the packet of that
        round and pays no more attention to being stopped, so an end packet is sent and the source is
        removed only if that was the last packet anyway. */
    method RunMsoStopped(feed: Mso.MsoFeed, stopIn: nat)
      requires OneDummySource() && feed.Valid() && feed.registered && feed.sent == [] && feed.Steps() == 0
      modifies this, feed
      ensures Finished() && feed.registered == (sources != [])
      // in any case: one packet a round, and at most one end packet, which is the last and empties the table
      ensures |feed.sent| <= stopIn + 1 && (feed.registered ==> |feed.sent| == stopIn + 1)
      ensures if feed.registered then NoMsoEnd(feed.sent) else MsoEndsOnce(feed.sent)
      ensures feed.Good() ==>
                var total := feed.logicBlocks + feed.analogBlocks;
                && feed.sent == feed.Expected(if stopIn < total then stopIn + 1 else total + 1)
                && (sources == [] <==> stopIn >= total)
                && (feed.registered <==> stopIn < total)
    {
      running := true;
      var round := 0;
      while |sources| != 0
        invariant MsoInv(feed) && 0 <= round <= stopIn + 1 && |feed.sent| == round
        invariant feed.registered ==> round <= stopIn
        invariant feed.registered ==> feed.Steps() == round
        invariant !feed.registered && feed.Good() ==> round == feed.logicBlocks + feed.analogBlocks + 1
        decreases stopIn + 1 - round
      {
        var abort := round == stopIn;
        MsoRound(feed, if abort then -1 else 0);
        if abort {
          break;
        }
        round := round + 1;
      }
      abortSession := false;
      running := false;
    }

    ghost predicate MsoInv(feed: Mso.MsoFeed)
      reads this, feed
    {
      && Valid() && feed.Valid()
      && (if feed.registered then |sources| == 1 && sources[0].pollObject == -1 && NoMsoEnd(feed.sent)
          else sources == [] && MsoEndsOnce(feed.sent))
    }

    method MsoRound(feed: Mso.MsoFeed, revents: int)
      requires MsoInv(feed) && feed.registered
      modifies this`pollfds, this`sources, this`sourceTimeout, feed
      ensures MsoInv(feed) && |feed.sent| == |old(feed.sent)| + 1
      ensures feed.registered ==> feed.Steps() == old(feed.Steps()) + 1 <= feed.logicBlocks + feed.analogBlocks
      ensures feed.Good() ==> (feed.registered <==> old(feed.Steps()) < feed.logicBlocks + feed.analogBlocks)
    {
      var _ := feed.Receive(revents);
      if !feed.registered {
        var _ := SourceRemove(-1);
      }
    }
  }

  predicate NoMsoEnd(sent: seq<Mso.Packet>) {
    forall k :: 0 <= k < |sent| ==> !sent[k].End?
  }

  predicate MsoEndsOnce(sent: seq<Mso.Packet>) {
    sent != [] && sent[|sent| - 1].End? && NoMsoEnd(sent[..|sent| - 1])
  }

  /** Only data packets. */
  predicate AllData(sent: seq<PacketFeed.Packet>) {
    forall k :: 0 <= k < |sent| ==> sent[k].Data?
  }

  /** Every data packet holds whole rows, one at least. */
  predicate WholeRows(sent: seq<PacketFeed.Packet>, group: nat)
    requires group > 0
  {
    forall k :: 0 <= k < |sent| && sent[k].Data? ==>
        |sent[k].bytes| >= group && Interleave.Whole(|sent[k].bytes|, group)
  }

  lemma MoreWholeRows(was: seq<PacketFeed.Packet>, now: seq<PacketFeed.Packet>, group: nat)
    requires group > 0 && WholeRows(was, group)
    requires PacketFeed.OnePacketMore(was, now, group) || PacketFeed.Ended(was, now, group)
    ensures WholeRows(now, group)
  {
    hide Interleave.Whole;
    forall k | 0 <= k < |now| && now[k].Data?
      ensures |now[k].bytes| >= group && Interleave.Whole(|now[k].bytes|, group)
    {
      if k < |was| {
        assert now[k] == was[k];
      } else if PacketFeed.Ended(was, now, group) {
        assert now[k] == now[..|now| - 1][k];
      }
    }
  }

  /** A call sends a data packet, or it ends. */
  lemma MoreData(was: seq<PacketFeed.Packet>, now: seq<PacketFeed.Packet>, group: nat)
    requires group > 0 && AllData(was)
    ensures PacketFeed.OnePacketMore(was, now, group) ==> AllData(now)
    ensures PacketFeed.Ended(was, now, group) ==> EndsOnce(now)
  {
    if PacketFeed.Ended(was, now, group) && now[..|now| - 1] != was {
      MoreData(was, now[..|now| - 1], group);
    }
  }

  /** Data packets and then exactly one end packet. */
  predicate EndsOnce(sent: seq<PacketFeed.Packet>) {
    sent != [] && sent[|sent| - 1].End? && AllData(sent[..|sent| - 1])
  }
}
