/**
 * receive_data_logic_dso_v2: the session-file source for logic data (file version 2 and later) and
 * oscilloscope data (version 3 and later). Each call fills one packet from the per-channel block
 * files and keeps its place in them for the next call.
 */
module PacketFeed {
  import opened Bits
  import opened Interleave

  /** What the source forwards: a data packet, or the end packet with its error status. */
  datatype Packet = Data(bytes: seq<bv8>) | End(failed: bool)

  /** Inner files by channel directory and block number: "L-<dir>/<block>", or "O-<dir>/0". */
  type Archive = map<(nat, nat), seq<bv8>>

  /** The data bytes of a packet sequence, in order. */
  function DataOf(packets: seq<Packet>): seq<bv8> {
    if packets == [] then []
    else DataOf(packets[..|packets| - 1]) + (if packets[|packets| - 1].Data? then packets[|packets| - 1].bytes else [])
  }

  function BlockOf(archive: Archive, dirs: seq<nat>, b: nat): (r: seq<seq<bv8>>)
    ensures |r| == |dirs|
    ensures forall c :: 0 <= c < |dirs| && (dirs[c], b) in archive ==> r[c] == archive[(dirs[c], b)]
  {
    seq(|dirs|, c requires 0 <= c < |dirs| => if (dirs[c], b) in archive then archive[(dirs[c], b)] else [])
  }

  function BlockLen(archive: Archive, dirs: seq<nat>, b: nat): nat {
    if dirs != [] && (dirs[0], b) in archive then |archive[(dirs[0], b)]| else 0
  }

  /** Block b is there for every channel, with one size for all of them. */
  predicate Loadable(archive: Archive, dirs: seq<nat>, b: nat) {
    && dirs != []
    && (forall c :: 0 <= c < |dirs| ==> (dirs[c], b) in archive)
    && forall c :: 0 <= c < |dirs| ==> |archive[(dirs[c], b)]| == BlockLen(archive, dirs, b)
  }

  /** A well-formed archive: all blocks there, equally long, in whole units. */
  predicate WellFormed(archive: Archive, dirs: seq<nat>, blocks: nat, u: nat)
    requires u > 0
  {
    forall b :: 0 <= b < blocks ==> Loadable(archive, dirs, b) && Whole(BlockLen(archive, dirs, b), u)
  }

  /** The cross data of the blocks below b. */
  function Stream(archive: Archive, dirs: seq<nat>, u: nat, b: nat): seq<bv8>
    requires u > 0
  {
    if b == 0 then []
    else Stream(archive, dirs, u, b - 1) + BlockData(archive, dirs, u, b - 1, BlockLen(archive, dirs, b - 1))
  }

  /** The cross data of block b up to offset o. */
  function BlockData(archive: Archive, dirs: seq<nat>, u: nat, b: nat, o: nat): seq<bv8>
    requires u > 0
  {
    if Loadable(archive, dirs, b) && o <= BlockLen(archive, dirs, b) then Rows(BlockOf(archive, dirs, b), u, o) else []
  }

  /** The search for the next channel directory: stop at one that is there, or behind number 128. */
  function FindDir(archive: Archive, dex: nat): (r: (bool, nat))
    ensures r.1 >= dex
    ensures r.0 ==> (r.1, 0) in archive
    ensures forall k :: dex <= k < r.1 ==> (k, 0) !in archive
    decreases 128 - dex
  {
    if (dex, 0) in archive then (true, dex)
    else if dex + 1 > 128 then (false, dex)
    else FindDir(archive, dex + 1)
  }

  /** channel_dir_map: the directories present, in ascending order. */
  function DirsFrom(archive: Archive, count: nat, dex: nat): (r: seq<nat>)
    ensures |r| == count
  {
    if count == 0 then []
    else
      var (found, k) := FindDir(archive, dex);
      [if found then k else 0] + DirsFrom(archive, count - 1, k + 1)
  }

  lemma DirsNone(archive: Archive, dex: nat)
    ensures DirsFrom(archive, 0, dex) == []
  {
  }

  lemma DirsStep(archive: Archive, count: nat, dex: nat, dirs: seq<nat>, dir: nat)
    requires count > 0 && dir == (if FindDir(archive, dex).0 then FindDir(archive, dex).1 else 0)
    ensures dirs + DirsFrom(archive, count, dex)
         == dirs + [dir] + DirsFrom(archive, count - 1, FindDir(archive, dex).1 + 1)
  {
  }

  predicate InOrder(archive: Archive, n: nat, blocks: nat, u: nat)
    requires u > 0
  {
    WellFormed(archive, DirsFrom(archive, n, 0), blocks, u)
  }

  lemma NotLoadable(archive: Archive, n: nat, blocks: nat, u: nat, b: nat)
    requires u > 0 && b < blocks && !Loadable(archive, DirsFrom(archive, n, 0), b)
    ensures !InOrder(archive, n, blocks, u)
  {
  }

  /** One data packet of whole rows more. */
  predicate OnePacketMore(was: seq<Packet>, now: seq<Packet>, group: nat)
    requires group > 0
  {
    |now| == |was| + 1 && was <= now && now[|was|].Data? && |now[|was|].bytes| >= group
        && Whole(|now[|was|].bytes|, group)
  }

  /** At most one data packet more, of whole rows, and then an end packet. */
  predicate Ended(was: seq<Packet>, now: seq<Packet>, group: nat)
    requires group > 0
  {
    && was < now && now[|now| - 1].End?
    && (now[..|now| - 1] == was || OnePacketMore(was, now[..|now| - 1], group))
  }

  lemma DataOfSnoc(packets: seq<Packet>, p: Packet)
    ensures DataOf(packets + [p]) == DataOf(packets) + (if p.Data? then p.bytes else [])
  {
    assert (packets + [p])[..|packets|] == packets;
  }

  /** The cross data before offset o of block cb - 1. */
  function Place(archive: Archive, dirs: seq<nat>, u: nat, cb: nat, o: nat): seq<bv8>
    requires u > 0
  {
    if cb == 0 then [] else Stream(archive, dirs, u, cb - 1) + BlockData(archive, dirs, u, cb - 1, o)
  }

  class Feed {
    const logic: bool               // sdi->mode == LOGIC, else DSO
    const n: nat                    // num_probes
    const archive: Archive
    var numBlocks: nat
    var curBlock: nat
    var ready: bool                 // packet_buffer != NULL
    var dirMap: seq<nat>            // channel_dir_map
    var postBuf: array<bv8>
    var postWriteLen: nat
    var blockBufs: seq<seq<bv8>>    // block_bufs
    var blockDataLen: nat
    var blockReadLen: nat
    var sent: seq<Packet>           // what ds_data_forward was given
    var registered: bool            // the source is in the session's table

    /** dev_acquisition_start */
    constructor (logic: bool, n: nat, archive: Archive, numBlocks: nat)
      requires 1 <= n < 512
      ensures this.logic == logic && this.n == n && this.archive == archive && this.numBlocks == numBlocks
      ensures fresh(postBuf) && Valid() && registered && sent == [] && !ready
    {
      this.logic, this.n, this.archive, this.numBlocks := logic, n, archive, numBlocks;
      curBlock, ready, dirMap := 0, false, [];
      postBuf := new bv8[0];
      postWriteLen, blockBufs, blockDataLen, blockReadLen := 0, [], 0, 0;
      sent, registered := [], true;
    }

    function Unit(): (u: nat)
      ensures u == 1 || u == 8
    {
      if logic then 8 else 1
    }

    function Group(): (g: nat)
      requires n >= 1
      ensures g >= 1
    {
      n * Unit()
    }

    /** post_buf_len */
    function PacketLen(): (len: nat)
      requires n >= 1
      ensures len >= Group() && Whole(len, Group())
    {
      var k := if logic then 200000 else 10000;
      WholeMultiple(k, Group());
      MulAtLeast(k, Group());
      k * Group()
    }

    /** The blocks of the file: one for an oscilloscope capture. */
    function Blocks(): nat
      reads this
    {
      if logic then numBlocks else 1
    }

    /** The file is in order. */
    ghost predicate Good()
      reads this
    {
      InOrder(archive, n, Blocks(), Unit())
    }

    ghost predicate BlockHeld()
      reads this
    {
      && |blockBufs| == n
      && (forall c :: 0 <= c < n ==> |blockBufs[c]| == blockDataLen)
      && blockReadLen <= blockDataLen
    }

    ghost predicate Shaped()
      reads this
    {
      && 1 <= n < 512
      && numBlocks == Blocks() && curBlock <= numBlocks
      && dirMap == DirsFrom(archive, n, 0)
      && BlockHeld()
      && postWriteLen <= postBuf.Length
      && postBuf.Length == PacketLen()
    }

    /** The cross data up to the current place in the block files, channel c of the row being next. */
    ghost function Consumed(c: nat): seq<bv8>
      reads this
      requires BlockHeld() && c <= n && (c > 0 ==> blockReadLen + Unit() <= blockDataLen)
    {
      if curBlock == 0 then [] else
        Stream(archive, dirMap, Unit(), curBlock - 1)
        + (Rows(blockBufs, Unit(), blockReadLen) + (if c > 0 then RowPart(blockBufs, Unit(), blockReadLen, c) else []))
    }

    /** The length of the row under way, when c of its units are done. */
    ghost function PartLen(c: nat): nat
      reads this
      requires BlockHeld() && c <= n && (c > 0 ==> blockReadLen + Unit() <= blockDataLen)
    {
      if c > 0 then |RowPart(blockBufs, Unit(), blockReadLen, c)| else 0
    }

    /** The block in memory is the one the cursor names. */
    ghost predicate Current()
      reads this
    {
      if curBlock == 0 then blockDataLen == 0
      else
        && Loadable(archive, dirMap, curBlock - 1)
        && blockBufs == BlockOf(archive, dirMap, curBlock - 1)
        && blockDataLen == BlockLen(archive, dirMap, curBlock - 1)
    }

    /** Between calls: nothing is left unsent, and what was sent is what was consumed. */
    ghost predicate Valid()
      reads this
    {
      && 1 <= n < 512
      && (registered && !ready ==> DataOf(sent) == [] && curBlock == 0 && blockReadLen == blockDataLen == 0)
      && (registered && ready ==> Shaped() && postWriteLen == 0 && Whole(blockReadLen, Unit()) && Current()
                                  && DataOf(sent) == Consumed(0))
    }

    /** The first call: lay out the buffers and find the channel directories. */
    method MakeBuffer()
      requires 1 <= n < 512 && !ready
      modifies this
      ensures ready && fresh(postBuf) && registered == old(registered) && sent == old(sent)
      ensures Shaped() && Current() && postWriteLen == 0 && curBlock == 0 && blockReadLen == 0
      ensures Blocks() == old(Blocks())
    {
      hide PacketLen;
      hide Group;
      hide Whole;
      hide DirsFrom;
      hide Stream;
      hide DataOf;
      postBuf := new bv8[PacketLen()];
      LayOut();
      MakeDirMap();
      ready := true;
    }

    method LayOut()
      modifies this`curBlock, this`postWriteLen, this`blockDataLen, this`blockReadLen, this`blockBufs, this`numBlocks
      ensures curBlock == 0 && postWriteLen == 0 && blockReadLen == 0 && blockDataLen == 0
      ensures BlockHeld() && numBlocks == old(Blocks()) == Blocks()
    {
      curBlock := 0;
      postWriteLen, blockDataLen, blockReadLen := 0, 0, 0;
      blockBufs := seq(n, _ => []);
      if !logic {
        numBlocks := 1;
      }
    }

    method MakeDirMap()
      modifies this`dirMap
      ensures dirMap == DirsFrom(archive, n, 0)
    {
      hide DirsFrom;
      hide FindDir;
      DirsNone(archive, 0);
      var channelDex := 0;
      dirMap := [];
      var chIndex := 0;
      while chIndex < n
        invariant 0 <= chIndex <= n
        invariant dirMap + DirsFrom(archive, n - chIndex, channelDex) == DirsFrom(archive, n, 0)
      {
        var dir;
        ghost var start := channelDex;
        dir, channelDex := NextDir(channelDex);
        DirsStep(archive, n - chIndex, start, dirMap, dir);
        dirMap := dirMap + [dir];
        chIndex := chIndex + 1;
      }
      DirsNone(archive, channelDex);
    }

    /** The inner loop: try directory after directory. The entry stays 0 if none is there. */
    method NextDir(start: nat) returns (dir: nat, channelDex: nat)
      ensures var (found, k) := FindDir(archive, start); dir == (if found then k else 0) && channelDex == k + 1
    {
      channelDex := start;
      dir := 0;
      while true
        invariant start <= channelDex && dir == 0
        invariant FindDir(archive, start) == FindDir(archive, channelDex)
        decreases 129 - channelDex
      {
        channelDex := channelDex + 1;
        if (channelDex - 1, 0) in archive {
          dir := channelDex - 1;
          break;
        } else if channelDex > 128 {
          break;
        }
      }
    }

    /** send_error_packet */
    method SendError()
      modifies this`sent, this`registered
      ensures sent == old(sent) + [End(true)] && !registered
    {
      sent := sent + [End(true)];
      registered := false;
    }

    /** Load the next block file of every channel. */
    method LoadBlock() returns (ok: bool)
      requires Shaped() && curBlock < numBlocks
      modifies this`curBlock, this`blockBufs, this`blockDataLen, this`blockReadLen, this`sent, this`registered
      ensures ok == Loadable(archive, dirMap, old(curBlock))
      ensures ok ==> Shaped() && Current() && curBlock == old(curBlock) + 1 && blockReadLen == 0
                     && sent == old(sent) && registered == old(registered)
      ensures !ok ==> sent == old(sent) + [End(true)] && !registered && curBlock == old(curBlock)
    {
      hide DirsFrom;
      hide Whole;
      hide Group;
      var chIndex := 0;
      while chIndex < n
        invariant 0 <= chIndex <= n
        invariant |blockBufs| == n && curBlock == old(curBlock) && sent == old(sent) && registered == old(registered)
        invariant forall c :: 0 <= c < chIndex ==> (dirMap[c], curBlock) in archive
        invariant chIndex > 0 ==> blockDataLen == BlockLen(archive, dirMap, curBlock)
        invariant forall c :: 0 <= c < chIndex ==> |archive[(dirMap[c], curBlock)]| == blockDataLen
        invariant forall c :: 0 <= c < chIndex ==> blockBufs[c] == archive[(dirMap[c], curBlock)]
      {
        if (dirMap[chIndex], curBlock) !in archive {
          SendError();
          return false;
        }
        var file := archive[(dirMap[chIndex], curBlock)];
        if chIndex == 0 {
          blockDataLen := |file|;
        } else if blockDataLen != |file| {
          SendError();
          return false;
        }
        blockBufs := blockBufs[chIndex := file];
        chIndex := chIndex + 1;
      }
      assert blockBufs == BlockOf(archive, dirMap, curBlock);
      curBlock := curBlock + 1;
      blockReadLen := 0;
      ok := true;
    }

    /** Copy units from the block buffers, channel by channel, until the packet is full or the block
        is used up. `rows` is the length of the whole rows in the packet, `done` what was sent before. */
    method CopyUnits(readChanIndex: nat, ghost rows: nat, ghost done: seq<bv8>) returns (chan: nat, ghost rows': nat)
      requires Shaped() && readChanIndex < n && Whole(rows, Group())
      requires readChanIndex > 0 ==> blockReadLen + Unit() <= blockDataLen
      requires postWriteLen == rows + PartLen(readChanIndex)
      requires curBlock > 0 && done + postBuf[..postWriteLen] == Consumed(readChanIndex)
      modifies this`postWriteLen, this`blockReadLen, postBuf
      ensures Shaped() && chan < n && Whole(rows', Group())
      ensures chan > 0 ==> blockReadLen + Unit() <= blockDataLen
      ensures postWriteLen == rows' + PartLen(chan)
      ensures postBuf.Length - postWriteLen < Unit() || blockDataLen - blockReadLen < Unit()
      ensures old(Whole(blockReadLen, Unit())) ==> Whole(blockReadLen, Unit())
      ensures done + postBuf[..postWriteLen] == Consumed(chan)
      ensures old(postBuf.Length - postWriteLen) >= Unit() && old(blockDataLen - blockReadLen) >= Unit() ==>
                postWriteLen > old(postWriteLen)
      ensures blockReadLen >= old(blockReadLen)
      ensures old(postWriteLen) < postWriteLen
                || (postWriteLen == old(postWriteLen) && blockReadLen == old(blockReadLen))
    {
      chan, rows' := readChanIndex, rows;
      while postBuf.Length - postWriteLen >= Unit() && blockDataLen - blockReadLen >= Unit()
        invariant Shaped() && chan < n && Whole(rows', Group())
        invariant chan > 0 ==> blockReadLen + Unit() <= blockDataLen
        invariant postWriteLen == rows' + PartLen(chan)
        invariant old(Whole(blockReadLen, Unit())) ==> Whole(blockReadLen, Unit())
        invariant done + postBuf[..postWriteLen] == Consumed(chan)
        invariant old(postWriteLen) <= postWriteLen && old(blockReadLen) <= blockReadLen
        invariant old(postWriteLen) < postWriteLen
                  || (postWriteLen == old(postWriteLen) && blockReadLen == old(blockReadLen))
        decreases postBuf.Length - postWriteLen
      {
        chan, rows' := CopyUnit(chan, rows', done);
      }
    }

    /** One round of the copy loop. */
    method CopyUnit(readChanIndex: nat, ghost rows: nat, ghost done: seq<bv8>) returns (chan: nat, ghost rows': nat)
      requires Shaped() && readChanIndex < n && Whole(rows, Group())
      requires blockReadLen + Unit() <= blockDataLen && postBuf.Length - postWriteLen >= Unit()
      requires postWriteLen == rows + PartLen(readChanIndex)
      requires curBlock > 0 && done + postBuf[..postWriteLen] == Consumed(readChanIndex)
      modifies this`postWriteLen, this`blockReadLen, postBuf
      ensures Shaped() && chan < n && Whole(rows', Group())
      ensures chan > 0 ==> blockReadLen + Unit() <= blockDataLen
      ensures postWriteLen == rows' + PartLen(chan)
      ensures old(Whole(blockReadLen, Unit())) ==> Whole(blockReadLen, Unit())
      ensures done + postBuf[..postWriteLen] == Consumed(chan)
      ensures postWriteLen == old(postWriteLen) + Unit() && blockReadLen >= old(blockReadLen)
    {
      hide Whole;
      hide Stream;
      hide Rows;
      hide RowPart;
      hide DirsFrom;
      var u := Unit();
      ghost var o := blockReadLen;
      ghost var was, unit := postBuf[..postWriteLen], blockBufs[readChanIndex][o..o + u];
      ghost var part := RowPart(blockBufs, u, o, readChanIndex);
      ghost var before := Stream(archive, dirMap, u, curBlock - 1);
      UnitDone(blockBufs, u, o, readChanIndex);
      WriteUnit(readChanIndex);
      chan, rows' := readChanIndex + 1, rows;
      assert readChanIndex == 0 ==> part == [];
      Associative(done, was, unit);
      Associative(before, Rows(blockBufs, u, o) + part, unit);
      Associative(Rows(blockBufs, u, o), part, unit);
      assert done + postBuf[..postWriteLen] == before + (Rows(blockBufs, u, o) + RowPart(blockBufs, u, o, chan));
      if chan == n {
        chan := 0;
        blockReadLen := blockReadLen + u;
        rows' := postWriteLen;
        RowFinished(blockBufs, u, o, rows, Group());
      }
    }

    /** The state of a call that is filling its packet: `done` was sent before, channel `chan` is next. */
    ghost predicate Filling(chan: nat, rows: nat, done: seq<bv8>)
      reads this, postBuf
    {
      && Shaped() && Current() && chan < n && Whole(rows, Group()) && Whole(blockReadLen, Unit())
      && (chan > 0 ==> blockReadLen + Unit() <= blockDataLen)
      && postWriteLen == rows + PartLen(chan)
      && done + postBuf[..postWriteLen] == Consumed(chan)
    }

    /** Fill the packet until it is full or the blocks are used up. */
    method FillPacket(ghost done: seq<bv8>) returns (ok: bool, toEnd: bool, ghost chan: nat, ghost rows: nat)
      requires Filling(0, 0, done)
      modifies this`postWriteLen, this`blockReadLen, this`curBlock, this`blockBufs, this`blockDataLen,
               this`sent, this`registered, postBuf
      ensures !ok ==> sent == old(sent) + [End(true)] && !registered && !Good()
      ensures ok ==> sent == old(sent) && registered == old(registered) && Filling(chan, rows, done)
      ensures ok && !toEnd ==> postWriteLen == postBuf.Length
      ensures ok ==> Exhausted()
      ensures ok && toEnd && Good() ==> AllRead()
      ensures ok ==> NotBefore(old(curBlock), old(blockReadLen))
      ensures numBlocks == old(numBlocks)
    {
      hide Filling;
      hide InOrder;
      hide AllRead;
      ok, toEnd := true, false;
      var readChanIndex := 0;
      rows := 0;
      FillingFits(readChanIndex, rows, done);
      while !toEnd && postWriteLen < postBuf.Length
        invariant Filling(readChanIndex, rows, done)
        invariant toEnd ==> Exhausted() && (Good() ==> AllRead())
        invariant sent == old(sent) && registered == old(registered) && postWriteLen <= postBuf.Length
                  && curBlock <= numBlocks
        invariant NotBefore(old(curBlock), old(blockReadLen))
        decreases !toEnd, numBlocks - curBlock, postBuf.Length - postWriteLen
      {
        ok, toEnd, readChanIndex, rows := FillRound(readChanIndex, rows, done);
        if !ok {
          chan := 0;
          return;
        }
        FillingFits(readChanIndex, rows, done);
      }
      chan := readChanIndex;
    }

    lemma FillingFits(chan: nat, rows: nat, done: seq<bv8>)
      requires Filling(chan, rows, done)
      ensures postWriteLen <= postBuf.Length && curBlock <= numBlocks
    {
    }

    /** The place in the block files is not before the given one. */
    ghost predicate NotBefore(block: nat, offset: nat)
      reads this
    {
      block <= curBlock && (curBlock == block ==> offset <= blockReadLen)
    }

    /** The packet has no room for another unit, or the block has none left. */
    ghost predicate Exhausted()
      reads this
    {
      postBuf.Length < postWriteLen + Unit() || blockDataLen < blockReadLen + Unit()
    }

    ghost predicate AllRead()
      reads this
    {
      curBlock == numBlocks && blockReadLen == blockDataLen
    }

    /** One round of the loop that fills a packet: take the next block if this one is used up, then
        copy. */
    method FillRound(readChanIndex: nat, ghost rows: nat, ghost done: seq<bv8>)
      returns (ok: bool, toEnd: bool, chan: nat, ghost rows': nat)
      requires Filling(readChanIndex, rows, done) && postWriteLen < postBuf.Length
      modifies this`postWriteLen, this`blockReadLen, this`curBlock, this`blockBufs, this`blockDataLen,
               this`sent, this`registered, postBuf
      ensures !ok ==> sent == old(sent) + [End(true)] && !registered && !Good()
      ensures ok ==> sent == old(sent) && registered == old(registered) && Filling(chan, rows', done)
      ensures ok && toEnd ==> Exhausted() && (Good() ==> AllRead())
      ensures ok ==> NotBefore(old(curBlock), old(blockReadLen))
      ensures ok && !toEnd ==>
                curBlock > old(curBlock) || (curBlock == old(curBlock) && postWriteLen > old(postWriteLen))
    {
      hide Stream;
      hide Rows;
      hide RowPart;
      hide DirsFrom;
      hide InOrder;
      hide Loadable;
      hide BlockOf;
      hide Group;
      hide Whole;
      hide BlockLen;
      ok, toEnd, chan, rows' := true, false, readChanIndex, rows;
      if blockReadLen >= blockDataLen {
        if curBlock >= numBlocks {
          toEnd := true;
          return;
        }
        ok := NextBlock(done, rows);
        if !ok {
          return;
        }
      }
      PartShort(chan);
      RoomForUnit(rows, PartLen(chan));
      ghost var aligned := Whole(blockReadLen, Unit());
      chan, rows' := CopyUnits(chan, rows, done);
      if logic && (blockDataLen - blockReadLen) % 8 != 0 {
        Misaligned();
        toEnd := true;
      }
    }

    lemma PartShort(c: nat)
      requires BlockHeld() && c < n && (c > 0 ==> blockReadLen + Unit() <= blockDataLen)
      ensures PartLen(c) + Unit() <= Group()
    {
      if c > 0 {
        RowPartShort(blockBufs, Unit(), blockReadLen, c);
      } else {
        MulAtLeast(n, Unit());
      }
    }

    /** In a file that is in order no block ends in the middle of a unit. */
    lemma Misaligned()
      requires Shaped() && Current() && curBlock > 0 && logic && Whole(blockReadLen, Unit())
      requires (blockDataLen - blockReadLen) % 8 != 0
      ensures !Good()
    {
      hide Stream;
      hide Whole;
      hide DirsFrom;
      WholeMod(blockReadLen, 8);
      if Good() {
        LastBlockWhole();
        WholeMod(blockDataLen, 8);
        DiffMod(blockReadLen, blockDataLen);
      }
    }

    lemma LastBlockWhole()
      requires Shaped() && Current() && curBlock > 0 && Good()
      ensures Whole(blockDataLen, Unit())
    {
      hide Whole;
      hide DirsFrom;
    }

    lemma DiffMod(a: nat, b: nat)
      requires a % 8 == 0 && b % 8 == 0
      ensures (b - a) % 8 == 0
    {
    }

    /** Go on with the next block. */
    method NextBlock(ghost done: seq<bv8>, ghost rows: nat) returns (ok: bool)
      requires Filling(0, rows, done) && blockReadLen == blockDataLen && curBlock < numBlocks
      modifies this`curBlock, this`blockBufs, this`blockDataLen, this`blockReadLen, this`sent, this`registered
      ensures ok ==> Filling(0, rows, done) && curBlock == old(curBlock) + 1 && blockReadLen == 0
                     && sent == old(sent) && registered == old(registered)
      ensures !ok ==> sent == old(sent) + [End(true)] && !registered && !Good()
    {
      hide Stream;
      hide Rows;
      hide RowPart;
      hide DirsFrom;
      hide BlockOf;
      hide Whole;
      ghost var b := curBlock;
      BlockDone();
      AtBlockStart(b + 1);
      ok := LoadBlock();
      if ok {
        ConsumedIsPlace();
      } else {
        NotLoadable(archive, n, Blocks(), Unit(), b);
      }
    }

    lemma BlockDone()
      requires Shaped() && Current() && blockReadLen == blockDataLen
      ensures Consumed(0) == Stream(archive, dirMap, Unit(), curBlock)
    {
      hide Rows;
      ConsumedIsPlace();
    }

    lemma AtBlockStart(b: nat)
      requires b > 0
      ensures Place(archive, dirMap, Unit(), b, 0) == Stream(archive, dirMap, Unit(), b - 1)
      ensures Whole(0, Unit())
    {
    }

    lemma RoomForUnit(rows: nat, part: nat)
      requires 1 <= n && Whole(postBuf.Length, Group()) && Whole(rows, Group())
      requires part + Unit() <= Group() && rows + part < postBuf.Length
      ensures postBuf.Length - (rows + part) >= Unit()
    {
      if postBuf.Length - (rows + part) < Unit() {
        WholeGap(rows, postBuf.Length, Group());
      }
    }

    /** Copy the unit under the cursor of one channel. */
    method WriteUnit(chan: nat)
      requires BlockHeld() && chan < n && blockReadLen + Unit() <= blockDataLen
      requires postWriteLen + Unit() <= postBuf.Length
      modifies this`postWriteLen, postBuf
      ensures postWriteLen == old(postWriteLen) + Unit()
      ensures postBuf[..postWriteLen] == old(postBuf[..postWriteLen])
                + blockBufs[chan][blockReadLen..blockReadLen + Unit()]
    {
      forall k | 0 <= k < Unit() {
        postBuf[postWriteLen + k] := blockBufs[chan][blockReadLen + k];
      }
      postWriteLen := postWriteLen + Unit();
    }

    /** Sending the packet leaves nothing unsent: it ends on a whole row. */
    lemma NothingUnsent(chan: nat, rows: nat, done: seq<bv8>)
      requires Filling(chan, rows, done)
      requires Exhausted()
      ensures chan == 0 && Whole(postWriteLen, Group())
      ensures postWriteLen < Group() ==> postWriteLen == 0
    {
      PartShort(chan);
      if postBuf.Length < postWriteLen + Unit() {
        WholeGap(rows, postBuf.Length, Group());
      }
      if chan > 0 {
        RowPartShort(blockBufs, Unit(), blockReadLen, chan);
      }
    }

    lemma ConsumedIsPlace()
      requires Shaped() && Current()
      ensures Consumed(0) == Place(archive, dirMap, Unit(), curBlock, blockReadLen)
    {
      hide Stream;
      hide Rows;
    }

    /** The last block is read to its end: everything is consumed. */
    lemma StartsFilling(done: seq<bv8>)
      requires Valid() && registered && ready && done == DataOf(sent)
      ensures Filling(0, 0, done)
    {
      assert done + postBuf[..0] == done;
    }

    /** Fill and send one packet. */
    method SendPacket() returns (ok: bool, toEnd: bool)
      requires Valid() && registered && ready
      modifies this, postBuf
      ensures postBuf == old(postBuf) && numBlocks == old(numBlocks) && dirMap == old(dirMap) && ready
      ensures !ok ==> sent == old(sent) + [End(true)] && !registered && !Good()
      ensures ok ==> Valid() && registered
      ensures ok && !toEnd ==> OnePacketMore(old(sent), sent, Group()) && |sent[|old(sent)|].bytes| == PacketLen()
      ensures ok && toEnd ==> sent == old(sent) || OnePacketMore(old(sent), sent, Group())
      ensures ok && toEnd && Good() ==> AllRead()
      ensures ok ==> NotBefore(old(curBlock), old(blockReadLen))
    {
      hide Filling;
      hide Stream;
      hide Rows;
      hide RowPart;
      hide DirsFrom;
      hide Loadable;
      hide InOrder;
      hide DataOf;
      ghost var done := DataOf(sent);
      StartsFilling(done);
      ghost var chan, rows;
      ok, toEnd, chan, rows := FillPacket(done);
      if !ok {
        return;
      }
      FillingFits(chan, rows, done);
      NothingUnsent(chan, rows, done);
      ghost var packet := postBuf[..postWriteLen];
      FillingMeans(chan, rows, done);
      if postWriteLen >= Group() {
        DataOfSnoc(sent, Data(packet));
        sent := sent + [Data(postBuf[..postWriteLen])];
        postWriteLen := 0;
      }
    }

    /** The buffers, made by the first call. */
    method Begin()
      requires Valid() && registered
      modifies this
      ensures Valid() && registered && ready && (postBuf == old(postBuf) || fresh(postBuf))
      ensures sent == old(sent) && curBlock == old(curBlock) && blockReadLen == old(blockReadLen)
                && Blocks() == old(Blocks())
    {
      hide Stream;
      hide Rows;
      hide DirsFrom;
      hide Group;
      hide DataOf;
      if !ready {
        MakeBuffer();
        assert Whole(0, Unit());
      }
    }

    /** One packet more means that the place has changed. */
    lemma PacketMoves(was: seq<Packet>, cb: nat, o: nat)
      requires Shaped() && Current() && OnePacketMore(was, sent, Group())
      requires DataOf(was) == Place(archive, dirMap, Unit(), cb, o) && DataOf(sent) == Consumed(0)
      ensures cb != curBlock || o != blockReadLen
    {
      hide Place;
      hide Consumed;
      ConsumedIsPlace();
      DataOfSnoc(was, sent[|was|]);
      assert sent == was + [sent[|was|]];
    }

    /** receive_data_logic_dso_v2. A call sends one packet of whole rows and keeps its place, or it
        removes the source after an end packet. A file in order is sent to its last byte. */
    method Receive(revents: int) returns (ok: bool)
      requires Valid() && registered
      modifies this, postBuf
      ensures Valid() && (postBuf == old(postBuf) || fresh(postBuf))
      ensures registered ==> ok && revents != -1 && ready && OnePacketMore(old(sent), sent, Group())
      // a packet that is not the last one is full
      ensures registered ==> |sent[|old(sent)|].bytes| == if logic then n * 1600000 else n * 10000
      ensures registered ==> MovedOn(old(curBlock), old(blockReadLen))
      ensures !registered ==> Ended(old(sent), sent, Group())
      ensures !ok ==> sent == old(sent) + [End(true)] && !registered
      // any file, stopped or not: what has been sent is the cross data up to the place reached
      ensures ok ==> DataOf(sent) == Place(archive, DirsFrom(archive, n, 0), Unit(), curBlock, blockReadLen)
      ensures old(Good()) ==> DataOf(sent) <= Stream(archive, DirsFrom(archive, n, 0), Unit(), old(Blocks()))
      ensures old(Good()) ==> ok && (!registered ==> sent[|sent| - 1] == End(false))
      ensures old(Good()) && revents != -1 && !registered ==>
                DataOf(sent) == Stream(archive, DirsFrom(archive, n, 0), Unit(), old(Blocks()))
      ensures Blocks() == old(Blocks())
    {
      hide Stream;
      hide Rows;
      hide DirsFrom;
      hide InOrder;
      hide Loadable;
      hide BlockOf;
      hide Whole;
      hide DataOf;
      hide Group;
      Begin();
      ghost var was, cb, o := sent, curBlock, blockReadLen;
      ConsumedIsPlace();
      var toEnd;
      ok, toEnd := SendPacket();
      if !ok {
        return;
      }
      ConsumedIsPlace();
      if Good() {
        PlaceInStream();
      }
      EndedBy(was, sent, Group());
      if toEnd || revents == -1 {
        if AllRead() { BlockDone(); }
        DataOfSnoc(sent, End(false));
        sent := sent + [End(false)];
        registered := false;
      } else {
        PacketMoves(was, cb, o);
        FullPacket();
      }
    }

    /** Two hundred thousand words, or ten thousand bytes, of every channel. */
    lemma FullPacket()
      requires n >= 1
      ensures PacketLen() == if logic then n * 1600000 else n * 10000
    {
    }

    /** What has been consumed of a file in order begins its cross data. */
    lemma PlaceInStream()
      requires Shaped() && Current() && Good() && Whole(blockReadLen, Unit())
      ensures Place(archive, dirMap, Unit(), curBlock, blockReadLen) <= Stream(archive, dirMap, Unit(), Blocks())
    {
      hide Rows, Stream, DirsFrom;
      if curBlock == 0 {
      } else {
        PlaceBelowBlock(archive, dirMap, Unit(), curBlock, blockReadLen);
        StreamGrows(archive, dirMap, Unit(), curBlock, Blocks());
      }
    }

    /** The place in the block files has moved on. */
    ghost predicate MovedOn(block: nat, offset: nat)
      reads this
    {
      NotBefore(block, offset) && (curBlock > block || blockReadLen > offset)
    }

    lemma FillingMeans(chan: nat, rows: nat, done: seq<bv8>)
      requires Filling(chan, rows, done) && chan == 0
      ensures Shaped() && Current() && Whole(blockReadLen, Unit()) && done + postBuf[..postWriteLen] == Consumed(0)
    {
    }
  }

  lemma EndedBy(was: seq<Packet>, now: seq<Packet>, group: nat)
    requires group > 0 && (now == was || OnePacketMore(was, now, group))
    ensures Ended(was, now + [End(false)], group)
  {
    assert (now + [End(false)])[..|now|] == now;
  }

  lemma PlaceBelowBlock(archive: Archive, dirs: seq<nat>, u: nat, cb: nat, o: nat)
    requires u > 0 && cb > 0 && Loadable(archive, dirs, cb - 1)
    requires Whole(o, u) && Whole(BlockLen(archive, dirs, cb - 1), u) && o <= BlockLen(archive, dirs, cb - 1)
    ensures Place(archive, dirs, u, cb, o) <= Stream(archive, dirs, u, cb)
  {
    hide Rows;
    var len := BlockLen(archive, dirs, cb - 1);
    RowsGrow(BlockOf(archive, dirs, cb - 1), u, o, len);
    PrefixBehind(Stream(archive, dirs, u, cb - 1), BlockData(archive, dirs, u, cb - 1, o),
        BlockData(archive, dirs, u, cb - 1, len));
  }

  lemma PrefixBehind<T>(x: seq<T>, y: seq<T>, z: seq<T>)
    requires y <= z
    ensures x + y <= x + z
  {
  }

  lemma {:induction false} StreamGrows(archive: Archive, dirs: seq<nat>, u: nat, a: nat, b: nat)
    requires u > 0 && a <= b
    ensures Stream(archive, dirs, u, a) <= Stream(archive, dirs, u, b)
    decreases b
  {
    if a == b {
    } else {
      StreamGrows(archive, dirs, u, a, b - 1);
    }
  }

  /** A row is finished: the next one begins one unit further on. */
  lemma RowFinished<T>(chans: seq<seq<T>>, u: nat, o: nat, rows: nat, group: nat)
    requires u > 0 && group > 0 && forall k :: 0 <= k < |chans| ==> o + u <= |chans[k]|
    requires Whole(rows, group)
    ensures Rows(chans, u, o + u) == Rows(chans, u, o) + RowPart(chans, u, o, |chans|)
    ensures Whole(rows + group, group)
    ensures Whole(o, u) ==> Whole(o + u, u)
  {
    RowsStep(chans, u, o);
  }
}
