/** receive_data_mso: the session-file source for mixed-signal captures, all logic blocks first and
    then all analog blocks. */
module Mso {
  import Bits
  import opened Interleave

  datatype Name = LogicFile(index: int, block: nat) | AnalogFile(block: nat)

  type Archive = map<Name, seq<bv8>>

  datatype Packet = Logic(bytes: seq<bv8>) | Analog(bytes: seq<bv8>, samples: nat) | End(failed: bool)

  /** The fields of struct sr_channel that count here. */
  datatype Channel = Channel(isLogic: bool, enabled: bool, index: nat)

  /** The indices of the enabled logic channels, in list order. */
  function LogicIndices(channels: seq<Channel>): seq<nat> {
    if channels == [] then []
    else (if channels[0].isLogic && channels[0].enabled then [channels[0].index] else []) + LogicIndices(channels[1..])
  }

  /** mso_channel_index for logic channels: the order-th of them, -1 if there are not so many. */
  method MsoChannelIndex(channels: seq<Channel>, order: nat) returns (index: int)
    ensures index == if order < |LogicIndices(channels)| then LogicIndices(channels)[order] else -1
  {
    hide LogicIndices;
    var left, i := order, 0;
    ghost var seen := [];
    IndicesEnds(channels);
    while i < |channels|
      invariant 0 <= i <= |channels|
      invariant LogicIndices(channels) == seen + LogicIndices(channels[i..]) && |seen| + left == order
    {
      var probe := channels[i];
      IndicesStep(channels, i);
      if probe.isLogic && probe.enabled {
        if left == 0 {
          return probe.index;
        }
        left := left - 1;
        seen := seen + [probe.index];
      }
      i := i + 1;
    }
    index := -1;
  }

  /** Which channels these are: each one that is logic and enabled adds its index at the end, and no other
      adds anything. */
  lemma {:induction false} IndicesSnoc(channels: seq<Channel>, more: Channel)
    ensures more.isLogic && more.enabled ==> LogicIndices(channels + [more]) == LogicIndices(channels) + [more.index]
    ensures !more.isLogic || !more.enabled ==> LogicIndices(channels + [more]) == LogicIndices(channels)
    decreases channels
  {
    if channels == [] {
      assert ([] + [more])[1..] == [];
    } else {
      assert (channels + [more])[1..] == channels[1..] + [more];
      IndicesSnoc(channels[1..], more);
    }
  }

  lemma IndicesEnds(channels: seq<Channel>)
    ensures channels[0..] == channels && LogicIndices(channels[|channels|..]) == []
  {
  }

  lemma IndicesStep(channels: seq<Channel>, i: nat)
    requires i < |channels|
    ensures var rest := LogicIndices(channels[i + 1..]);
            LogicIndices(channels[i..])
            == if channels[i].isLogic && channels[i].enabled then [channels[i].index] + rest else rest
  {
    assert channels[i..][1..] == channels[i + 1..];
  }

  /** The loop over words of the block interleaver: word offset / 8 of channel c is copied to word
      offset / 8 * n + c. */
  method InterleaveBlock(bufs: seq<seq<bv8>>, chunkSize: nat) returns (out: array<bv8>)
    requires Rect(bufs, chunkSize) && chunkSize % 8 == 0
    ensures fresh(out) && out[..] == Rows(bufs, 8, chunkSize)
  {
    hide Rows, RowPart;
    var n := |bufs|;
    out := new bv8[chunkSize * n];
    assert out.Length == Area(n, chunkSize) && Area(n, 0) == 0;
    hide Area;
    NoRows(bufs, 8);
    var offset := 0;
    ghost var filled: nat := 0;
    while offset < chunkSize
      invariant 0 <= offset <= chunkSize && offset % 8 == 0
      invariant filled == Area(n, offset) && filled <= out.Length
      invariant out[..filled] == Rows(bufs, 8, offset)
    {
      RowRoom(offset, chunkSize, n);
      CopyRow(bufs, chunkSize, offset, out, filled);
      filled := filled + n * 8;
      offset := offset + 8;
    }
    assert offset == chunkSize && out[..] == out[..filled];
  }

  /** The inner loop, over the channels. */
  method CopyRow(bufs: seq<seq<bv8>>, chunkSize: nat, offset: nat, out: array<bv8>, ghost start: nat)
    requires Rect(bufs, chunkSize) && offset % 8 == 0 && offset + 8 <= chunkSize
    requires start == Area(|bufs|, offset) && start + |bufs| * 8 <= out.Length && out[..start] == Rows(bufs, 8, offset)
    modifies out
    ensures out[..start + |bufs| * 8] == Rows(bufs, 8, offset + 8)
  {
    hide Rows, RowPart, Area;
    var n := |bufs|;
    ghost var done := Rows(bufs, 8, offset);
    NoUnits(bufs, offset);
    var channel := 0;
    while channel < n
      invariant 0 <= channel <= n
      invariant out[..start + channel * 8] == done + RowPart(bufs, 8, offset, channel)
    {
      WordPlace(offset, n, channel);
      UnitDone(bufs, 8, offset, channel);
      Associative(done, RowPart(bufs, 8, offset, channel), bufs[channel][offset..offset + 8]);
      CopyWord(bufs[channel], offset, out, (offset / 8 * n + channel) * 8);
      channel := channel + 1;
    }
    RowsStep(bufs, 8, offset);
  }

  method CopyWord(buf: seq<bv8>, offset: nat, out: array<bv8>, at: nat)
    requires offset + 8 <= |buf| && at + 8 <= out.Length
    modifies out
    ensures out[..at + 8] == old(out[..at]) + buf[offset..offset + 8]
  {
    forall k | 0 <= k < 8 {
      out[at + k] := buf[offset + k];
    }
  }

  /** The size of n channels up to a length. */
  function Area(n: nat, len: nat): nat {
    len * n
  }

  lemma NoUnits(bufs: seq<seq<bv8>>, offset: nat)
    requires forall c :: 0 <= c < |bufs| ==> offset + 8 <= |bufs[c]|
    ensures RowPart(bufs, 8, offset, 0) == []
  {
  }

  lemma RowRoom(offset: nat, chunkSize: nat, n: nat)
    requires offset + 8 <= chunkSize
    ensures Area(n, offset + 8) == Area(n, offset) + n * 8 <= Area(n, chunkSize)
  {
    MulMono(offset + 8, chunkSize, n);
  }

  lemma WordPlace(offset: nat, n: nat, channel: nat)
    requires offset % 8 == 0
    ensures (offset / 8 * n + channel) * 8 == Area(n, offset) + channel * 8
  {
    var w := offset / 8;
    assert offset == w * 8;
    assert (w * n + channel) * 8 == w * n * 8 + channel * 8;
    assert w * n * 8 == w * 8 * n;
  }

  lemma Multiple(len: nat, d: nat)
    requires d > 0 && len % d == 0
    ensures len / d * d == len
  {
  }

  class MsoFeed {
    const archive: Archive
    const channels: seq<Channel>
    const logicProbes: nat
    const analogProbes: nat
    const logicBlocks: nat
    const analogBlocks: nat
    const unitBits: nat            // mso_analog_unit_bits
    var phase: nat
    var block: nat
    var sent: seq<Packet>
    var registered: bool

    /** dev_acquisition_start */
    constructor (archive: Archive, channels: seq<Channel>, logicProbes: nat, analogProbes: nat,
                 logicBlocks: nat, analogBlocks: nat, unitBits: nat)
      ensures this.archive == archive && this.channels == channels && this.logicProbes == logicProbes
      ensures this.analogProbes == analogProbes && this.logicBlocks == logicBlocks
      ensures this.analogBlocks == analogBlocks && this.unitBits == unitBits
      ensures Valid() && phase == 0 && block == 0 && sent == [] && registered
    {
      this.archive, this.channels, this.logicProbes, this.analogProbes := archive, channels, logicProbes, analogProbes;
      this.logicBlocks, this.analogBlocks, this.unitBits := logicBlocks, analogBlocks, unitBits;
      phase, block, sent, registered := 0, 0, [], true;
    }

    predicate MetadataValid() {
      logicProbes >= 1 && analogProbes >= 1 && logicBlocks >= 1 && analogBlocks >= 1 && unitBits > 0
    }

    function LogicName(channel: nat, b: nat): Name {
      LogicFile(if channel < |LogicIndices(channels)| then LogicIndices(channels)[channel] else -1, b)
    }

    function LogicSize(b: nat): nat {
      if LogicName(0, b) in archive then |archive[LogicName(0, b)]| else 0
    }

    /** Logic block b is acceptable: every channel has it, equally long, in whole words. */
    predicate LogicOk(b: nat) {
      && logicProbes <= |LogicIndices(channels)|
      && (forall c :: 0 <= c < logicProbes ==> LogicName(c, b) in archive && |archive[LogicName(c, b)]| == LogicSize(b))
      && LogicSize(b) != 0 && LogicSize(b) % 8 == 0
    }

    function LogicBlock(b: nat): (r: seq<seq<bv8>>)
      ensures |r| == logicProbes
      ensures forall c :: 0 <= c < logicProbes && LogicName(c, b) in archive ==> r[c] == archive[LogicName(c, b)]
    {
      seq(logicProbes, c requires 0 <= c => if LogicName(c, b) in archive then archive[LogicName(c, b)] else [])
    }

    function BytesPerSample(): (n: nat)
      requires MetadataValid()
      ensures n > 0
    {
      Bits.MulAtLeast((unitBits + 7) / 8, analogProbes);
      (unitBits + 7) / 8 * analogProbes
    }

    predicate AnalogOk(b: nat)
      requires MetadataValid()
    {
      && AnalogFile(b) in archive && archive[AnalogFile(b)] != []
      && |archive[AnalogFile(b)]| % BytesPerSample() == 0
    }

    /** The bytes of one sample of all analog channels: k for each channel, when its bits fill more than
        k - 1 bytes and no more than k. */
    lemma BytesAre(k: nat)
      requires MetadataValid() && k >= 1 && 8 * (k - 1) < unitBits <= 8 * k
      ensures BytesPerSample() == k * analogProbes
    {
      assert (unitBits + 7) / 8 == k;
    }

    /** The sample count of an analog packet. */
    lemma SamplesAre(b: nat, k: nat)
      requires MetadataValid() && AnalogOk(b) && k >= 1 && 8 * (k - 1) < unitBits <= 8 * k
      ensures AnalogPacket(b).samples * (k * analogProbes) == |archive[AnalogFile(b)]| == |AnalogPacket(b).bytes|
    {
      BytesAre(k);
      Multiple(|archive[AnalogFile(b)]|, BytesPerSample());
    }

    /** With two analog channels: two bytes a sample for up to eight bits, four for up to sixteen. */
    lemma TwoProbes()
      requires MetadataValid() && analogProbes == 2
      ensures unitBits == 8 ==> BytesPerSample() == 2
      ensures unitBits == 12 || unitBits == 16 ==> BytesPerSample() == 4
    {
    }

    /** A logic block is acceptable iff each of the first logicProbes logic channels has it, of one size,
        which is a multiple of eight and not zero. */
    lemma LogicOkIff(b: nat)
      requires logicProbes >= 1
      ensures LogicOk(b) <==>
                && logicProbes <= |LogicIndices(channels)|
                && forall c :: 0 <= c < logicProbes ==>
                     var name, first := LogicFile(LogicIndices(channels)[c], b),
                         LogicFile(LogicIndices(channels)[0], b);
                     && name in archive && first in archive
                     && |archive[name]| == |archive[first]| > 0 && |archive[name]| % 8 == 0
    {
      if logicProbes <= |LogicIndices(channels)| {
        forall c | 0 <= c < logicProbes ensures LogicName(c, b) == LogicFile(LogicIndices(channels)[c], b) {}
      }
    }

    /** An analog block is acceptable iff it is there, not empty, and a whole number of samples. */
    lemma AnalogOkIff(b: nat)
      requires MetadataValid()
      ensures AnalogFile(b) !in archive ==> !AnalogOk(b)
      ensures AnalogFile(b) in archive && |archive[AnalogFile(b)]| == 0 ==> !AnalogOk(b)
      ensures AnalogFile(b) in archive && |archive[AnalogFile(b)]| > 0 ==>
                (AnalogOk(b) <==> |archive[AnalogFile(b)]| % BytesPerSample() == 0)
    {
    }

    /** An archive in order. */
    predicate Good() {
      && MetadataValid()
      && (forall b :: 0 <= b < logicBlocks ==> LogicOk(b))
      && (forall b :: 0 <= b < analogBlocks ==> AnalogOk(b))
    }

    function LogicPacket(b: nat): Packet
      requires MetadataValid() && LogicOk(b)
    {
      Logic(Rows(LogicBlock(b), 8, LogicSize(b)))
    }

    function AnalogPacket(b: nat): Packet
      requires MetadataValid() && AnalogOk(b)
    {
      Analog(archive[AnalogFile(b)], |archive[AnalogFile(b)]| / BytesPerSample())
    }

    /** The packet a run sends in step k: logic blocks, then analog blocks, then the end. */
    function StepPacket(k: nat): Packet
      requires Good() && k <= logicBlocks + analogBlocks
    {
      if k < logicBlocks then LogicPacket(k)
      else if k < logicBlocks + analogBlocks then AnalogPacket(k - logicBlocks)
      else End(false)
    }

    /** The first k packets of a run. */
    function Expected(k: nat): (r: seq<Packet>)
      requires Good() && k <= logicBlocks + analogBlocks + 1
      ensures |r| == k
    {
      if k == 0 then [] else Expected(k - 1) + [StepPacket(k - 1)]
    }

    lemma ExpectedStep(k: nat)
      requires Good() && k <= logicBlocks + analogBlocks
      ensures Expected(k + 1) == Expected(k) + [StepPacket(k)]
    {
    }

    /** The number of steps done. */
    function Steps(): nat
      reads this
    {
      if phase == 0 then block else logicBlocks + block
    }

    ghost predicate Valid()
      reads this
    {
      && phase <= 1
      && block <= (if phase == 0 then logicBlocks else analogBlocks)
      && (registered && Good() ==> sent == Expected(Steps()))
      && (!registered && Good() ==> Steps() == logicBlocks + analogBlocks && sent == Expected(Steps() + 1))
    }

    /** send_error_packet */
    method SendError()
      modifies this`sent, this`registered
      ensures sent == old(sent) + [End(true)] && !registered
    {
      sent := sent + [End(true)];
      registered := false;
    }

    /** Load one logic block; the sizes must agree. */
    method LoadLogicBlock() returns (ok: bool, bufs: seq<seq<bv8>>, chunkSize: nat)
      requires MetadataValid()
      ensures ok == LogicOk(block)
      ensures ok ==> bufs == LogicBlock(block) && chunkSize == LogicSize(block)
    {
      bufs, chunkSize := [], 0;
      var channel := 0;
      while channel < logicProbes
        invariant 0 <= channel <= logicProbes && |bufs| == channel
        invariant channel > 0 ==> chunkSize == LogicSize(block) && chunkSize != 0 && chunkSize % 8 == 0
        invariant channel <= |LogicIndices(channels)|
        invariant forall c :: 0 <= c < channel ==>
                    LogicName(c, block) in archive && |archive[LogicName(c, block)]| == chunkSize
                        && bufs[c] == archive[LogicName(c, block)]
      {
        var index := MsoChannelIndex(channels, channel);
        if index < 0 {
          return false, bufs, chunkSize;
        }
        var name := LogicFile(index, block);
        assert name == LogicName(channel, block);
        if name !in archive {
          return false, bufs, chunkSize;
        }
        if channel == 0 {
          chunkSize := |archive[name]|;
          if chunkSize == 0 || chunkSize % 8 != 0 {
            return false, bufs, chunkSize;
          }
        } else if |archive[name]| != chunkSize {
          return false, bufs, chunkSize;
        }
        bufs := bufs + [archive[name]];
        channel := channel + 1;
      }
      ok := true;
      assert bufs == LogicBlock(block);
    }

    /** receive_data_mso. A call sends the packet of its step, or removes the source after one end
        packet. `revents` is -1 when the session is being aborted; it only changes the result. */
    method Receive(revents: int) returns (ok: bool)
      requires Valid() && registered
      modifies this
      ensures Valid()
      ensures |sent| == |old(sent)| + 1 && old(sent) <= sent
      ensures registered <==> !sent[|sent| - 1].End?
      ensures registered ==> ok && Steps() == old(Steps()) + 1
      ensures Good() ==> sent[|sent| - 1] == StepPacket(old(Steps()))
      // for any archive: the block of the step, or an error if the metadata or that block is bad
      ensures var bad := logicProbes < 1 || analogProbes < 1 || logicBlocks < 1 || analogBlocks < 1 || unitBits == 0;
              var k := old(Steps());
              sent[|sent| - 1] ==
                if bad then End(true)
                else if k < logicBlocks then (if LogicOk(k) then LogicPacket(k) else End(true))
                else if k < logicBlocks + analogBlocks then
                  (if AnalogOk(k - logicBlocks) then AnalogPacket(k - logicBlocks) else End(true))
                else End(false)
      ensures sent[|sent| - 1] == End(true) ==> !Good()
      ensures ok == (registered || (sent[|sent| - 1] == End(false) && revents != -1))
    {
      hide Expected;
      hide Rows;
      if Good() { ExpectedStep(Steps()); }
      if logicProbes < 1 || analogProbes < 1 || logicBlocks < 1 || analogBlocks < 1 || unitBits == 0 {
        SendError();
        return false;
      }
      if phase == 0 && block < logicBlocks {
        var loaded, bufs, chunkSize := LoadLogicBlock();
        if !loaded {
          SendError();
          return false;
        }
        var out := InterleaveBlock(bufs, chunkSize);
        sent := sent + [Logic(out[..])];
        block := block + 1;
        return true;
      }
      if phase == 0 {
        phase := 1;
        block := 0;
      }
      if phase == 1 && block < analogBlocks {
        var name := AnalogFile(block);
        assert Good() ==> AnalogOk(block);
        if name !in archive || |archive[name]| == 0 || |archive[name]| % BytesPerSample() != 0 {
          SendError();
          return false;
        }
        sent := sent + [Analog(archive[name], |archive[name]| / BytesPerSample())];
        block := block + 1;
        return true;
      }
      sent := sent + [End(false)];
      registered := false;
      ok := revents != -1;
    }
  }
}
