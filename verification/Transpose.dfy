/**
 * trans_data: version-1 files hold 16-bit samples; they are turned into cross data, 64 samples at
 * a time.
 */
module Transpose {
  import opened Bits
  import opened Samples
  import opened Interleave

  const UNITLEN: nat := 64

  /** Bit `index` of the 64-bit word that starts at byte `at`, least significant byte first. */
  predicate WordBit(buf: seq<bv8>, at: nat, index: nat)
    requires index < 64 && at + 8 <= |buf|
  {
    TestBit(buf[at + index / 8], index % 8)
  }

  function TransBits(buf: seq<bv8>, k: nat, index: nat): (r: seq<bool>)
    requires index < 64 && k * 128 + 134 <= |buf|
    ensures |r| == UNITLEN
    ensures forall j :: 0 <= j < UNITLEN ==> r[j] == WordBit(buf, k * 128 + 2 * j, index)
  {
    seq(UNITLEN, j requires 0 <= j < UNITLEN => WordBit(buf, k * 128 + 2 * j, index))
  }

  /** The word trans_data makes of group k for the channel with this index. */
  function TransWord(buf: seq<bv8>, k: nat, index: nat): (w: nat)
    requires index < 64 && k * 128 + 134 <= |buf|
  {
    FromBits(TransBits(buf, k, index))
  }

  lemma {:induction false} FromBitsSnoc(bits: seq<bool>, b: bool)
    ensures FromBits(bits + [b]) == FromBits(bits) + (if b then Pow2(|bits|) else 0)
  {
    if bits == [] {
      assert bits + [b] == [b];
      assert FromBits([b]) == (if b then 1 else 0) + 2 * FromBits([]);
    } else {
      FromBitsSnoc(bits[1..], b);
      assert (bits + [b])[1..] == bits[1..] + [b];
    }
  }

  /** The innermost loop: collect one bit of 64 successive samples. */
  method CollectWord(buf: seq<bv8>, k: nat, index: nat) returns (result: nat)
    requires index < 64 && k * 128 + 134 <= |buf|
    ensures result == TransWord(buf, k, index)
  {
    result := 0;
    var j := 0;
    ghost var bits := [];
    while j < UNITLEN
      invariant 0 <= j <= UNITLEN && |bits| == j
      invariant forall i :: 0 <= i < j ==> bits[i] == WordBit(buf, k * 128 + 2 * i, index)
      invariant result == FromBits(bits)
    {
      var b := WordBit(buf, k * 128 + 2 * j, index);
      FromBitsSnoc(bits, b);
      if b {
        result := result + Pow2(j);
      }
      bits := bits + [b];
      j := j + 1;
    }
    assert bits == TransBits(buf, k, index);
  }

  /** The words of one enabled channel. */
  function ChannelWords(buf: seq<bv8>, index: nat, groups: nat): (r: seq<nat>)
    requires index < 64 && groups * 128 + 6 <= |buf|
    ensures |r| == groups
    ensures forall k :: 0 <= k < groups ==> r[k] == TransWord(buf, k, index)
  {
    seq(groups, k requires 0 <= k < groups => TransWord(buf, k, index))
  }

  /** Channels in list order: index and whether enabled. */
  datatype Channel = Channel(index: nat, enabled: bool)

  function EnabledIndices(channels: seq<Channel>): (r: seq<nat>)
    ensures (forall i :: 0 <= i < |channels| ==> channels[i].index < 64) ==> forall e :: 0 <= e < |r| ==> r[e] < 64
    ensures |r| <= |channels|
  {
    if channels == [] then [] else
      (if channels[0].enabled then [channels[0].index] else []) + EnabledIndices(channels[1..])
  }

  /** Which channels these are: an enabled one adds its index at the end, and no other adds anything. */
  lemma {:induction false} EnabledSnoc(channels: seq<Channel>, more: Channel)
    ensures more.enabled ==> EnabledIndices(channels + [more]) == EnabledIndices(channels) + [more.index]
    ensures !more.enabled ==> EnabledIndices(channels + [more]) == EnabledIndices(channels)
    decreases channels
  {
    if channels == [] {
      assert ([] + [more])[1..] == [];
    } else {
      assert (channels + [more])[1..] == channels[1..] + [more];
      EnabledSnoc(channels[1..], more);
    }
  }

  predicate ShortIndices(channels: seq<Channel>) {
    forall i :: 0 <= i < |channels| ==> channels[i].index < 64
  }

  /** One channel word sequence for each enabled channel. */
  function WordChannels(buf: seq<bv8>, indices: seq<nat>, groups: nat): (r: seq<seq<nat>>)
    requires groups * 128 + 6 <= |buf| && forall e :: 0 <= e < |indices| ==> indices[e] < 64
    ensures |r| == |indices|
    ensures forall e :: 0 <= e < |r| ==> r[e] == ChannelWords(buf, indices[e], groups)
  {
    seq(|indices|, e requires 0 <= e < |indices| => ChannelWords(buf, indices[e], groups))
  }

  /** trans_data: every enabled channel's word of group 0, then of group 1, and so on. */
  method TransData(buf: seq<bv8>, channels: seq<Channel>, groups: nat, dest: array<nat>)
    requires groups * 128 + 6 <= |buf| && ShortIndices(channels)
    requires groups * |EnabledIndices(channels)| <= dest.Length
    modifies dest
    ensures dest[..groups * |EnabledIndices(channels)|]
              == Rows(WordChannels(buf, EnabledIndices(channels), groups), 1, groups)
  {
    hide RowPart;
    hide Rows;
    hide EnabledIndices;
    hide WordChannels;
    ghost var chans := WordChannels(buf, EnabledIndices(channels), groups);
    var destPtr := 0;
    var k := 0;
    NoRows(chans, 1);
    while k < groups
      invariant 0 <= k <= groups
      invariant destPtr == k * |chans| <= dest.Length && dest[..destPtr] == Rows(chans, 1, k)
    {
      NextRowFits(k, groups, |chans|);
      destPtr := TransGroup(buf, channels, groups, k, dest, destPtr);
      RowsStep(chans, 1, k);
      k := k + 1;
    }
  }

  lemma NextRowFits(k: nat, groups: nat, n: nat)
    requires k < groups
    ensures k * n + n == (k + 1) * n <= groups * n
  {
    MulMono(k + 1, groups, n);
  }

  /** The loop over the channels, for one group of samples. */
  method TransGroup(buf: seq<bv8>, channels: seq<Channel>, groups: nat, k: nat, dest: array<nat>, at: nat)
      returns (destPtr: nat)
    requires k < groups && groups * 128 + 6 <= |buf| && ShortIndices(channels)
    requires at + |EnabledIndices(channels)| <= dest.Length
    modifies dest
    ensures destPtr == at + |EnabledIndices(channels)|
    ensures var chans := WordChannels(buf, EnabledIndices(channels), groups);
            dest[..destPtr] == old(dest[..at]) + RowPart(chans, 1, k, |chans|)
  {
    hide RowPart;
    hide EnabledIndices;
    hide WordChannels;
    ghost var indices, done := EnabledIndices(channels), [];
    ghost var chans := WordChannels(buf, indices, groups);
    ghost var before := dest[..at];
    destPtr := at;
    var l := 0;
    AtStart(channels, chans, k);
    while l < |channels|
      invariant 0 <= l <= |channels|
      invariant EnabledIndices(channels) == done + EnabledIndices(channels[l..])
      invariant destPtr == at + |done| && |done| <= |chans|
      invariant dest[..destPtr] == before + RowPart(chans, 1, k, |done|)
    {
      var probe := channels[l];
      EnabledStep(channels, l, done);
      if probe.enabled {
        TransProbe(buf, indices, groups, k, probe.index, |done|, dest, destPtr, before);
        destPtr := destPtr + 1;
        done := done + [probe.index];
      }
      l := l + 1;
    }
    NoneLeft(channels);
  }

  lemma NoneLeft(channels: seq<Channel>)
    ensures EnabledIndices(channels[|channels|..]) == []
  {
  }

  lemma AtStart<T>(channels: seq<Channel>, chans: seq<seq<T>>, k: nat)
    requires forall e :: 0 <= e < |chans| ==> k + 1 <= |chans[e]|
    ensures EnabledIndices(channels) == [] + EnabledIndices(channels[0..])
    ensures RowPart(chans, 1, k, 0) == []
  {
    assert channels[0..] == channels;
  }

  lemma EnabledStep(channels: seq<Channel>, l: nat, done: seq<nat>)
    requires l < |channels| && EnabledIndices(channels) == done + EnabledIndices(channels[l..])
    ensures var more := if channels[l].enabled then done + [channels[l].index] else done;
            EnabledIndices(channels) == more + EnabledIndices(channels[l + 1..])
  {
    assert channels[l..][1..] == channels[l + 1..];
  }

  lemma WordIn(buf: seq<bv8>, indices: seq<nat>, groups: nat, k: nat, e: nat)
    requires groups * 128 + 6 <= |buf| && forall i :: 0 <= i < |indices| ==> indices[i] < 64
    requires e < |indices| && k < groups
    ensures WordChannels(buf, indices, groups)[e][k..k + 1] == [TransWord(buf, k, indices[e])]
  {
  }

  /** The word of one enabled channel. */
  method TransProbe(buf: seq<bv8>, ghost indices: seq<nat>, ghost groups: nat, k: nat, index: nat, ghost e: nat,
                    dest: array<nat>, destPtr: nat, ghost before: seq<nat>)
    requires k < groups && groups * 128 + 6 <= |buf| && forall i :: 0 <= i < |indices| ==> indices[i] < 64
    requires e < |indices| && indices[e] == index && destPtr < dest.Length
    requires dest[..destPtr] == before + RowPart(WordChannels(buf, indices, groups), 1, k, e)
    modifies dest
    ensures dest[..destPtr + 1] == before + RowPart(WordChannels(buf, indices, groups), 1, k, e + 1)
  {
    hide RowPart;
    hide TransWord;
    var result := CollectWord(buf, k, index);
    WordIn(buf, indices, groups, k, e);
    UnitDone(WordChannels(buf, indices, groups), 1, k, e);
    PutWord(dest, destPtr, result);
    Associative(before, RowPart(WordChannels(buf, indices, groups), 1, k, e), [result]);
  }

  /** `*dest_ptr = result` */
  method PutWord(dest: array<nat>, at: nat, word: nat)
    requires at < dest.Length
    modifies dest
    ensures dest[..at + 1] == old(dest[..at]) + [word]
  {
    dest[at] := word;
  }

  /** Bit i of 16-bit sample s. */
  predicate SampleBit(buf: seq<bv8>, s: nat, i: nat)
    requires i < 16 && 2 * s + 1 < |buf|
  {
    TestBit(buf[2 * s + i / 8], i % 8)
  }

  /** Which bit ends up where: bit j of a channel's word k is its bit of sample 64k + j. A channel
      index of 16 or more reaches into the samples behind. */
  lemma TransBit(buf: seq<bv8>, k: nat, index: nat, j: nat)
    requires index < 64 && k * 128 + 134 <= |buf| && j < 64
    ensures Bit(TransWord(buf, k, index), j) <==> SampleBit(buf, 64 * k + j + index / 16, index % 16)
  {
    hide FromBits, Bit;
    FromBitsBit(TransBits(buf, k, index), j);
    SampleByte(k, index, j);
    hide TestBit;
  }

  lemma SampleByte(k: nat, index: nat, j: nat)
    ensures 2 * (64 * k + j + index / 16) + index % 16 / 8 == k * 128 + 2 * j + index / 8
    ensures index % 16 % 8 == index % 8
  {
    assert 2 * (index / 16) + index % 16 / 8 == index / 8;
  }
}
