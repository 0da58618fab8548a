/** The three producers of cross data agree on the same capture. */
module Producers {
  import opened Bits
  import opened Samples
  import opened Interleave
  import opened Transpose
  import PacketFeed
  import CrossData

  /** The byte whose bit b is bits[b]. */
  function PackByte(bits: seq<bool>): bv8
    requires |bits| == 8
  {
    (if bits[0] then 1 else 0) | (if bits[1] then 2 else 0) | (if bits[2] then 4 else 0) | (if bits[3] then 8 else 0)
    | (if bits[4] then 16 else 0) | (if bits[5] then 32 else 0) | (if bits[6] then 64 else 0)
        | (if bits[7] then 128 else 0)
  }

  lemma PackedBit(bits: seq<bool>, k: nat)
    requires |bits| == 8 && k < 8
    ensures TestBit(PackByte(bits), k) == bits[k]
  {
    if k == 0 {
    } else if k == 1 {
    } else if k == 2 {
    } else if k == 3 {
    } else if k == 4 {
    } else if k == 5 {
    } else if k == 6 {
    } else {
      assert k == 7;
    }
  }

  /** The eight bytes of a 64-bit word in memory, least significant first. */
  function WordBytes(w: nat): (r: seq<bv8>)
    ensures |r| == 8
  {
    seq(8, m requires 0 <= m < 8 => PackByte(seq(8, b requires 0 <= b < 8 => Bit(w, 8 * m + b))))
  }

  function BytesOf(words: seq<nat>): (r: seq<bv8>)
    ensures |r| == 8 * |words|
  {
    if words == [] then [] else BytesOf(words[..|words| - 1]) + WordBytes(words[|words| - 1])
  }

  /** Byte i of a channel, from the raw samples 8i .. 8i + 7. */
  function SplitByte(buf: seq<bv8>, index: nat, i: nat): bv8
    requires index < 16 && 16 * i + 16 <= |buf|
  {
    PackByte(seq(8, b requires 0 <= b < 8 => SampleBit(buf, 8 * i + b, index)))
  }

  /** The raw samples split per channel: one bit per sample, eight to a byte, as logic block files
      store them. */
  function SplitChannel(buf: seq<bv8>, index: nat, groups: nat): (r: seq<bv8>)
    requires index < 16 && groups * 128 <= |buf|
    ensures |r| == 8 * groups
    ensures forall i :: 0 <= i < |r| ==> r[i] == SplitByte(buf, index, i)
  {
    seq(8 * groups, i requires 0 <= i < 8 * groups => SplitByte(buf, index, i))
  }

  function SplitChannels(buf: seq<bv8>, indices: seq<nat>, groups: nat): (r: seq<seq<bv8>>)
    requires groups * 128 <= |buf| && forall e :: 0 <= e < |indices| ==> indices[e] < 16
    ensures |r| == |indices|
    ensures forall e :: 0 <= e < |r| ==> r[e] == SplitChannel(buf, indices[e], groups)
  {
    seq(|indices|, e requires 0 <= e < |indices| => SplitChannel(buf, indices[e], groups))
  }

  lemma SplitWord(buf: seq<bv8>, index: nat, k: nat, m: nat)
    requires index < 16 && k * 128 + 134 <= |buf| && m < 8
    ensures WordBytes(TransWord(buf, k, index))[m] == SplitByte(buf, index, 8 * k + m)
  {
    var w := TransWord(buf, k, index);
    var x := seq(8, b requires 0 <= b < 8 => Bit(w, 8 * m + b));
    var y := seq(8, b requires 0 <= b < 8 => SampleBit(buf, 8 * (8 * k + m) + b, index));
    forall b | 0 <= b < 8 ensures x[b] == y[b] {
      TransBit(buf, k, index, 8 * m + b);
    }
    assert x == y;
  }

  lemma {:induction false} BytesOfAt(words: seq<nat>, k: nat, m: nat)
    requires k < |words| && m < 8
    ensures BytesOf(words)[8 * k + m] == WordBytes(words[k])[m]
    decreases |words|
  {
    if k == |words| - 1 {
    } else {
      BytesOfAt(words[..|words| - 1], k, m);
    }
  }

  lemma {:induction false} BytesOfAppend(x: seq<nat>, y: seq<nat>)
    ensures BytesOf(x + y) == BytesOf(x) + BytesOf(y)
    decreases |y|
  {
    hide WordBytes;
    if y == [] {
      assert x + y == x;
    } else {
      var z := y[..|y| - 1];
      BytesOfAppend(x, z);
      assert (x + y)[..|x + y| - 1] == x + z;
      Associative(BytesOf(x), BytesOf(z), WordBytes(y[|y| - 1]));
    }
  }

  /** Splitting the raw samples per channel gives the bytes of the channel's transposed words. */
  lemma SplitIsTransposed(buf: seq<bv8>, index: nat, groups: nat)
    requires index < 16 && groups * 128 + 6 <= |buf|
    ensures BytesOf(ChannelWords(buf, index, groups)) == SplitChannel(buf, index, groups)
  {
    var words := ChannelWords(buf, index, groups);
    forall i | 0 <= i < 8 * groups ensures BytesOf(words)[i] == SplitChannel(buf, index, groups)[i] {
      var k, m := i / 8, i % 8;
      BytesOfAt(words, k, m);
      SplitWord(buf, index, k, m);
    }
  }

  predicate AsBytes(words: seq<seq<nat>>, bytes: seq<seq<bv8>>) {
    && |bytes| == |words|
    && (forall e {:trigger bytes[e]} :: 0 <= e < |bytes| ==> |bytes[e]| == 8 * |words[e]|)
    && (forall e {:trigger bytes[e]} :: 0 <= e < |bytes| ==> bytes[e] == BytesOf(words[e]))
  }

  lemma WordSlice(w: seq<nat>, k: nat)
    requires k < |w|
    ensures BytesOf(w)[8 * k..8 * k + 8] == WordBytes(w[k]) == BytesOf(w[k..k + 1])
  {
    hide WordBytes;
    assert w[k..k + 1] == [w[k]];
    assert BytesOf([w[k]]) == BytesOf([]) + WordBytes(w[k]);
    hide BytesOf;
    forall m | 0 <= m < 8 ensures BytesOf(w)[8 * k + m] == WordBytes(w[k])[m] {
      BytesOfAt(w, k, m);
    }
  }

  /** Interleaving the bytes of words eight at a time is interleaving the words. */
  lemma {:induction false} RowPartBytes(words: seq<seq<nat>>, bytes: seq<seq<bv8>>, k: nat, c: nat)
    requires AsBytes(words, bytes) && c <= |words|
    requires forall e :: 0 <= e < |words| ==> k + 1 <= |words[e]|
    ensures forall e :: 0 <= e < |bytes| ==> 8 * k + 8 <= |bytes[e]|
    ensures RowPart(bytes, 8, 8 * k, c) == BytesOf(RowPart(words, 1, k, c))
  {
    hide BytesOf;
    forall e | 0 <= e < |bytes| ensures 8 * k + 8 <= |bytes[e]| {
      assert k + 1 <= |words[e]|;
    }
    if c == 0 {
      NoBytes();
    } else {
      RowPartBytes(words, bytes, k, c - 1);
      WordSlice(words[c - 1], k);
      UnitDone(bytes, 8, 8 * k, c - 1);
      UnitDone(words, 1, k, c - 1);
      BytesOfAppend(RowPart(words, 1, k, c - 1), words[c - 1][k..k + 1]);
    }
  }

  lemma NoBytes()
    ensures BytesOf([]) == []
  {
  }

  lemma {:induction false} RowsBytes(words: seq<seq<nat>>, bytes: seq<seq<bv8>>, k: nat)
    requires AsBytes(words, bytes)
    requires forall e :: 0 <= e < |words| ==> k <= |words[e]|
    ensures forall e :: 0 <= e < |bytes| ==> 8 * k <= |bytes[e]|
    ensures Rows(bytes, 8, 8 * k) == BytesOf(Rows(words, 1, k))
  {
    hide BytesOf;
    hide RowPart;
    forall e | 0 <= e < |bytes| ensures 8 * k <= |bytes[e]| {
      assert k <= |words[e]|;
    }
    if k == 0 {
      NoBytes();
    } else {
      hide Rows;
      RowsBytes(words, bytes, k - 1);
      RowPartBytes(words, bytes, k - 1, |words|);
      RowsStep(words, 1, k - 1);
      RowsStep(bytes, 8, 8 * (k - 1));
      BytesOfAppend(Rows(words, 1, k - 1), RowPart(words, 1, k - 1, |words|));
    }
  }

  /** For channel indices below 16, transposing raw samples is splitting them per channel and
      interleaving the result word by word: what InterleaveBlock makes of the split channels. */
  lemma TransposeIsInterleave(buf: seq<bv8>, indices: seq<nat>, groups: nat)
    requires groups * 128 + 6 <= |buf| && forall e :: 0 <= e < |indices| ==> indices[e] < 16
    ensures BytesOf(Rows(WordChannels(buf, indices, groups), 1, groups))
         == Rows(SplitChannels(buf, indices, groups), 8, 8 * groups)
  {
    var words, bytes := WordChannels(buf, indices, groups), SplitChannels(buf, indices, groups);
    forall e | 0 <= e < |words| ensures bytes[e] == BytesOf(words[e]) {
      SplitIsTransposed(buf, indices[e], groups);
    }
    RowsBytes(words, bytes, groups);
  }

  lemma MulStep(k: nat, groups: nat)
    requires k < groups
    ensures k * 128 + 128 <= groups * 128 && groups * 8 == 8 * groups
  {
  }

  /** Which bit of the cross data is which bit of the raw samples: bit j of unit k * E + e is the e-th
      enabled channel's bit of sample 64k + j, bytes and bits counted from the least significant. */
  lemma InterleavedBit(buf: seq<bv8>, indices: seq<nat>, groups: nat, k: nat, e: nat, j: nat)
    requires groups * 128 <= |buf| && (forall i :: 0 <= i < |indices| ==> indices[i] < 16)
    requires k < groups && e < |indices| && j < 64
    ensures 2 * (64 * k + j) + 1 < |buf|
    ensures var data, at := Rows(SplitChannels(buf, indices, groups), 8, 8 * groups), (k * |indices| + e) * 8 + j / 8;
            0 <= at < |data| && (TestBit(data[at], j % 8) <==> SampleBit(buf, 64 * k + j, indices[e]))
  {
    hide Rows;
    MulStep(k, groups);
    var chans := SplitChannels(buf, indices, groups);
    RowsAt(chans, 8, groups, k, e, j / 8);
    SplitBit(buf, indices[e], groups, k * 8 + j / 8, j % 8);
    assert 8 * (k * 8 + j / 8) + j % 8 == 64 * k + j;
  }

  /** Bit b of byte i of a split channel is its bit of sample 8i + b. */
  lemma SplitBit(buf: seq<bv8>, index: nat, groups: nat, i: nat, b: nat)
    requires index < 16 && groups * 128 <= |buf| && i < 8 * groups && b < 8
    ensures 2 * (8 * i + b) + 1 < |buf|
    ensures TestBit(SplitChannel(buf, index, groups)[i], b) <==> SampleBit(buf, 8 * i + b, index)
  {
    assert 16 * i + 16 <= |buf|;
    PackedBit(seq(8, m requires 0 <= m < 8 => SampleBit(buf, 8 * i + m, index)), b);
  }

  /** The words of the transposition in memory: bit b of byte m is bit 8m + b of the word. */
  lemma WordBytesBit(w: nat, m: nat, b: nat)
    requires m < 8 && b < 8
    ensures TestBit(WordBytes(w)[m], b) <==> Bit(w, 8 * m + b)
  {
    PackedBit(seq(8, x requires 0 <= x < 8 => Bit(w, 8 * m + x)), b);
  }

  /** The same of what the transposition writes: bit j of its word k * E + e is the e-th enabled channel's
      bit of sample 64k + j. */
  lemma TransposedBit(buf: seq<bv8>, indices: seq<nat>, groups: nat, k: nat, e: nat, j: nat)
    requires groups * 128 + 6 <= |buf| && (forall i :: 0 <= i < |indices| ==> indices[i] < 16)
    requires k < groups && e < |indices| && j < 64
    ensures 2 * (64 * k + j) + 1 < |buf|
    ensures var words, at := Rows(WordChannels(buf, indices, groups), 1, groups), k * |indices| + e;
            0 <= at < |words| && (Bit(words[at], j) <==> SampleBit(buf, 64 * k + j, indices[e]))
  {
    hide Rows;
    MulStep(k, groups);
    var chans := WordChannels(buf, indices, groups);
    RowsAt(chans, 1, groups, k, e, 0);
    TransBit(buf, k, indices[e], j);
  }

  /** ... and it is what the streaming source sends for an archive that holds the split channels,
      however they are divided into blocks. */
  lemma TransposeIsStream(buf: seq<bv8>, indices: seq<nat>, groups: nat, archive: PacketFeed.Archive,
      dirs: seq<nat>, blocks: nat)
    requires groups * 128 + 6 <= |buf| && forall e :: 0 <= e < |indices| ==> indices[e] < 16
    requires dirs != [] && PacketFeed.WellFormed(archive, dirs, blocks, 8)
    requires CrossData.Channels(archive, dirs, blocks) == SplitChannels(buf, indices, groups)
    ensures BytesOf(Rows(WordChannels(buf, indices, groups), 1, groups)) == PacketFeed.Stream(archive, dirs, 8, blocks)
  {
    TransposeIsInterleave(buf, indices, groups);
    CrossData.StreamIsInterleave(archive, dirs, 8, blocks);
    var chans := CrossData.Channels(archive, dirs, blocks);
    assert |chans[0]| == 8 * groups;
  }

  /** The length a version-1 packet announces, `ret / 16 * enabled`, is that of the whole groups of
      samples read, exactly when fewer than eight samples are left over or nothing is enabled. */
  lemma AnnouncedLength(ret: nat, enabled: nat)
    ensures ret / 16 * enabled == ret / 128 * (8 * enabled) <==> ret % 128 < 16 || enabled == 0
  {
    var g, r := ret / 128, ret % 128;
    assert ret / 16 == 8 * g + r / 16;
    assert (8 * g + r / 16) * enabled == g * (8 * enabled) + r / 16 * enabled;
    if r / 16 > 0 && enabled > 0 {
      MulAtLeast(r / 16, enabled);
    }
  }
}
