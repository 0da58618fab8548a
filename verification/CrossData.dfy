/** The packets of a logic session file, put together, are the cross data of its channels. */
module CrossData {
  import opened Interleave
  import opened PacketFeed

  /** The channels' blocks below b, concatenated channel by channel. */
  function Channels(archive: Archive, dirs: seq<nat>, b: nat): (r: seq<seq<bv8>>)
    ensures |r| == |dirs|
  {
    if b == 0 then seq(|dirs|, _ => []) else Join(Channels(archive, dirs, b - 1), BlockOf(archive, dirs, b - 1))
  }

  function TotalLen(archive: Archive, dirs: seq<nat>, b: nat): nat {
    if b == 0 then 0 else TotalLen(archive, dirs, b - 1) + BlockLen(archive, dirs, b - 1)
  }

  /** What a file in order is sent as, is the unit-wise interleave of its channels. */
  lemma {:induction false} StreamIsInterleave(archive: Archive, dirs: seq<nat>, u: nat, b: nat)
    requires u > 0 && dirs != [] && WellFormed(archive, dirs, b, u)
    ensures Rect(Channels(archive, dirs, b), TotalLen(archive, dirs, b)) && Whole(TotalLen(archive, dirs, b), u)
    ensures Stream(archive, dirs, u, b) == Rows(Channels(archive, dirs, b), u, TotalLen(archive, dirs, b))
    decreases b
  {
    hide Rows;
    if b == 0 {
      NoRows(Channels(archive, dirs, 0), u);
    } else {
      StreamIsInterleave(archive, dirs, u, b - 1);
      var x, y := Channels(archive, dirs, b - 1), BlockOf(archive, dirs, b - 1);
      var lx, ly := TotalLen(archive, dirs, b - 1), BlockLen(archive, dirs, b - 1);
      assert Loadable(archive, dirs, b - 1);
      RowsJoin(x, y, u, lx, ly);
      WholeAdd(lx, ly, u);
    }
  }

  /** Conservation and order, for every file in order: once the source has removed itself, the bytes
      it sent are exactly the channels' bytes, and unit w * n + c of them is unit w of channel c. */
  lemma SentUnit(feed: Feed, rows: nat, w: nat, c: nat, b: nat)
    requires feed.n >= 1 && feed.Good()
    requires DataOf(feed.sent) == Stream(feed.archive, DirsFrom(feed.archive, feed.n, 0), feed.Unit(), feed.Blocks())
    requires TotalLen(feed.archive, DirsFrom(feed.archive, feed.n, 0), feed.Blocks()) == rows * feed.Unit()
    requires w < rows && c < feed.n && b < feed.Unit()
    ensures |DataOf(feed.sent)| == rows * feed.Group()
    ensures var chans := Channels(feed.archive, DirsFrom(feed.archive, feed.n, 0), feed.Blocks());
            && 0 <= (w * feed.n + c) * feed.Unit() + b < |DataOf(feed.sent)|
            && w * feed.Unit() + b < |chans[c]|
            && DataOf(feed.sent)[(w * feed.n + c) * feed.Unit() + b] == chans[c][w * feed.Unit() + b]
  {
    hide Rows;
    hide Stream;
    hide DataOf;
    var dirs, u := DirsFrom(feed.archive, feed.n, 0), feed.Unit();
    StreamIsInterleave(feed.archive, dirs, u, feed.Blocks());
    var chans := Channels(feed.archive, dirs, feed.Blocks());
    RowsAt(chans, u, rows, w, c, b);
    RowsLength(chans, u, rows);
  }

  /** The search finds a directory for every channel. */
  predicate AllFound(archive: Archive, count: nat, dex: nat) {
    count == 0 || (FindDir(archive, dex).0 && AllFound(archive, count - 1, FindDir(archive, dex).1 + 1))
  }

  predicate Present(archive: Archive, dirs: seq<nat>, dex: nat) {
    forall i :: 0 <= i < |dirs| ==> dirs[i] >= dex && (dirs[i], 0) in archive
  }

  predicate Ascending(dirs: seq<nat>) {
    forall i, j :: 0 <= i < j < |dirs| ==> dirs[i] < dirs[j]
  }

  /** Every directory that is there, from number dex up to the last of dirs, is in dirs. */
  predicate NoneSkipped(archive: Archive, dirs: seq<nat>, dex: nat) {
    forall k, i :: dex <= k && 0 <= i < |dirs| && k < dirs[i] && (k, 0) in archive ==> k in dirs
  }

  /** The directory map names directories that are there, in ascending order, and skips none. */
  lemma {:induction false} DirsAscending(archive: Archive, count: nat, dex: nat)
    requires AllFound(archive, count, dex)
    ensures var dirs := DirsFrom(archive, count, dex);
            Present(archive, dirs, dex) && Ascending(dirs) && NoneSkipped(archive, dirs, dex)
    decreases count
  {
    if count == 0 {
    } else {
      var k0 := FindDir(archive, dex).1;
      DirsAscending(archive, count - 1, k0 + 1);
      var dirs, rest := DirsFrom(archive, count, dex), DirsFrom(archive, count - 1, k0 + 1);
      assert dirs == [k0] + rest;
      forall i | 0 < i < |dirs| ensures dirs[i] == rest[i - 1] && dirs[i] > k0 && (dirs[i], 0) in archive {
        assert rest[i - 1] >= k0 + 1;
      }
      forall k, i | dex <= k && 0 <= i < |dirs| && k < dirs[i] && (k, 0) in archive ensures k in dirs {
        if i > 0 && k > k0 {
          assert k < rest[i - 1];
          assert k in rest;
        }
      }
    }
  }

  /** ks are the least directory numbers from dex on, and none is greater than 128. */
  predicate LeastDirs(archive: Archive, ks: seq<nat>, dex: nat) {
    && Ascending(ks)
    && (forall i :: 0 <= i < |ks| ==> dex <= ks[i] <= 128 && (ks[i], 0) in archive)
    && NoneSkipped(archive, ks, dex)
  }

  lemma {:induction false} FindsFirst(archive: Archive, dex: nat, k: nat)
    requires dex <= k <= 128 && (k, 0) in archive && forall j :: dex <= j < k ==> (j, 0) !in archive
    ensures FindDir(archive, dex) == (true, k)
    decreases k - dex
  {
    if dex == k {
    } else {
      FindsFirst(archive, dex + 1, k);
    }
  }

  lemma NoneBeforeFirst(archive: Archive, ks: seq<nat>, dex: nat)
    requires LeastDirs(archive, ks, dex) && ks != []
    ensures forall j :: dex <= j < ks[0] ==> (j, 0) !in archive
  {
    forall j | dex <= j < ks[0] ensures (j, 0) !in archive {
      assert j !in ks by {
        assert forall i :: 0 <= i < |ks| ==> ks[0] <= ks[i];
      }
    }
  }

  lemma RestIsLeast(archive: Archive, ks: seq<nat>, dex: nat)
    requires LeastDirs(archive, ks, dex) && ks != []
    ensures LeastDirs(archive, ks[1..], ks[0] + 1)
  {
    var rest := ks[1..];
    assert forall i :: 0 <= i < |rest| ==> rest[i] == ks[i + 1] && ks[0] < rest[i];
    forall j, i | ks[0] + 1 <= j && 0 <= i < |rest| && j < rest[i] && (j, 0) in archive ensures j in rest {
      assert j < ks[i + 1];
      assert j in ks;
    }
  }

  /** The channel map of n channels is exactly the n least directory numbers up to 128 that are in the
      archive, whenever there are that many. */
  lemma {:induction false} DirsAreLeast(archive: Archive, ks: seq<nat>, dex: nat)
    requires LeastDirs(archive, ks, dex)
    ensures DirsFrom(archive, |ks|, dex) == ks
    decreases |ks|
  {
    if ks == [] {
    } else {
      NoneBeforeFirst(archive, ks, dex);
      FindsFirst(archive, dex, ks[0]);
      RestIsLeast(archive, ks, dex);
      hide LeastDirs, FindDir;
      DirsAreLeast(archive, ks[1..], ks[0] + 1);
      assert ks == [ks[0]] + ks[1..];
    }
  }

  lemma WholeIff(len: nat, u: nat)
    requires u == 1 || u == 8
    ensures Whole(len, u) <==> len % u == 0
  {
    if Whole(len, u) {
      WholeMod(len, u);
    }
    if len % u == 0 {
      WholeMultiple(len / u, u);
      assert len == len / u * u;
    }
  }

  /** Block b is there in every directory, equally long, and in whole 64-bit words if it is logic data. */
  predicate BlockComplete(archive: Archive, ks: seq<nat>, b: nat, logic: bool) {
    forall i :: 0 <= i < |ks| ==>
      && (ks[i], b) in archive && (ks[0], b) in archive
      && |archive[(ks[i], b)]| == |archive[(ks[0], b)]|
      && (logic ==> |archive[(ks[i], b)]| % 8 == 0)
  }

  lemma CompleteIff(archive: Archive, ks: seq<nat>, b: nat, logic: bool)
    requires ks != []
    ensures BlockComplete(archive, ks, b, logic)
       <==> Loadable(archive, ks, b) && Whole(BlockLen(archive, ks, b), if logic then 8 else 1)
  {
    hide Whole;
    WholeIff(BlockLen(archive, ks, b), if logic then 8 else 1);
  }

  /** Which files are in order: every channel's directory has every block, the channels' blocks are equally
      long, and those of a logic file are whole words. An oscilloscope file has one block. */
  lemma GoodIff(feed: Feed, ks: seq<nat>)
    requires |ks| == feed.n >= 1 && LeastDirs(feed.archive, ks, 0)
    ensures feed.Good() <==>
              forall b :: 0 <= b < (if feed.logic then feed.numBlocks else 1) ==>
                BlockComplete(feed.archive, ks, b, feed.logic)
  {
    DirsAreLeast(feed.archive, ks, 0);
    hide DirsFrom, Whole, Loadable, BlockComplete;
    forall b: nat ensures BlockComplete(feed.archive, ks, b, feed.logic)
       <==> Loadable(feed.archive, ks, b) && Whole(BlockLen(feed.archive, ks, b), feed.Unit()) {
      CompleteIff(feed.archive, ks, b, feed.logic);
    }
  }
}
