/**
 * Cross data: the units of n channels, one after the other. A unit is eight bytes for logic data
 * and one byte for oscilloscope data.
 */
module Interleave {
  import opened Bits

  /** n channels of the same length. */
  predicate Rect<T>(chans: seq<seq<T>>, len: nat) {
    chans != [] && forall c :: 0 <= c < |chans| ==> |chans[c]| == len
  }

  /** The units at offset o of the first c channels. */
  function RowPart<T>(chans: seq<seq<T>>, u: nat, o: nat, c: nat): (r: seq<T>)
    requires c <= |chans| && forall k :: 0 <= k < |chans| ==> o + u <= |chans[k]|
    ensures |r| == c * u
  {
    if c == 0 then [] else RowPart(chans, u, o, c - 1) + chans[c - 1][o..o + u]
  }

  /** The interleaved units below offset o. */
  function Rows<T>(chans: seq<seq<T>>, u: nat, o: nat): (r: seq<T>)
    requires u > 0 && forall k :: 0 <= k < |chans| ==> o <= |chans[k]|
    decreases o
  {
    if o < u then [] else Rows(chans, u, o - u) + RowPart(chans, u, o - u, |chans|)
  }

  lemma NoRows<T>(chans: seq<seq<T>>, u: nat)
    requires u > 0
    ensures Rows(chans, u, 0) == []
  {
  }

  lemma {:induction false} RowPartAt<T>(chans: seq<seq<T>>, u: nat, o: nat, c: nat, i: nat, b: nat)
    requires c <= |chans| && forall k :: 0 <= k < |chans| ==> o + u <= |chans[k]|
    requires i < c && b < u
    ensures 0 <= i * u + b < |RowPart(chans, u, o, c)|
    ensures RowPart(chans, u, o, c)[i * u + b] == chans[i][o + b]
  {
    hide RowPart;
    MulMono(i + 1, c, u);
    UnitDone(chans, u, o, c - 1);
    assert (i + 1) * u == i * u + u;
    if i == c - 1 {
    } else {
      RowPartAt(chans, u, o, c - 1, i, b);
    }
  }

  lemma MulMono(a: nat, b: nat, u: nat)
    requires a <= b
    ensures a * u <= b * u
  {
  }

  lemma StepBack(w: nat, u: nat)
    requires w > 0
    ensures w * u == (w - 1) * u + u
  {
  }

  lemma {:induction false} RowsLength<T>(chans: seq<seq<T>>, u: nat, w: nat)
    requires u > 0 && forall k :: 0 <= k < |chans| ==> w * u <= |chans[k]|
    ensures |Rows(chans, u, w * u)| == w * (|chans| * u)
  {
    hide Rows;
    var size := |chans| * u;
    if w == 0 {
      NoRows(chans, u);
    } else {
      StepBack(w, u);
      StepBack(w, size);
      RowsLength(chans, u, w - 1);
      RowsStep(chans, u, (w - 1) * u);
    }
  }

  lemma IndexSplit(w: nat, n: nat, c: nat, u: nat, b: nat)
    requires c < n && b < u
    ensures (w * n + c) * u + b == w * (n * u) + (c * u + b)
    ensures c * u + b < n * u
  {
    assert (w * n + c) * u == w * n * u + c * u;
    assert w * n * u == w * (n * u);
    MulMono(c + 1, n, u);
    assert (c + 1) * u == c * u + u;
  }

  lemma RowBelow(w: nat, rows: nat, size: nat, i: nat)
    requires w < rows && i < size
    ensures w * size + i < rows * size
  {
    MulMono(w + 1, rows, size);
    assert (w + 1) * size == w * size + size;
  }

  /** Row w of the cross data holds the units at offset w * u. */
  lemma {:induction false} RowsRow<T>(chans: seq<seq<T>>, u: nat, rows: nat, w: nat, i: nat)
    requires u > 0 && forall k :: 0 <= k < |chans| ==> rows * u <= |chans[k]|
    requires w < rows && i < |chans| * u
    ensures w * u + u <= rows * u
    ensures w * (|chans| * u) + i < |Rows(chans, u, rows * u)| == rows * (|chans| * u)
    ensures Rows(chans, u, rows * u)[w * (|chans| * u) + i] == RowPart(chans, u, w * u, |chans|)[i]
  {
    var size, o := |chans| * u, (rows - 1) * u;
    assert rows * u == o + u;
    RowsLength(chans, u, rows - 1);
    RowsLength(chans, u, rows);
    RowBelow(w, rows, size, i);
    if w == rows - 1 {
    } else {
      RowBelow(w, rows - 1, size, i);
      RowsRow(chans, u, rows - 1, w, i);
    }
  }

  /** The closed form: unit w * n + c of the cross data is unit w of channel c. */
  lemma RowsAt<T>(chans: seq<seq<T>>, u: nat, rows: nat, w: nat, c: nat, b: nat)
    requires u > 0 && forall k :: 0 <= k < |chans| ==> rows * u <= |chans[k]|
    requires w < rows && c < |chans| && b < u
    ensures 0 <= (w * |chans| + c) * u + b < |Rows(chans, u, rows * u)|
    ensures w * u + b < |chans[c]|
    ensures Rows(chans, u, rows * u)[(w * |chans| + c) * u + b] == chans[c][w * u + b]
  {
    hide Rows;
    hide RowPart;
    IndexSplit(w, |chans|, c, u, b);
    RowsRow(chans, u, rows, w, c * u + b);
    RowPartAt(chans, u, w * u, |chans|, c, b);
  }

  /** The channels of two successive blocks, joined. */
  function Join<T>(a: seq<seq<T>>, b: seq<seq<T>>): (r: seq<seq<T>>)
    requires |a| == |b|
    ensures |r| == |a|
    ensures forall c :: 0 <= c < |a| ==> r[c] == a[c] + b[c]
  {
    seq(|a|, c requires 0 <= c < |a| => a[c] + b[c])
  }

  lemma {:induction false} RowPartPrefix<T>(a: seq<seq<T>>, b: seq<seq<T>>, u: nat, o: nat, c: nat)
    requires |a| == |b| && c <= |a| && forall k :: 0 <= k < |a| ==> o + u <= |a[k]|
    ensures RowPart(Join(a, b), u, o, c) == RowPart(a, u, o, c)
  {
    if c == 0 {
    } else {
      RowPartPrefix(a, b, u, o, c - 1);
    }
  }

  lemma SliceSuffix<T>(x: seq<T>, y: seq<T>, o: nat, u: nat)
    requires o + u <= |y|
    ensures (x + y)[|x| + o..|x| + o + u] == y[o..o + u]
  {
    var l, r := (x + y)[|x| + o..|x| + o + u], y[o..o + u];
    forall i | 0 <= i < u ensures l[i] == r[i] {}
  }

  lemma {:induction false} RowPartSuffix<T>(a: seq<seq<T>>, b: seq<seq<T>>, u: nat, len: nat, o: nat, c: nat)
    requires |a| == |b| && c <= |a| && (forall k :: 0 <= k < |a| ==> |a[k]| == len)
    requires forall k :: 0 <= k < |b| ==> o + u <= |b[k]|
    ensures RowPart(Join(a, b), u, len + o, c) == RowPart(b, u, o, c)
  {
    if c == 0 {
    } else {
      RowPartSuffix(a, b, u, len, o, c - 1);
      SliceSuffix(a[c - 1], b[c - 1], o, u);
    }
  }

  lemma {:induction false} RowsPrefix<T>(a: seq<seq<T>>, b: seq<seq<T>>, u: nat, o: nat)
    requires u > 0 && |a| == |b| && forall k :: 0 <= k < |a| ==> o <= |a[k]|
    ensures Rows(Join(a, b), u, o) == Rows(a, u, o)
    decreases o
  {
    if o < u {
    } else {
      RowsPrefix(a, b, u, o - u);
      RowPartPrefix(a, b, u, o - u, |a|);
    }
  }

  lemma RowsStep<T>(chans: seq<seq<T>>, u: nat, o: nat)
    requires u > 0 && forall k :: 0 <= k < |chans| ==> o + u <= |chans[k]|
    ensures Rows(chans, u, o + u) == Rows(chans, u, o) + RowPart(chans, u, o, |chans|)
  {
    assert o + u - u == o;
  }

  lemma RowsJoinStep<T>(a: seq<seq<T>>, b: seq<seq<T>>, u: nat, len: nat, o: nat)
    requires u > 0 && |a| == |b| && (forall k :: 0 <= k < |a| ==> |a[k]| == len)
    requires forall k :: 0 <= k < |b| ==> o + u <= |b[k]|
    requires Rows(Join(a, b), u, len + o) == Rows(a, u, len) + Rows(b, u, o)
    ensures Rows(Join(a, b), u, len + (o + u)) == Rows(a, u, len) + Rows(b, u, o + u)
  {
    hide Rows;
    hide RowPart;
    RowPartSuffix(a, b, u, len, o, |a|);
    RowsStep(Join(a, b), u, len + o);
    RowsStep(b, u, o);
    Associative(Rows(a, u, len), Rows(b, u, o), RowPart(b, u, o, |a|));
  }

  lemma Associative<T>(x: seq<T>, y: seq<T>, z: seq<T>)
    ensures x + y + z == x + (y + z)
  {
  }

  lemma RowsJoinNone<T>(a: seq<seq<T>>, b: seq<seq<T>>, u: nat, len: nat)
    requires u > 0 && |a| == |b| && (forall k :: 0 <= k < |a| ==> |a[k]| == len)
    ensures Rows(Join(a, b), u, len + 0) == Rows(a, u, len) + Rows(b, u, 0)
  {
    RowsPrefix(a, b, u, len);
    assert Rows(b, u, 0) == [];
  }

  /** o is a whole number of units. */
  predicate Whole(o: nat, u: nat)
    requires u > 0
    decreases o
  {
    o == 0 || (o >= u && Whole(o - u, u))
  }

  lemma {:induction false} WholeMultiple(w: nat, u: nat)
    requires u > 0
    ensures Whole(w * u, u)
  {
    if w == 0 {
    } else {
      WholeMultiple(w - 1, u);
      assert w * u == (w - 1) * u + u;
    }
  }

  /** Interleaving block by block is interleaving the concatenated channels. */
  lemma {:induction false} RowsJoin<T>(a: seq<seq<T>>, b: seq<seq<T>>, u: nat, len: nat, o: nat)
    requires u > 0 && |a| == |b| && (forall k :: 0 <= k < |a| ==> |a[k]| == len)
    requires Whole(o, u) && forall k :: 0 <= k < |b| ==> o <= |b[k]|
    ensures Rows(Join(a, b), u, len + o) == Rows(a, u, len) + Rows(b, u, o)
    decreases o
  {
    hide Rows;
    if o == 0 {
      RowsJoinNone(a, b, u, len);
    } else {
      RowsJoin(a, b, u, len, o - u);
      RowsJoinStep(a, b, u, len, o - u);
    }
  }

  lemma {:induction false} WholeAdd(a: nat, b: nat, u: nat)
    requires u > 0 && Whole(a, u) && Whole(b, u)
    ensures Whole(a + b, u)
    decreases b
  {
    if b == 0 {
    } else {
      WholeAdd(a, b - u, u);
    }
  }

  /** Two whole numbers of units less than one unit apart are equal. */
  lemma {:induction false} WholeGap(a: nat, b: nat, u: nat)
    requires u > 0 && Whole(a, u) && Whole(b, u) && a <= b < a + u
    ensures a == b
    decreases b
  {
    if a == 0 {
    } else {
      WholeGap(a - u, b - u, u);
    }
  }

  /** A started row is shorter than a row. */
  lemma RowPartShort<T>(chans: seq<seq<T>>, u: nat, o: nat, c: nat)
    requires u > 0 && c < |chans| && forall k :: 0 <= k < |chans| ==> o + u <= |chans[k]|
    ensures |RowPart(chans, u, o, c)| + u <= |chans| * u
    ensures c > 0 ==> |RowPart(chans, u, o, c)| >= u
  {
    MulMono(c + 1, |chans|, u);
    assert (c + 1) * u == c * u + u;
    if c > 0 { MulMono(1, c, u); }
  }

  /** The cross data of more is longer. */
  lemma {:induction false} RowsGrow<T>(chans: seq<seq<T>>, u: nat, a: nat, b: nat)
    requires u > 0 && Whole(a, u) && Whole(b, u) && a <= b && forall k :: 0 <= k < |chans| ==> b <= |chans[k]|
    ensures Rows(chans, u, a) <= Rows(chans, u, b)
    decreases b
  {
    if a == b {
    } else {
      if b - u < a { WholeGap(a, b, u); }
      RowsGrow(chans, u, a, b - u);
    }
  }

  lemma {:induction false} WholeMod(o: nat, u: nat)
    requires u > 0 && Whole(o, u)
    ensures o % u == 0
    decreases o
  {
    if o == 0 {
    } else {
      WholeMod(o - u, u);
      var q := (o - u) / u;
      QuotientUnique(o, u, q + 1, 0);
    }
  }

  /** One more unit of a row. */
  lemma UnitDone<T>(chans: seq<seq<T>>, u: nat, o: nat, c: nat)
    requires c < |chans| && forall k :: 0 <= k < |chans| ==> o + u <= |chans[k]|
    ensures RowPart(chans, u, o, c + 1) == RowPart(chans, u, o, c) + chans[c][o..o + u]
    ensures |RowPart(chans, u, o, c + 1)| == |RowPart(chans, u, o, c)| + u
    ensures c + 1 == |chans| ==> |RowPart(chans, u, o, c)| + u == |chans| * u
    ensures c == 0 ==> |RowPart(chans, u, o, c)| == 0
  {
  }
}
