/** The trigger tables, and the mask, value and edge words read out of them for the hardware. */
module Trigger {
  import opened Bits

  const TRIGGER_STAGES: nat := 16
  const MAX_TRIGGER_PROBES: nat := 32

  /** The three readings of a trigger symbol. */
  datatype Reading = Mask | Value | Edge

  predicate Selected(r: Reading, c: char) {
    match r
    case Mask => c == 'X' || c == 'C'
    case Value => c == '1' || c == 'R'
    case Edge => c == 'R' || c == 'F' || c == 'C'
  }

  /** `uint16_t`: shift left and put a bit in at the bottom. */
  function ShiftIn(w: nat, b: bool): (r: nat)
    ensures r < 65536
  {
    w * 2 % 65536 + (if b then 1 else 0)
  }

  lemma {:induction false} BitOfMod(w: nat, n: nat, k: nat)
    ensures Bit(w % Pow2(n), k) <==> k < n && Bit(w, k)
  {
    if n == 0 {
      ZeroHasNoBit(k);
    } else {
      HalfOfMod(w, n);
      if k > 0 {
        BitOfMod(w / 2, n - 1, k - 1);
      }
    }
  }

  lemma HalfOfMod(w: nat, n: nat)
    requires n > 0
    ensures w % Pow2(n) / 2 == w / 2 % Pow2(n - 1)
    ensures w % Pow2(n) % 2 == w % 2
  {
    var p := Pow2(n - 1);
    var q, r := w / 2 / p, w / 2 % p;
    assert w / 2 == q * p + r;
    assert w == q * (2 * p) + (2 * r + w % 2);
    QuotientUnique(w, 2 * p, q, 2 * r + w % 2);
  }

  lemma ShiftInBits(w: nat, b: bool, k: nat)
    requires w < 65536
    ensures Bit(ShiftIn(w, b), k) <==> if k == 0 then b else k < 16 && Bit(w, k - 1)
  {
    var r := ShiftIn(w, b);
    assert r / 2 == w % 32768;
    if k > 0 {
      assert Pow2(15) == 32768 by { assert Pow2(5) == 32; assert Pow2(10) == 1024; }
      BitOfMod(w, 15, k - 1);
    }
  }

  /** Two words side by side: the lower n bits come from one, the rest from the other. */
  lemma {:induction false} BitsSideBySide(lo: nat, hi: nat, n: nat, k: nat)
    requires lo < Pow2(n)
    ensures Bit(lo + Pow2(n) * hi, k) <==> if k < n then Bit(lo, k) else Bit(hi, k - n)
  {
    if n == 0 {
    } else {
      var p := Pow2(n - 1);
      assert Pow2(n) * hi == 2 * (p * hi);
      assert (lo + Pow2(n) * hi) / 2 == lo / 2 + p * hi;
      assert (lo + Pow2(n) * hi) % 2 == lo % 2;
      if k > 0 {
        BitsSideBySide(lo / 2, hi, n - 1, k - 1);
      }
    }
  }

  /** The lower quarter of the word, four times. */
  function Quarter(w: nat): nat {
    var q := w % 16;
    q * 4096 + q * 256 + q * 16 + q
  }

  /** The lower half of the word, twice. */
  function Half(w: nat): nat {
    var h := w % 256;
    h * 256 + h
  }

  lemma {:induction false} NoHighBits(w: nat, n: nat, k: nat)
    requires w < Pow2(n) && n <= k
    ensures !Bit(w, k)
  {
    if n == 0 {
      ZeroHasNoBit(k);
    } else {
      NoHighBits(w / 2, n - 1, k - 1);
    }
  }

  lemma Powers()
    ensures Pow2(4) == 16 && Pow2(8) == 256
  {
    assert Pow2(4) == 16;
  }

  lemma TwiceFour(q: nat, k: nat)
    requires q < 16
    ensures Bit(q + 16 * q, k) <==> k < 8 && Bit(q, k % 4)
  {
    Powers();
    hide Bit;
    hide Pow2;
    BitsSideBySide(q, q, 4, k);
    if k >= 8 { NoHighBits(q, 4, k - 4); }
  }

  lemma TwiceEight(h: nat, k: nat)
    requires h < 256
    ensures Bit(h + 256 * h, k) <==> k < 16 && Bit(h, k % 8)
  {
    Powers();
    hide Bit;
    hide Pow2;
    BitsSideBySide(h, h, 8, k);
    if k >= 16 { NoHighBits(h, 8, k - 8); }
  }

  /** In quarter mode bit k is bit k mod 4 of the plain word: the additions make no carries. */
  lemma QuarterBits(w: nat, k: nat)
    ensures Quarter(w) < 65536
    ensures Bit(Quarter(w), k) <==> k < 16 && Bit(w, k % 4)
  {
    Powers();
    hide Bit;
    hide Pow2;
    var q := w % 16;
    var h := q + 16 * q;
    assert Quarter(w) == h + 256 * h;
    TwiceEight(h, k);
    TwiceFour(q, k % 8);
    ModMod(k);
    BitOfMod(w, 4, k % 4);
  }

  lemma ModMod(k: nat)
    ensures k % 8 % 4 == k % 4
  {
  }

  /** In half mode bit k is bit k mod 8 of the plain word. */
  lemma HalfBits(w: nat, k: nat)
    ensures Half(w) < 65536
    ensures Bit(Half(w), k) <==> k < 16 && Bit(w, k % 8)
  {
    Powers();
    hide Bit;
    hide Pow2;
    TwiceEight(w % 256, k);
    BitOfMod(w, 8, k % 8);
  }

  /** struct ds_trigger: one row of symbols per stage, and one more for the simple trigger. */
  class TriggerTable {
    const trigger0: array2<char>
    const trigger1: array2<char>

    ghost predicate Shaped() {
      && trigger0 != trigger1
      && trigger0.Length0 == trigger1.Length0 == TRIGGER_STAGES + 1
      && trigger0.Length1 == trigger1.Length1 == MAX_TRIGGER_PROBES
    }

    /** ds_trigger_init */
    constructor ()
      ensures Shaped() && fresh(trigger0) && fresh(trigger1)
      ensures trigger0.Length0 == 17 && trigger0.Length1 == 32
      ensures forall i, j :: 0 <= i <= TRIGGER_STAGES && 0 <= j < MAX_TRIGGER_PROBES ==>
                trigger0[i, j] == 'X' && trigger1[i, j] == 'X'
    {
      trigger0 := new char[TRIGGER_STAGES + 1, MAX_TRIGGER_PROBES]((_, _) => 'X');
      trigger1 := new char[TRIGGER_STAGES + 1, MAX_TRIGGER_PROBES]((_, _) => 'X');
    }

    /** ds_trigger_stage_set_value: the symbols stand at the even places of the strings, the leftmost
        one for the highest probe. */
    method StageSetValue(stage: nat, probes: nat, symbols0: string, symbols1: string)
      requires Shaped() && stage < TRIGGER_STAGES && probes <= MAX_TRIGGER_PROBES
      requires |symbols0| >= 2 * probes - 1 && |symbols1| >= 2 * probes - 1
      modifies trigger0, trigger1
      ensures forall p :: 0 <= p < probes ==>
                && trigger0[stage, p] == symbols0[2 * (probes - 1 - p)]
                && trigger1[stage, p] == symbols1[2 * (probes - 1 - p)]
      ensures forall i, p :: 0 <= i <= TRIGGER_STAGES && 0 <= p < MAX_TRIGGER_PROBES && (i != stage || p >= probes) ==>
                trigger0[i, p] == old(trigger0[i, p]) && trigger1[i, p] == old(trigger1[i, p])
    {
      var j := 0;
      while j < probes
        invariant 0 <= j <= probes
        invariant forall p :: probes - j <= p < probes ==>
                    && trigger0[stage, p] == symbols0[2 * (probes - 1 - p)]
                    && trigger1[stage, p] == symbols1[2 * (probes - 1 - p)]
        invariant forall i, p :: 0 <= i <= TRIGGER_STAGES && 0 <= p < MAX_TRIGGER_PROBES ==>
                    (i != stage || p >= probes ==>
                      trigger0[i, p] == old(trigger0[i, p]) && trigger1[i, p] == old(trigger1[i, p]))
      {
        trigger0[stage, probes - j - 1] := symbols0[j * 2];
        trigger1[stage, probes - j - 1] := symbols1[j * 2];
        j := j + 1;
      }
    }

    /** ds_trigger_probe_set writes the simple trigger's row. */
    method ProbeSet(probe: nat, symbol0: char, symbol1: char)
      requires Shaped() && probe < MAX_TRIGGER_PROBES
      modifies trigger0, trigger1
      ensures trigger0[TRIGGER_STAGES, probe] == symbol0 && trigger1[TRIGGER_STAGES, probe] == symbol1
      ensures forall i, p :: 0 <= i <= TRIGGER_STAGES && 0 <= p < MAX_TRIGGER_PROBES ==>
                (i != TRIGGER_STAGES || p != probe ==>
                  trigger0[i, p] == old(trigger0[i, p]) && trigger1[i, p] == old(trigger1[i, p]))
    {
      trigger0[TRIGGER_STAGES, probe] := symbol0;
      trigger1[TRIGGER_STAGES, probe] := symbol1;
    }

    /** Symbol of one probe in table 0 or 1. */
    function Symbol(table: nat, stage: nat, probe: nat): char
      requires Shaped() && stage <= TRIGGER_STAGES && probe < MAX_TRIGGER_PROBES
      reads trigger0, trigger1
    {
      if table == 0 then trigger0[stage, probe] else trigger1[stage, probe]
    }

    /** ds_trigger_get_mask0/1, ds_trigger_get_value0/1 and ds_trigger_get_edge0/1: the word of the
        probes lsc .. msc. A window wider than the word keeps its lowest 16 probes; quarter mode
        repeats the lowest four, half mode the lowest eight. */
    method GetWord(table: nat, r: Reading, stage: nat, msc: nat, lsc: nat, qutrMode: bool, halfMode: bool)
        returns (word: nat)
      requires Shaped() && stage <= TRIGGER_STAGES && lsc <= msc < MAX_TRIGGER_PROBES
      ensures word < 65536
      ensures forall k :: Bit(word, k) <==>
                k < 16 && InWindow(k, msc, lsc, qutrMode, halfMode)
                && Selected(r, Symbol(table, stage, lsc + Place(k, qutrMode, halfMode)))
    {
      word := 0;
      var i: int := msc;
      forall k ensures !Bit(0, k) { ZeroHasNoBit(k); }
      while i >= lsc
        invariant lsc - 1 <= i <= msc && word < 65536
        invariant forall k :: Bit(word, k) <==>
                  k < 16 && i + 1 + k <= msc && Selected(r, Symbol(table, stage, i + 1 + k))
      {
        ghost var was := word;
        word := ShiftIn(word, Selected(r, Symbol(table, stage, i)));
        forall k ensures Bit(word, k) <==> k < 16 && i + k <= msc && Selected(r, Symbol(table, stage, i + k)) {
          ShiftInBits(was, Selected(r, Symbol(table, stage, i)), k);
        }
        i := i - 1;
      }
      ghost var plain := word;
      if qutrMode {
        word := Quarter(word);
        forall k: nat ensures Bit(word, k) <==> k < 16 && Bit(plain, k % 4) { QuarterBits(plain, k); }
        QuarterBits(plain, 0);
      } else if halfMode {
        word := Half(word);
        forall k: nat ensures Bit(word, k) <==> k < 16 && Bit(plain, k % 8) { HalfBits(plain, k); }
        HalfBits(plain, 0);
      }
    }
  }

  /** Where bit k of a word comes from, counted from the window's lowest probe. */
  function Place(k: nat, qutrMode: bool, halfMode: bool): (p: nat)
    ensures p <= k
  {
    if qutrMode then k % 4 else if halfMode then k % 8 else k
  }

  /** Quarter mode goes before half mode. */
  lemma Modes(k: nat)
    ensures Place(k, true, true) == Place(k, true, false) == k % 4
    ensures Place(k, false, true) == k % 8 && Place(k, false, false) == k
  {
  }

  predicate InWindow(k: nat, msc: nat, lsc: nat, qutrMode: bool, halfMode: bool) {
    lsc + Place(k, qutrMode, halfMode) <= msc
  }

  /** The symbols a trigger setting is made of. */
  predicate IsSymbol(c: char) {
    c in {'X', '0', '1', 'R', 'F', 'C'}
  }

  /** The symbol told by its three bits. */
  function Decoded(mask: bool, value: bool, edge: bool): char {
    if mask then (if edge then 'C' else 'X')
    else if edge then (if value then 'R' else 'F')
    else if value then '1' else '0'
  }

  /** The three bits tell the symbol, for every character that is one, and for no other. */
  lemma SymbolIffDecoded(c: char)
    ensures Decoded(Selected(Mask, c), Selected(Value, c), Selected(Edge, c)) == c <==> IsSymbol(c)
  {
  }

  /** Nothing is lost: after a stage is set from strings of symbols, the three words of a window tell
      every symbol in it, the leftmost symbol standing at the top. */
  method SetAndRead(t: TriggerTable, stage: nat, probes: nat, symbols0: string, symbols1: string, table: nat,
      msc: nat, lsc: nat)
    returns (mask: nat, value: nat, edge: nat)
    requires t.Shaped() && stage < TRIGGER_STAGES && probes <= MAX_TRIGGER_PROBES && lsc <= msc < probes
    requires |symbols0| >= 2 * probes - 1 && |symbols1| >= 2 * probes - 1
    modifies t.trigger0, t.trigger1
    ensures forall k :: 0 <= k < 16 && lsc + k <= msc ==>
              var c := (if table == 0 then symbols0 else symbols1)[2 * (probes - 1 - (lsc + k))];
              IsSymbol(c) ==> Decoded(Bit(mask, k), Bit(value, k), Bit(edge, k)) == c
  {
    t.StageSetValue(stage, probes, symbols0, symbols1);
    mask := t.GetWord(table, Mask, stage, msc, lsc, false, false);
    value := t.GetWord(table, Value, stage, msc, lsc, false, false);
    edge := t.GetWord(table, Edge, stage, msc, lsc, false, false);
    forall k | 0 <= k < 16 && lsc + k <= msc
      ensures var c := (if table == 0 then symbols0 else symbols1)[2 * (probes - 1 - (lsc + k))];
              IsSymbol(c) ==> Decoded(Bit(mask, k), Bit(value, k), Bit(edge, k)) == c
    {
      SymbolIffDecoded(t.Symbol(table, stage, lsc + k));
    }
  }
}
