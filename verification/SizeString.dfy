/** Sample rates as text: the printer sr_samplerate_string and the parser sr_parse_sizestring. */
module SizeString {
  const U64_MAX: nat := 0xFFFF_FFFF_FFFF_FFFF
  const KHZ: nat := 1_000
  const MHZ: nat := 1_000_000
  const GHZ: nat := 1_000_000_000

  function Digit(d: nat): char
    requires d < 10
  {
    "0123456789"[d]
  }

  predicate IsDigit(c: char) {
    '0' <= c <= '9'
  }

  function DigitValue(c: char): (d: nat)
    requires IsDigit(c)
    ensures d < 10
  {
    c as int - '0' as int
  }

  /** "%llu" */
  function Decimal(n: nat): (s: string)
    ensures s != [] && forall i :: 0 <= i < |s| ==> IsDigit(s[i])
  {
    if n < 10 then [Digit(n)] else Decimal(n / 10) + [Digit(n % 10)]
  }

  /** sr_si_string_u64. The part behind the point is printed without leading zeros. */
  function SiString(x: nat, symbol: string): string {
    if x >= GHZ && x % GHZ == 0 then Decimal(x / GHZ) + " G" + symbol
    else if x >= GHZ && x % GHZ != 0 then Decimal(x / GHZ) + "." + Decimal(x % GHZ) + " G" + symbol
    else if x >= MHZ && x % MHZ == 0 then Decimal(x / MHZ) + " M" + symbol
    else if x >= MHZ && x % MHZ != 0 then Decimal(x / MHZ) + "." + Decimal(x % MHZ) + " M" + symbol
    else if x >= KHZ && x % KHZ == 0 then Decimal(x / KHZ) + " k" + symbol
    else if x >= KHZ && x % KHZ != 0 then Decimal(x / KHZ) + "." + Decimal(x % KHZ) + " K" + symbol
    else Decimal(x) + " " + symbol
  }

  /** sr_samplerate_string */
  function SamplerateString(x: nat): string {
    SiString(x, "Hz")
  }

  predicate IsSpace(c: char) {
    c == ' ' || '\t' <= c <= '\r'
  }

  function SkipSpace(s: string): string {
    if s != [] && IsSpace(s[0]) then SkipSpace(s[1..]) else s
  }

  /** The digits at the front, read on from acc, and what follows them. */
  function ReadDigits(s: string, acc: nat): (nat, string) {
    if s != [] && IsDigit(s[0]) then ReadDigits(s[1..], acc * 10 + DigitValue(s[0])) else (acc, s)
  }

  /** strtoull(s, &end, 10): white space, a sign, digits; too large a number becomes ULLONG_MAX, a
      negative one wraps around, and without digits nothing is read. */
  function Strtoull(s: string): (r: (nat, string))
    ensures r.0 <= U64_MAX
  {
    var t := SkipSpace(s);
    var signed := t != [] && (t[0] == '-' || t[0] == '+');
    var u := if signed then t[1..] else t;
    if u == [] || !IsDigit(u[0]) then (0, s)
    else
      var (v, rest) := ReadDigits(u, 0);
      if v > U64_MAX then (U64_MAX, rest)
      else if signed && t[0] == '-' then ((U64_MAX + 1 - v) % (U64_MAX + 1), rest)
      else (v, rest)
  }

  function Multiplier(c: char): nat {
    if c == 'k' || c == 'K' then KHZ else if c == 'm' || c == 'M' then MHZ else if c == 'g' || c == 'G' then GHZ else 0
  }

  function SkipBlanks(s: string): string {
    if s != [] && s[0] == ' ' then SkipBlanks(s[1..]) else s
  }

  /** `*s == 0 || strcasecmp(s, "Hz") == 0` */
  predicate EndOrHz(s: string) {
    s == "" || (|s| == 2 && (s[0] == 'H' || s[0] == 'h') && (s[1] == 'z' || s[1] == 'Z'))
  }

  /** What follows the number v: blanks, at most one of the suffixes k, m and g in either case, and
      then nothing or "Hz". */
  function ParseTail(v: nat, rest: string): (bool, nat) {
    var t := SkipBlanks(rest);
    if t != [] && Multiplier(t[0]) > 0 then (EndOrHz(t[1..]), v * Multiplier(t[0]) % (U64_MAX + 1))
    else (EndOrHz(t), v)
  }

  /** What is a size, and which. */
  function ParseSpec(s: string): (bool, nat) {
    ParseTail(Strtoull(s).0, Strtoull(s).1)
  }

  /** sr_parse_sizestring */
  method ParseSizestring(sizestring: string) returns (ok: bool, size: nat)
    ensures (ok, size) == ParseSpec(sizestring)
  {
    var v, rest := Strtoull(sizestring).0, Strtoull(sizestring).1;
    size := v;
    var s := 0;
    var multiplier := 0;
    var done := false;
    assert rest[0..] == rest;
    while s < |rest| && multiplier == 0 && !done
      invariant 0 <= s <= |rest|
      invariant multiplier == 0 ==> SkipBlanks(rest) == SkipBlanks(rest[s..])
      invariant done ==> multiplier == 0 && s < |rest| && rest[s] != ' ' && Multiplier(rest[s]) == 0
      invariant multiplier > 0 ==> s > 0 && SkipBlanks(rest) == rest[s - 1..] && multiplier == Multiplier(rest[s - 1])
      decreases !done, |rest| - s
    {
      var c := rest[s];
      assert rest[s..][1..] == rest[s + 1..];
      if c == ' ' {
      } else if c == 'k' || c == 'K' {
        multiplier := KHZ;
      } else if c == 'm' || c == 'M' {
        multiplier := MHZ;
      } else if c == 'g' || c == 'G' {
        multiplier := GHZ;
      } else {
        done := true;
        s := s - 1;
      }
      s := s + 1;
    }
    if multiplier > 0 {
      size := size * multiplier % (U64_MAX + 1);
      assert rest[s - 1..][1..] == rest[s..];
    }
    ok := EndOrHz(rest[s..]);
  }

  /** The largest of the four units that does not exceed x; 1 for zero. */
  function UnitOf(x: nat): (u: nat)
    ensures u >= 1
  {
    if x >= GHZ then GHZ else if x >= MHZ then MHZ else if x >= KHZ then KHZ else 1
  }

  lemma {:induction false} ReadOn(a: string, b: string, acc: nat)
    requires forall i :: 0 <= i < |a| ==> IsDigit(a[i])
    ensures ReadDigits(a + b, acc) == ReadDigits(b, ReadDigits(a, acc).0)
    decreases a
  {
    if a == [] {
      assert a + b == b;
    } else {
      assert (a + b)[1..] == a[1..] + b;
      ReadOn(a[1..], b, acc * 10 + DigitValue(a[0]));
    }
  }

  lemma {:induction false} DecimalReads(n: nat)
    ensures ReadDigits(Decimal(n), 0) == (n, "")
  {
    if n >= 10 {
      var a, b := Decimal(n / 10), [Digit(n % 10)];
      DecimalReads(n / 10);
      ReadOn(a, b, 0);
      assert b[1..] == "";
      assert ReadDigits(b, n / 10) == ReadDigits("", n / 10 * 10 + n % 10);
    } else {
      var b := [Digit(n)];
      assert b[1..] == "";
      assert ReadDigits(b, 0) == ReadDigits("", n);
    }
  }

  /** strtoull reads back a printed number and stops behind it. */
  lemma NumberRead(n: nat, rest: string)
    requires n <= U64_MAX && (rest == [] || !IsDigit(rest[0]))
    ensures Strtoull(Decimal(n) + rest) == (n, rest)
  {
    var s := Decimal(n) + rest;
    assert IsDigit(s[0]);
    assert SkipSpace(s) == s;
    DecimalReads(n);
    ReadOn(Decimal(n), rest, 0);
  }

  /** " Hz", " kHz", " MHz" or " GHz" behind a number multiplies it. */
  lemma SuffixRead(v: nat, c: char)
    requires Multiplier(c) > 0 && c != ' ' && v * Multiplier(c) <= U64_MAX
    ensures ParseTail(v, " " + [c] + "Hz") == (true, v * Multiplier(c))
  {
    var rest, t := " " + [c] + "Hz", [c] + "Hz";
    assert rest[1..] == t;
    assert SkipBlanks(rest) == SkipBlanks(t) == t;
    assert t[1..] == "Hz";
  }

  lemma HzRead(v: nat)
    ensures ParseTail(v, " Hz") == (true, v)
  {
    assert " Hz"[1..] == "Hz";
    assert SkipBlanks(" Hz") == SkipBlanks("Hz") == "Hz";
  }

  /** A point behind the number is not understood. */
  lemma PointFails(v: nat, more: string)
    ensures !ParseTail(v, "." + more).0
  {
    var rest := "." + more;
    assert SkipBlanks(rest) == rest;
    assert rest[0] == '.';
  }

  lemma WholeText(n: nat, c: char)
    requires n <= U64_MAX && Multiplier(c) > 0 && c != ' ' && n * Multiplier(c) <= U64_MAX
    ensures ParseSpec(Decimal(n) + " " + [c] + "Hz") == (true, n * Multiplier(c))
  {
    hide Decimal, Strtoull, ParseTail;
    var rest := " " + [c] + "Hz";
    NumberRead(n, rest);
    assert Decimal(n) + " " + [c] + "Hz" == Decimal(n) + rest;
    SuffixRead(n, c);
  }

  lemma FractionText(n: nat, r: nat, suffix: string)
    requires n <= U64_MAX
    ensures !ParseSpec(Decimal(n) + "." + Decimal(r) + suffix).0
  {
    hide Decimal, Strtoull, ParseTail;
    var more := Decimal(r) + suffix;
    NumberRead(n, "." + more);
    assert Decimal(n) + "." + Decimal(r) + suffix == Decimal(n) + ("." + more);
    PointFails(n, more);
  }

  /** The text in each unit: a whole number of it, or a number, a point and the remainder. */
  lemma TextOf(x: nat)
    requires x >= KHZ
    ensures var u, c := UnitOf(x), Letter(x);
            SamplerateString(x) == if x % u == 0 then Decimal(x / u) + " " + [c] + "Hz"
                                   else Decimal(x / u) + "." + Decimal(x % u) + (" " + [c] + "Hz")
  {
    hide Decimal;
    var u, c := UnitOf(x), Letter(x);
    assert " " + [c] + "Hz" == [' ', c] + "Hz";
    if x % u == 0 {
      assert Decimal(x / u) + [' ', c] + "Hz" == Decimal(x / u) + " " + [c] + "Hz";
    } else {
      var head := Decimal(x / u) + "." + Decimal(x % u);
      assert head + [' ', c] + "Hz" == head + (" " + [c] + "Hz");
    }
  }

  /** The letter of the unit; a broken number of kilohertz is printed with a capital. */
  function Letter(x: nat): (c: char)
    ensures c != ' '
    ensures x >= KHZ ==> Multiplier(c) == UnitOf(x)
  {
    if x >= GHZ then 'G' else if x >= MHZ then 'M' else if x % KHZ == 0 then 'k' else 'K'
  }

  lemma WholeUnits(x: nat)
    ensures var u := UnitOf(x);
            x / u <= x && (x % u == 0 ==> x / u * u == x)
  {
    if x >= GHZ {
    } else if x >= MHZ {
    } else if x >= KHZ {
    }
  }

  /** Print and parse: for every 64-bit rate the parser accepts the printed text exactly when the
      rate is a whole number of the unit it is printed in, and then it yields that very rate. */
  lemma SamplerateRoundTrip(x: nat)
    requires x <= U64_MAX
    ensures var (ok, size) := ParseSpec(SamplerateString(x));
            (ok <==> x % UnitOf(x) == 0) && (ok ==> size == x)
  {
    hide Decimal, Strtoull, ParseTail, SamplerateString;
    WholeUnits(x);
    if x < KHZ {
      HertzOnly(x);
    } else {
      TextOf(x);
      if x % UnitOf(x) == 0 {
        WholeText(x / UnitOf(x), Letter(x));
      } else {
        FractionText(x / UnitOf(x), x % UnitOf(x), " " + [Letter(x)] + "Hz");
      }
    }
  }

  lemma HertzOnly(x: nat)
    requires x < KHZ
    ensures ParseSpec(SamplerateString(x)) == (true, x)
  {
    hide Decimal, Strtoull, ParseTail;
    NumberRead(x, " Hz");
    assert Decimal(x) + " " + "Hz" == Decimal(x) + " Hz";
    HzRead(x);
  }

  // What is accepted, spelled out.

  predicate Blanks(b: string) {
    forall i :: 0 <= i < |b| ==> b[i] == ' '
  }

  predicate Spaces(w: string) {
    forall i :: 0 <= i < |w| ==> w[i] in {' ', '\t', '\n', '\r', 11 as char, 12 as char}
  }

  /** What may follow the number and its suffix. */
  predicate GoodTail(tail: string) {
    tail in {"", "Hz", "hz", "HZ", "hZ"}
  }

  lemma GoodTailIff(tail: string)
    ensures EndOrHz(tail) <==> GoodTail(tail)
  {
    if |tail| == 2 {
      assert tail == [tail[0], tail[1]];
    }
  }

  lemma {:induction false} SkipsBlanks(b: string, rest: string)
    requires Blanks(b) && (rest == "" || rest[0] != ' ')
    ensures SkipBlanks(b + rest) == rest
    decreases b
  {
    if b == "" {
      assert b + rest == rest;
    } else {
      assert (b + rest)[1..] == b[1..] + rest;
      SkipsBlanks(b[1..], rest);
    }
  }

  lemma {:induction false} SkipsSpaces(w: string, rest: string)
    requires Spaces(w) && rest != "" && !IsSpace(rest[0])
    ensures SkipSpace(w + rest) == rest
    decreases w
  {
    if w == "" {
      assert w + rest == rest;
    } else {
      assert (w + rest)[1..] == w[1..] + rest;
      SkipsSpaces(w[1..], rest);
    }
  }

  /** strtoull on white space, a sign and a number: a number that does not fit is the greatest one that
      does, and a minus sign counts down from 2^64. */
  lemma SignedRead(w: string, sign: string, n: nat, rest: string)
    requires Spaces(w) && sign in {"", "+", "-"} && (rest == [] || !IsDigit(rest[0]))
    ensures var v := if n >= 0x1_0000_0000_0000_0000 then 0xFFFF_FFFF_FFFF_FFFF
                     else if sign == "-" && n > 0 then 0x1_0000_0000_0000_0000 - n else n;
            Strtoull(w + sign + Decimal(n) + rest) == (v, rest)
  {
    hide Decimal, ReadDigits, SkipSpace;
    var s, u := w + sign + Decimal(n) + rest, Decimal(n) + rest;
    SpacesSkipped(w, sign, n, rest);
    DigitsEnd(n, rest);
    assert SkipSpace(s) == sign + u && IsDigit(u[0]);
    if sign == "" {
      assert sign + u == u;
    } else {
      assert (sign + u)[0] == sign[0] && (sign + u)[1..] == u;
    }
  }

  lemma SpacesSkipped(w: string, sign: string, n: nat, rest: string)
    requires Spaces(w) && sign in {"", "+", "-"}
    ensures SkipSpace(w + sign + Decimal(n) + rest) == sign + (Decimal(n) + rest)
  {
    hide Decimal;
    var u := Decimal(n) + rest;
    assert IsDigit(u[0]);
    assert w + sign + Decimal(n) + rest == w + (sign + u);
    assert (sign + u)[0] == if sign == "" then u[0] else sign[0];
    SkipsSpaces(w, sign + u);
  }

  /** A number without a suffix: nothing or "Hz" may follow it, blanks in between, and nothing else. */
  lemma BareNumberIff(n: nat, b: string, tail: string)
    requires n <= U64_MAX && Blanks(b)
    requires tail == "" || (tail[0] != ' ' && !IsDigit(tail[0]) && tail[0] !in {'k', 'K', 'm', 'M', 'g', 'G'})
    ensures ParseSpec(Decimal(n) + b + tail) == (tail in {"", "Hz", "hz", "HZ", "hZ"}, n)
  {
    hide Decimal, Strtoull;
    assert Decimal(n) + b + tail == Decimal(n) + (b + tail);
    NumberRead(n, b + tail);
    SkipsBlanks(b, tail);
    GoodTailIff(tail);
  }

  /** The six suffix letters. */
  function Factor(c: char): nat
    requires c in {'k', 'K', 'm', 'M', 'g', 'G'}
  {
    if c in {'k', 'K'} then 1000 else if c in {'m', 'M'} then 1000000 else 1000000000
  }

  /** A number with a suffix: it counts thousands, millions or thousand millions, modulo 2^64, blanks may
      stand before the letter, and nothing or "Hz" may follow it, and nothing else. */
  lemma SuffixedNumberIff(n: nat, b: string, c: char, tail: string)
    requires n <= U64_MAX && Blanks(b) && c in {'k', 'K', 'm', 'M', 'g', 'G'}
    ensures ParseSpec(Decimal(n) + b + [c] + tail)
         == (tail in {"", "Hz", "hz", "HZ", "hZ"}, n * Factor(c) % 0x1_0000_0000_0000_0000)
  {
    hide Decimal, Strtoull;
    assert Decimal(n) + b + [c] + tail == Decimal(n) + (b + ([c] + tail));
    NumberRead(n, b + ([c] + tail));
    SkipsBlanks(b, [c] + tail);
    assert ([c] + tail)[1..] == tail;
    GoodTailIff(tail);
    assert Multiplier(c) == Factor(c);
  }

  /** ... and so exactly n times the factor when that fits. */
  lemma SuffixedNumber(n: nat, b: string, c: char, tail: string)
    requires Blanks(b) && tail in {"", "Hz", "hz", "HZ", "hZ"}
    requires c in {'k', 'K', 'm', 'M', 'g', 'G'} && n * Factor(c) < 0x1_0000_0000_0000_0000
    ensures ParseSpec(Decimal(n) + b + [c] + tail) == (true, n * Factor(c))
  {
    hide ParseSpec, Decimal;
    SuffixedNumberIff(n, b, c, tail);
  }

  /** Without digits the size is zero, and a text may still be accepted: the empty one is. */
  lemma NoDigits()
    ensures ParseSpec("") == (true, 0) && ParseSpec("kHz") == (true, 0) && !ParseSpec("-").0
  {
    assert "kHz"[1..] == "Hz";
    assert SkipBlanks("-") == "-";
  }

  // What the printed text says to a reader who takes the point for a decimal point.

  function Pow10(n: nat): (p: nat)
    ensures p >= 1
  {
    if n == 0 then 1 else 10 * Pow10(n - 1)
  }

  /** The factor named behind the number. */
  function UnitRead(s: string): nat {
    if |s| >= 2 && s[0] == ' ' && Multiplier(s[1]) > 0 then Multiplier(s[1]) else 1
  }

  /** The rate a text names, as a fraction: digits, perhaps a point and digits, and a unit. */
  function DecimalValue(s: string): (nat, nat) {
    var (a, rest) := ReadDigits(s, 0);
    if rest != [] && rest[0] == '.' then
      var (b, tail) := ReadDigits(rest[1..], 0);
      var places := if |tail| < |rest| - 1 then |rest| - 1 - |tail| else 0;
      ((a * Pow10(places) + b) * UnitRead(tail), Pow10(places))
    else (a * UnitRead(rest), 1)
  }

  /** The text names the rate x. */
  predicate Names(s: string, x: nat) {
    var (num, den) := DecimalValue(s);
    num == x * den
  }

  /** A printed number has as many digits as it needs. */
  lemma {:induction false} DigitCount(n: nat)
    requires n > 0
    ensures Pow10(|Decimal(n)| - 1) <= n < Pow10(|Decimal(n)|)
  {
    if n < 10 {
      assert Pow10(1) == 10 * Pow10(0);
    } else {
      DigitCount(n / 10);
      var k := |Decimal(n / 10)|;
      assert Pow10(k) == 10 * Pow10(k - 1) && Pow10(k + 1) == 10 * Pow10(k);
    }
  }

  lemma {:induction false} Pow10Grows(a: nat, b: nat)
    requires a < b
    ensures 10 * Pow10(a) <= Pow10(b)
  {
    if b == a + 1 {
    } else {
      Pow10Grows(a, b - 1);
    }
  }

  lemma DigitsEnd(n: nat, rest: string)
    requires rest == [] || !IsDigit(rest[0])
    ensures ReadDigits(Decimal(n) + rest, 0) == (n, rest)
  {
    DecimalReads(n);
    ReadOn(Decimal(n), rest, 0);
  }

  lemma WholeValue(a: nat, c: char)
    requires Multiplier(c) > 0
    ensures DecimalValue(Decimal(a) + " " + [c] + "Hz") == (a * Multiplier(c), 1)
  {
    hide Decimal;
    var rest := " " + [c] + "Hz";
    assert Decimal(a) + " " + [c] + "Hz" == Decimal(a) + rest;
    DigitsEnd(a, rest);
  }

  lemma FractionValue(a: nat, b: nat, c: char)
    requires Multiplier(c) > 0
    ensures var p := Pow10(|Decimal(b)|);
            DecimalValue(Decimal(a) + "." + Decimal(b) + (" " + [c] + "Hz")) == ((a * p + b) * Multiplier(c), p)
  {
    hide Decimal, Pow10;
    var tail := " " + [c] + "Hz";
    var rest := "." + (Decimal(b) + tail);
    assert Decimal(a) + "." + Decimal(b) + tail == Decimal(a) + rest;
    DigitsEnd(a, rest);
    assert rest[1..] == Decimal(b) + tail;
    DigitsEnd(b, tail);
  }

  /** A remainder behind the point counts as so many parts of a unit only if it has all its digits. */
  lemma PartsOfUnit(b: nat, k: nat)
    requires 0 < b < Pow10(k) && k > 0
    ensures |Decimal(b)| <= k
    ensures |Decimal(b)| == k <==> b >= Pow10(k - 1)
  {
    DigitCount(b);
    var d := |Decimal(b)|;
    if d > k {
      PowMono(k, d - 1);
    } else if d < k {
      PowMono(d, k - 1);
    }
  }

  lemma PowMono(a: nat, b: nat)
    requires a <= b
    ensures Pow10(a) <= Pow10(b)
  {
    if a < b { Pow10Grows(a, b); }
  }

  /** The number of decimal places of the unit. */
  function Places(x: nat): nat {
    if x >= GHZ then 9 else if x >= MHZ then 6 else if x >= KHZ then 3 else 0
  }

  lemma UnitPower(x: nat)
    requires x >= KHZ
    ensures Pow10(Places(x)) == UnitOf(x) && Pow10(Places(x) - 1) == UnitOf(x) / 10
  {
    assert Pow10(3) == 1000;
    assert Pow10(6) == 1000 * Pow10(3);
    assert Pow10(9) == 1000 * Pow10(6);
  }

  lemma SameFraction(a: nat, b: nat, u: nat, p: nat, x: nat)
    requires x == a * u + b && b > 0
    ensures (a * p + b) * u == x * p <==> u == p
  {
    assert (a * p + b) * u == a * p * u + b * u;
    assert x * p == a * u * p + b * p;
    assert a * p * u == a * u * p;
    if b * u == b * p {
      assert b * (u - p) == 0;
      NoZeroProduct(b, u - p);
    }
  }

  lemma NoZeroProduct(b: nat, d: int)
    requires b > 0 && b * d == 0
    ensures d == 0
  {
  }

  /** The printer leaves out leading zeros behind the point: the text names the very rate exactly when
      there is no remainder, or the remainder is at least a tenth of the unit. */
  lemma PrintedDecimalIff(x: nat)
    ensures Names(SamplerateString(x), x) <==> x % UnitOf(x) == 0 || x % UnitOf(x) >= UnitOf(x) / 10
  {
    hide Decimal, DecimalValue, SamplerateString, Pow10;
    if x < KHZ {
      HertzValue(x);
    } else {
      var u, a, b := UnitOf(x), x / UnitOf(x), x % UnitOf(x);
      TextOf(x);
      if b == 0 {
        WholeUnits(x);
        WholeValue(a, Letter(x));
      } else {
        FractionValue(a, b, Letter(x));
        UnitPower(x);
        PartsOfUnit(b, Places(x));
        var p := Pow10(|Decimal(b)|);
        Division(x);
        SameFraction(a, b, u, p, x);
        SamePower(|Decimal(b)|, Places(x));
      }
    }
  }

  lemma SamePower(a: nat, b: nat)
    requires a <= b
    ensures Pow10(a) == Pow10(b) <==> a == b
  {
    if a < b { Pow10Grows(a, b); }
  }

  lemma Division(x: nat)
    ensures x == x / UnitOf(x) * UnitOf(x) + x % UnitOf(x)
  {
    if x >= GHZ {
    } else if x >= MHZ {
    } else if x >= KHZ {
    }
  }

  lemma HertzValue(x: nat)
    requires x < KHZ
    ensures DecimalValue(SamplerateString(x)) == (x, 1)
  {
    hide Decimal;
    assert SamplerateString(x) == Decimal(x) + " Hz";
    DigitsEnd(x, " Hz");
  }

  /** 31500 is printed "31.500 KHz" and names that rate, 1000001 is printed "1.1 MHz" and names 1100000. */
  lemma PrintedExamples()
    ensures SamplerateString(31500) == "31.500 KHz" && Names("31.500 KHz", 31500)
    ensures SamplerateString(1000001) == "1.1 MHz" && !Names("1.1 MHz", 1000001) && Names("1.1 MHz", 1100000)
  {
    hide Decimal, DecimalValue, SamplerateString;
    PrintedDecimalIff(31500);
    PrintedDecimalIff(1000001);
    SomeDecimals();
    FractionPrinted(31500, 31, 500);
    FractionPrinted(1000001, 1, 1);
    Joined("31", "500", 'K', "31.500 KHz");
    Joined("1", "1", 'M', "1.1 MHz");
    FractionValue(1, 1, 'M');
    assert Pow10(1) == 10 * Pow10(0);
  }

  lemma FractionPrinted(x: nat, a: nat, b: nat)
    requires x >= KHZ && a == x / UnitOf(x) && 0 < b == x % UnitOf(x)
    ensures SamplerateString(x) == Decimal(a) + "." + Decimal(b) + (" " + [Letter(x)] + "Hz")
  {
    hide Decimal, SamplerateString;
    TextOf(x);
  }

  lemma Joined(a: string, b: string, c: char, s: string)
    requires s == a + ['.'] + b + [' ', c, 'H', 'z']
    ensures a + "." + b + (" " + [c] + "Hz") == s
  {
    assert " " + [c] + "Hz" == [' ', c, 'H', 'z'];
  }

  /** The texts of the comment at the printer, and the ends of the units. */
  lemma PrintedUnits()
    ensures SamplerateString(0) == "0 Hz" && SamplerateString(999) == "999 Hz" && SamplerateString(1000) == "1 kHz"
    ensures SamplerateString(20000) == "20 kHz" && SamplerateString(3000000) == "3 MHz"
    ensures SamplerateString(2000000000) == "2 GHz"
  {
    SmallDecimals();
    hide Decimal, SamplerateString;
    HertzPrinted(0);
    HertzPrinted(999);
    WholePrinted(1000);
    WholePrinted(20000);
    WholePrinted(3000000);
    WholePrinted(2000000000);
    assert "0" + " Hz" == "0 Hz" && "999" + " Hz" == "999 Hz";
    assert "1" + [' ', 'k', 'H', 'z'] == "1 kHz" && "20" + [' ', 'k', 'H', 'z'] == "20 kHz";
    assert "3" + [' ', 'M', 'H', 'z'] == "3 MHz" && "2" + [' ', 'G', 'H', 'z'] == "2 GHz";
  }

  lemma HertzPrinted(x: nat)
    requires x < KHZ
    ensures SamplerateString(x) == Decimal(x) + " Hz"
  {
    hide Decimal;
  }

  lemma WholePrinted(x: nat)
    requires x >= KHZ && x % UnitOf(x) == 0
    ensures SamplerateString(x) == Decimal(x / UnitOf(x)) + [' ', Letter(x), 'H', 'z']
  {
    hide Decimal, SamplerateString;
    TextOf(x);
    var d := Decimal(x / UnitOf(x));
    assert d + " " + [Letter(x)] + "Hz" == d + [' ', Letter(x), 'H', 'z'];
  }

  lemma SmallDecimals()
    ensures Decimal(0) == "0" && Decimal(1) == "1" && Decimal(2) == "2" && Decimal(3) == "3"
    ensures Decimal(20) == "20" && Decimal(999) == "999"
  {
    assert Decimal(9) == "9" && Decimal(99) == "9" + "9";
  }

  lemma SomeDecimals()
    ensures Decimal(31) == "31" && Decimal(500) == "500" && Decimal(1) == "1"
  {
    assert Decimal(3) == "3" && Decimal(5) == "5";
    assert Decimal(50) == "5" + "0";
  }
}
