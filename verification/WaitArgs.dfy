/** The variadic argument list of c_wait: CW_* macros on one side, the parser on the other. */
module WaitArgs {
  import opened Matcher

  /** One variadic argument: an int, or the 64-bit count that follows a SKIP. */
  datatype Arg = Int(i: int) | Count(n: nat)

  const CW_OR := -1
  const CW_END := -2

  function KindCode(k: TermKind): nat {
    match k
    case High => 0
    case Low => 1
    case Rising => 2
    case Falling => 3
    case Either => 4
    case NoEdge => 5
    case Skip => 6
    case Unknown => 7
  }

  function CodeKind(n: nat): TermKind {
    if n == 0 then High else if n == 1 then Low else if n == 2 then Rising else if n == 3 then Falling
    else if n == 4 then Either else if n == 5 then NoEdge else if n == 6 then Skip else Unknown
  }

  /** _CW_ENC: `(int)(t << 16 | (c & 0xFFFF))` */
  function Encoded(k: TermKind, channel: int): int {
    KindCode(k) * 0x10000 + channel % 0x10000
  }

  /** CW_H(ch) .. CW_N(ch), CW_SKIP(n) */
  function EncodeTerm(t: Term): seq<Arg> {
    if t.kind == Skip then [Int(Encoded(Skip, -1)), Count(t.toSkip)] else [Int(Encoded(t.kind, t.channel))]
  }

  function EncodeGroup(ts: seq<Term>): seq<Arg> {
    if ts == [] then [] else EncodeTerm(ts[0]) + EncodeGroup(ts[1..])
  }

  /** Groups separated by CW_OR and closed by CW_END. */
  function Encode(conds: Conditions): seq<Arg>
    requires conds != []
  {
    if |conds| == 1 then EncodeGroup(conds[0]) + [Int(CW_END)]
    else EncodeGroup(conds[0]) + [Int(CW_OR)] + Encode(conds[1..])
  }

  /** The list ends in CW_END, and a count follows every SKIP and nothing else. */
  predicate WellFormed(args: seq<Arg>) {
    && args != [] && args[0].Int?
    && (args[0].i != CW_END ==>
          if args[0].i != CW_OR && TypeOf(args[0].i) == Skip
          then |args| > 1 && args[1].Count? && WellFormed(args[2..])
          else WellFormed(args[1..]))
  }

  /** `(arg >> 16) & 0xFFFF`, as a term type. */
  function TypeOf(arg: int): TermKind {
    CodeKind((arg / 0x10000) % 0x10000)
  }

  function ChannelOf(arg: int): int {
    arg % 0x10000
  }

  function Flush(groups: Conditions, current: seq<Term>): Conditions {
    if current == [] then groups else groups + [current]
  }

  /** What the parser makes of the rest of the list. */
  function Parse(args: seq<Arg>, groups: Conditions, current: seq<Term>): Conditions
    requires WellFormed(args)
    decreases |args|
  {
    var arg := args[0].i;
    if arg == CW_END then Flush(groups, current)
    else if arg == CW_OR then Parse(args[1..], Flush(groups, current), [])
    else if TypeOf(arg) == Skip then Parse(args[2..], groups, current + [Term(Skip, -1, args[1].n, 0)])
    else Parse(args[1..], groups, current + [Term(TypeOf(arg), ChannelOf(arg), 0, 0)])
  }

  /** The argument loop of c_wait. */
  method ParseArgs(args: seq<Arg>) returns (groups: Conditions)
    requires WellFormed(args)
    ensures groups == Parse(args, [], [])
  {
    groups := [];
    var current: seq<Term> := [];
    var ap := 0;
    while args[ap].i != CW_END
      invariant 0 <= ap < |args| && WellFormed(args[ap..]) && args[ap].Int?
      invariant Parse(args, [], []) == Parse(args[ap..], groups, current)
      decreases |args| - ap
    {
      var arg := args[ap].i;
      assert args[ap..][1..] == args[ap + 1..];
      if arg == CW_OR {
        ap := ap + 1;
        if current != [] {
          groups := groups + [current];
          current := [];
        }
      } else if TypeOf(arg) == Skip {
        assert args[ap..][2..] == args[ap + 2..];
        current := current + [Term(Skip, -1, args[ap + 1].n, 0)];
        ap := ap + 2;
      } else {
        current := current + [Term(TypeOf(arg), ChannelOf(arg), 0, 0)];
        ap := ap + 1;
      }
    }
    if current != [] {
      groups := groups + [current];
    }
  }

  /** Groups with terms, the counters at zero. */
  predicate FreshGroups(conds: Conditions) {
    forall j :: 0 <= j < |conds| ==> conds[j] != [] && FreshTerms(conds[j])
  }

  predicate FreshTerms(ts: seq<Term>) {
    forall i :: 0 <= i < |ts| ==> ts[i].skipped == 0
  }

  /** The parser makes no empty group and starts every counter at zero. */
  lemma {:induction false} ParsedFresh(args: seq<Arg>, groups: Conditions, current: seq<Term>)
    requires WellFormed(args) && FreshGroups(groups) && FreshTerms(current)
    ensures FreshGroups(Parse(args, groups, current))
    decreases |args|
  {
    var arg := args[0].i;
    if arg == CW_END {
    } else if arg == CW_OR {
      ParsedFresh(args[1..], Flush(groups, current), []);
    } else if TypeOf(arg) == Skip {
      ParsedFresh(args[2..], groups, current + [Term(Skip, -1, args[1].n, 0)]);
    } else {
      ParsedFresh(args[1..], groups, current + [Term(TypeOf(arg), ChannelOf(arg), 0, 0)]);
    }
  }

  /** A term as the macros and the parser pass it on: channels are cut to 16 bits. */
  function Passed(t: Term): Term {
    if t.kind == Skip then Term(Skip, -1, t.toSkip, 0) else Term(t.kind, t.channel % 0x10000, 0, 0)
  }

  function PassedGroup(ts: seq<Term>): seq<Term> {
    if ts == [] then [] else [Passed(ts[0])] + PassedGroup(ts[1..])
  }

  /** The non-empty groups, in order. */
  function PassedConds(conds: Conditions): Conditions {
    if conds == [] then []
    else Flush([], PassedGroup(conds[0])) + PassedConds(conds[1..])
  }

  predicate Writable(ts: seq<Term>) {
    forall i :: 0 <= i < |ts| ==> ts[i].kind != Unknown
  }

  /** No encoded term collides with CW_OR or CW_END, and type and channel come back. */
  lemma EncodedIsDistinct(k: TermKind, channel: int)
    requires k != Unknown
    ensures Encoded(k, channel) != CW_OR && Encoded(k, channel) != CW_END
    ensures TypeOf(Encoded(k, channel)) == k && ChannelOf(Encoded(k, channel)) == channel % 0x10000
  {
    var c := channel % 0x10000;
    assert Encoded(k, channel) / 0x10000 == KindCode(k);
  }

  /** The numbers the macros make for channel 3, for SKIP, and between and behind the groups. */
  lemma MacroValues()
    ensures Encoded(High, 3) == 0x3 && Encoded(Low, 3) == 0x10003
    ensures Encoded(Rising, 3) == 0x20003 && Encoded(Falling, 3) == 0x30003
    ensures Encoded(Either, 3) == 0x40003 && Encoded(NoEdge, 3) == 0x50003
    ensures EncodeTerm(Term(Skip, -1, 9, 0)) == [Int(0x6FFFF), Count(9)]
    ensures Encode([[], []]) == [Int(-1), Int(-2)]
  {
  }

  lemma TermRoundTrip(t: Term, rest: seq<Arg>, groups: Conditions, current: seq<Term>)
    requires t.kind != Unknown && WellFormed(rest)
    ensures WellFormed(EncodeTerm(t) + rest)
    ensures Parse(EncodeTerm(t) + rest, groups, current) == Parse(rest, groups, current + [Passed(t)])
  {
    hide Encoded;
    hide TypeOf;
    hide ChannelOf;
    EncodedIsDistinct(t.kind, if t.kind == Skip then -1 else t.channel);
    var all := EncodeTerm(t) + rest;
    assert all[|EncodeTerm(t)|..] == rest;
  }

  lemma {:induction false} GroupRoundTrip(ts: seq<Term>, rest: seq<Arg>, groups: Conditions, current: seq<Term>)
    requires Writable(ts) && WellFormed(rest)
    ensures WellFormed(EncodeGroup(ts) + rest)
    ensures Parse(EncodeGroup(ts) + rest, groups, current) == Parse(rest, groups, current + PassedGroup(ts))
    decreases ts
  {
    hide Parse;
    hide WellFormed;
    hide EncodeTerm;
    if ts == [] {
      assert EncodeGroup(ts) + rest == rest && current + [] == current;
    } else {
      var t, tail := ts[0], EncodeGroup(ts[1..]) + rest;
      GroupRoundTrip(ts[1..], rest, groups, current + [Passed(t)]);
      TermRoundTrip(t, tail, groups, current);
      assert EncodeGroup(ts) + rest == EncodeTerm(t) + tail;
      assert current + [Passed(t)] + PassedGroup(ts[1..]) == current + PassedGroup(ts);
    }
  }

  lemma EndOfList(groups: Conditions, current: seq<Term>)
    ensures WellFormed([Int(CW_END)]) && Parse([Int(CW_END)], groups, current) == Flush(groups, current)
  {
  }

  lemma NextGroup(rest: seq<Arg>, groups: Conditions, current: seq<Term>)
    requires WellFormed(rest)
    ensures WellFormed([Int(CW_OR)] + rest)
    ensures Parse([Int(CW_OR)] + rest, groups, current) == Parse(rest, Flush(groups, current), [])
  {
    assert ([Int(CW_OR)] + rest)[1..] == rest;
  }

  lemma FlushIsAppend(groups: Conditions, g: seq<Term>, more: Conditions)
    ensures Flush(groups, g) + more == groups + (Flush([], g) + more)
  {
  }

  lemma EncodeSplits(conds: Conditions)
    requires |conds| > 1
    ensures Encode(conds) == EncodeGroup(conds[0]) + ([Int(CW_OR)] + Encode(conds[1..]))
  {
  }

  lemma {:induction false} ListRoundTrip(conds: Conditions, groups: Conditions)
    requires conds != [] && forall j :: 0 <= j < |conds| ==> Writable(conds[j])
    ensures WellFormed(Encode(conds))
    ensures Parse(Encode(conds), groups, []) == groups + PassedConds(conds)
    decreases conds
  {
    hide Parse;
    hide WellFormed;
    hide Writable;
    hide Flush;
    var ts := conds[0];
    var g := PassedGroup(ts);
    assert [] + g == g;
    FlushIsAppend(groups, g, PassedConds(conds[1..]));
    if |conds| == 1 {
      EndOfList(groups, g);
      GroupRoundTrip(ts, [Int(CW_END)], groups, []);
      assert Flush(groups, g) + [] == Flush(groups, g);
    } else {
      ListRoundTrip(conds[1..], Flush(groups, g));
      NextGroup(Encode(conds[1..]), groups, g);
      EncodeSplits(conds);
      hide Encode;
      GroupRoundTrip(ts, [Int(CW_OR)] + Encode(conds[1..]), groups, []);
    }
  }

  /** The term survives the macros and the parser unchanged. */
  predicate Survives(t: Term) {
    if t.kind == Skip then t.channel == -1 && t.skipped == 0
    else 0 <= t.channel < 0x10000 && t.toSkip == 0 && t.skipped == 0
  }

  lemma {:induction false} PassedIffSurvives(ts: seq<Term>)
    ensures PassedGroup(ts) == ts <==> forall i :: 0 <= i < |ts| ==> Survives(ts[i])
    ensures |PassedGroup(ts)| == |ts|
    decreases ts
  {
    if ts == [] {
    } else {
      PassedIffSurvives(ts[1..]);
      assert ts == [ts[0]] + ts[1..];
      if PassedGroup(ts) == ts {
        assert PassedGroup(ts)[0] == ts[0];
        assert PassedGroup(ts)[1..] == ts[1..];
        forall i | 0 <= i < |ts| ensures Survives(ts[i]) {
          if i > 0 { assert ts[i] == ts[1..][i - 1]; }
        }
      }
    }
  }

  /** Condition list round trip: parsing what the macros wrote gives back the non-empty groups in
      order, and a list without empty groups comes back unchanged exactly when its channels fit in
      16 bits and its counters are fresh. */
  lemma RoundTrip(conds: Conditions)
    requires conds != [] && forall j :: 0 <= j < |conds| ==> Writable(conds[j])
    ensures WellFormed(Encode(conds)) && Parse(Encode(conds), [], []) == PassedConds(conds)
    ensures (forall j :: 0 <= j < |conds| ==> conds[j] != []) ==>
              (Parse(Encode(conds), [], []) == conds
               <==> forall j, i :: 0 <= j < |conds| && 0 <= i < |conds[j]| ==> Survives(conds[j][i]))
  {
    ListRoundTrip(conds, []);
    if forall j :: 0 <= j < |conds| ==> conds[j] != [] {
      PassedCondsIff(conds);
    }
  }

  lemma {:induction false} PassedCondsIff(conds: Conditions)
    requires forall j :: 0 <= j < |conds| ==> conds[j] != []
    ensures PassedConds(conds) == conds
       <==> forall j, i :: 0 <= j < |conds| && 0 <= i < |conds[j]| ==> Survives(conds[j][i])
    ensures |PassedConds(conds)| == |conds|
    decreases conds
  {
    if conds == [] {
    } else {
      var ts, rest := conds[0], conds[1..];
      PassedIffSurvives(ts);
      PassedCondsIff(rest);
      assert PassedConds(conds) == [PassedGroup(ts)] + PassedConds(rest);
      assert conds == [ts] + rest;
      if PassedConds(conds) == conds {
        assert PassedConds(conds)[0] == ts && PassedConds(conds)[1..] == rest;
        forall j, i | 0 <= j < |conds| && 0 <= i < |conds[j]| ensures Survives(conds[j][i]) {
          if j > 0 { assert conds[j] == rest[j - 1]; }
        }
      }
      if forall j, i :: 0 <= j < |conds| && 0 <= i < |conds[j]| ==> Survives(conds[j][i]) {
        forall j, i | 0 <= j < |rest| && 0 <= i < |rest[j]| ensures Survives(rest[j][i]) {
          assert rest[j] == conds[j + 1];
        }
        forall i | 0 <= i < |ts| ensures Survives(ts[i]) {
          assert ts[i] == conds[0][i];
        }
      }
    }
  }
}
