/**
 * The parser accepts nothing but what the printer prints: outside the scaling lists and the reserved bits, every
 * structure that parses lies in the bits exactly as it is printed.
 */
module SpsCanonical {
  import opened Numbers
  import opened BitStream
  import opened Nal
  import opened Options
  import opened SpsSyntax

  /** A reader stopped right behind the code of its value. */
  ghost predicate Stands(s: seq<bool>, p: nat, code: seq<bool>, q: nat) { CodeAt(s, p, code) && q == p + |code| <= |s| }

  lemma Join(s: seq<bool>, p: nat, a: seq<bool>, q: nat, b: seq<bool>, r: nat)
    requires Stands(s, p, a, q) && Stands(s, q, b, r)
    ensures Stands(s, p, a + b, r)
  {
    CodeSplit(s, p, a, b);
  }

  lemma {:induction false} BitsValue(t: seq<bool>)
    ensures BitsOf(Value(t), |t|) == t
  {
    if t != [] {
      var n := |t| - 1;
      BitsValue(t[..n]);
      assert Value(t) / 2 == Value(t[..n]);
      assert BitsOf(Value(t), |t|)[..n] == BitsOf(Value(t[..n]), n);
      assert BitsOf(Value(t), |t|)[n] == t[n];
      assert t == t[..n] + [t[n]];
    } else {
      assert BitsOf(Value(t), 0) == t;
    }
  }

  lemma UStands(s: seq<bool>, p: nat, n: nat)
    ensures var r := ReadU(s, p, n); r.Got? ==> Stands(s, p, BitsOf(r.value, n), r.pos)
  {
    if p + n <= |s| {
      BitsValue(s[p..p + n]);
    }
  }

  lemma FlagStands(s: seq<bool>, p: nat)
    ensures var r := ReadFlag(s, p); r.Got? ==> Stands(s, p, [r.value], r.pos)
  {
    if p < |s| {
      assert s[p..p + 1] == [s[p]];
    }
  }

  lemma {:induction false} ZerosStand(s: seq<bool>, p: nat, zeros: nat)
    requires zeros <= 31
    ensures var r := LeadingZeros(s, p, zeros); r.Got? ==>
      r.value >= zeros && Stands(s, p, Zeros(r.value - zeros) + [true], r.pos)
    decreases 31 - zeros
  {
    if LeadingZeros(s, p, zeros).Got? {
      if s[p] {
        assert Zeros(0) + [true] == [true];
        assert s[p..p + 1] == [true];
      } else {
        ZerosStand(s, p + 1, zeros + 1);
        var n := LeadingZeros(s, p, zeros).value - zeros;
        assert s[p..p + 1] == [false];
        Join(s, p, [false], p + 1, Zeros(n - 1) + [true], LeadingZeros(s, p, zeros).pos);
        assert [false] + (Zeros(n - 1) + [true]) == Zeros(n) + [true];
      }
    }
  }

  lemma {:induction false} Log2Of(v: nat, n: nat)
    requires Pow2(n) <= v < 2 * Pow2(n)
    ensures Log2(v) == n
  {
    if n > 0 {
      Log2Of(v / 2, n - 1);
    }
  }

  lemma UeStands(s: seq<bool>, p: nat)
    ensures var r := ReadUe(s, p); r.Got? ==> Stands(s, p, Ue(r.value), r.pos)
  {
    hide CodeAt, Value, Log2, LeadingZeros, Bit, BitsOf, ReadU;
    if ReadUe(s, p).Got? {
      ZerosStand(s, p, 0);
      var z, v := LeadingZeros(s, p, 0), ReadUe(s, p).value;
      LeadingZerosMove(s, p, 0);
      UStands(s, z.pos, z.value);
      ReadUFits(s, z.pos, z.value);
      var rest := ReadU(s, z.pos, z.value);
      Log2Of(v + 1, z.value);
      TopBit(v + 1, z.value);
      Join(s, p, Zeros(z.value) + [true], z.pos, BitsOf(rest.value, z.value), rest.pos);
      assert (Zeros(z.value) + [true]) + BitsOf(rest.value, z.value) ==
        Zeros(z.value) + ([true] + BitsOf(rest.value, z.value));
    }
  }

  lemma SeStands(s: seq<bool>, p: nat)
    ensures var r := ReadSe(s, p); r.Got? ==> Stands(s, p, Se(r.value), r.pos)
  {
    hide CodeAt, ReadUe, Ue;
    UeStands(s, p);
  }

  lemma {:induction false} UesStand(s: seq<bool>, p: nat, n: nat)
    requires p <= |s|
    ensures var r := ReadUes(s, p, n); r.Got? ==> Stands(s, p, Ues(r.value), r.pos)
    decreases n
  {
    hide ReadUe, Ue;
    if n > 0 && ReadUes(s, p, n).Got? {
      UeStands(s, p);
      var a := ReadUe(s, p);
      UesStand(s, a.pos, n - 1);
      var b := ReadUes(s, a.pos, n - 1);
      Join(s, p, Ue(a.value), a.pos, Ues(b.value), b.pos);
      assert ([a.value] + b.value)[1..] == b.value;
    }
  }

  lemma {:induction false} SesStand(s: seq<bool>, p: nat, n: nat)
    requires p <= |s|
    ensures var r := ReadSes(s, p, n); r.Got? ==> Stands(s, p, Ses(r.value), r.pos)
    decreases n
  {
    hide ReadSe, Se;
    if n > 0 && ReadSes(s, p, n).Got? {
      SeStands(s, p);
      var a := ReadSe(s, p);
      SesStand(s, a.pos, n - 1);
      var b := ReadSes(s, a.pos, n - 1);
      Join(s, p, Se(a.value), a.pos, Ses(b.value), b.pos);
      assert ([a.value] + b.value)[1..] == b.value;
    }
  }

  lemma {:induction false} UsStand(s: seq<bool>, p: nat, n: nat, count: nat)
    requires p <= |s|
    ensures var r := ReadUs(s, p, n, count); r.Got? ==> Stands(s, p, Us(r.value, n), r.pos)
    decreases count
  {
    hide ReadU, BitsOf;
    if count > 0 && ReadUs(s, p, n, count).Got? {
      UStands(s, p, n);
      var a := ReadU(s, p, n);
      UsStand(s, a.pos, n, count - 1);
      var b := ReadUs(s, a.pos, n, count - 1);
      Join(s, p, BitsOf(a.value, n), a.pos, Us(b.value, n), b.pos);
      assert ([a.value] + b.value)[1..] == b.value;
    }
  }

  lemma {:induction false} EntriesStand(s: seq<bool>, p: nat, n: nat)
    requires p <= |s|
    ensures var r := ParseEntries(s, p, n); r.Got? ==> Stands(s, p, PrintEntries(r.value), r.pos)
    decreases n
  {
    hide CodeAt, ReadUe, ReadFlag, Ue;
    if n > 0 && ParseEntries(s, p, n).Got? {
      var a := ReadUe(s, p);
      var b := ReadUe(s, a.pos);
      var c := ReadFlag(s, b.pos);
      var d := ParseEntries(s, c.pos, n - 1);
      UeStands(s, p);
      UeStands(s, a.pos);
      FlagStands(s, b.pos);
      EntriesStand(s, c.pos, n - 1);
      Join(s, b.pos, [c.value], c.pos, PrintEntries(d.value), d.pos);
      Join(s, a.pos, Ue(b.value), b.pos, [c.value] + PrintEntries(d.value), d.pos);
      Join(s, p, Ue(a.value), a.pos, Ue(b.value) + ([c.value] + PrintEntries(d.value)), d.pos);
      var e := CpbEntry(a.value, b.value, c.value);
      assert ([e] + d.value)[1..] == d.value;
    } else if n == 0 {
      EmptyStands(s, p);
    }
  }

  lemma EmptyStands(s: seq<bool>, p: nat)
    requires p <= |s|
    ensures Stands(s, p, [], p)
  {
  }

  lemma HrdStands(s: seq<bool>, p: nat)
    ensures var r := ParseHrd(s, p); r.Got? ==> HrdFits(r.value) && Stands(s, p, PrintHrd(r.value), r.pos)
  {
    hide CodeAt, ReadUe, ReadU, ReadUs, Ue, BitsOf, Us, ParseEntries, PrintEntries, Pow2;
    HrdParsed(s, p);
    if ParseHrd(s, p).Got? {
      var a := ReadUe(s, p);
      UeStands(s, p);
      var b := ReadU(s, a.pos, 4);
      UStands(s, a.pos, 4);
      var c := ReadU(s, b.pos, 4);
      UStands(s, b.pos, 4);
      var d := ParseEntries(s, c.pos, a.value + 1);
      EntriesStand(s, c.pos, a.value + 1);
      var e := ReadUs(s, d.pos, 5, 4);
      UsStand(s, d.pos, 5, 4);
      EntriesParsed(s, c.pos, a.value + 1);
      Join(s, c.pos, PrintEntries(d.value), d.pos, Us(e.value, 5), e.pos);
      Join(s, b.pos, BitsOf(c.value, 4), c.pos, PrintEntries(d.value) + Us(e.value, 5), e.pos);
      Join(s, a.pos, BitsOf(b.value, 4), b.pos, BitsOf(c.value, 4) + (PrintEntries(d.value) + Us(e.value, 5)), e.pos);
      Join(s, p, Ue(a.value), a.pos,
        BitsOf(b.value, 4) + (BitsOf(c.value, 4) + (PrintEntries(d.value) + Us(e.value, 5))), e.pos);
    }
  }

  lemma AspectStands(s: seq<bool>, p: nat)
    ensures var r := ParseAspect(s, p); r.Got? ==> Stands(s, p, PrintAspect(r.value), r.pos)
  {
    hide CodeAt, ReadU, BitsOf, ReadFlag;
    if ParseAspect(s, p).Got? {
      var a := ReadFlag(s, p);
      FlagStands(s, p);
      if a.value {
        var b := ReadU(s, a.pos, 8);
        UStands(s, a.pos, 8);
        if b.value == SAR_EXTENDED {
          var c := ReadU(s, b.pos, 16);
          UStands(s, b.pos, 16);
          var d := ReadU(s, c.pos, 16);
          UStands(s, c.pos, 16);
          Join(s, b.pos, BitsOf(c.value, 16), c.pos, BitsOf(d.value, 16), d.pos);
          Join(s, a.pos, BitsOf(b.value, 8), b.pos, BitsOf(c.value, 16) + BitsOf(d.value, 16), d.pos);
          Join(s, p, [true], a.pos, BitsOf(b.value, 8) + (BitsOf(c.value, 16) + BitsOf(d.value, 16)), d.pos);
        } else {
          NothingAfter(BitsOf(b.value, 8));
          Join(s, p, [true], a.pos, BitsOf(b.value, 8), b.pos);
        }
      }
    }
  }

  lemma OverscanStands(s: seq<bool>, p: nat)
    ensures var r := ParseOverscan(s, p); r.Got? ==> Stands(s, p, PrintOverscan(r.value), r.pos)
  {
    hide CodeAt, ReadFlag;
    if ParseOverscan(s, p).Got? {
      var a := ReadFlag(s, p);
      FlagStands(s, p);
      if a.value {
        FlagStands(s, a.pos);
        Join(s, p, [true], a.pos, [ReadFlag(s, a.pos).value], ReadFlag(s, a.pos).pos);
      }
    }
  }

  lemma SignalStands(s: seq<bool>, p: nat)
    ensures var r := ParseSignal(s, p); r.Got? ==> Stands(s, p, PrintSignal(r.value), r.pos)
  {
    hide CodeAt, ReadU, BitsOf, ReadFlag, Us, ReadUs;
    if ParseSignal(s, p).Got? {
      var a := ReadFlag(s, p);
      FlagStands(s, p);
      if a.value {
        var b := ReadU(s, a.pos, 3);
        UStands(s, a.pos, 3);
        var c := ReadFlag(s, b.pos);
        FlagStands(s, b.pos);
        var d := ReadFlag(s, c.pos);
        FlagStands(s, c.pos);
        var e := ReadUs(s, d.pos, 8, 3);
        UsStand(s, d.pos, 8, 3);
        var tail, end := if d.value then [true] + Us(e.value, 8) else [false], if d.value then e.pos else d.pos;
        if d.value {
          Join(s, c.pos, [true], d.pos, Us(e.value, 8), e.pos);
        }
        Join(s, b.pos, [c.value], c.pos, tail, end);
        Join(s, a.pos, BitsOf(b.value, 3), b.pos, [c.value] + tail, end);
        Join(s, p, [true], a.pos, BitsOf(b.value, 3) + ([c.value] + tail), end);
      }
    }
  }

  lemma GroupStands(s: seq<bool>, p: nat, n: nat)
    ensures var r := ParseGroup(s, p, n); r.Got? ==> Stands(s, p, PrintGroup(r.value), r.pos)
  {
    hide CodeAt, ReadFlag, Ues, ReadUes;
    if ParseGroup(s, p, n).Got? {
      var a := ReadFlag(s, p);
      FlagStands(s, p);
      if a.value {
        UesStand(s, a.pos, n);
        Join(s, p, [true], a.pos, Ues(ReadUes(s, a.pos, n).value), ReadUes(s, a.pos, n).pos);
      }
    }
  }

  lemma TimingStands(s: seq<bool>, p: nat)
    ensures var r := ParseTiming(s, p); r.Got? ==> Stands(s, p, PrintTiming(r.value), r.pos)
  {
    hide CodeAt, ReadU, BitsOf, ReadFlag;
    if ParseTiming(s, p).Got? {
      var a := ReadFlag(s, p);
      FlagStands(s, p);
      if a.value {
        var b := ReadU(s, a.pos, 32);
        UStands(s, a.pos, 32);
        var c := ReadU(s, b.pos, 32);
        UStands(s, b.pos, 32);
        var d := ReadFlag(s, c.pos);
        FlagStands(s, c.pos);
        Join(s, b.pos, BitsOf(c.value, 32), c.pos, [d.value], d.pos);
        Join(s, a.pos, BitsOf(b.value, 32), b.pos, BitsOf(c.value, 32) + [d.value], d.pos);
        Join(s, p, [true], a.pos, BitsOf(b.value, 32) + (BitsOf(c.value, 32) + [d.value]), d.pos);
      }
    }
  }

  lemma HrdOptStands(s: seq<bool>, p: nat)
    ensures var r := ParseHrdOpt(s, p); r.Got? ==> HrdOptFits(r.value) && Stands(s, p, PrintHrdOpt(r.value), r.pos)
  {
    hide CodeAt, ReadFlag, PrintHrd, ParseHrd, HrdFits;
    if ParseHrdOpt(s, p).Got? {
      var a := ReadFlag(s, p);
      FlagStands(s, p);
      if a.value {
        HrdStands(s, a.pos);
        Join(s, p, [true], a.pos, PrintHrd(ParseHrd(s, a.pos).value), ParseHrd(s, a.pos).pos);
      }
    }
  }

  lemma RestrictionStands(s: seq<bool>, p: nat)
    ensures var r := ParseRestriction(s, p); r.Got? ==> Stands(s, p, PrintRestriction(r.value), r.pos)
  {
    hide CodeAt, ReadFlag, Ues, ReadUes;
    if ParseRestriction(s, p).Got? {
      var a := ReadFlag(s, p);
      FlagStands(s, p);
      if a.value {
        var b := ReadFlag(s, a.pos);
        FlagStands(s, a.pos);
        var c := ReadUes(s, b.pos, 6);
        UesStand(s, b.pos, 6);
        Join(s, a.pos, [b.value], b.pos, Ues(c.value), c.pos);
        Join(s, p, [true], a.pos, [b.value] + Ues(c.value), c.pos);
      }
    }
  }

  lemma VuiStands(s: seq<bool>, p: nat)
    ensures var r := ParseVui(s, p); r.Got? ==> VuiFits(r.value) && Stands(s, p, PrintVui(r.value), r.pos)
  {
    hide CodeAt, PrintAspect, ParseAspect, PrintOverscan, ParseOverscan, PrintSignal, ParseSignal, PrintGroup,
      ParseGroup, PrintTiming, ParseTiming,
      ParseVuiEnd, PrintVuiEnd, VuiFits;
    VuiParsed(s, p);
    if ParseVui(s, p).Got? {
      var a := ParseAspect(s, p);
      AspectStands(s, p);
      var b := ParseOverscan(s, a.pos);
      OverscanStands(s, a.pos);
      var c := ParseSignal(s, b.pos);
      SignalStands(s, b.pos);
      var d := ParseGroup(s, c.pos, 2);
      GroupStands(s, c.pos, 2);
      var e := ParseTiming(s, d.pos);
      TimingStands(s, d.pos);
      var v, end := ParseVui(s, p).value, ParseVuiEnd(s, e.pos);
      VuiEndStands(s, e.pos, v);
      FitsEnd(v);
      var c4 := PrintVuiEnd(v);
      Join(s, d.pos, PrintTiming(e.value), e.pos, c4, end.pos);
      Join(s, c.pos, PrintGroup(d.value), d.pos, PrintTiming(e.value) + c4, end.pos);
      Join(s, b.pos, PrintSignal(c.value), c.pos, PrintGroup(d.value) + (PrintTiming(e.value) + c4), end.pos);
      Join(s, a.pos, PrintOverscan(b.value), b.pos,
        PrintSignal(c.value) + (PrintGroup(d.value) + (PrintTiming(e.value) + c4)), end.pos);
      Join(s, p, PrintAspect(a.value), a.pos,
           PrintOverscan(b.value) + (PrintSignal(c.value) + (PrintGroup(d.value) + (PrintTiming(e.value) + c4))),
             end.pos);
    }
  }

  lemma FitsEnd(v: Vui)
    requires VuiFits(v)
    ensures HrdOptFits(v.nalHrd) && HrdOptFits(v.vclHrd)
  {
  }

  lemma VuiEndStands(s: seq<bool>, p: nat, v: Vui)
    ensures var r := ParseVuiEnd(s, p); r.Got? && r.value == EndOf(v) ==>
      HrdOptFits(v.nalHrd) && HrdOptFits(v.vclHrd) && Stands(s, p, PrintVuiEnd(v), r.pos)
  {
    hide CodeAt, ReadFlag, PrintHrdOpt, ParseHrdOpt, PrintRestriction, ParseRestriction, HrdOptFits;
    var r := ParseVuiEnd(s, p);
    if r.Got? && r.value == EndOf(v) {
      var a := ParseHrdOpt(s, p);
      HrdOptStands(s, p);
      var b := ParseHrdOpt(s, a.pos);
      HrdOptStands(s, a.pos);
      var c := ParseLowDelay(s, b.pos, a.value.Some? || b.value.Some?);
      FlagStands(s, b.pos);
      EmptyStands(s, b.pos);
      var d := ReadFlag(s, c.pos);
      FlagStands(s, c.pos);
      RestrictionStands(s, d.pos);
      var low := if a.value.Some? || b.value.Some? then [c.value] else [];
      var c2 := [d.value] + PrintRestriction(v.restriction);
      Join(s, c.pos, [d.value], d.pos, PrintRestriction(v.restriction), r.pos);
      Join(s, b.pos, low, c.pos, c2, r.pos);
      Join(s, a.pos, PrintHrdOpt(b.value), b.pos, low + c2, r.pos);
      Join(s, p, PrintHrdOpt(a.value), a.pos, PrintHrdOpt(b.value) + (low + c2), r.pos);
    }
  }

  lemma CycleStands(s: seq<bool>, p: nat)
    ensures var r := ParseCycle(s, p); r.Got? ==> r.value.Cycle? && Stands(s, p, PrintCycle(r.value), r.pos)
  {
    hide CodeAt, ReadFlag, Ue, ReadUe, Se, ReadSe, Ses, ReadSes;
    if ParseCycle(s, p).Got? {
      var a := ReadFlag(s, p);
      FlagStands(s, p);
      var b := ReadSe(s, a.pos);
      SeStands(s, a.pos);
      var c := ReadSe(s, b.pos);
      SeStands(s, b.pos);
      var d := ReadUe(s, c.pos);
      UeStands(s, c.pos);
      var e := ReadSes(s, d.pos, d.value);
      SesStand(s, d.pos, d.value);
      ReadSesFit(s, d.pos, d.value);
      var c3 := Ue(d.value) + Ses(e.value);
      Join(s, c.pos, Ue(d.value), d.pos, Ses(e.value), e.pos);
      Join(s, b.pos, Se(c.value), c.pos, c3, e.pos);
      Join(s, a.pos, Se(b.value), b.pos, Se(c.value) + c3, e.pos);
      Join(s, p, [a.value], a.pos, Se(b.value) + (Se(c.value) + c3), e.pos);
    }
  }

  /** What follows the order type when it is one. */
  function PrintCycle(o: PicOrder): seq<bool>
    requires o.Cycle?
  {
    [o.alwaysZero] + (Se(o.nonRef) + (Se(o.topToBottom) + (Ue(|o.offsets|) + Ses(o.offsets))))
  }

  lemma PicOrderStands(s: seq<bool>, p: nat)
    ensures var r := ParsePicOrder(s, p); r.Got? ==> Stands(s, p, PrintPicOrder(r.value), r.pos)
  {
    hide CodeAt, Ue, ReadUe, Se, Ses, ParseCycle;
    if ParsePicOrder(s, p).Got? {
      var a := ReadUe(s, p);
      UeStands(s, p);
      if a.value == 0 {
        var b := ReadUe(s, a.pos);
        UeStands(s, a.pos);
        Join(s, p, Ue(0), a.pos, Ue(b.value), b.pos);
      } else if a.value == 1 {
        var b := ParseCycle(s, a.pos);
        CycleStands(s, a.pos);
        Join(s, p, Ue(1), a.pos, PrintCycle(b.value), b.pos);
      }
    }
  }

  /** A parameter set's frame fields on their own. */
  predicate FramesOf(f: Frames, v: Sps) {
    && f.numRefFrames == v.numRefFrames && f.gapsAllowed == v.gapsAllowed && f.width == v.width && f.height == v.height
    && f.frameMbsOnly == v.frameMbsOnly && f.mbAdaptive == v.mbAdaptive && f.direct8x8 == v.direct8x8
  }

  lemma FramesStand(s: seq<bool>, p: nat, v: Sps)
    ensures var r := ParseFrames(s, p); r.Got? && FramesOf(r.value, v) ==> Stands(s, p, PrintFrames(v), r.pos)
  {
    hide CodeAt, Ue, ReadUe, ReadFlag;
    var r := ParseFrames(s, p);
    if r.Got? && FramesOf(r.value, v) {
      var a := ReadUe(s, p);
      UeStands(s, p);
      var b := ReadFlag(s, a.pos);
      FlagStands(s, a.pos);
      var c := ReadUe(s, b.pos);
      UeStands(s, b.pos);
      var d := ReadUe(s, c.pos);
      UeStands(s, c.pos);
      var e := ReadFlag(s, d.pos);
      FlagStands(s, d.pos);
      var f := ParseAdaptive(s, e.pos, e.value);
      FlagStands(s, e.pos);
      EmptyStands(s, e.pos);
      FlagStands(s, f.pos);
      var adaptive := if v.frameMbsOnly then [] else [v.mbAdaptive];
      Join(s, e.pos, adaptive, f.pos, [v.direct8x8], r.pos);
      Join(s, d.pos, [v.frameMbsOnly], e.pos, adaptive + [v.direct8x8], r.pos);
      Join(s, c.pos, Ue(v.height), d.pos, PrintMbs(v), r.pos);
      Join(s, b.pos, Ue(v.width), c.pos, Ue(v.height) + PrintMbs(v), r.pos);
      Join(s, a.pos, [v.gapsAllowed], b.pos, Ue(v.width) + (Ue(v.height) + PrintMbs(v)), r.pos);
      Join(s, p, Ue(v.numRefFrames), a.pos, [v.gapsAllowed] + (Ue(v.width) + (Ue(v.height) + PrintMbs(v))), r.pos);
    }
  }

  lemma FramesFit(s: seq<bool>, p: nat)
    ensures var r := ParseFrames(s, p); r.Got? ==>
      r.value.numRefFrames <= 16 && r.value.width <= INT32_MAX && r.value.height <= INT32_MAX
        && (r.value.frameMbsOnly ==> !r.value.mbAdaptive)
  {
    hide ReadUe, ReadFlag;
    if ParseFrames(s, p).Got? {
      var p2 := ReadFlag(s, ReadUe(s, p).pos).pos;
      ReadUeFits(s, p2);
      ReadUeFits(s, ReadUe(s, p2).pos);
    }
  }

  lemma VuiOptStands(s: seq<bool>, p: nat)
    ensures var r := ParseVuiOpt(s, p); r.Got? ==> VuiOptFits(r.value) && Stands(s, p, PrintVuiOpt(r.value), r.pos)
  {
    hide CodeAt, ReadFlag, PrintVui, ParseVui, VuiFits;
    if ParseVuiOpt(s, p).Got? {
      var a := ReadFlag(s, p);
      FlagStands(s, p);
      if a.value {
        VuiStands(s, a.pos);
        Join(s, p, [true], a.pos, PrintVui(ParseVui(s, a.pos).value), ParseVui(s, a.pos).pos);
      }
    }
  }

  /** Whatever parses is something the writer can print. */
  lemma SpsParsed(s: seq<bool>, p: nat)
    ensures var r := ParseSps(s, p); r.Got? ==> SpsFits(r.value)
  {
    hide ParseHigh, ParsePicOrder, ParseFrames, ParseGroup, ParseVuiOpt, PicOrderFits, HighFits, VuiOptFits, ChromaFits,
      IsHigh, Pow2, UsFit, ReadUe, ReadU, ReadUs;
    if ParseSps(s, p).Got? {
      var head := ParseHead(s, p);
      ReadUFits(s, p, 8);
      var p1 := ReadU(s, p, 8).pos;
      ReadUsFit(s, p1, 1, 6);
      ReadUFits(s, ReadUs(s, p1, 1, 6).pos + 2, 8);
      HighParsed(s, head.pos);
      var high := ParseHighOpt(s, head.pos, head.value.profile);
      var a := ReadUe(s, high.pos);
      PicOrderParsed(s, a.pos);
      var b := ParsePicOrder(s, a.pos);
      FramesFit(s, b.pos);
      var c := ParseFrames(s, b.pos);
      GroupParsed(s, c.pos, 4);
      VuiOptStands(s, ParseGroup(s, c.pos, 4).pos);
    }
  }

  lemma TailStands(s: seq<bool>, p: nat, v: Sps)
    requires SpsFits(v)
    ensures var r := ParseTail(s, p); r.Got? && r.value == TailOf(v) ==> Stands(s, p, PrintTail(v), r.pos)
  {
    hide CodeAt, Ue, ReadUe, PrintPicOrder, ParsePicOrder, PrintFrames, ParseFrames, PrintGroup, ParseGroup,
      PrintVuiOpt, ParseVuiOpt,
      PicOrderFits, HighOptFits, VuiOptFits, ChromaFits, Pow2, UsFit;
    var r := ParseTail(s, p);
    if r.Got? && r.value == TailOf(v) {
      var a := ReadUe(s, p);
      UeStands(s, p);
      var b := ParsePicOrder(s, a.pos);
      PicOrderStands(s, a.pos);
      var c := ParseFrames(s, b.pos);
      FramesStand(s, b.pos, v);
      var d := ParseGroup(s, c.pos, 4);
      GroupStands(s, c.pos, 4);
      VuiOptStands(s, d.pos);
      var c2 := PrintGroup(v.crop) + PrintVuiOpt(v.vui);
      Join(s, c.pos, PrintGroup(v.crop), d.pos, PrintVuiOpt(v.vui), r.pos);
      Join(s, b.pos, PrintFrames(v), c.pos, c2, r.pos);
      Join(s, a.pos, PrintPicOrder(v.picOrder), b.pos, PrintFrames(v) + c2, r.pos);
      Join(s, p, Ue(v.log2MaxFrameNum), a.pos, PrintPicOrder(v.picOrder) + (PrintFrames(v) + c2), r.pos);
    }
  }
}
