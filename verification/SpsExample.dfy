/** A parameter set with every part present, and the bits it is written as, field by field. */
module SpsExample {
  import opened Numbers
  import opened BitStream
  import opened Options
  import opened SpsSyntax

  // ---- Bits as text ----

  function Bits(t: string): (s: seq<bool>)
    ensures |s| == |t|
  {
    seq(|t|, i requires 0 <= i < |t| => t[i] == '1')
  }

  /** The number the first `k` digits stand for behind those of `v`. */
  function Number(v: nat, t: string, k: nat): nat
    requires k <= |t|
  {
    if k == 0 then v else 2 * Number(v, t, k - 1) + if t[k - 1] == '1' then 1 else 0
  }

  lemma BitsPush(v: nat, n: nat, b: bool)
    ensures BitsOf(2 * v + (if b then 1 else 0), n + 1) == BitsOf(v, n) + [b]
  {
    var w := 2 * v + if b then 1 else 0;
    forall i | 0 <= i <= n
      ensures BitsOf(w, n + 1)[i] == (BitsOf(v, n) + [b])[i]
    {
      assert BitsOf(w, n + 1)[i] == Bit(w, n - i);
      if i < n {
        assert Bit(w, n - i) == Bit(w / 2, n - 1 - i);
      }
    }
  }

  lemma {:induction false} NumberBits(v: nat, n: nat, t: string, k: nat)
    requires k <= |t|
    ensures BitsOf(Number(v, t, k), n + k) == BitsOf(v, n) + Bits(t)[..k]
    decreases k
  {
    if k > 0 {
      NumberBits(v, n, t, k - 1);
      BitsPush(Number(v, t, k - 1), n + k - 1, t[k - 1] == '1');
    }
  }

  /** A fixed-length code. */
  lemma U(v: nat, t: string, n: nat)
    requires |t| == n && Number(0, t, n) == v
    ensures BitsOf(v, n) == Bits(t)
  {
    NumberBits(0, 0, t, n);
    assert Bits(t)[..n] == Bits(t);
  }

  /** One eight digits longer than that of `v`. */
  lemma Wide(v: nat, n: nat, w: nat, t: string)
    requires |t| == 8 && Number(v, t, 8) == w
    ensures BitsOf(w, n + 8) == BitsOf(v, n) + Bits(t)
  {
    NumberBits(v, n, t, 8);
    assert Bits(t)[..8] == Bits(t);
  }

  lemma {:induction false} BitHigh(v: nat, k: nat)
    requires v < Pow2(k)
    ensures !Bit(v, k)
  {
    if k > 0 {
      BitHigh(v / 2, k - 1);
    }
  }

  lemma {:induction false} PowerGrows(a: nat, b: nat)
    requires a <= b
    ensures Pow2(a) <= Pow2(b)
  {
    if a < b {
      PowerGrows(a, b - 1);
    }
  }

  /** An Exp-Golomb code: the number after the given one, in front of it as many zeros as it has further digits. */
  lemma E(v: nat, t: string, n: nat)
    requires |t| == n && Number(0, t, n) == v + 1 && n == 2 * Log2(v + 1) + 1
    ensures Ue(v) == Bits(t)
  {
    U(v + 1, t, n);
    var l := Log2(v + 1);
    Log2Bounds(v + 1);
    forall i | 0 <= i < n
      ensures Ue(v)[i] == BitsOf(v + 1, n)[i]
    {
      if i < l {
        PowerGrows(l + 1, n - 1 - i);
        BitHigh(v + 1, n - 1 - i);
      }
    }
  }

  /** A signed one. */
  lemma S(v: int, t: string, n: nat)
    requires |t| == n && Number(0, t, n) == (if v <= 0 then 1 - 2 * v else 2 * v) && n == 2 * Log2(Number(0, t, n)) + 1
    ensures Se(v) == Bits(t)
  {
    E(UeOf(v), t, n);
  }

  lemma Unsigned()
    ensures Ue(0) == Bits("1")
    ensures Ue(1) == Bits("010")
    ensures Ue(2) == Bits("011")
    ensures Ue(3) == Bits("00100")
    ensures Ue(4) == Bits("00101")
    ensures Ue(5) == Bits("00110")
    ensures Ue(6) == Bits("00111")
    ensures Ue(7) == Bits("0001000")
  {
    hide BitsOf, Bits;
    E(0, "1", 1);
    E(1, "010", 3);
    E(2, "011", 3);
    E(3, "00100", 5);
    E(4, "00101", 5);
    E(5, "00110", 5);
    E(6, "00111", 5);
    E(7, "0001000", 7);
  }

  lemma Signed()
    ensures Se(0) == Bits("1")
    ensures Se(-1) == Bits("011")
    ensures Se(2) == Bits("00100")
    ensures Se(-2) == Bits("00101")
    ensures Se(3) == Bits("00110")
    ensures Se(8) == Bits("000010000")
    ensures Se(-8) == Bits("000010001")
  {
    hide BitsOf, Bits;
    S(0, "1", 1);
    S(-1, "011", 3);
    S(2, "00100", 5);
    S(-2, "00101", 5);
    S(3, "00110", 5);
    S(8, "000010000", 9);
    S(-8, "000010001", 9);
  }

  lemma Flags()
    ensures [false] == Bits("0") && [true] == Bits("1")
  {
  }

  // ---- The parts ----

  const ASPECT := Some(Aspect(255, 258, 772))

  /** Present, the code for an explicit ratio, and the two halves of the ratio. */
  const ASPECT_BITS :=
    Bits("1") + (Bits("11111111") + ((Bits("00000001") + Bits("00000010")) + (Bits("00000011") + Bits("00000100"))))

  lemma AspectBits()
    ensures PrintAspect(ASPECT) == ASPECT_BITS
  {
    hide BitsOf, Bits;
    Flags();
    U(255, "11111111", 8);
    U(1, "00000001", 8);
    Wide(1, 8, 258, "00000010");
    U(3, "00000011", 8);
    Wide(3, 8, 772, "00000100");
  }

  const SIGNAL := Some(Signal(5, true, Some([9, 10, 11])))

  /** Present, the format, full range, and the three bytes of the colour description. */
  const SIGNAL_BITS :=
    Bits("1") + (Bits("101") + (Bits("1") + (Bits("1") + (Bits("00001001") + (Bits("00001010") + Bits("00001011"))))))

  lemma SignalBits()
    ensures PrintSignal(SIGNAL) == SIGNAL_BITS
  {
    hide BitsOf, Bits;
    Flags();
    U(5, "101", 3);
    U(9, "00001001", 8);
    U(10, "00001010", 8);
    U(11, "00001011", 8);
    Us3(9, 10, 11, 8);
  }

  lemma Us3(a: nat, b: nat, c: nat, n: nat)
    ensures Us([a, b, c], n) == BitsOf(a, n) + (BitsOf(b, n) + BitsOf(c, n))
  {
    hide BitsOf;
    assert [a, b, c][1..] == [b, c] && [b, c][1..] == [c] && [c][1..] == [];
    assert Us([c], n) == BitsOf(c, n) + Us([], n);
  }

  const TIMING := Some(Timing(1001, 60000, true))

  /** Present, the units in a tick, the ticks in a second, and the fixed rate. */
  const TIMING_BITS :=
    Bits("1") +
      ((((Bits("00000000") + Bits("00000000")) + Bits("00000011")) + Bits("11101001")) +
      ((((Bits("00000000") + Bits("00000000")) + Bits("11101010")) + Bits("01100000")) + Bits("1")))

  lemma TimingBits()
    ensures PrintTiming(TIMING) == TIMING_BITS
  {
    hide BitsOf, Bits;
    Flags();
    U(0, "00000000", 8);
    Wide(0, 8, 0, "00000000");
    Wide(0, 16, 3, "00000011");
    Wide(3, 24, 1001, "11101001");
    Wide(0, 16, 234, "11101010");
    Wide(234, 24, 60000, "01100000");
  }

  const NAL_HRD := Some(Hrd(1, 2, [CpbEntry(3, 4, true), CpbEntry(5, 6, false)], [7, 8, 9, 10]))

  /** Present, one less than the two entries, both scales, each entry's rate, size and flag, and the four lengths. */
  const NAL_HRD_BITS :=
    Bits("1") + (Bits("010") + (Bits("0001") + (Bits("0010") +
      ((Bits("00100") + (Bits("00101") + (Bits("1") + (Bits("00110") + (Bits("00111") + Bits("0")))))) +
      (Bits("00111") + (Bits("01000") + (Bits("01001") + Bits("01010"))))))))

  lemma Us4(a: nat, b: nat, c: nat, d: nat, n: nat)
    ensures Us([a, b, c, d], n) == BitsOf(a, n) + (BitsOf(b, n) + (BitsOf(c, n) + BitsOf(d, n)))
  {
    hide BitsOf;
    Us3(b, c, d, n);
    assert [a, b, c, d][1..] == [b, c, d];
  }

  lemma NalEntries()
    ensures PrintEntries([CpbEntry(3, 4, true), CpbEntry(5, 6, false)]) ==
      Bits("00100") + (Bits("00101") + (Bits("1") + (Bits("00110") + (Bits("00111") + Bits("0")))))
  {
    hide Ue, Bits;
    Unsigned();
    Flags();
    var a, b := CpbEntry(3, 4, true), CpbEntry(5, 6, false);
    assert [a, b][1..] == [b] && [b][1..] == [];
    assert [false] + PrintEntries([]) == [false];
    assert PrintEntries([b]) == Ue(5) + (Ue(6) + ([false] + PrintEntries([])));
  }

  lemma NalHrdBits()
    ensures HrdOptFits(NAL_HRD) && PrintHrdOpt(NAL_HRD) == NAL_HRD_BITS
  {
    hide Ue, BitsOf, Bits, PrintEntries, Us;
    NalHrdFits();
    NalEntries();
    Unsigned();
    Flags();
    U(1, "0001", 4);
    U(2, "0010", 4);
    U(7, "00111", 5);
    U(8, "01000", 5);
    U(9, "01001", 5);
    U(10, "01010", 5);
    Us4(7, 8, 9, 10, 5);
  }

  lemma NalHrdFits()
    ensures HrdOptFits(NAL_HRD)
  {
    assert Pow2(4) == 16 && Pow2(5) == 32;
  }

  const VCL_HRD := Some(Hrd(3, 4, [CpbEntry(0, 1, true)], [1, 2, 3, 4]))

  const VCL_HRD_BITS :=
    Bits("1") + (Bits("1") + (Bits("0011") + (Bits("0100") + ((Bits("1") + (Bits("010") + Bits("1"))) +
      (Bits("00001") + (Bits("00010") + (Bits("00011") + Bits("00100"))))))))

  lemma VclHrdBits()
    ensures HrdOptFits(VCL_HRD) && PrintHrdOpt(VCL_HRD) == VCL_HRD_BITS
  {
    hide Ue, BitsOf, Bits, Us;
    VclHrdFits();
    Unsigned();
    Flags();
    var a := CpbEntry(0, 1, true);
    assert [a][1..] == [] && [true] + PrintEntries([]) == [true];
    assert PrintEntries([a]) == Ue(0) + (Ue(1) + ([true] + PrintEntries([])));
    U(3, "0011", 4);
    U(4, "0100", 4);
    U(1, "00001", 5);
    U(2, "00010", 5);
    U(3, "00011", 5);
    U(4, "00100", 5);
    Us4(1, 2, 3, 4, 5);
  }

  lemma VclHrdFits()
    ensures HrdOptFits(VCL_HRD)
  {
    assert Pow2(4) == 16 && Pow2(5) == 32;
  }

  const RESTRICTION := Some(Restriction(false, [1, 2, 3, 4, 5, 6]))

  /** Present, vectors over the boundaries, both denominators, both ranges, the reordering depth, and the buffer. */
  const RESTRICTION_BITS :=
    Bits("1") + (Bits("0") + (Bits("010") + (Bits("011") + (Bits("00100") + (Bits("00101") + (Bits("00110") +
      Bits("00111")))))))

  lemma {:induction false} UesFirst(v: nat, vs: seq<nat>)
    ensures Ues([v] + vs) == Ue(v) + Ues(vs)
    ensures Ues([v]) == Ue(v)
  {
    hide Ue;
    assert ([v] + vs)[1..] == vs && [v][1..] == [];
    assert Ue(v) + Ues([]) == Ue(v);
  }

  lemma Ues4(a: nat, b: nat, c: nat, d: nat)
    ensures Ues([a, b, c, d]) == Ue(a) + (Ue(b) + (Ue(c) + Ue(d)))
  {
    hide Ue, Ues;
    UesFirst(c, [d]);
    UesFirst(d, []);
    UesFirst(b, [c, d]);
    UesFirst(a, [b, c, d]);
    assert [c] + [d] == [c, d] && [b] + [c, d] == [b, c, d] && [a] + [b, c, d] == [a, b, c, d];
  }

  lemma RestrictionBits()
    ensures PrintRestriction(RESTRICTION) == RESTRICTION_BITS
  {
    hide Ue, Bits, Ues;
    Unsigned();
    Flags();
    Ues4(3, 4, 5, 6);
    UesFirst(2, [3, 4, 5, 6]);
    UesFirst(1, [2, 3, 4, 5, 6]);
    assert [2] + [3, 4, 5, 6] == [2, 3, 4, 5, 6] && [1] + [2, 3, 4, 5, 6] == [1, 2, 3, 4, 5, 6];
  }

  const VUI := Vui(ASPECT, Some(false), SIGNAL, Some([1, 2]), TIMING, NAL_HRD, VCL_HRD, true, false, RESTRICTION)

  /** The parts in their order; the overscan flag, and where chroma samples lie. */
  const VUI_BITS :=
    ASPECT_BITS + ((Bits("1") + Bits("0")) + (SIGNAL_BITS + ((Bits("1") + (Bits("010") + Bits("011"))) +
      (TIMING_BITS + (NAL_HRD_BITS + (VCL_HRD_BITS + (Bits("1") + (Bits("0") + RESTRICTION_BITS))))))))

  lemma VuiFull()
    ensures VuiFits(VUI)
  {
    hide HrdOptFits;
    NalHrdFits();
    VclHrdFits();
    assert Pow2(3) == 8 && Pow2(8) == 256 && Pow2(16) == 65536;
    assert Pow2(24) == 0x100_0000 && Pow2(32) == 0x1_0000_0000;
  }

  lemma VuiBits()
    ensures VuiFits(VUI) && PrintVui(VUI) == VUI_BITS
  {
    hide Ue, Bits, Ues, VuiFits, HrdOptFits, PrintHrdOpt, PrintAspect, PrintSignal, PrintTiming, PrintRestriction;
    VuiFull();
    AspectBits();
    SignalBits();
    TimingBits();
    NalHrdBits();
    VclHrdBits();
    RestrictionBits();
    Unsigned();
    Flags();
    UesFirst(1, [2]);
    UesFirst(2, []);
    assert [1] + [2] == [1, 2];
  }

  // ---- The high profiles' part ----

  const NO_LIST: Option<ScalingList> := None
  const DEFAULT_LIST := ScalingList([8, 8, 8, 8, 8, 8, 8, 8, 8, 8, 8, 8, 8, 8, 8, 8], true)
  const LISTS := [Some(DEFAULT_LIST), NO_LIST, NO_LIST, NO_LIST, NO_LIST, NO_LIST, NO_LIST, NO_LIST]
  const HIGH := High(1, false, 2, 3, true, Some(LISTS))

  /**
   * The chroma format, both depths, the bypass flag, and a matrix of which only the first list is there, by
   * default.
   */
  const HIGH_BITS :=
    Bits("010") + (Bits("011") + (Bits("00100") + (Bits("1") + (Bits("1") + ((Bits("1") + Bits("000010001")) +
      Bits("0000000"))))))

  lemma {:induction false} NothingMore(l: ScalingList, j: nat, last: nat)
    requires j <= |l.values|
    ensures PrintScales(l, j, last, 0) == []
    decreases |l.values| - j
  {
    if j < |l.values| {
      NothingMore(l, j + 1, l.values[j]);
    }
  }

  lemma DefaultBits()
    ensures PrintList(DEFAULT_LIST) == Bits("000010001")
  {
    hide Se, Bits;
    Signed();
    NothingMore(DEFAULT_LIST, 1, 8);
    assert PrintScales(DEFAULT_LIST, 0, 8, 8) == Se(-8) + PrintScales(DEFAULT_LIST, 1, 8, 0);
  }

  lemma {:induction false} NoLists(lists: seq<Option<ScalingList>>, i: nat, n: nat)
    requires i <= n <= |lists| && forall j :: i <= j < n ==> lists[j].None?
    ensures |PrintLists(lists, i, n)| == n - i && forall k :: 0 <= k < n - i ==> !PrintLists(lists, i, n)[k]
    decreases n - i
  {
    if i < n {
      NoLists(lists, i + 1, n);
    }
  }

  lemma HighFull()
    ensures HighFits(HIGH)
  {
  }

  lemma HighBits()
    ensures HighFits(HIGH) && PrintHigh(HIGH) == HIGH_BITS
  {
    hide Ue, PrintList, HighFits;
    HighFull();
    Unsigned();
    Flags();
    DefaultBits();
    NoLists(LISTS, 1, 8);
    assert PrintLists(LISTS, 1, 8) == Bits("0000000");
    assert PrintLists(LISTS, 0, 8) == PrintListOpt(LISTS[0]) + PrintLists(LISTS, 1, 8);
  }

  // ---- The whole set ----

  const ORDER := Cycle(true, -1, 2, [3, -2])

  /** Type 1, the flag, both offsets, the length of the cycle, and its offsets. */
  const ORDER_BITS :=
    Bits("010") + (Bits("1") + (Bits("011") + (Bits("00100") + (Bits("011") + (Bits("00110") + Bits("00101"))))))

  lemma OrderBits()
    ensures PrintPicOrder(ORDER) == ORDER_BITS
  {
    hide Ue, Se, Bits;
    Unsigned();
    Signed();
    Flags();
    assert [3, -2][1..] == [-2] && [-2][1..] == [];
    assert Ses([-2]) == Se(-2) + Ses([]);
    assert Se(-2) + Ses([]) == Se(-2);
  }

  const FULL := Sps(100, [1, 0, 1, 1, 0, 0], 31, 1, Some(HIGH), 4, ORDER, 3, true, 5, 6, false, true, false,
    Some([1, 2, 3, 4]), Some(VUI))

  /** The profile, six constraint flags and two zeros, the level, and the identifier. */
  const HEAD_BITS :=
    Bits("01100100") + (Bits("101100") + (Bits("00") + (Bits("00011111") + Bits("010"))))

  lemma HeadBits()
    ensures PrintHead(FULL) == HEAD_BITS
  {
    hide Ue, BitsOf, Bits, Us;
    Unsigned();
    U(100, "01100100", 8);
    U(0, "00", 2);
    U(31, "00011111", 8);
    ConstraintBits();
  }

  lemma ConstraintBits()
    ensures Us([1, 0, 1, 1, 0, 0], 1) == Bits("101100")
  {
    hide BitsOf, Bits, Us;
    U(0, "0", 1);
    U(1, "1", 1);
    Us4(1, 1, 0, 0, 1);
    UsFirst(0, [1, 1, 0, 0]);
    UsFirst(1, [0, 1, 1, 0, 0]);
    assert [0] + [1, 1, 0, 0] == [0, 1, 1, 0, 0] && [1] + [0, 1, 1, 0, 0] == [1, 0, 1, 1, 0, 0];
    SixBits();
  }

  lemma UsFirst(v: nat, vs: seq<nat>)
    ensures Us([v] + vs, 1) == BitsOf(v, 1) + Us(vs, 1)
  {
    hide BitsOf;
    assert ([v] + vs)[1..] == vs;
  }

  lemma SixBits()
    ensures Bits("1") + (Bits("0") + (Bits("1") + (Bits("1") + (Bits("0") + Bits("0"))))) == Bits("101100")
  {
  }

  /** The reference frames, the gap flag, the width and height, and the three flags of fields. */
  const FRAMES_BITS :=
    Bits("00100") + (Bits("1") + (Bits("00110") + (Bits("00111") + (Bits("0") + (Bits("1") + Bits("0"))))))

  lemma FramesBits()
    ensures PrintFrames(FULL) == FRAMES_BITS
  {
    hide Ue, Bits;
    Unsigned();
    Flags();
  }

  const FULL_BITS :=
    HEAD_BITS + (HIGH_BITS + (Bits("00101") + (ORDER_BITS + (FRAMES_BITS +
      ((Bits("1") + (Bits("010") + (Bits("011") + (Bits("00100") + Bits("00101"))))) + (Bits("1") + VUI_BITS))))))

  lemma FullFits()
    ensures SpsFits(FULL)
  {
    hide HighFits, VuiFits;
    HighFull();
    VuiFull();
    assert Pow2(8) == 256 && Pow2(1) == 2;
  }

  /** The whole set, from the profile to the restriction. */
  lemma FullBits()
    ensures SpsFits(FULL) && PrintSps(FULL) == FULL_BITS
  {
    hide Ue, Bits, Ues, SpsFits, PrintHead, PrintHigh, PrintPicOrder, PrintFrames, PrintVui, HighFits, VuiFits;
    FullFits();
    HeadBits();
    HighBits();
    OrderBits();
    FramesBits();
    VuiBits();
    Unsigned();
    Flags();
    Ues4(1, 2, 3, 4);
  }

  /** The other forms: no explicit ratio, the 4:4:4 flag, the other two types of order, and whole frames. */
  lemma OtherBits(v: Sps)
    requires v.numRefFrames == 1 && !v.gapsAllowed && v.width == 2 && v.height == 3 && v.frameMbsOnly && !v.direct8x8
    ensures PrintAspect(Some(Aspect(254, 258, 772))) == Bits("1") + Bits("11111110")
    ensures PrintHigh(High(3, true, 0, 0, false, None)) ==
      Bits("00100") + (Bits("1") + (Bits("1") + (Bits("1") + (Bits("0") + Bits("0")))))
    ensures PrintPicOrder(Lsb(5)) == Bits("1") + Bits("00110") && PrintPicOrder(OutputOrder) == Bits("011")
    ensures PrintFrames(v) ==
      Bits("010") + (Bits("0") + (Bits("011") + (Bits("00100") + (Bits("1") + Bits("0")))))
  {
    hide Ue, BitsOf, Bits;
    Unsigned();
    Flags();
    U(254, "11111110", 8);
  }

  /** The profiles whose sets have that part. */
  lemma HighProfiles(profile: nat)
    ensures IsHigh(profile) <==>
      || profile == 100 || profile == 110 || profile == 122 || profile == 244 || profile == 44 || profile == 83
      || profile == 86 || profile == 118 || profile == 128 || profile == 138 || profile == 139 || profile == 134
  {
  }

  // ---- Limits ----

  /** Counts and types that are refused: reference frames, the frame number's length, chroma, order, and HRD entries. */
  lemma OutOfRange(s: seq<bool>, p: nat, v: nat)
    requires v <= INT32_MAX && CodeAt(s, p, Ue(v))
    ensures v > 16 ==> ParseFrames(s, p) == Fail
    ensures v > 12 ==> ParseTail(s, p) == Fail
    ensures v > 3 ==> ParseHigh(s, p) == Fail
    ensures v > 2 ==> ParsePicOrder(s, p) == Fail
    ensures v > 31 ==> ParseHrd(s, p) == Fail
  {
    hide Ue, ReadUe, CodeAt;
    ReadUeBack(s, p, v);
  }

  /** The largest that are not. */
  lemma AtTheLimits()
    ensures SpsFits(FULL.(id := 31, log2MaxFrameNum := 12, numRefFrames := 16, picOrder := Lsb(12),
                          high := Some(HIGH.(chromaFormat := 2, lumaDepth := 6, chromaDepth := 6))))
    ensures HighFits(High(3, true, 6, 6, false, None))
    ensures forall h :: HrdFits(h) ==> |h.entries| <= 32
    ensures HrdFits(Hrd(0, 0, seq(32, _ => CpbEntry(0, 0, false)), [0, 0, 0, 0]))
  {
    hide VuiFits, Pow2;
    FullFits();
    VuiFull();
    assert UsFit([0, 0, 0, 0], 5);
  }
}
