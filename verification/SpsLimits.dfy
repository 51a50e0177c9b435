/**
 * Two parameter sets that the rewriting does not keep: a 4:4:4 one with a scaling matrix, and one with a wide step
 * between scales.
 */
module SpsLimits {
  import opened Numbers
  import opened BitStream
  import opened Nal
  import opened Options
  import opened SpsSyntax
  import opened SpsCanonical
  import opened SpsReread
  import opened SpsReader
  import opened SpsWriter
  import opened SpsUnit
  import opened FixupSps

  const NO_LIST: Option<ScalingList> := None

  /** One macroblock, with nothing that is optional but the high profile's part. */
  function Smallest(profile: nat, high: High): Sps {
    Sps(profile, [0, 0, 0, 0, 0, 0], 30, 0, Some(high), 0, OutputOrder, 1, false, 0, 0, true, false, true, None, None)
  }

  // ---- A unit whose high profile's part is given as bits ----

  function GivenBits(v: Sps, high: seq<bool>): (s: seq<bool>)
    requires SpsFits(v)
    ensures |s| % 8 == 0
  {
    Header(3) + (PrintHead(v) + (high + PrintTail(v))) + [true] + Zeros(Pad(8 + |PrintHead(v) + (high + PrintTail(v))|))
  }

  /** With a start code, as the encoder would send it. */
  function Given(v: Sps, high: seq<bool>): seq<Byte>
    requires SpsFits(v)
  {
    [0, 0, 1] + Escape(Bytes(GivenBits(v, high)), 0)
  }

  /** If its high profile's part parses, the whole unit does. */
  lemma GivenParsed(v: Sps, high: seq<bool>)
    requires SpsFits(v) && v.high.Some?
    requires forall s: seq<bool>, p: nat :: CodeAt(s, p, high) ==> ParseHigh(s, p) == Got(v.high.value, p + |high|)
    ensures Parsed(Given(v, high)[3..]) == Some(v)
  {
    hide CodeAt, PrintHead, ParseHead, ParseHigh, PrintTail, ParseTail, IsHigh, PicOrderFits, HighFits, VuiOptFits,
      ChromaFits, Pow2, UsFit, AllBits,
      Escape, Unescape, BitsOf, Bytes;
    var s, code := GivenBits(v, high), PrintHead(v) + (high + PrintTail(v));
    HeaderSize(3);
    UnescapeEscape(Bytes(s), 0);
    BitsOfBytes(s);
    assert Given(v, high)[3..] == Escape(Bytes(s), 0);
    assert s[8..8 + |code|] == code;
    GivenAt(s, 8, code);
    CodeSplit(s, 8, PrintHead(v), high + PrintTail(v));
    HeadBack(s, 8, v);
    var p1 := 8 + |PrintHead(v)|;
    CodeSplit(s, p1, high, PrintTail(v));
    assert ParseHigh(s, p1) == Got(v.high.value, p1 + |high|);
    TailBack(s, p1 + |high|, v);
  }

  lemma GivenAt(s: seq<bool>, p: nat, code: seq<bool>)
    requires p + |code| <= |s| && s[p..p + |code|] == code
    ensures CodeAt(s, p, code)
  {
  }

  // ---- Room for the output ----

  lemma UeSize(v: nat)
    requires v <= INT32_MAX
    ensures |Ue(v)| <= 63
  {
    Log2Small(v + 1);
  }

  lemma SeSize(v: int)
    requires SeFits(v)
    ensures |Se(v)| <= 63
  {
    UeSize(UeOf(v));
  }

  lemma NoneSize()
    ensures |PrintGroup(None)| == 1 && |PrintVuiOpt(None)| == 1
  {
  }

  lemma TailSize(v: Sps, profile: nat, high: High)
    requires v == Smallest(profile, high) || v == Fixed(Smallest(profile, high))
    requires SpsFits(v)
    ensures |PrintTail(v)| <= 1000
  {
    hide Ue, IsHigh, HighFits, UsFit, Pow2, PrintVui, PrintGroup, VuiFits, HrdFits;
    UeSize(0);
    UeSize(1);
    UeSize(2);
    if v.vui.Some? {
      VuiSize(v.vui.value);
    }
    NoneSize();
    assert |PrintPicOrder(OutputOrder)| <= 63;
    assert |PrintFrames(v)| <= 200;
    assert |PrintVuiOpt(v.vui)| <= 401;
  }

  lemma HeadSize(v: Sps)
    requires SpsFits(v)
    ensures |PrintHead(v)| <= 100
  {
    hide Ue, BitsOf, IsHigh, HighFits, PicOrderFits, Pow2, HighOptFits, VuiOptFits, ChromaFits;
    UeSize(v.id);
    OnesSize(v.constraints);
  }

  lemma {:induction false} OnesSize(vs: seq<nat>)
    ensures |Us(vs, 1)| == |vs|
  {
    if vs != [] {
      OnesSize(vs[1..]);
    }
  }

  /** A short parameter set is accepted and there is room for what becomes of it. */
  lemma GivenFits(profile: nat, high: High, code: seq<bool>)
    requires var v := Smallest(profile, high); SpsFits(v) && Parsed(Given(v, code)[3..]) == Some(v)
    requires HighFits(high) && |code| <= 1500 && |PrintHigh(high)| <= 1500
    ensures FixedUp(Given(Smallest(profile, high), code), 1000) != []
  {
    hide IsHigh, HighFits, SpsFits, PrintHigh, PrintHead, PrintTail, BitsOf, Escape, Parsed, Fixed, Smallest, Bytes;
    var v := Smallest(profile, high);
    var w, n := Fixed(v), Given(v, code);
    FixedFits(v);
    SameParts(v, profile, high);
    TailSize(v, profile, high);
    TailSize(w, profile, high);
    HeadSize(v);
    HeadSize(w);
    HeaderSize(3);
    var b := Bytes(GivenBits(v, code));
    assert |b| <= 400;
    GivenByte(v, code);
    EscapeFirst(b);
    EscapeSize(b, 0);
    EscapeLonger(b, 0);
    assert n[3] == 103 && StartLen(n) == 3;
    assert |n| <= 700;
    assert |UnitBytes(3, w)| <= 400;
    HeaderByte(3, w);
    EscapeSize(UnitBytes(3, w), 0);
  }

  lemma SameParts(v: Sps, profile: nat, high: High)
    requires v == Smallest(profile, high) && SpsFits(v) && SpsFits(Fixed(v)) && HighFits(high)
    ensures PrintSps(v) == PrintHead(v) + (PrintHigh(high) + PrintTail(v))
    ensures PrintSps(Fixed(v)) == PrintHead(Fixed(v)) + (PrintHigh(high) + PrintTail(Fixed(v)))
  {
    hide PrintHead, PrintHigh, PrintTail, SpsFits, HighFits;
  }

  lemma GivenByte(v: Sps, code: seq<bool>)
    requires SpsFits(v)
    ensures var b := Bytes(GivenBits(v, code)); |b| >= 2 && b[0] == 103
  {
    hide PrintHead, PrintTail, SpsFits, BitsOf;
    var s := GivenBits(v, code);
    HeaderSize(3);
    assert s[0..8] == Header(3);
    HeaderBits(3);
    Pow2Eight();
    ValueBits(103, 8);
    HeadLong(v);
  }

  lemma HeadLong(v: Sps)
    requires SpsFits(v)
    ensures |PrintHead(v)| >= 8
  {
  }

  lemma VuiSize(w: Vui)
    requires VuiFits(w) && w == NO_VUI.(restriction := Some(NoDelay(1)))
    ensures |PrintVui(w)| <= 400
  {
    hide Ue, Pow2;
    UeSize(0);
    UeSize(1);
    UeSize(2);
    UeSize(16);
    var n := [2, 1, 16, 16, 0, 1];
    assert n[1..] == [1, 16, 16, 0, 1] && n[1..][1..] == [16, 16, 0, 1] && n[1..][1..][1..] == [16, 0, 1];
    assert n[1..][1..][1..][1..] == [0, 1] && n[1..][1..][1..][1..][1..] == [1];
    assert Ues([1]) == Ue(1) + Ues([]);
    assert |Ues([1])| <= 63;
    assert |Ues([0, 1])| <= 126;
    assert |Ues([16, 0, 1])| <= 189;
    assert |Ues([16, 16, 0, 1])| <= 252;
    assert |Ues([1, 16, 16, 0, 1])| <= 315;
    assert |Ues(n)| <= 378;
  }

  // ---- 4:4:4 with a scaling matrix ----

  function TwelveLists(): seq<Option<ScalingList>> { seq(12, _ => NO_LIST) }

  function FullChroma(): High { High(3, false, 0, 0, false, Some(TwelveLists())) }

  /** What the reader expects, all twelve lists. */
  function FullChromaCode(): seq<bool> {
    Ue(3) + ([false] + (Ue(0) + (Ue(0) + ([false] + ([true] + PrintLists(TwelveLists(), 0, 12))))))
  }

  lemma FullChromaBack(s: seq<bool>, p: nat)
    requires CodeAt(s, p, FullChromaCode())
    ensures ParseHigh(s, p) == Got(FullChroma(), p + |FullChromaCode()|)
  {
    hide CodeAt, ReadFlag, Ue, ReadUe, PrintLists, ParseLists;
    var c4 := PrintLists(TwelveLists(), 0, 12);
    var c3 := [false] + ([true] + c4);
    UeThen(s, p, 3, [false] + (Ue(0) + (Ue(0) + c3)));
    var p1 := p + |Ue(3)|;
    FlagThen(s, p1, false, Ue(0) + (Ue(0) + c3));
    UeThen(s, p1 + 1, 0, Ue(0) + c3);
    UeThen(s, p1 + 1 + |Ue(0)|, 0, c3);
    var p4 := p1 + 1 + |Ue(0)| + |Ue(0)|;
    FlagThen(s, p4, false, [true] + c4);
    FlagThen(s, p4 + 1, true, c4);
    ListsBack(s, p4 + 2, TwelveLists(), 0, 12);
    assert TwelveLists()[0..] == TwelveLists();
  }

  lemma {:induction false} NoListsSize(lists: seq<Option<ScalingList>>, i: nat, n: nat)
    requires i <= n <= |lists| && forall j :: i <= j < n ==> lists[j].None?
    ensures |PrintLists(lists, i, n)| == n - i
    decreases n - i
  {
    if i < n {
      NoListsSize(lists, i + 1, n);
    }
  }

  /** The sixteen-pixel 4:4:4 picture with an empty scaling matrix is accepted and rewritten, but does not come back. */
  lemma MatrixLost()
    ensures SpsFits(Smallest(244, FullChroma()))
    ensures var n := Given(Smallest(244, FullChroma()), FullChromaCode());
      && FixedUp(n, 1000) != [] && |FixedUp(n, 1000)| >= 3
      && Parsed(n[3..]).Some? && Parsed(FixedUp(n, 1000)[3..]) != Some(Fixed(Parsed(n[3..]).value))
  {
    hide Parsed, Fixed, Escape, Ue, PrintLists, Bytes;
    var v := Smallest(244, FullChroma());
    SmallestFits(244, FullChroma());
    forall s: seq<bool>, p: nat | CodeAt(s, p, FullChromaCode())
      ensures ParseHigh(s, p) == Got(v.high.value, p + |FullChromaCode()|)
    {
      FullChromaBack(s, p);
    }
    GivenParsed(v, FullChromaCode());
    UeSize(3);
    UeSize(0);
    NoListsSize(TwelveLists(), 0, 12);
    NoListsSize(TwelveLists(), 0, 8);
    GivenFits(244, FullChroma(), FullChromaCode());
    var n := Given(v, FullChromaCode());
    FixupKeeps(n, 1000);
    FixupRereads(n, 1000);
    GivenStart(v, FullChromaCode());
    assert !Printable(v);
  }

  lemma GivenStart(v: Sps, code: seq<bool>)
    requires SpsFits(v)
    ensures StartLen(Given(v, code)) == 3
  {
  }

  lemma SmallestFits(profile: nat, high: High)
    requires HighFits(high) && IsHigh(profile) && profile < 256
    ensures SpsFits(Smallest(profile, high))
  {
    hide IsHigh, HighFits;
    Pow2Eight();
    assert Pow2(1) == 2;
    assert UsFit([0, 0, 0, 0, 0, 0], 1);
  }

  // ---- A wide step ----

  function Same(n: nat, v: int): (s: seq<int>)
    ensures |s| == n && forall i :: 0 <= i < n ==> s[i] == v
  {
    seq(n, _ => v)
  }

  lemma SameNext(n: nat, v: int)
    requires n > 0
    ensures [v] + Same(n - 1, v) == Same(n, v) && Same(n, v)[1..] == Same(n - 1, v)
  {
  }

  function Wide(): ScalingList { ScalingList(Same(16, 208), false) }

  function WideLists(): seq<Option<ScalingList>> { [Some(Wide())] + seq(7, _ => NO_LIST) }

  function WideHigh(): High { High(1, false, 0, 0, false, Some(WideLists())) }

  /** From 8 down by 56 is 208 once it wraps; then nothing changes any more. */
  function WrappedCode(): seq<bool> { Se(-56) + Ses(Same(15, 0)) }

  function WideCode(): seq<bool> {
    Ue(1) + (Ue(0) + (Ue(0) + ([false] + ([true] + ([true] + (WrappedCode() + PrintLists(WideLists(), 1, 8)))))))
  }

  lemma {:induction false} SteadyScales(s: seq<bool>, p: nat, n: nat, last: nat)
    requires 1 <= last <= 255 && CodeAt(s, p, Ses(Same(n, 0)))
    ensures ParseScales(s, p, n, last, last) == Got(Same(n, last), p + |Ses(Same(n, 0))|)
    decreases n
  {
    hide Se, ReadSe, CodeAt, Same;
    if n > 0 {
      SameNext(n, 0);
      SameNext(n, last);
      CodeSplit(s, p, Se(0), Ses(Same(n - 1, 0)));
      ReadSeBack(s, p, 0);
      SteadyScales(s, p + |Se(0)|, n - 1, last);
    }
  }

  lemma WrappedScales(s: seq<bool>, p: nat, n: nat)
    requires CodeAt(s, p, Se(-56) + Ses(Same(n, 0)))
    ensures ReadSe(s, p) == Got(-56, p + |Se(-56)|)
    ensures ParseScales(s, p, n + 1, 8, 8) == Got(Same(n + 1, 208), p + |Se(-56) + Ses(Same(n, 0))|)
  {
    hide Se, ReadSe, CodeAt, Ses, Same;
    CodeSplit(s, p, Se(-56), Ses(Same(n, 0)));
    ReadSeBack(s, p, -56);
    SteadyScales(s, p + |Se(-56)|, n, 208);
    SameNext(n + 1, 208);
  }

  lemma WrappedBack(s: seq<bool>, p: nat)
    requires CodeAt(s, p, WrappedCode())
    ensures ParseList(s, p, 16) == Got(Wide(), p + |WrappedCode()|)
  {
    hide Se, ReadSe, CodeAt, Ses, Same, ParseScales;
    WrappedScales(s, p, 15);
  }

  lemma WideBack(s: seq<bool>, p: nat)
    requires CodeAt(s, p, WideCode())
    ensures ParseHigh(s, p) == Got(WideHigh(), p + |WideCode()|)
  {
    hide CodeAt, ReadFlag, Ue, ReadUe, PrintLists, ParseList, WrappedCode, Gentle, Wide;
    var lists := WideLists();
    var c5 := WrappedCode() + PrintLists(lists, 1, 8);
    var c3 := [false] + ([true] + ([true] + c5));
    UeThen(s, p, 1, Ue(0) + (Ue(0) + c3));
    var p1 := p + |Ue(1)|;
    UeThen(s, p1, 0, Ue(0) + c3);
    UeThen(s, p1 + |Ue(0)|, 0, c3);
    var p4 := p1 + |Ue(0)| + |Ue(0)|;
    FlagThen(s, p4, false, [true] + ([true] + c5));
    FlagThen(s, p4 + 1, true, [true] + c5);
    FlagThen(s, p4 + 2, true, c5);
    CodeSplit(s, p4 + 3, WrappedCode(), PrintLists(lists, 1, 8));
    WrappedBack(s, p4 + 3);
    WideFits();
    ListsBack(s, p4 + 3 + |WrappedCode()|, lists, 1, 8);
    FirstList(s, p4 + 2, lists);
  }

  lemma FirstList(s: seq<bool>, p: nat, lists: seq<Option<ScalingList>>)
    requires |lists| == 8
    requires ParseListOpt(s, p, 0).Got? && ParseListOpt(s, p, 0).value == lists[0]
    requires var b := ParseLists(s, ParseListOpt(s, p, 0).pos, 1, 8); b.Got? && b.value == lists[1..]
    ensures ParseLists(s, p, 0, 8) == Got(lists, ParseLists(s, ParseListOpt(s, p, 0).pos, 1, 8).pos)
  {
    hide ParseListOpt;
    assert [lists[0]] + lists[1..] == lists;
  }

  lemma WideFits()
    ensures ListFits(Wide(), 16) && MatrixFits(WideLists()) && HighFits(WideHigh()) && !Gentle(Wide())
  {
    assert Wide().values[0] == 208;
    assert !GentleAt(Wide().values, 0);
  }

  lemma {:induction false} SesSize(vs: seq<int>)
    requires SesFit(vs)
    ensures |Ses(vs)| <= 63 * |vs|
  {
    hide Se;
    if vs != [] {
      SeSize(vs[0]);
      SesSize(vs[1..]);
    }
  }

  lemma {:induction false} ScalesSize(l: ScalingList, j: nat, size: nat, last: nat, next: nat)
    requires ListFits(l, size) && j <= size && last <= 255
    ensures |PrintScales(l, j, last, next)| <= 63 * (size - j)
    decreases size - j
  {
    hide Se;
    if j < size {
      SeSize(Delta(l, j, last));
      if next != 0 {
        ScalesSize(l, j + 1, size, l.values[j], if l.useDefault then 0 else l.values[j]);
      } else {
        ScalesSize(l, j + 1, size, l.values[j], next);
      }
    }
  }

  /** A list that steps from 8 to 208 by wrapping is accepted and rewritten, but what is written is refused. */
  lemma StepRefused()
    ensures SpsFits(Smallest(100, WideHigh()))
    ensures var n := Given(Smallest(100, WideHigh()), WideCode());
      && FixedUp(n, 1000) != [] && |FixedUp(n, 1000)| >= 3
      && Parsed(n[3..]).Some? && Parsed(FixedUp(n, 1000)[3..]) != Some(Fixed(Parsed(n[3..]).value))
  {
    hide Parsed, Fixed, Escape, Ue, Se, Ses, PrintLists, PrintScales, Bytes, Wide;
    var v := Smallest(100, WideHigh());
    WideFits();
    SmallestFits(100, WideHigh());
    forall s: seq<bool>, p: nat | CodeAt(s, p, WideCode())
      ensures ParseHigh(s, p) == Got(v.high.value, p + |WideCode()|)
    {
      WideBack(s, p);
    }
    GivenParsed(v, WideCode());
    WideSizes();
    GivenFits(100, WideHigh(), WideCode());
    var n := Given(v, WideCode());
    FixupKeeps(n, 1000);
    FixupRereads(n, 1000);
    GivenStart(v, WideCode());
    assert WideLists()[0] == Some(Wide());
    assert !Rereadable(v);
  }

  lemma WideSizes()
    requires HighFits(WideHigh())
    ensures |WideCode()| <= 1500 && |PrintHigh(WideHigh())| <= 1500
  {
    hide Ue, Se, Ses, PrintLists, PrintScales, Wide;
    WideFits();
    UeSize(1);
    UeSize(0);
    SeSize(-56);
    SesSize(Same(15, 0));
    NoListsSize(WideLists(), 1, 8);
    ScalesSize(Wide(), 0, 16, 8, 8);
    FirstPrinted(WideLists());
  }

  lemma FirstPrinted(lists: seq<Option<ScalingList>>)
    requires |lists| == 8
    ensures PrintLists(lists, 0, 8) == PrintListOpt(lists[0]) + PrintLists(lists, 1, 8)
  {
  }
}
