/**
 * The sequence parameter set as bits: what the writer prints and what the reader parses
 * (sections 7.3.2.1, E.1.1 and E.1.2 of ITU-T H.264). Fields that are only present under a flag are an
 * Option; the reader leaves them zero when they are absent.
 */
module SpsSyntax {
  import opened Numbers
  import opened BitStream
  import opened Nal
  import opened Options

  // ---- Runs of codes ----

  function Ues(vs: seq<nat>): seq<bool> { if vs == [] then [] else Ue(vs[0]) + Ues(vs[1..]) }

  function ReadUes(s: seq<bool>, p: nat, n: nat): Read<seq<nat>>
    decreases n
  {
    if n == 0 then Got([], p)
    else
      var (v, p1) :- ReadUe(s, p);
      var (vs, p2) :- ReadUes(s, p1, n - 1);
      Got([v] + vs, p2)
  }

  predicate UesFit(vs: seq<nat>) { forall i :: 0 <= i < |vs| ==> vs[i] <= INT32_MAX }

  lemma {:induction false} ReadUesBack(s: seq<bool>, p: nat, vs: seq<nat>)
    requires UesFit(vs) && CodeAt(s, p, Ues(vs))
    ensures ReadUes(s, p, |vs|) == Got(vs, p + |Ues(vs)|)
    decreases |vs|
  {
    hide Ue, ReadUe;
    if vs != [] {
      assert [vs[0]] + vs[1..] == vs;
      CodeSplit(s, p, Ue(vs[0]), Ues(vs[1..]));
      ReadUeBack(s, p, vs[0]);
      ReadUesBack(s, p + |Ue(vs[0])|, vs[1..]);
    }
  }

  lemma {:induction false} ReadUesFit(s: seq<bool>, p: nat, n: nat)
    ensures var r := ReadUes(s, p, n); r.Got? ==> |r.value| == n && UesFit(r.value)
    decreases n
  {
    hide ReadUe;
    if n > 0 {
      ReadUeFits(s, p);
      if ReadUe(s, p).Got? {
        ReadUesFit(s, ReadUe(s, p).pos, n - 1);
      }
    }
  }

  function Ses(vs: seq<int>): seq<bool> { if vs == [] then [] else Se(vs[0]) + Ses(vs[1..]) }

  function ReadSes(s: seq<bool>, p: nat, n: nat): Read<seq<int>>
    decreases n
  {
    if n == 0 then Got([], p)
    else
      var (v, p1) :- ReadSe(s, p);
      var (vs, p2) :- ReadSes(s, p1, n - 1);
      Got([v] + vs, p2)
  }

  predicate SesFit(vs: seq<int>) { forall i :: 0 <= i < |vs| ==> SeFits(vs[i]) }

  lemma {:induction false} ReadSesBack(s: seq<bool>, p: nat, vs: seq<int>)
    requires SesFit(vs) && CodeAt(s, p, Ses(vs))
    ensures ReadSes(s, p, |vs|) == Got(vs, p + |Ses(vs)|)
    decreases |vs|
  {
    hide Se, ReadSe, SeFits;
    if vs != [] {
      assert [vs[0]] + vs[1..] == vs;
      CodeSplit(s, p, Se(vs[0]), Ses(vs[1..]));
      ReadSeBack(s, p, vs[0]);
      ReadSesBack(s, p + |Se(vs[0])|, vs[1..]);
    }
  }

  lemma {:induction false} ReadSesFit(s: seq<bool>, p: nat, n: nat)
    ensures var r := ReadSes(s, p, n); r.Got? ==> |r.value| == n && SesFit(r.value)
    decreases n
  {
    hide ReadSe, SeFits;
    if n > 0 {
      ReadUeFits(s, p);
      if ReadSe(s, p).Got? {
        ReadSesFit(s, ReadSe(s, p).pos, n - 1);
      }
    }
  }

  /** `|vs|` codes of `n` bits each. */
  function Us(vs: seq<nat>, n: nat): seq<bool> { if vs == [] then [] else BitsOf(vs[0], n) + Us(vs[1..], n) }

  function ReadUs(s: seq<bool>, p: nat, n: nat, count: nat): Read<seq<nat>>
    decreases count
  {
    if count == 0 then Got([], p)
    else
      var (v, p1) :- ReadU(s, p, n);
      var (vs, p2) :- ReadUs(s, p1, n, count - 1);
      Got([v] + vs, p2)
  }

  predicate UsFit(vs: seq<nat>, n: nat) { forall i :: 0 <= i < |vs| ==> vs[i] < Pow2(n) }

  lemma {:induction false} ReadUsBack(s: seq<bool>, p: nat, vs: seq<nat>, n: nat)
    requires UsFit(vs, n) && CodeAt(s, p, Us(vs, n))
    ensures ReadUs(s, p, n, |vs|) == Got(vs, p + |Us(vs, n)|)
    decreases |vs|
  {
    hide BitsOf, ReadU, Pow2;
    if vs != [] {
      assert [vs[0]] + vs[1..] == vs;
      CodeSplit(s, p, BitsOf(vs[0], n), Us(vs[1..], n));
      ReadUBack(s, p, n, vs[0]);
      ReadUsBack(s, p + n, vs[1..], n);
    }
  }

  lemma ReadUFits(s: seq<bool>, p: nat, n: nat)
    ensures var r := ReadU(s, p, n); r.Got? ==> r.value < Pow2(n)
  {
    if p + n <= |s| {
      ValueSmall(s[p..p + n]);
    }
  }

  lemma {:induction false} ReadUsFit(s: seq<bool>, p: nat, n: nat, count: nat)
    ensures var r := ReadUs(s, p, n, count); r.Got? ==> |r.value| == count && UsFit(r.value, n)
    decreases count
  {
    hide ReadU, Pow2;
    if count > 0 {
      ReadUFits(s, p, n);
      if ReadU(s, p, n).Got? {
        ReadUsFit(s, ReadU(s, p, n).pos, n, count - 1);
      }
    }
  }

  // ---- Reading one code in front of others ----

  lemma UeThen(s: seq<bool>, p: nat, v: nat, rest: seq<bool>)
    requires v <= INT32_MAX && CodeAt(s, p, Ue(v) + rest)
    ensures ReadUe(s, p) == Got(v, p + |Ue(v)|) && CodeAt(s, p + |Ue(v)|, rest)
  {
    hide Ue, ReadUe;
    CodeSplit(s, p, Ue(v), rest);
    ReadUeBack(s, p, v);
  }

  lemma UThen(s: seq<bool>, p: nat, n: nat, v: nat, rest: seq<bool>)
    requires v < Pow2(n) && CodeAt(s, p, BitsOf(v, n) + rest)
    ensures ReadU(s, p, n) == Got(v, p + n) && CodeAt(s, p + n, rest)
  {
    hide ReadU, Pow2;
    CodeSplit(s, p, BitsOf(v, n), rest);
    ReadUBack(s, p, n, v);
  }

  lemma FlagThen(s: seq<bool>, p: nat, b: bool, rest: seq<bool>)
    requires CodeAt(s, p, [b] + rest)
    ensures ReadFlag(s, p) == Got(b, p + 1) && CodeAt(s, p + 1, rest)
  {
    CodeSplit(s, p, [b], rest);
    ReadFlagBack(s, p, b);
  }

  // ---- HRD parameters ----

  datatype CpbEntry = CpbEntry(bitRateValue: nat, cpbSizeValue: nat, cbrFlag: bool)

  /** `delays` are the four lengths that end the structure. */
  datatype Hrd = Hrd(bitRateScale: nat, cpbSizeScale: nat, entries: seq<CpbEntry>, delays: seq<nat>)

  function PrintEntries(es: seq<CpbEntry>): seq<bool> {
    if es == [] then []
    else Ue(es[0].bitRateValue) + (Ue(es[0].cpbSizeValue) + ([es[0].cbrFlag] + PrintEntries(es[1..])))
  }

  function ParseEntries(s: seq<bool>, p: nat, n: nat): Read<seq<CpbEntry>>
    decreases n
  {
    if n == 0 then Got([], p)
    else
      var (rate, p1) :- ReadUe(s, p);
      var (size, p2) :- ReadUe(s, p1);
      var (cbr, p3) :- ReadFlag(s, p2);
      var (es, p4) :- ParseEntries(s, p3, n - 1);
      Got([CpbEntry(rate, size, cbr)] + es, p4)
  }

  predicate EntriesFit(es: seq<CpbEntry>) {
    forall i :: 0 <= i < |es| ==> es[i].bitRateValue <= INT32_MAX && es[i].cpbSizeValue <= INT32_MAX
  }

  lemma {:induction false} EntriesBack(s: seq<bool>, p: nat, es: seq<CpbEntry>)
    requires EntriesFit(es) && CodeAt(s, p, PrintEntries(es))
    ensures ParseEntries(s, p, |es|) == Got(es, p + |PrintEntries(es)|)
    decreases |es|
  {
    hide Ue, ReadUe, ReadFlag, CodeAt;
    if es != [] {
      var e, c := es[0], PrintEntries(es[1..]);
      assert [CpbEntry(e.bitRateValue, e.cpbSizeValue, e.cbrFlag)] + es[1..] == es;
      UeThen(s, p, e.bitRateValue, Ue(e.cpbSizeValue) + ([e.cbrFlag] + c));
      var p1 := p + |Ue(e.bitRateValue)|;
      UeThen(s, p1, e.cpbSizeValue, [e.cbrFlag] + c);
      FlagThen(s, p1 + |Ue(e.cpbSizeValue)|, e.cbrFlag, c);
      EntriesBack(s, p1 + |Ue(e.cpbSizeValue)| + 1, es[1..]);
    }
  }

  lemma {:induction false} EntriesParsed(s: seq<bool>, p: nat, n: nat)
    ensures var r := ParseEntries(s, p, n); r.Got? ==> |r.value| == n && EntriesFit(r.value)
    decreases n
  {
    hide ReadUe, ReadFlag;
    if n > 0 && ParseEntries(s, p, n).Got? {
      ReadUeFits(s, p);
      var p1 := ReadUe(s, p).pos;
      ReadUeFits(s, p1);
      EntriesParsed(s, ReadFlag(s, ReadUe(s, p1).pos).pos, n - 1);
    }
  }

  predicate HrdFits(h: Hrd) {
    h.bitRateScale < Pow2(4) && h.cpbSizeScale < Pow2(4) && 1 <= |h.entries| <= 32 && EntriesFit(h.entries)
      && |h.delays| == 4 && UsFit(h.delays, 5)
  }

  function PrintHrd(h: Hrd): seq<bool>
    requires HrdFits(h)
  {
    Ue(|h.entries| - 1) +
      (BitsOf(h.bitRateScale, 4) + (BitsOf(h.cpbSizeScale, 4) + (PrintEntries(h.entries) + Us(h.delays, 5))))
  }

  function ParseHrd(s: seq<bool>, p: nat): Read<Hrd> {
    var (last, p1) :- ReadUe(s, p);
    if last > 31 then Fail
    else
      var (rate, p2) :- ReadU(s, p1, 4);
      var (size, p3) :- ReadU(s, p2, 4);
      var (es, p4) :- ParseEntries(s, p3, last + 1);
      var (ds, p5) :- ReadUs(s, p4, 5, 4);
      Got(Hrd(rate, size, es, ds), p5)
  }

  lemma HrdBack(s: seq<bool>, p: nat, h: Hrd)
    requires HrdFits(h) && CodeAt(s, p, PrintHrd(h))
    ensures ParseHrd(s, p) == Got(h, p + |PrintHrd(h)|)
  {
    hide Ue, ReadUe, ReadU, BitsOf, Pow2, CodeAt, PrintEntries, ParseEntries, Us, ReadUs, EntriesFit, UsFit;
    var d := PrintEntries(h.entries) + Us(h.delays, 5);
    var n := |h.entries| - 1;
    UeThen(s, p, n, BitsOf(h.bitRateScale, 4) + (BitsOf(h.cpbSizeScale, 4) + d));
    var p1 := p + |Ue(n)|;
    UThen(s, p1, 4, h.bitRateScale, BitsOf(h.cpbSizeScale, 4) + d);
    UThen(s, p1 + 4, 4, h.cpbSizeScale, d);
    CodeSplit(s, p1 + 8, PrintEntries(h.entries), Us(h.delays, 5));
    EntriesBack(s, p1 + 8, h.entries);
    ReadUsBack(s, p1 + 8 + |PrintEntries(h.entries)|, h.delays, 5);
  }

  lemma HrdParsed(s: seq<bool>, p: nat)
    ensures var r := ParseHrd(s, p); r.Got? ==> HrdFits(r.value)
  {
    hide ReadUe, ReadU, Pow2, ParseEntries, ReadUs, EntriesFit, UsFit;
    if ParseHrd(s, p).Got? {
      var p1 := ReadUe(s, p).pos;
      ReadUFits(s, p1, 4);
      var p2 := ReadU(s, p1, 4).pos;
      ReadUFits(s, p2, 4);
      var p3 := ReadU(s, p2, 4).pos;
      EntriesParsed(s, p3, ReadUe(s, p).value + 1);
      ReadUsFit(s, ParseEntries(s, p3, ReadUe(s, p).value + 1).pos, 5, 4);
    }
  }

  // ---- VUI parameters ----

  const SAR_EXTENDED := 255

  /** The sample aspect ratio; width and height only for the extended code. */
  datatype Aspect = Aspect(idc: nat, sarWidth: nat, sarHeight: nat)

  predicate AspectFits(o: Option<Aspect>) {
    o.Some? ==> o.value.idc < Pow2(8) && o.value.sarWidth < Pow2(16) && o.value.sarHeight < Pow2(16)
                && (o.value.idc != SAR_EXTENDED ==> o.value.sarWidth == 0 && o.value.sarHeight == 0)
  }

  function PrintAspect(o: Option<Aspect>): seq<bool> {
    match o
    case None => [false]
    case Some(a) =>
      [true] +
        (BitsOf(a.idc, 8) + if a.idc == SAR_EXTENDED then BitsOf(a.sarWidth, 16) + BitsOf(a.sarHeight, 16) else [])
  }

  function ParseAspect(s: seq<bool>, p: nat): Read<Option<Aspect>> {
    var (present, p1) :- ReadFlag(s, p);
    if !present then Got(None, p1)
    else
      var (idc, p2) :- ReadU(s, p1, 8);
      if idc != SAR_EXTENDED then Got(Some(Aspect(idc, 0, 0)), p2)
      else
        var (w, p3) :- ReadU(s, p2, 16);
        var (h, p4) :- ReadU(s, p3, 16);
        Got(Some(Aspect(idc, w, h)), p4)
  }

  lemma NothingAfter(c: seq<bool>)
    ensures c + [] == c
  {
  }

  lemma AspectBack(s: seq<bool>, p: nat, o: Option<Aspect>)
    requires AspectFits(o) && CodeAt(s, p, PrintAspect(o))
    ensures ParseAspect(s, p) == Got(o, p + |PrintAspect(o)|)
  {
    hide ReadU, BitsOf, Pow2, CodeAt, ReadFlag;
    match o {
      case None =>
        NothingAfter([false]);
        FlagThen(s, p, false, []);
      case Some(a) =>
        var tail := if a.idc == SAR_EXTENDED then BitsOf(a.sarWidth, 16) + BitsOf(a.sarHeight, 16) else [];
        FlagThen(s, p, true, BitsOf(a.idc, 8) + tail);
        UThen(s, p + 1, 8, a.idc, tail);
        if a.idc == SAR_EXTENDED {
          UThen(s, p + 9, 16, a.sarWidth, BitsOf(a.sarHeight, 16));
          ReadUBack(s, p + 25, 16, a.sarHeight);
        }
    }
  }

  lemma AspectParsed(s: seq<bool>, p: nat)
    ensures var r := ParseAspect(s, p); r.Got? ==> AspectFits(r.value)
  {
    hide ReadU, ReadFlag, Pow2;
    ReadUFits(s, p + 1, 8);
    ReadUFits(s, p + 9, 16);
    ReadUFits(s, p + 25, 16);
    assert Pow2(16) > 0;
    ReadMoves(s, p, 8);
    ReadMoves(s, p + 1, 8);
    ReadMoves(s, p + 9, 16);
  }

  lemma ReadMoves(s: seq<bool>, p: nat, n: nat)
    ensures ReadFlag(s, p).Got? ==> ReadFlag(s, p).pos == p + 1
    ensures ReadU(s, p, n).Got? ==> ReadU(s, p, n).pos == p + n
  {
  }

  /** A flag present under a flag. */
  function PrintOverscan(o: Option<bool>): seq<bool> {
    match o
    case None => [false]
    case Some(b) => [true] + [b]
  }

  function ParseOverscan(s: seq<bool>, p: nat): Read<Option<bool>> {
    var (present, p1) :- ReadFlag(s, p);
    if !present then Got(None, p1)
    else
      var (b, p2) :- ReadFlag(s, p1);
      Got(Some(b), p2)
  }

  lemma OverscanBack(s: seq<bool>, p: nat, o: Option<bool>)
    requires CodeAt(s, p, PrintOverscan(o))
    ensures ParseOverscan(s, p) == Got(o, p + |PrintOverscan(o)|)
  {
    hide CodeAt, ReadFlag;
    match o {
      case None =>
        NothingAfter([false]);
        FlagThen(s, p, false, []);
      case Some(b) =>
        FlagThen(s, p, true, [b]);
        ReadFlagBack(s, p + 1, b);
    }
  }

  datatype Signal = Signal(format: nat, fullRange: bool, colour: Option<seq<nat>>)

  /** The colour description is three bytes: primaries, transfer, matrix. */
  predicate SignalFits(o: Option<Signal>) {
    o.Some? ==>
      o.value.format < Pow2(3)
      && (o.value.colour.Some? ==> |o.value.colour.value| == 3 && UsFit(o.value.colour.value, 8))
  }

  function PrintSignal(o: Option<Signal>): seq<bool> {
    match o
    case None => [false]
    case Some(v) =>
      [true] +
        (BitsOf(v.format, 3) + ([v.fullRange] + match v.colour case None => [false] case Some(c) => [true] + Us(c, 8)))
  }

  function ParseSignal(s: seq<bool>, p: nat): Read<Option<Signal>> {
    var (present, p1) :- ReadFlag(s, p);
    if !present then Got(None, p1)
    else
      var (format, p2) :- ReadU(s, p1, 3);
      var (full, p3) :- ReadFlag(s, p2);
      var (described, p4) :- ReadFlag(s, p3);
      if !described then Got(Some(Signal(format, full, None)), p4)
      else
        var (c, p5) :- ReadUs(s, p4, 8, 3);
        Got(Some(Signal(format, full, Some(c))), p5)
  }

  lemma SignalBack(s: seq<bool>, p: nat, o: Option<Signal>)
    requires SignalFits(o) && CodeAt(s, p, PrintSignal(o))
    ensures ParseSignal(s, p) == Got(o, p + |PrintSignal(o)|)
  {
    hide ReadU, BitsOf, Pow2, CodeAt, ReadFlag, Us, ReadUs, UsFit;
    match o {
      case None =>
        NothingAfter([false]);
        FlagThen(s, p, false, []);
      case Some(v) =>
        var tail := match v.colour case None => [false] case Some(c) => [true] + Us(c, 8);
        FlagThen(s, p, true, BitsOf(v.format, 3) + ([v.fullRange] + tail));
        UThen(s, p + 1, 3, v.format, [v.fullRange] + tail);
        FlagThen(s, p + 4, v.fullRange, tail);
        match v.colour {
          case None => ReadFlagBack(s, p + 5, false);
          case Some(c) =>
            FlagThen(s, p + 5, true, Us(c, 8));
            ReadUsBack(s, p + 6, c, 8);
        }
    }
  }

  lemma SignalParsed(s: seq<bool>, p: nat)
    ensures var r := ParseSignal(s, p); r.Got? ==> SignalFits(r.value)
  {
    hide ReadU, ReadFlag, Pow2, ReadUs, UsFit;
    ReadUFits(s, p + 1, 3);
    ReadMoves(s, p, 3);
    ReadMoves(s, p + 1, 3);
    ReadMoves(s, p + 4, 3);
    ReadMoves(s, p + 5, 3);
    ReadUsFit(s, p + 6, 8, 3);
  }

  /** A number of unsigned codes present under a flag. */
  predicate ChromaFits(o: Option<seq<nat>>, n: nat) { o.Some? ==> |o.value| == n && UesFit(o.value) }

  function PrintGroup(o: Option<seq<nat>>): seq<bool> {
    match o
    case None => [false]
    case Some(vs) => [true] + Ues(vs)
  }

  function ParseGroup(s: seq<bool>, p: nat, n: nat): Read<Option<seq<nat>>> {
    var (present, p1) :- ReadFlag(s, p);
    if !present then Got(None, p1)
    else
      var (vs, p2) :- ReadUes(s, p1, n);
      Got(Some(vs), p2)
  }

  lemma GroupBack(s: seq<bool>, p: nat, o: Option<seq<nat>>, n: nat)
    requires ChromaFits(o, n) && CodeAt(s, p, PrintGroup(o))
    ensures ParseGroup(s, p, n) == Got(o, p + |PrintGroup(o)|)
  {
    hide CodeAt, ReadFlag, Ues, ReadUes, UesFit;
    match o {
      case None =>
        NothingAfter([false]);
        FlagThen(s, p, false, []);
      case Some(vs) =>
        FlagThen(s, p, true, Ues(vs));
        ReadUesBack(s, p + 1, vs);
    }
  }

  lemma GroupParsed(s: seq<bool>, p: nat, n: nat)
    ensures var r := ParseGroup(s, p, n); r.Got? ==> ChromaFits(r.value, n)
  {
    hide ReadFlag, ReadUes, UesFit;
    ReadMoves(s, p, 1);
    ReadUesFit(s, p + 1, n);
  }

  datatype Timing = Timing(unitsInTick: nat, timeScale: nat, fixedFrameRate: bool)

  predicate TimingFits(o: Option<Timing>) { o.Some? ==> o.value.unitsInTick < Pow2(32) && o.value.timeScale < Pow2(32) }

  function PrintTiming(o: Option<Timing>): seq<bool> {
    match o
    case None => [false]
    case Some(t) => [true] + (BitsOf(t.unitsInTick, 32) + (BitsOf(t.timeScale, 32) + [t.fixedFrameRate]))
  }

  function ParseTiming(s: seq<bool>, p: nat): Read<Option<Timing>> {
    var (present, p1) :- ReadFlag(s, p);
    if !present then Got(None, p1)
    else
      var (units, p2) :- ReadU(s, p1, 32);
      var (scale, p3) :- ReadU(s, p2, 32);
      var (fixed, p4) :- ReadFlag(s, p3);
      Got(Some(Timing(units, scale, fixed)), p4)
  }

  lemma TimingBack(s: seq<bool>, p: nat, o: Option<Timing>)
    requires TimingFits(o) && CodeAt(s, p, PrintTiming(o))
    ensures ParseTiming(s, p) == Got(o, p + |PrintTiming(o)|)
  {
    hide ReadU, BitsOf, Pow2, CodeAt, ReadFlag;
    match o {
      case None =>
        NothingAfter([false]);
        FlagThen(s, p, false, []);
      case Some(t) =>
        FlagThen(s, p, true, BitsOf(t.unitsInTick, 32) + (BitsOf(t.timeScale, 32) + [t.fixedFrameRate]));
        UThen(s, p + 1, 32, t.unitsInTick, BitsOf(t.timeScale, 32) + [t.fixedFrameRate]);
        UThen(s, p + 33, 32, t.timeScale, [t.fixedFrameRate]);
        ReadFlagBack(s, p + 65, t.fixedFrameRate);
    }
  }

  lemma TimingParsed(s: seq<bool>, p: nat)
    ensures var r := ParseTiming(s, p); r.Got? ==> TimingFits(r.value)
  {
    hide ReadU, ReadFlag, Pow2;
    ReadUFits(s, p + 1, 32);
    ReadUFits(s, p + 33, 32);
    ReadMoves(s, p, 32);
    ReadMoves(s, p + 1, 32);
  }

  predicate HrdOptFits(o: Option<Hrd>) { o.Some? ==> HrdFits(o.value) }

  function PrintHrdOpt(o: Option<Hrd>): seq<bool>
    requires HrdOptFits(o)
  {
    match o
    case None => [false]
    case Some(h) => [true] + PrintHrd(h)
  }

  function ParseHrdOpt(s: seq<bool>, p: nat): Read<Option<Hrd>> {
    var (present, p1) :- ReadFlag(s, p);
    if !present then Got(None, p1)
    else
      var (h, p2) :- ParseHrd(s, p1);
      Got(Some(h), p2)
  }

  lemma HrdOptBack(s: seq<bool>, p: nat, o: Option<Hrd>)
    requires HrdOptFits(o) && CodeAt(s, p, PrintHrdOpt(o))
    ensures ParseHrdOpt(s, p) == Got(o, p + |PrintHrdOpt(o)|)
  {
    hide CodeAt, ReadFlag, PrintHrd, ParseHrd;
    match o {
      case None =>
        NothingAfter([false]);
        FlagThen(s, p, false, []);
      case Some(h) =>
        FlagThen(s, p, true, PrintHrd(h));
        HrdBack(s, p + 1, h);
    }
  }

  lemma HrdOptParsed(s: seq<bool>, p: nat)
    ensures var r := ParseHrdOpt(s, p); r.Got? ==> HrdOptFits(r.value)
  {
    hide ReadFlag, ParseHrd, HrdFits;
    ReadMoves(s, p, 1);
    HrdParsed(s, p + 1);
  }

  /** `numbers` are the two denominators, the two vector ranges, the reordering depth and the buffer size. */
  datatype Restriction = Restriction(motionVectorsOverBoundaries: bool, numbers: seq<nat>)

  predicate RestrictionFits(o: Option<Restriction>) { o.Some? ==> |o.value.numbers| == 6 && UesFit(o.value.numbers) }

  function PrintRestriction(o: Option<Restriction>): seq<bool> {
    match o
    case None => [false]
    case Some(r) => [true] + ([r.motionVectorsOverBoundaries] + Ues(r.numbers))
  }

  function ParseRestriction(s: seq<bool>, p: nat): Read<Option<Restriction>> {
    var (present, p1) :- ReadFlag(s, p);
    if !present then Got(None, p1)
    else
      var (over, p2) :- ReadFlag(s, p1);
      var (vs, p3) :- ReadUes(s, p2, 6);
      Got(Some(Restriction(over, vs)), p3)
  }

  lemma RestrictionBack(s: seq<bool>, p: nat, o: Option<Restriction>)
    requires RestrictionFits(o) && CodeAt(s, p, PrintRestriction(o))
    ensures ParseRestriction(s, p) == Got(o, p + |PrintRestriction(o)|)
  {
    hide CodeAt, ReadFlag, Ues, ReadUes, UesFit;
    match o {
      case None =>
        NothingAfter([false]);
        FlagThen(s, p, false, []);
      case Some(r) =>
        FlagThen(s, p, true, [r.motionVectorsOverBoundaries] + Ues(r.numbers));
        FlagThen(s, p + 1, r.motionVectorsOverBoundaries, Ues(r.numbers));
        ReadUesBack(s, p + 2, r.numbers);
    }
  }

  lemma RestrictionParsed(s: seq<bool>, p: nat)
    ensures var r := ParseRestriction(s, p); r.Got? ==> RestrictionFits(r.value)
  {
    hide ReadFlag, ReadUes, UesFit;
    ReadMoves(s, p, 1);
    ReadMoves(s, p + 1, 1);
    ReadUesFit(s, p + 2, 6);
  }

  /** `lowDelayHrd` is only there with HRD parameters. */
  datatype Vui = Vui(
    aspect: Option<Aspect>, overscan: Option<bool>, signal: Option<Signal>, chroma: Option<seq<nat>>,
    timing: Option<Timing>, nalHrd: Option<Hrd>, vclHrd: Option<Hrd>, lowDelayHrd: bool, picStruct: bool,
    restriction: Option<Restriction>)

  predicate VuiFits(v: Vui) {
    && AspectFits(v.aspect) && SignalFits(v.signal) && ChromaFits(v.chroma, 2) && TimingFits(v.timing)
    && HrdOptFits(v.nalHrd) && HrdOptFits(v.vclHrd) && RestrictionFits(v.restriction)
    && (v.nalHrd.None? && v.vclHrd.None? ==> !v.lowDelayHrd)
  }

  /** The part from the HRD parameters on. */
  function PrintVuiEnd(v: Vui): seq<bool>
    requires HrdOptFits(v.nalHrd) && HrdOptFits(v.vclHrd)
  {
    PrintHrdOpt(v.nalHrd) + (PrintHrdOpt(v.vclHrd) + ((if v.nalHrd.Some? || v.vclHrd.Some? then [v.lowDelayHrd] else [])
                                                      + ([v.picStruct] + PrintRestriction(v.restriction))))
  }

  function PrintVui(v: Vui): seq<bool>
    requires VuiFits(v)
  {
    PrintAspect(v.aspect) +
      (PrintOverscan(v.overscan) +
      (PrintSignal(v.signal) + (PrintGroup(v.chroma) + (PrintTiming(v.timing) + PrintVuiEnd(v)))))
  }

  datatype VuiEnd = VuiEnd(
    nalHrd: Option<Hrd>, vclHrd: Option<Hrd>, lowDelayHrd: bool, picStruct: bool, restriction: Option<Restriction>)

  function EndOf(v: Vui): VuiEnd { VuiEnd(v.nalHrd, v.vclHrd, v.lowDelayHrd, v.picStruct, v.restriction) }

  function ParseLowDelay(s: seq<bool>, p: nat, present: bool): Read<bool> {
    if present then ReadFlag(s, p) else Got(false, p)
  }

  function ParseVuiEnd(s: seq<bool>, p: nat): Read<VuiEnd> {
    var (nal, p1) :- ParseHrdOpt(s, p);
    var (vcl, p2) :- ParseHrdOpt(s, p1);
    var (low, p3) :- ParseLowDelay(s, p2, nal.Some? || vcl.Some?);
    var (pic, p4) :- ReadFlag(s, p3);
    var (restriction, p5) :- ParseRestriction(s, p4);
    Got(VuiEnd(nal, vcl, low, pic, restriction), p5)
  }

  function ParseVui(s: seq<bool>, p: nat): Read<Vui> {
    var (aspect, p1) :- ParseAspect(s, p);
    var (overscan, p2) :- ParseOverscan(s, p1);
    var (signal, p3) :- ParseSignal(s, p2);
    var (chroma, p4) :- ParseGroup(s, p3, 2);
    var (timing, p5) :- ParseTiming(s, p4);
    var (end, p6) :- ParseVuiEnd(s, p5);
    Got(Vui(aspect, overscan, signal, chroma, timing, end.nalHrd, end.vclHrd, end.lowDelayHrd, end.picStruct,
      end.restriction), p6)
  }

  lemma VuiEndBack(s: seq<bool>, p: nat, v: Vui)
    requires VuiFits(v) && CodeAt(s, p, PrintVuiEnd(v))
    ensures ParseVuiEnd(s, p) == Got(EndOf(v), p + |PrintVuiEnd(v)|)
  {
    hide CodeAt, ReadFlag, PrintHrdOpt, ParseHrdOpt, PrintRestriction, ParseRestriction, HrdOptFits, RestrictionFits,
      AspectFits, SignalFits, ChromaFits, TimingFits;
    var c := [v.picStruct] + PrintRestriction(v.restriction);
    var low := if v.nalHrd.Some? || v.vclHrd.Some? then [v.lowDelayHrd] else [];
    CodeSplit(s, p, PrintHrdOpt(v.nalHrd), PrintHrdOpt(v.vclHrd) + (low + c));
    HrdOptBack(s, p, v.nalHrd);
    var p1 := p + |PrintHrdOpt(v.nalHrd)|;
    CodeSplit(s, p1, PrintHrdOpt(v.vclHrd), low + c);
    HrdOptBack(s, p1, v.vclHrd);
    var p2 := p1 + |PrintHrdOpt(v.vclHrd)|;
    CodeSplit(s, p2, low, c);
    if v.nalHrd.Some? || v.vclHrd.Some? {
      ReadFlagBack(s, p2, v.lowDelayHrd);
    }
    FlagThen(s, p2 + |low|, v.picStruct, PrintRestriction(v.restriction));
    RestrictionBack(s, p2 + |low| + 1, v.restriction);
  }

  lemma VuiBack(s: seq<bool>, p: nat, v: Vui)
    requires VuiFits(v) && CodeAt(s, p, PrintVui(v))
    ensures ParseVui(s, p) == Got(v, p + |PrintVui(v)|)
  {
    hide CodeAt, PrintAspect, ParseAspect, PrintOverscan, ParseOverscan, PrintSignal, ParseSignal, PrintGroup,
      ParseGroup, PrintTiming, ParseTiming,
      PrintVuiEnd, ParseVuiEnd, HrdOptFits, RestrictionFits, AspectFits, SignalFits, ChromaFits, TimingFits;
    var c4 := PrintTiming(v.timing) + PrintVuiEnd(v);
    var c3 := PrintGroup(v.chroma) + c4;
    var c2 := PrintSignal(v.signal) + c3;
    var c1 := PrintOverscan(v.overscan) + c2;
    CodeSplit(s, p, PrintAspect(v.aspect), c1);
    AspectBack(s, p, v.aspect);
    var p1 := p + |PrintAspect(v.aspect)|;
    CodeSplit(s, p1, PrintOverscan(v.overscan), c2);
    OverscanBack(s, p1, v.overscan);
    var p2 := p1 + |PrintOverscan(v.overscan)|;
    CodeSplit(s, p2, PrintSignal(v.signal), c3);
    SignalBack(s, p2, v.signal);
    var p3 := p2 + |PrintSignal(v.signal)|;
    CodeSplit(s, p3, PrintGroup(v.chroma), c4);
    GroupBack(s, p3, v.chroma, 2);
    var p4 := p3 + |PrintGroup(v.chroma)|;
    CodeSplit(s, p4, PrintTiming(v.timing), PrintVuiEnd(v));
    TimingBack(s, p4, v.timing);
    VuiEndBack(s, p4 + |PrintTiming(v.timing)|, v);
  }

  lemma VuiEndParsed(s: seq<bool>, p: nat)
    ensures var r := ParseVuiEnd(s, p); r.Got? ==>
      && HrdOptFits(r.value.nalHrd) && HrdOptFits(r.value.vclHrd) && RestrictionFits(r.value.restriction)
      && (r.value.nalHrd.None? && r.value.vclHrd.None? ==> !r.value.lowDelayHrd)
  {
    hide ReadFlag, ParseHrdOpt, ParseRestriction, HrdOptFits, RestrictionFits;
    if ParseVuiEnd(s, p).Got? {
      HrdOptParsed(s, p);
      var p1 := ParseHrdOpt(s, p).pos;
      HrdOptParsed(s, p1);
      var p2 := ParseHrdOpt(s, p1).pos;
      var p3 := ParseLowDelay(s, p2, ParseHrdOpt(s, p).value.Some? || ParseHrdOpt(s, p1).value.Some?).pos;
      RestrictionParsed(s, ReadFlag(s, p3).pos);
    }
  }

  lemma VuiParsed(s: seq<bool>, p: nat)
    ensures var r := ParseVui(s, p); r.Got? ==> VuiFits(r.value)
  {
    hide ParseAspect, ParseOverscan, ParseSignal, ParseGroup, ParseTiming, ParseVuiEnd, HrdOptFits, RestrictionFits,
      AspectFits, SignalFits, ChromaFits, TimingFits;
    if ParseVui(s, p).Got? {
      AspectParsed(s, p);
      var p1 := ParseAspect(s, p).pos;
      var p2 := ParseOverscan(s, p1).pos;
      SignalParsed(s, p2);
      var p3 := ParseSignal(s, p2).pos;
      GroupParsed(s, p3, 2);
      var p4 := ParseGroup(s, p3, 2).pos;
      TimingParsed(s, p4);
      VuiEndParsed(s, ParseTiming(s, p4).pos);
    }
  }

  // ---- Scaling lists ----

  /** A scaling list; `useDefault` when its first scale was coded as zero. */
  datatype ScalingList = ScalingList(values: seq<nat>, useDefault: bool)

  predicate ListFits(l: ScalingList, size: nat) {
    && |l.values| == size && (forall j :: 0 <= j < size ==> 1 <= l.values[j] <= 255)
    && (l.useDefault ==> forall j :: 0 <= j < size ==> l.values[j] == 8)
  }

  /** The change from one scale to the next, as the writer computes it. */
  function Delta(l: ScalingList, j: nat, last: nat): int
    requires j < |l.values|
  {
    (if l.useDefault then 0 else l.values[j]) - last
  }

  /** The scales from `j` on; nothing more is coded once a scale is zero. */
  function PrintScales(l: ScalingList, j: nat, last: nat, next: nat): seq<bool>
    requires j <= |l.values|
    decreases |l.values| - j
  {
    if j == |l.values| then []
    else if next != 0
      then Se(Delta(l, j, last)) + PrintScales(l, j + 1, l.values[j], if l.useDefault then 0 else l.values[j])
    else PrintScales(l, j + 1, l.values[j], next)
  }

  function PrintList(l: ScalingList): seq<bool> { PrintScales(l, 0, 8, 8) }

  function ParseScales(s: seq<bool>, p: nat, n: nat, last: nat, next: nat): Read<seq<nat>>
    decreases n
  {
    if n == 0 then Got([], p)
    else if next != 0 then
      var (delta, p1) :- ReadSe(s, p);
      if delta < -128 || delta > 127 then Fail
      else
        var next' := (last + delta + 256) % 256;
        var value := if next' == 0 then last else next';
        var (vs, p2) :- ParseScales(s, p1, n - 1, value, next');
        Got([value] + vs, p2)
    else
      var (vs, p1) :- ParseScales(s, p, n - 1, last, next);
      Got([last] + vs, p1)
  }

  /** The default is used exactly when the first scale comes out as zero. */
  function ParseList(s: seq<bool>, p: nat, size: nat): Read<ScalingList> {
    var (vs, p1) :- ParseScales(s, p, size, 8, 8);
    Got(ScalingList(vs, size > 0 && ReadSe(s, p).Got? && (8 + ReadSe(s, p).value + 256) % 256 == 0), p1)
  }

  /** Every change from one scale to the next fits the range the reader accepts. */
  predicate Gentle(l: ScalingList) { l.useDefault || (forall j :: 0 <= j < |l.values| ==> GentleAt(l.values, j)) }

  predicate GentleAt(values: seq<nat>, j: nat)
    requires j < |values|
  {
    var before: int := if j == 0 then 8 else values[j - 1];
    -128 <= values[j] - before <= 127
  }

  function LastBefore(l: ScalingList, j: nat): nat
    requires j <= |l.values|
  {
    if j == 0 then 8 else l.values[j - 1]
  }

  /** A gentle list reads back; a list with a larger step is refused. */
  lemma {:induction false} ScalesBack(s: seq<bool>, p: nat, l: ScalingList, j: nat, size: nat)
    requires ListFits(l, size) && !l.useDefault && j <= size
    requires CodeAt(s, p, PrintScales(l, j, LastBefore(l, j), LastBefore(l, j)))
    ensures (forall i :: j <= i < size ==> GentleAt(l.values, i)) ==>
              ParseScales(s, p, size - j, LastBefore(l, j), LastBefore(l, j)) ==
              Got(l.values[j..], p + |PrintScales(l, j, LastBefore(l, j), LastBefore(l, j))|)
    ensures (exists i :: j <= i < size && !GentleAt(l.values, i)) ==>
      ParseScales(s, p, size - j, LastBefore(l, j), LastBefore(l, j)) == Fail
    decreases size - j
  {
    hide Se, ReadSe;
    if j < size {
      var last, d := LastBefore(l, j), Delta(l, j, LastBefore(l, j));
      var rest := PrintScales(l, j + 1, l.values[j], l.values[j]);
      CodeSplit(s, p, Se(d), rest);
      ReadSeBack(s, p, d);
      assert (last + d + 256) % 256 == l.values[j];
      assert GentleAt(l.values, j) <==> -128 <= d <= 127;
      ScalesBack(s, p + |Se(d)|, l, j + 1, size);
      assert [l.values[j]] + l.values[j + 1..] == l.values[j..];
    } else {
      assert l.values[j..] == [];
    }
  }

  /** After a zero everything repeats and nothing is coded. */
  lemma {:induction false} ScalesRepeat(s: seq<bool>, p: nat, n: nat, last: nat)
    ensures ParseScales(s, p, n, last, 0) == Got(seq(n, _ => last), p)
    decreases n
  {
    if n > 0 {
      ScalesRepeat(s, p, n - 1, last);
      assert [last] + seq(n - 1, _ => last) == seq(n, _ => last);
    } else {
      assert seq(n, _ => last) == [];
    }
  }

  lemma {:induction false} DefaultPrints(l: ScalingList, j: nat, size: nat)
    requires ListFits(l, size) && l.useDefault && j <= size
    ensures forall last :: PrintScales(l, j, last, 0) == []
    decreases size - j
  {
    if j < size {
      DefaultPrints(l, j + 1, size);
    }
  }

  lemma ListBack(s: seq<bool>, p: nat, l: ScalingList, size: nat)
    requires 0 < size && ListFits(l, size) && CodeAt(s, p, PrintList(l))
    ensures if Gentle(l) then ParseList(s, p, size) == Got(l, p + |PrintList(l)|) else ParseList(s, p, size) == Fail
  {
    hide Se, ReadSe;
    var d := Delta(l, 0, 8);
    CodeSplit(s, p, Se(d), PrintScales(l, 1, l.values[0], if l.useDefault then 0 else l.values[0]));
    ReadSeBack(s, p, d);
    if l.useDefault {
      DefaultPrints(l, 1, size);
      ScalesRepeat(s, p + |Se(d)|, size - 1, 8);
      assert [8] + seq(size - 1, _ => 8) == l.values;
      NothingAfter(Se(d));
    } else {
      ScalesBack(s, p, l, 0, size);
      assert l.values[0..] == l.values;
      assert (8 + d + 256) % 256 == l.values[0];
    }
  }

  lemma {:induction false} ScalesParsed(s: seq<bool>, p: nat, n: nat, last: nat, next: nat)
    requires 1 <= last <= 255
    ensures var r := ParseScales(s, p, n, last, next); r.Got? ==>
      |r.value| == n && (forall j :: 0 <= j < n ==> 1 <= r.value[j] <= 255)
    decreases n
  {
    hide ReadSe;
    if n > 0 && ParseScales(s, p, n, last, next).Got? {
      if next != 0 {
        var delta := ReadSe(s, p).value;
        var next' := (last + delta + 256) % 256;
        ScalesParsed(s, ReadSe(s, p).pos, n - 1, if next' == 0 then last else next', next');
      } else {
        ScalesParsed(s, p, n - 1, last, next);
      }
    }
  }

  lemma ListParsed(s: seq<bool>, p: nat, size: nat)
    requires 0 < size
    ensures var r := ParseList(s, p, size); r.Got? ==> ListFits(r.value, size)
  {
    hide ReadSe;
    ScalesParsed(s, p, size, 8, 8);
    if ReadSe(s, p).Got? {
      ScalesRepeat(s, ReadSe(s, p).pos, size - 1, 8);
    }
  }

  // ---- The scaling matrix ----

  /** The first six lists have 16 scales, the others 64. */
  function ListSize(i: nat): nat { if i < 6 then 16 else 64 }

  predicate MatrixFits(lists: seq<Option<ScalingList>>) {
    forall i :: 0 <= i < |lists| && lists[i].Some? ==> ListFits(lists[i].value, ListSize(i))
  }

  function PrintListOpt(o: Option<ScalingList>): seq<bool> {
    match o
    case None => [false]
    case Some(l) => [true] + PrintList(l)
  }

  function ParseListOpt(s: seq<bool>, p: nat, i: nat): Read<Option<ScalingList>> {
    var (present, p1) :- ReadFlag(s, p);
    if !present then Got(None, p1)
    else
      var (l, p2) :- ParseList(s, p1, ListSize(i));
      Got(Some(l), p2)
  }

  /** The lists from `i` up to `n`. */
  function PrintLists(lists: seq<Option<ScalingList>>, i: nat, n: nat): seq<bool>
    requires i <= n <= |lists|
    decreases n - i
  {
    if i == n then [] else PrintListOpt(lists[i]) + PrintLists(lists, i + 1, n)
  }

  function ParseLists(s: seq<bool>, p: nat, i: nat, n: nat): Read<seq<Option<ScalingList>>>
    requires i <= n
    decreases n - i
  {
    if i == n then Got([], p)
    else
      var (l, p1) :- ParseListOpt(s, p, i);
      var (ls, p2) :- ParseLists(s, p1, i + 1, n);
      Got([l] + ls, p2)
  }

  predicate AllGentle(lists: seq<Option<ScalingList>>, i: nat) {
    forall j :: i <= j < |lists| && lists[j].Some? ==> Gentle(lists[j].value)
  }

  lemma ListOptBack(s: seq<bool>, p: nat, o: Option<ScalingList>, i: nat)
    requires (o.Some? ==> ListFits(o.value, ListSize(i))) && CodeAt(s, p, PrintListOpt(o))
    ensures if o.Some? && !Gentle(o.value) then ParseListOpt(s, p, i) == Fail
      else ParseListOpt(s, p, i) == Got(o, p + |PrintListOpt(o)|)
  {
    hide CodeAt, ReadFlag, PrintList, ParseList, ListFits, Gentle;
    match o {
      case None =>
        NothingAfter([false]);
        FlagThen(s, p, false, []);
      case Some(l) =>
        FlagThen(s, p, true, PrintList(l));
        ListBack(s, p + 1, l, ListSize(i));
    }
  }

  lemma {:induction false} ListsBack(s: seq<bool>, p: nat, lists: seq<Option<ScalingList>>, i: nat, n: nat)
    requires MatrixFits(lists) && i <= n == |lists| && CodeAt(s, p, PrintLists(lists, i, n))
    ensures if AllGentle(lists, i) then ParseLists(s, p, i, n) == Got(lists[i..], p + |PrintLists(lists, i, n)|)
      else ParseLists(s, p, i, n) == Fail
    decreases n - i
  {
    hide CodeAt, PrintListOpt, ParseListOpt, ListFits, Gentle;
    if i < n {
      CodeSplit(s, p, PrintListOpt(lists[i]), PrintLists(lists, i + 1, n));
      ListOptBack(s, p, lists[i], i);
      ListsBack(s, p + |PrintListOpt(lists[i])|, lists, i + 1, n);
      assert [lists[i]] + lists[i + 1..] == lists[i..];
    } else {
      assert lists[i..] == [];
    }
  }

  lemma {:induction false} ListsParsed(s: seq<bool>, p: nat, i: nat, n: nat)
    requires i <= n
    ensures var r := ParseLists(s, p, i, n); r.Got? ==>
      |r.value| == n - i && forall j :: 0 <= j < n - i && r.value[j].Some? ==>
        ListFits(r.value[j].value, ListSize(i + j))
    decreases n - i
  {
    hide ReadFlag, ParseList, ListFits;
    if i < n && ParseLists(s, p, i, n).Got? {
      ListParsed(s, ReadFlag(s, p).pos, ListSize(i));
      var p1 := ParseListOpt(s, p, i).pos;
      ListsParsed(s, p1, i + 1, n);
      var ls, rest := ParseLists(s, p, i, n).value, ParseLists(s, p1, i + 1, n).value;
      forall j | 0 <= j < n - i && ls[j].Some?
        ensures ListFits(ls[j].value, ListSize(i + j))
      {
        if j > 0 {
          assert ls[j] == rest[j - 1];
        }
      }
    }
  }

  // ---- The high profiles' part ----

  /** The residual colour transform flag is only there for 4:4:4. */
  datatype High = High(chromaFormat: nat, residualColour: bool, lumaDepth: nat, chromaDepth: nat, bypass: bool,
                       matrix: Option<seq<Option<ScalingList>>>)

  predicate IsHigh(profile: nat) {
    profile in {100, 110, 122, 244, 44, 83, 86, 118, 128, 138, 139, 134}
  }

  /** How many lists the reader expects. */
  function ListCount(chromaFormat: nat): nat { if chromaFormat != 3 then 8 else 12 }

  predicate HighFits(h: High) {
    && h.chromaFormat <= 3 && (h.chromaFormat != 3 ==> !h.residualColour) && h.lumaDepth <= 6 && h.chromaDepth <= 6
    && (h.matrix.Some? ==> |h.matrix.value| == ListCount(h.chromaFormat) && MatrixFits(h.matrix.value))
  }

  /** The writer always stops after eight lists. */
  function PrintMatrix(m: Option<seq<Option<ScalingList>>>): seq<bool>
    requires m.Some? ==> |m.value| >= 8
  {
    match m
    case None => [false]
    case Some(lists) => [true] + PrintLists(lists, 0, 8)
  }

  function ParseMatrix(s: seq<bool>, p: nat, chromaFormat: nat): Read<Option<seq<Option<ScalingList>>>> {
    var (present, p1) :- ReadFlag(s, p);
    if !present then Got(None, p1)
    else
      var (lists, p2) :- ParseLists(s, p1, 0, ListCount(chromaFormat));
      Got(Some(lists), p2)
  }

  function PrintResidual(h: High): seq<bool> { if h.chromaFormat == 3 then [h.residualColour] else [] }

  function ParseResidual(s: seq<bool>, p: nat, chromaFormat: nat): Read<bool> {
    if chromaFormat == 3 then ReadFlag(s, p) else Got(false, p)
  }

  function PrintHigh(h: High): seq<bool>
    requires HighFits(h)
  {
    Ue(h.chromaFormat) +
      (PrintResidual(h) + (Ue(h.lumaDepth) + (Ue(h.chromaDepth) + ([h.bypass] + PrintMatrix(h.matrix)))))
  }

  function ParseHigh(s: seq<bool>, p: nat): Read<High> {
    var (chroma, p1) :- ReadUe(s, p);
    if chroma > 3 then Fail
    else
      var (residual, p2) :- ParseResidual(s, p1, chroma);
      var (luma, p3) :- ReadUe(s, p2);
      var (depth, p4) :- ReadUe(s, p3);
      if luma > 6 || depth > 6 then Fail
      else
        var (bypass, p5) :- ReadFlag(s, p4);
        var (matrix, p6) :- ParseMatrix(s, p5, chroma);
        Got(High(chroma, residual, luma, depth, bypass, matrix), p6)
  }

  /** The writer's eight lists are all there are. */
  predicate Whole(h: High) { h.chromaFormat == 3 ==> h.matrix.None? }

  predicate Smooth(h: High) { h.matrix.Some? ==> AllGentle(h.matrix.value, 0) }

  lemma MatrixBack(s: seq<bool>, p: nat, h: High)
    requires HighFits(h) && Whole(h) && CodeAt(s, p, PrintMatrix(h.matrix))
    ensures if Smooth(h) then ParseMatrix(s, p, h.chromaFormat) == Got(h.matrix, p + |PrintMatrix(h.matrix)|)
            else ParseMatrix(s, p, h.chromaFormat) == Fail
  {
    hide CodeAt, ReadFlag, PrintLists, ParseLists, MatrixFits, AllGentle;
    match h.matrix {
      case None =>
        NothingAfter([false]);
        FlagThen(s, p, false, []);
      case Some(lists) =>
        FlagThen(s, p, true, PrintLists(lists, 0, 8));
        ListsBack(s, p + 1, lists, 0, 8);
        assert lists[0..] == lists;
    }
  }

  lemma HighBack(s: seq<bool>, p: nat, h: High)
    requires HighFits(h) && Whole(h) && CodeAt(s, p, PrintHigh(h))
    ensures if Smooth(h) then ParseHigh(s, p) == Got(h, p + |PrintHigh(h)|) else ParseHigh(s, p) == Fail
  {
    hide CodeAt, ReadFlag, Ue, ReadUe, PrintMatrix, ParseMatrix, MatrixFits, Smooth, Whole;
    var c3 := [h.bypass] + PrintMatrix(h.matrix);
    var c2 := Ue(h.chromaDepth) + c3;
    var c1 := Ue(h.lumaDepth) + c2;
    UeThen(s, p, h.chromaFormat, PrintResidual(h) + c1);
    var p1 := p + |Ue(h.chromaFormat)|;
    CodeSplit(s, p1, PrintResidual(h), c1);
    if h.chromaFormat == 3 {
      ReadFlagBack(s, p1, h.residualColour);
    }
    var p2 := p1 + |PrintResidual(h)|;
    UeThen(s, p2, h.lumaDepth, c2);
    UeThen(s, p2 + |Ue(h.lumaDepth)|, h.chromaDepth, c3);
    var p4 := p2 + |Ue(h.lumaDepth)| + |Ue(h.chromaDepth)|;
    FlagThen(s, p4, h.bypass, PrintMatrix(h.matrix));
    MatrixBack(s, p4 + 1, h);
  }

  lemma HighParsed(s: seq<bool>, p: nat)
    ensures var r := ParseHigh(s, p); r.Got? ==> HighFits(r.value)
  {
    hide ReadUe, ReadFlag, ParseLists, ListFits;
    if ParseHigh(s, p).Got? {
      var h := ParseHigh(s, p).value;
      if h.matrix.Some? {
        var p1 := ReadUe(s, p).pos;
        var p2 := ParseResidual(s, p1, h.chromaFormat).pos;
        var p5 := ReadFlag(s, ReadUe(s, ReadUe(s, p2).pos).pos).pos;
        ListsParsed(s, ReadFlag(s, p5).pos, 0, ListCount(h.chromaFormat));
      }
    }
  }

  // ---- Picture order count ----

  /** Type 0 has a length; type 1 has two offsets and one for each frame of the cycle. */
  datatype PicOrder =
    | Lsb(log2MaxMinus4: nat)
    | Cycle(alwaysZero: bool, nonRef: int, topToBottom: int, offsets: seq<int>)
    | OutputOrder

  predicate PicOrderFits(o: PicOrder) {
    match o
    case Lsb(n) => n <= 12
    case Cycle(_, a, b, offsets) => SeFits(a) && SeFits(b) && |offsets| <= 255 && SesFit(offsets)
    case OutputOrder => true
  }

  function PrintPicOrder(o: PicOrder): seq<bool> {
    match o
    case Lsb(n) => Ue(0) + Ue(n)
    case Cycle(zero, a, b, offsets) => Ue(1) + ([zero] + (Se(a) + (Se(b) + (Ue(|offsets|) + Ses(offsets)))))
    case OutputOrder => Ue(2)
  }

  function ParseCycle(s: seq<bool>, p: nat): Read<PicOrder> {
    var (zero, p1) :- ReadFlag(s, p);
    var (a, p2) :- ReadSe(s, p1);
    var (b, p3) :- ReadSe(s, p2);
    var (n, p4) :- ReadUe(s, p3);
    if n > 255 then Fail
    else
      var (offsets, p5) :- ReadSes(s, p4, n);
      Got(Cycle(zero, a, b, offsets), p5)
  }

  function ParsePicOrder(s: seq<bool>, p: nat): Read<PicOrder> {
    var (kind, p1) :- ReadUe(s, p);
    if kind > 2 then Fail
    else if kind == 0 then
      var (n, p2) :- ReadUe(s, p1);
      if n > 12 then Fail else Got(Lsb(n), p2)
    else if kind == 1 then ParseCycle(s, p1)
    else Got(OutputOrder, p1)
  }

  lemma SeThen(s: seq<bool>, p: nat, v: int, rest: seq<bool>)
    requires SeFits(v) && CodeAt(s, p, Se(v) + rest)
    ensures ReadSe(s, p) == Got(v, p + |Se(v)|) && CodeAt(s, p + |Se(v)|, rest)
  {
    hide Se, ReadSe;
    CodeSplit(s, p, Se(v), rest);
    ReadSeBack(s, p, v);
  }

  lemma PicOrderBack(s: seq<bool>, p: nat, o: PicOrder)
    requires PicOrderFits(o) && CodeAt(s, p, PrintPicOrder(o))
    ensures ParsePicOrder(s, p) == Got(o, p + |PrintPicOrder(o)|)
  {
    hide CodeAt, ReadFlag, Ue, ReadUe, Se, ReadSe, Ses, ReadSes, SesFit, SeFits;
    match o {
      case Lsb(n) =>
        UeThen(s, p, 0, Ue(n));
        ReadUeBack(s, p + |Ue(0)|, n);
      case Cycle(zero, a, b, offsets) =>
        var c3 := Ue(|offsets|) + Ses(offsets);
        var c2 := Se(b) + c3;
        var c1 := Se(a) + c2;
        UeThen(s, p, 1, [zero] + c1);
        var p1 := p + |Ue(1)|;
        FlagThen(s, p1, zero, c1);
        SeThen(s, p1 + 1, a, c2);
        SeThen(s, p1 + 1 + |Se(a)|, b, c3);
        var p4 := p1 + 1 + |Se(a)| + |Se(b)|;
        UeThen(s, p4, |offsets|, Ses(offsets));
        ReadSesBack(s, p4 + |Ue(|offsets|)|, offsets);
      case OutputOrder =>
        ReadUeBack(s, p, 2);
    }
  }

  lemma PicOrderParsed(s: seq<bool>, p: nat)
    ensures var r := ParsePicOrder(s, p); r.Got? ==> PicOrderFits(r.value)
  {
    hide ReadFlag, ReadUe, ReadSes, SesFit, SeFits, ReadSe;
    if ReadUe(s, p).Got? && ParsePicOrder(s, p).Got? && ReadUe(s, p).value == 1 {
      var p1 := ReadFlag(s, ReadUe(s, p).pos).pos;
      ReadUeFits(s, p1);
      var p2 := ReadSe(s, p1).pos;
      ReadUeFits(s, p2);
      var p3 := ReadSe(s, p2).pos;
      ReadSesFit(s, ReadUe(s, p3).pos, ReadUe(s, p3).value);
    }
  }

  // ---- The whole parameter set ----

  /**
   * `constraints` are the six constraint flags, `high` is there for the high profiles, and the macroblock-adaptive
   * flag only without `frameMbsOnly`.
   */
  datatype Sps = Sps(
    profile: nat, constraints: seq<nat>, level: nat, id: nat, high: Option<High>, log2MaxFrameNum: nat,
    picOrder: PicOrder, numRefFrames: nat, gapsAllowed: bool, width: nat, height: nat, frameMbsOnly: bool,
    mbAdaptive: bool, direct8x8: bool, crop: Option<seq<nat>>, vui: Option<Vui>)

  predicate HighOptFits(o: Option<High>) { o.Some? ==> HighFits(o.value) }

  predicate VuiOptFits(o: Option<Vui>) { o.Some? ==> VuiFits(o.value) }

  /** What the reader can return. */
  predicate SpsFits(v: Sps) {
    && v.profile < Pow2(8) && |v.constraints| == 6 && UsFit(v.constraints, 1) && v.level < Pow2(8) && v.id <= 31
    && (v.high.Some? <==> IsHigh(v.profile)) && HighOptFits(v.high) && v.log2MaxFrameNum <= 12
    && PicOrderFits(v.picOrder)
    && v.numRefFrames <= 16 && v.width <= INT32_MAX && v.height <= INT32_MAX && (v.frameMbsOnly ==> !v.mbAdaptive)
    && ChromaFits(v.crop, 4) && VuiOptFits(v.vui)
  }

  function PrintHighOpt(o: Option<High>): seq<bool>
    requires HighOptFits(o)
  {
    match o
    case None => []
    case Some(h) => PrintHigh(h)
  }

  function PrintVuiOpt(o: Option<Vui>): seq<bool>
    requires VuiOptFits(o)
  {
    match o
    case None => [false]
    case Some(v) => [true] + PrintVui(v)
  }

  /** The profile, the constraint flags with two reserved zero bits, the level and the identifier. */
  function PrintHead(v: Sps): seq<bool> {
    BitsOf(v.profile, 8) + (Us(v.constraints, 1) + (BitsOf(0, 2) + (BitsOf(v.level, 8) + Ue(v.id))))
  }

  function PrintMbs(v: Sps): seq<bool> {
    [v.frameMbsOnly] + ((if v.frameMbsOnly then [] else [v.mbAdaptive]) + [v.direct8x8])
  }

  /** From the number of reference frames to the end of the picture's size. */
  function PrintFrames(v: Sps): seq<bool> {
    Ue(v.numRefFrames) + ([v.gapsAllowed] + (Ue(v.width) + (Ue(v.height) + PrintMbs(v))))
  }

  function PrintTail(v: Sps): seq<bool>
    requires SpsFits(v)
  {
    Ue(v.log2MaxFrameNum) + (PrintPicOrder(v.picOrder) + (PrintFrames(v) + (PrintGroup(v.crop) + PrintVuiOpt(v.vui))))
  }

  function PrintSps(v: Sps): seq<bool>
    requires SpsFits(v)
  {
    PrintHead(v) + (PrintHighOpt(v.high) + PrintTail(v))
  }

  datatype Head = Head(profile: nat, constraints: seq<nat>, level: nat, id: nat)

  /** The reserved bits are skipped without being looked at. */
  function ParseHead(s: seq<bool>, p: nat): Read<Head> {
    var (profile, p1) :- ReadU(s, p, 8);
    var (constraints, p2) :- ReadUs(s, p1, 1, 6);
    var (level, p3) :- ReadU(s, p2 + 2, 8);
    var (id, p4) :- ReadUe(s, p3);
    if id > 31 then Fail else Got(Head(profile, constraints, level, id), p4)
  }

  function ParseHighOpt(s: seq<bool>, p: nat, profile: nat): Read<Option<High>> {
    if !IsHigh(profile) then Got(None, p)
    else
      var (h, p1) :- ParseHigh(s, p);
      Got(Some(h), p1)
  }

  function ParseVuiOpt(s: seq<bool>, p: nat): Read<Option<Vui>> {
    var (present, p1) :- ReadFlag(s, p);
    if !present then Got(None, p1)
    else
      var (v, p2) :- ParseVui(s, p1);
      Got(Some(v), p2)
  }

  datatype Frames = Frames(
    numRefFrames: nat, gapsAllowed: bool, width: nat, height: nat, frameMbsOnly: bool, mbAdaptive: bool,
    direct8x8: bool)

  function ParseAdaptive(s: seq<bool>, p: nat, frameMbsOnly: bool): Read<bool> {
    if frameMbsOnly then Got(false, p) else ReadFlag(s, p)
  }

  function ParseFrames(s: seq<bool>, p: nat): Read<Frames> {
    var (refs, p1) :- ReadUe(s, p);
    if refs > 16 then Fail
    else
      var (gaps, p2) :- ReadFlag(s, p1);
      var (width, p3) :- ReadUe(s, p2);
      var (height, p4) :- ReadUe(s, p3);
      var (only, p5) :- ReadFlag(s, p4);
      var (adaptive, p6) :- ParseAdaptive(s, p5, only);
      var (direct, p7) :- ReadFlag(s, p6);
      Got(Frames(refs, gaps, width, height, only, adaptive, direct), p7)
  }

  datatype Tail = Tail(
    log2MaxFrameNum: nat, picOrder: PicOrder, frames: Frames, crop: Option<seq<nat>>, vui: Option<Vui>)

  function ParseTail(s: seq<bool>, p: nat): Read<Tail> {
    var (log2, p1) :- ReadUe(s, p);
    if log2 > 12 then Fail
    else
      var (order, p2) :- ParsePicOrder(s, p1);
      var (frames, p3) :- ParseFrames(s, p2);
      var (crop, p4) :- ParseGroup(s, p3, 4);
      var (vui, p5) :- ParseVuiOpt(s, p4);
      Got(Tail(log2, order, frames, crop, vui), p5)
  }

  function Assembled(h: Head, high: Option<High>, t: Tail): Sps {
    Sps(h.profile, h.constraints, h.level, h.id, high, t.log2MaxFrameNum, t.picOrder, t.frames.numRefFrames,
      t.frames.gapsAllowed,
        t.frames.width, t.frames.height, t.frames.frameMbsOnly, t.frames.mbAdaptive, t.frames.direct8x8, t.crop, t.vui)
  }

  function ParseSps(s: seq<bool>, p: nat): Read<Sps> {
    var (head, p1) :- ParseHead(s, p);
    var (high, p2) :- ParseHighOpt(s, p1, head.profile);
    var (tail, p3) :- ParseTail(s, p2);
    Got(Assembled(head, high, tail), p3)
  }

  lemma HeadBack(s: seq<bool>, p: nat, v: Sps)
    requires SpsFits(v) && CodeAt(s, p, PrintHead(v))
    ensures ParseHead(s, p) == Got(Head(v.profile, v.constraints, v.level, v.id), p + |PrintHead(v)|)
  {
    hide CodeAt, Ue, ReadUe, ReadU, BitsOf, Pow2, Us, ReadUs, UsFit, PicOrderFits, HighOptFits, VuiOptFits, ChromaFits;
    var c3 := BitsOf(v.level, 8) + Ue(v.id);
    var c2 := BitsOf(0, 2) + c3;
    UThen(s, p, 8, v.profile, Us(v.constraints, 1) + c2);
    CodeSplit(s, p + 8, Us(v.constraints, 1), c2);
    ReadUsBack(s, p + 8, v.constraints, 1);
    var p2 := p + 8 + |Us(v.constraints, 1)|;
    CodeSplit(s, p2, BitsOf(0, 2), c3);
    UThen(s, p2 + 2, 8, v.level, Ue(v.id));
    ReadUeBack(s, p2 + 10, v.id);
  }

  lemma FramesBack(s: seq<bool>, p: nat, v: Sps)
    requires SpsFits(v) && CodeAt(s, p, PrintFrames(v))
    ensures ParseFrames(s, p) ==
            Got(Frames(v.numRefFrames, v.gapsAllowed, v.width, v.height, v.frameMbsOnly, v.mbAdaptive, v.direct8x8),
              p + |PrintFrames(v)|)
  {
    hide CodeAt, Ue, ReadUe, ReadFlag, PicOrderFits, HighOptFits, VuiOptFits, ChromaFits, Pow2, UsFit;
    var adaptive := if v.frameMbsOnly then [] else [v.mbAdaptive];
    var c3 := [v.frameMbsOnly] + (adaptive + [v.direct8x8]);
    var c2 := Ue(v.height) + c3;
    var c1 := Ue(v.width) + c2;
    UeThen(s, p, v.numRefFrames, [v.gapsAllowed] + c1);
    var p1 := p + |Ue(v.numRefFrames)|;
    FlagThen(s, p1, v.gapsAllowed, c1);
    UeThen(s, p1 + 1, v.width, c2);
    UeThen(s, p1 + 1 + |Ue(v.width)|, v.height, c3);
    var p4 := p1 + 1 + |Ue(v.width)| + |Ue(v.height)|;
    FlagThen(s, p4, v.frameMbsOnly, adaptive + [v.direct8x8]);
    CodeSplit(s, p4 + 1, adaptive, [v.direct8x8]);
    if !v.frameMbsOnly {
      ReadFlagBack(s, p4 + 1, v.mbAdaptive);
    }
    ReadFlagBack(s, p4 + 1 + |adaptive|, v.direct8x8);
  }

  lemma VuiOptBack(s: seq<bool>, p: nat, o: Option<Vui>)
    requires VuiOptFits(o) && CodeAt(s, p, PrintVuiOpt(o))
    ensures ParseVuiOpt(s, p) == Got(o, p + |PrintVuiOpt(o)|)
  {
    hide CodeAt, ReadFlag, PrintVui, ParseVui, VuiFits;
    match o {
      case None =>
        NothingAfter([false]);
        FlagThen(s, p, false, []);
      case Some(v) =>
        FlagThen(s, p, true, PrintVui(v));
        VuiBack(s, p + 1, v);
    }
  }

  function TailOf(v: Sps): Tail {
    Tail(v.log2MaxFrameNum, v.picOrder,
         Frames(v.numRefFrames, v.gapsAllowed, v.width, v.height, v.frameMbsOnly, v.mbAdaptive, v.direct8x8), v.crop,
           v.vui)
  }

  lemma TailBack(s: seq<bool>, p: nat, v: Sps)
    requires SpsFits(v) && CodeAt(s, p, PrintTail(v))
    ensures ParseTail(s, p) == Got(TailOf(v), p + |PrintTail(v)|)
  {
    hide CodeAt, Ue, ReadUe, PrintPicOrder, ParsePicOrder, PrintFrames, ParseFrames, PrintGroup, ParseGroup,
      PrintVuiOpt, ParseVuiOpt,
      PicOrderFits, HighOptFits, VuiOptFits, ChromaFits, Pow2, UsFit;
    var c2 := PrintGroup(v.crop) + PrintVuiOpt(v.vui);
    var c1 := PrintFrames(v) + c2;
    UeThen(s, p, v.log2MaxFrameNum, PrintPicOrder(v.picOrder) + c1);
    var p1 := p + |Ue(v.log2MaxFrameNum)|;
    CodeSplit(s, p1, PrintPicOrder(v.picOrder), c1);
    PicOrderBack(s, p1, v.picOrder);
    var p2 := p1 + |PrintPicOrder(v.picOrder)|;
    CodeSplit(s, p2, PrintFrames(v), c2);
    FramesBack(s, p2, v);
    var p3 := p2 + |PrintFrames(v)|;
    CodeSplit(s, p3, PrintGroup(v.crop), PrintVuiOpt(v.vui));
    GroupBack(s, p3, v.crop, 4);
    VuiOptBack(s, p3 + |PrintGroup(v.crop)|, v.vui);
  }

  /** Nothing the writer leaves out or the reader refuses. */
  predicate Printable(v: Sps) { v.high.Some? ==> Whole(v.high.value) }

  predicate Rereadable(v: Sps) { v.high.Some? ==> Smooth(v.high.value) }

  /** What is printed parses back to itself exactly when no scaling list takes too large a step. */
  lemma SpsBack(s: seq<bool>, p: nat, v: Sps)
    requires SpsFits(v) && Printable(v) && CodeAt(s, p, PrintSps(v))
    ensures if Rereadable(v) then ParseSps(s, p) == Got(v, p + |PrintSps(v)|) else ParseSps(s, p) == Fail
  {
    hide CodeAt, PrintHead, ParseHead, PrintHigh, ParseHigh, PrintTail, ParseTail, IsHigh, PicOrderFits, HighFits,
      VuiOptFits, ChromaFits, Pow2, UsFit,
      Whole, Smooth;
    CodeSplit(s, p, PrintHead(v), PrintHighOpt(v.high) + PrintTail(v));
    HeadBack(s, p, v);
    var p1 := p + |PrintHead(v)|;
    CodeSplit(s, p1, PrintHighOpt(v.high), PrintTail(v));
    if v.high.Some? {
      HighBack(s, p1, v.high.value);
    }
    TailBack(s, p1 + |PrintHighOpt(v.high)|, v);
  }
}
