/** Writing a sequence parameter set with the bit cursor: what is added to the bits is what the syntax prints. */
module SpsWriter {
  import opened Numbers
  import opened BitStream
  import opened Nal
  import opened Options
  import opened SpsSyntax

  lemma Regroup(a: seq<bool>, b: seq<bool>, c: seq<bool>)
    ensures a + (b + c) == (a + b) + c
  {
  }

  method WriteUnsigneds(c: Cursor, vs: seq<nat>, ghost orig: seq<bool>, ghost start: nat, ghost code: seq<bool>)
    requires c.Written(orig, start, code) && UesFit(vs)
    modifies c, c.buf
    ensures c.Written(orig, start, code + Ues(vs))
  {
    hide *;
    ghost var done := code;
    for i := 0 to |vs|
      invariant c.Written(orig, start, done) && done + Ues(vs[i..]) == code + Ues(vs)
    {
      UesStep(vs, i, done);
      c.WriteUnsigned(vs[i], orig, start, done);
      done := done + Ue(vs[i]);
    }
    UesEnd(vs, done);
  }

  lemma UesStep(vs: seq<nat>, i: nat, done: seq<bool>)
    requires i < |vs| && UesFit(vs)
    ensures vs[i] <= INT32_MAX && done + Ues(vs[i..]) == (done + Ue(vs[i])) + Ues(vs[i + 1..])
  {
    assert vs[i..][1..] == vs[i + 1..];
    Regroup(done, Ue(vs[i]), Ues(vs[i + 1..]));
  }

  lemma UesEnd(vs: seq<nat>, done: seq<bool>)
    ensures vs[0..] == vs && done + Ues(vs[|vs|..]) == done
  {
  }

  method WriteSigneds(c: Cursor, vs: seq<int>, ghost orig: seq<bool>, ghost start: nat, ghost code: seq<bool>)
    requires c.Written(orig, start, code) && SesFit(vs)
    modifies c, c.buf
    ensures c.Written(orig, start, code + Ses(vs))
  {
    hide *;
    ghost var done := code;
    SesEnd(vs, done);
    for i := 0 to |vs|
      invariant c.Written(orig, start, done) && done + Ses(vs[i..]) == code + Ses(vs)
    {
      SesStep(vs, i, done);
      c.WriteSigned(vs[i], orig, start, done);
      done := done + Se(vs[i]);
    }
    SesEnd(vs, done);
  }

  lemma SesStep(vs: seq<int>, i: nat, done: seq<bool>)
    requires i < |vs| && SesFit(vs)
    ensures SeFits(vs[i]) && done + Ses(vs[i..]) == (done + Se(vs[i])) + Ses(vs[i + 1..])
  {
    assert vs[i..][1..] == vs[i + 1..];
    Regroup(done, Se(vs[i]), Ses(vs[i + 1..]));
  }

  lemma SesEnd(vs: seq<int>, done: seq<bool>)
    ensures vs[0..] == vs && done + Ses(vs[|vs|..]) == done
  {
  }

  method WriteFixed(c: Cursor, vs: seq<nat>, n: nat, ghost orig: seq<bool>, ghost start: nat, ghost code: seq<bool>)
    requires c.Written(orig, start, code) && UsFit(vs, n) && 0 < n <= 32
    modifies c, c.buf
    ensures c.Written(orig, start, code + Us(vs, n))
  {
    hide *;
    ghost var done := code;
    UsEnd(vs, n, done);
    for i := 0 to |vs|
      invariant c.Written(orig, start, done) && done + Us(vs[i..], n) == code + Us(vs, n)
    {
      UsStep(vs, n, i, done);
      if n == 8 {
        c.WriteU8(vs[i], orig, start, done);
      } else {
        c.WriteBits(n, vs[i], orig, start, done);
      }
      done := done + BitsOf(vs[i], n);
    }
    UsEnd(vs, n, done);
  }

  lemma UsStep(vs: seq<nat>, n: nat, i: nat, done: seq<bool>)
    requires i < |vs| && UsFit(vs, n)
    ensures n == 8 ==> vs[i] < 256
    ensures done + Us(vs[i..], n) == (done + BitsOf(vs[i], n)) + Us(vs[i + 1..], n)
  {
    Pow2Eight();
    assert vs[i..][1..] == vs[i + 1..];
    Regroup(done, BitsOf(vs[i], n), Us(vs[i + 1..], n));
  }

  lemma UsEnd(vs: seq<nat>, n: nat, done: seq<bool>)
    ensures vs[0..] == vs && done + Us(vs[|vs|..], n) == done
  {
  }

  /** Flags kept as numbers. */
  method WriteOnes(c: Cursor, vs: seq<nat>, ghost orig: seq<bool>, ghost start: nat, ghost code: seq<bool>)
    requires c.Written(orig, start, code) && UsFit(vs, 1)
    modifies c, c.buf
    ensures c.Written(orig, start, code + Us(vs, 1))
  {
    hide *;
    ghost var done := code;
    UsEnd(vs, 1, done);
    for i := 0 to |vs|
      invariant c.Written(orig, start, done) && done + Us(vs[i..], 1) == code + Us(vs, 1)
    {
      UsStep(vs, 1, i, done);
      LowBit(vs[i]);
      c.WriteU1(vs[i] % 2 == 1, orig, start, done);
      done := done + BitsOf(vs[i], 1);
    }
    UsEnd(vs, 1, done);
  }

  lemma LowBit(v: nat)
    ensures BitsOf(v, 1) == [v % 2 == 1]
  {
  }

  /** write_hrd_parameters */
  method WriteHrd(c: Cursor, h: Hrd, ghost orig: seq<bool>, ghost start: nat, ghost code: seq<bool>)
    requires c.Written(orig, start, code) && HrdFits(h)
    modifies c, c.buf
    ensures c.Written(orig, start, code + PrintHrd(h))
  {
    hide Cursor.Written, Ue, BitsOf, PrintEntries, Us, EntriesFit, UsFit, Pow2;
    ghost var a, b, d, e, f := Ue(|h.entries| - 1), BitsOf(h.bitRateScale, 4), BitsOf(h.cpbSizeScale, 4),
          PrintEntries(h.entries), Us(h.delays, 5);
    c.WriteUnsigned(|h.entries| - 1, orig, start, code);
    c.WriteBits(4, h.bitRateScale, orig, start, code + a);
    c.WriteBits(4, h.cpbSizeScale, orig, start, code + a + b);
    WriteEntries(c, h.entries, orig, start, code + a + b + d);
    WriteFixed(c, h.delays, 5, orig, start, code + a + b + d + e);
    Regroup5(code, a, b, d, e, f);
  }

  lemma Regroup5(code: seq<bool>, a: seq<bool>, b: seq<bool>, c: seq<bool>, d: seq<bool>, e: seq<bool>)
    ensures code + a + b + c + d + e == code + (a + (b + (c + (d + e))))
  {
    Regroup(code, a, b + (c + (d + e)));
    Regroup(code + a, b, c + (d + e));
    Regroup(code + a + b, c, d + e);
    Regroup(code + a + b + c, d, e);
  }

  method WriteEntries(c: Cursor, es: seq<CpbEntry>, ghost orig: seq<bool>, ghost start: nat, ghost code: seq<bool>)
    requires c.Written(orig, start, code) && EntriesFit(es)
    modifies c, c.buf
    ensures c.Written(orig, start, code + PrintEntries(es))
  {
    hide *;
    ghost var done := code;
    EntriesEnd(es, done);
    for i := 0 to |es|
      invariant c.Written(orig, start, done) && done + PrintEntries(es[i..]) == code + PrintEntries(es)
    {
      EntriesStep(es, i, done);
      c.WriteUnsigned(es[i].bitRateValue, orig, start, done);
      c.WriteUnsigned(es[i].cpbSizeValue, orig, start, done + Ue(es[i].bitRateValue));
      c.WriteU1(es[i].cbrFlag, orig, start, done + Ue(es[i].bitRateValue) + Ue(es[i].cpbSizeValue));
      done := done + Ue(es[i].bitRateValue) + Ue(es[i].cpbSizeValue) + [es[i].cbrFlag];
    }
    EntriesEnd(es, done);
  }

  lemma EntriesStep(es: seq<CpbEntry>, i: nat, done: seq<bool>)
    requires i < |es| && EntriesFit(es)
    ensures es[i].bitRateValue <= INT32_MAX && es[i].cpbSizeValue <= INT32_MAX
    ensures done + PrintEntries(es[i..]) ==
      (done + Ue(es[i].bitRateValue) + Ue(es[i].cpbSizeValue) + [es[i].cbrFlag]) + PrintEntries(es[i + 1..])
  {
    hide Ue;
    assert es[i..][1..] == es[i + 1..];
    var a, b, c, d := Ue(es[i].bitRateValue), Ue(es[i].cpbSizeValue), [es[i].cbrFlag], PrintEntries(es[i + 1..]);
    Regroup(done, a, b + (c + d));
    Regroup(done + a, b, c + d);
    Regroup(done + a + b, c, d);
  }

  lemma EntriesEnd(es: seq<CpbEntry>, done: seq<bool>)
    ensures es[0..] == es && done + PrintEntries(es[|es|..]) == done
  {
  }

  // ---- write_vui_parameters, field group by field group ----

  method WriteAspect(c: Cursor, o: Option<Aspect>, ghost orig: seq<bool>, ghost start: nat, ghost code: seq<bool>)
    requires c.Written(orig, start, code) && AspectFits(o)
    modifies c, c.buf
    ensures c.Written(orig, start, code + PrintAspect(o))
  {
    hide Cursor.Written, BitsOf, Pow2;
    Pow2Eight();
    c.WriteU1(o.Some?, orig, start, code);
    if o.Some? {
      c.WriteU8(o.value.idc, orig, start, code + [true]);
      ghost var idc := BitsOf(o.value.idc, 8);
      if o.value.idc == SAR_EXTENDED {
        ghost var w, h := BitsOf(o.value.sarWidth, 16), BitsOf(o.value.sarHeight, 16);
        c.WriteBits(16, o.value.sarWidth, orig, start, code + [true] + idc);
        c.WriteBits(16, o.value.sarHeight, orig, start, code + [true] + idc + w);
        assert code + [true] + idc + w + h == code + ([true] + (idc + (w + h)));
      } else {
        assert code + [true] + idc == code + ([true] + (idc + []));
      }
    }
  }

  method WriteOverscan(c: Cursor, o: Option<bool>, ghost orig: seq<bool>, ghost start: nat, ghost code: seq<bool>)
    requires c.Written(orig, start, code)
    modifies c, c.buf
    ensures c.Written(orig, start, code + PrintOverscan(o))
  {
    hide Cursor.Written;
    c.WriteU1(o.Some?, orig, start, code);
    if o.Some? {
      c.WriteU1(o.value, orig, start, code + [true]);
      Regroup(code, [true], [o.value]);
    }
  }

  method WriteSignal(c: Cursor, o: Option<Signal>, ghost orig: seq<bool>, ghost start: nat, ghost code: seq<bool>)
    requires c.Written(orig, start, code) && SignalFits(o)
    modifies c, c.buf
    ensures c.Written(orig, start, code + PrintSignal(o))
  {
    hide Cursor.Written, BitsOf, Pow2, Us, UsFit;
    c.WriteU1(o.Some?, orig, start, code);
    if o.Some? {
      var v := o.value;
      ghost var f := BitsOf(v.format, 3);
      c.WriteBits(3, v.format, orig, start, code + [true]);
      c.WriteU1(v.fullRange, orig, start, code + [true] + f);
      c.WriteU1(v.colour.Some?, orig, start, code + [true] + f + [v.fullRange]);
      if v.colour.Some? {
        WriteFixed(c, v.colour.value, 8, orig, start, code + [true] + f + [v.fullRange] + [true]);
        assert code + [true] + f + [v.fullRange] + [true] + Us(v.colour.value, 8) ==
          code + ([true] + (f + ([v.fullRange] + ([true] + Us(v.colour.value, 8)))));
      } else {
        assert code + [true] + f + [v.fullRange] + [false] == code + ([true] + (f + ([v.fullRange] + [false])));
      }
    }
  }

  method WriteGroup(c: Cursor, o: Option<seq<nat>>, n: nat, ghost orig: seq<bool>, ghost start: nat,
        ghost code: seq<bool>)
    requires c.Written(orig, start, code) && ChromaFits(o, n)
    modifies c, c.buf
    ensures c.Written(orig, start, code + PrintGroup(o))
  {
    hide Cursor.Written, Ues, UesFit;
    c.WriteU1(o.Some?, orig, start, code);
    if o.Some? {
      WriteUnsigneds(c, o.value, orig, start, code + [true]);
      Regroup(code, [true], Ues(o.value));
    }
  }

  method WriteTiming(c: Cursor, o: Option<Timing>, ghost orig: seq<bool>, ghost start: nat, ghost code: seq<bool>)
    requires c.Written(orig, start, code) && TimingFits(o)
    modifies c, c.buf
    ensures c.Written(orig, start, code + PrintTiming(o))
  {
    hide Cursor.Written, BitsOf, Pow2;
    c.WriteU1(o.Some?, orig, start, code);
    if o.Some? {
      ghost var u, t := BitsOf(o.value.unitsInTick, 32), BitsOf(o.value.timeScale, 32);
      c.WriteBits(32, o.value.unitsInTick, orig, start, code + [true]);
      c.WriteBits(32, o.value.timeScale, orig, start, code + [true] + u);
      c.WriteU1(o.value.fixedFrameRate, orig, start, code + [true] + u + t);
      assert code + [true] + u + t + [o.value.fixedFrameRate] == code + ([true] + (u + (t + [o.value.fixedFrameRate])));
    }
  }

  method WriteHrdOpt(c: Cursor, o: Option<Hrd>, ghost orig: seq<bool>, ghost start: nat, ghost code: seq<bool>)
    requires c.Written(orig, start, code) && HrdOptFits(o)
    modifies c, c.buf
    ensures c.Written(orig, start, code + PrintHrdOpt(o))
  {
    hide Cursor.Written, PrintHrd, HrdFits;
    c.WriteU1(o.Some?, orig, start, code);
    if o.Some? {
      WriteHrd(c, o.value, orig, start, code + [true]);
      Regroup(code, [true], PrintHrd(o.value));
    }
  }

  method WriteRestriction(c: Cursor, o: Option<Restriction>, ghost orig: seq<bool>, ghost start: nat,
        ghost code: seq<bool>)
    requires c.Written(orig, start, code) && RestrictionFits(o)
    modifies c, c.buf
    ensures c.Written(orig, start, code + PrintRestriction(o))
  {
    hide Cursor.Written, Ues, UesFit;
    c.WriteU1(o.Some?, orig, start, code);
    if o.Some? {
      var r := o.value;
      c.WriteU1(r.motionVectorsOverBoundaries, orig, start, code + [true]);
      WriteUnsigneds(c, r.numbers, orig, start, code + [true] + [r.motionVectorsOverBoundaries]);
      assert code + [true] + [r.motionVectorsOverBoundaries] + Ues(r.numbers) ==
        code + ([true] + ([r.motionVectorsOverBoundaries] + Ues(r.numbers)));
    }
  }

  method WriteVuiEnd(c: Cursor, v: Vui, ghost orig: seq<bool>, ghost start: nat, ghost code: seq<bool>)
    requires c.Written(orig, start, code) && VuiFits(v)
    modifies c, c.buf
    ensures c.Written(orig, start, code + PrintVuiEnd(v))
  {
    hide Cursor.Written, PrintHrdOpt, PrintRestriction, HrdOptFits, RestrictionFits, AspectFits, SignalFits, ChromaFits,
      TimingFits;
    ghost var a, b := PrintHrdOpt(v.nalHrd), PrintHrdOpt(v.vclHrd);
    ghost var low := if v.nalHrd.Some? || v.vclHrd.Some? then [v.lowDelayHrd] else [];
    WriteHrdOpt(c, v.nalHrd, orig, start, code);
    WriteHrdOpt(c, v.vclHrd, orig, start, code + a);
    if v.nalHrd.Some? || v.vclHrd.Some? {
      c.WriteU1(v.lowDelayHrd, orig, start, code + a + b);
    } else {
      NothingAfter(code + a + b);
    }
    c.WriteU1(v.picStruct, orig, start, code + a + b + low);
    WriteRestriction(c, v.restriction, orig, start, code + a + b + low + [v.picStruct]);
    Regroup5(code, a, b, low, [v.picStruct], PrintRestriction(v.restriction));
  }

  /** write_vui_parameters */
  method WriteVui(c: Cursor, v: Vui, ghost orig: seq<bool>, ghost start: nat, ghost code: seq<bool>)
    requires c.Written(orig, start, code) && VuiFits(v)
    modifies c, c.buf
    ensures c.Written(orig, start, code + PrintVui(v))
  {
    hide Cursor.Written, PrintAspect, PrintOverscan, PrintSignal, PrintGroup, PrintTiming, PrintVuiEnd, HrdOptFits,
      RestrictionFits, AspectFits, SignalFits,
      ChromaFits, TimingFits;
    ghost var a, b, d, e, f, g := PrintAspect(v.aspect), PrintOverscan(v.overscan), PrintSignal(v.signal),
          PrintGroup(v.chroma), PrintTiming(v.timing), PrintVuiEnd(v);
    WriteAspect(c, v.aspect, orig, start, code);
    WriteOverscan(c, v.overscan, orig, start, code + a);
    WriteSignal(c, v.signal, orig, start, code + a + b);
    WriteGroup(c, v.chroma, 2, orig, start, code + a + b + d);
    WriteTiming(c, v.timing, orig, start, code + a + b + d + e);
    WriteVuiEnd(c, v, orig, start, code + a + b + d + e + f);
    Regroup5(code, a, b, d, e, f + g);
    Regroup(code + a + b + d + e, f, g);
  }

  // ---- Scaling lists ----

  /** write_scaling_list */
  method WriteScalingList(c: Cursor, l: ScalingList, size: nat, ghost orig: seq<bool>, ghost start: nat,
        ghost code: seq<bool>)
    requires c.Written(orig, start, code) && ListFits(l, size)
    modifies c, c.buf
    ensures c.Written(orig, start, code + PrintList(l))
  {
    hide Cursor.Written, Se;
    var last: nat, next: nat := 8, 8;
    ghost var done := code;
    for j := 0 to size
      invariant c.Written(orig, start, done) && last <= 255
      invariant done + PrintScales(l, j, last, next) == code + PrintList(l)
    {
      if next != 0 {
        next := l.values[j];
        if l.useDefault {
          next := 0;
        }
        var delta := next - last;
        c.WriteSigned(delta, orig, start, done);
        Regroup(done, Se(delta), PrintScales(l, j + 1, l.values[j], next));
        done := done + Se(delta);
      }
      last := l.values[j];
    }
    NothingAfter(done);
  }

  method WriteListOpt(c: Cursor, o: Option<ScalingList>, i: nat, ghost orig: seq<bool>, ghost start: nat,
        ghost code: seq<bool>)
    requires c.Written(orig, start, code) && (o.Some? ==> ListFits(o.value, ListSize(i)))
    modifies c, c.buf
    ensures c.Written(orig, start, code + PrintListOpt(o))
  {
    hide Cursor.Written, PrintList, ListFits;
    c.WriteU1(o.Some?, orig, start, code);
    if o.Some? {
      WriteScalingList(c, o.value, if i < 6 then 16 else 64, orig, start, code + [true]);
      Regroup(code, [true], PrintList(o.value));
    }
  }

  /** Only eight lists, whatever the chroma format. */
  method WriteLists(c: Cursor, lists: seq<Option<ScalingList>>, ghost orig: seq<bool>, ghost start: nat,
        ghost code: seq<bool>)
    requires c.Written(orig, start, code) && |lists| >= 8 && MatrixFits(lists)
    modifies c, c.buf
    ensures c.Written(orig, start, code + PrintLists(lists, 0, 8))
  {
    hide Cursor.Written, PrintListOpt, ListFits;
    ghost var done := code;
    for i := 0 to 8
      invariant c.Written(orig, start, done)
      invariant done + PrintLists(lists, i, 8) == code + PrintLists(lists, 0, 8)
    {
      WriteListOpt(c, lists[i], i, orig, start, done);
      Regroup(done, PrintListOpt(lists[i]), PrintLists(lists, i + 1, 8));
      done := done + PrintListOpt(lists[i]);
    }
    NothingAfter(done);
  }

  // ---- write_seq_parameter_set_rbsp ----

  method WriteMatrix(c: Cursor, m: Option<seq<Option<ScalingList>>>, ghost orig: seq<bool>, ghost start: nat,
        ghost code: seq<bool>)
    requires c.Written(orig, start, code) && (m.Some? ==> |m.value| >= 8 && MatrixFits(m.value))
    modifies c, c.buf
    ensures c.Written(orig, start, code + PrintMatrix(m))
  {
    hide Cursor.Written, PrintLists, MatrixFits;
    c.WriteU1(m.Some?, orig, start, code);
    if m.Some? {
      WriteLists(c, m.value, orig, start, code + [true]);
      Regroup(code, [true], PrintLists(m.value, 0, 8));
    }
  }

  method WriteHigh(c: Cursor, h: High, ghost orig: seq<bool>, ghost start: nat, ghost code: seq<bool>)
    requires c.Written(orig, start, code) && HighFits(h)
    modifies c, c.buf
    ensures c.Written(orig, start, code + PrintHigh(h))
  {
    hide Cursor.Written, Ue, PrintMatrix, MatrixFits;
    ghost var a, b, d, e := Ue(h.chromaFormat), PrintResidual(h), Ue(h.lumaDepth), Ue(h.chromaDepth);
    c.WriteUnsigned(h.chromaFormat, orig, start, code);
    if h.chromaFormat == 3 {
      c.WriteU1(h.residualColour, orig, start, code + a);
    } else {
      NothingAfter(code + a);
    }
    c.WriteUnsigned(h.lumaDepth, orig, start, code + a + b);
    c.WriteUnsigned(h.chromaDepth, orig, start, code + a + b + d);
    c.WriteU1(h.bypass, orig, start, code + a + b + d + e);
    WriteMatrix(c, h.matrix, orig, start, code + a + b + d + e + [h.bypass]);
    Regroup(code + a + b + d + e, [h.bypass], PrintMatrix(h.matrix));
    Regroup5(code, a, b, d, e, [h.bypass] + PrintMatrix(h.matrix));
  }

  method WritePicOrder(c: Cursor, o: PicOrder, ghost orig: seq<bool>, ghost start: nat, ghost code: seq<bool>)
    requires c.Written(orig, start, code) && PicOrderFits(o)
    modifies c, c.buf
    ensures c.Written(orig, start, code + PrintPicOrder(o))
  {
    hide Cursor.Written, Ue, Se, SeFits, Ses, SesFit;
    match o {
      case Lsb(n) =>
        c.WriteUnsigned(0, orig, start, code);
        c.WriteUnsigned(n, orig, start, code + Ue(0));
        Regroup(code, Ue(0), Ue(n));
      case Cycle(zero, x, y, offsets) =>
        ghost var k, a, b, d := Ue(1), Se(x), Se(y), Ue(|offsets|);
        c.WriteUnsigned(1, orig, start, code);
        c.WriteU1(zero, orig, start, code + k);
        c.WriteSigned(x, orig, start, code + k + [zero]);
        c.WriteSigned(y, orig, start, code + k + [zero] + a);
        c.WriteUnsigned(|offsets|, orig, start, code + k + [zero] + a + b);
        WriteSigneds(c, offsets, orig, start, code + k + [zero] + a + b + d);
        Regroup(code + k + [zero] + a + b, d, Ses(offsets));
        Regroup5(code, k, [zero], a, b, d + Ses(offsets));
      case OutputOrder =>
        c.WriteUnsigned(2, orig, start, code);
    }
  }

  method WriteFrames(c: Cursor, v: Sps, ghost orig: seq<bool>, ghost start: nat, ghost code: seq<bool>)
    requires c.Written(orig, start, code) && v.numRefFrames <= 16 && v.width <= INT32_MAX && v.height <= INT32_MAX
    modifies c, c.buf
    ensures c.Written(orig, start, code + PrintFrames(v))
  {
    hide Cursor.Written, Ue;
    ghost var a, d, e := Ue(v.numRefFrames), Ue(v.width), Ue(v.height);
    ghost var f, g := [v.frameMbsOnly], if v.frameMbsOnly then [] else [v.mbAdaptive];
    c.WriteUnsigned(v.numRefFrames, orig, start, code);
    c.WriteU1(v.gapsAllowed, orig, start, code + a);
    c.WriteUnsigned(v.width, orig, start, code + a + [v.gapsAllowed]);
    c.WriteUnsigned(v.height, orig, start, code + a + [v.gapsAllowed] + d);
    ghost var before := code + a + [v.gapsAllowed] + d + e;
    c.WriteU1(v.frameMbsOnly, orig, start, before);
    if !v.frameMbsOnly {
      c.WriteU1(v.mbAdaptive, orig, start, before + f);
    } else {
      NothingAfter(before + f);
    }
    c.WriteU1(v.direct8x8, orig, start, before + f + g);
    Regroup(before, f, g + [v.direct8x8]);
    Regroup(before + f, g, [v.direct8x8]);
    Regroup5(code, a, [v.gapsAllowed], d, e, f + (g + [v.direct8x8]));
  }

  method WriteHead(c: Cursor, v: Sps, ghost orig: seq<bool>, ghost start: nat, ghost code: seq<bool>)
    requires c.Written(orig, start, code) && SpsFits(v)
    modifies c, c.buf
    ensures c.Written(orig, start, code + PrintHead(v))
  {
    hide Cursor.Written, Ue, BitsOf, Us, Pow2, UsFit, PicOrderFits, HighOptFits, VuiOptFits, ChromaFits;
    Pow2Eight();
    ghost var a, b, d, e, f := BitsOf(v.profile, 8), Us(v.constraints, 1), BitsOf(0, 2), BitsOf(v.level, 8), Ue(v.id);
    c.WriteU8(v.profile, orig, start, code);
    WriteOnes(c, v.constraints, orig, start, code + a);
    c.WriteBits(2, 0, orig, start, code + a + b);
    c.WriteU8(v.level, orig, start, code + a + b + d);
    c.WriteUnsigned(v.id, orig, start, code + a + b + d + e);
    Regroup5(code, a, b, d, e, f);
  }

  method WriteVuiOpt(c: Cursor, o: Option<Vui>, ghost orig: seq<bool>, ghost start: nat, ghost code: seq<bool>)
    requires c.Written(orig, start, code) && VuiOptFits(o)
    modifies c, c.buf
    ensures c.Written(orig, start, code + PrintVuiOpt(o))
  {
    hide Cursor.Written, PrintVui, VuiFits;
    c.WriteU1(o.Some?, orig, start, code);
    if o.Some? {
      WriteVui(c, o.value, orig, start, code + [true]);
      Regroup(code, [true], PrintVui(o.value));
    }
  }

  /** write_seq_parameter_set_rbsp */
  method WriteSps(c: Cursor, v: Sps, ghost orig: seq<bool>, ghost start: nat, ghost code: seq<bool>)
    requires c.Written(orig, start, code) && SpsFits(v)
    modifies c, c.buf
    ensures c.Written(orig, start, code + PrintSps(v))
  {
    hide Cursor.Written, Ue, PrintHead, PrintHigh, HighFits, IsHigh, PrintPicOrder, PrintFrames, PrintGroup,
      PrintVuiOpt, Pow2, UsFit, PicOrderFits, VuiOptFits, ChromaFits;
    ghost var code1 := code + PrintHead(v);
    WriteHead(c, v, orig, start, code);
    if IsHigh(v.profile) {
      WriteHigh(c, v.high.value, orig, start, code1);
    } else {
      NothingAfter(code1);
    }
    ghost var code2 := code1 + PrintHighOpt(v.high);
    Regroup(code, PrintHead(v), PrintHighOpt(v.high) + PrintTail(v));
    Regroup(code1, PrintHighOpt(v.high), PrintTail(v));
    ghost var a, b, d, e, f := Ue(v.log2MaxFrameNum), PrintPicOrder(v.picOrder), PrintFrames(v), PrintGroup(v.crop),
          PrintVuiOpt(v.vui);
    c.WriteUnsigned(v.log2MaxFrameNum, orig, start, code2);
    WritePicOrder(c, v.picOrder, orig, start, code2 + a);
    WriteFrames(c, v, orig, start, code2 + a + b);
    WriteGroup(c, v.crop, 4, orig, start, code2 + a + b + d);
    WriteVuiOpt(c, v.vui, orig, start, code2 + a + b + d + e);
    Regroup5(code2, a, b, d, e, f);
  }
}
