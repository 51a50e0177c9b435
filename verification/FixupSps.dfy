/** The rewriting of a sequence parameter set so that a decoder may output frames without delay. */
module FixupSps {
  import opened Numbers
  import opened BitStream
  import opened Nal
  import opened Options
  import opened SpsSyntax
  import opened SpsCanonical
  import opened SpsReread
  import opened SpsReader
  import opened SpsUnit

  // ---- What is changed ----

  /** A parameter set that had none gets the VUI the cleared structure stands for. */
  const NO_VUI := Vui(None, None, None, None, None, None, None, false, false, None)

  /** Both denominators, both vector ranges, no reordering, and a buffer of the reference frames. */
  function NoDelay(numRefFrames: nat): Restriction {
    Restriction(true, [2, 1, 16, 16, 0, if numRefFrames > 1 then numRefFrames else 1])
  }

  function Fixed(v: Sps): Sps {
    var vui := match v.vui case None => NO_VUI case Some(w) => w;
    v.(vui := Some(vui.(restriction := Some(NoDelay(v.numRefFrames)))))
  }

  /** Only the restriction changes, and a VUI that was missing appears empty otherwise. */
  lemma FixedOnly(v: Sps)
    ensures Fixed(v).(vui := v.vui) == v
    ensures Fixed(v).vui.Some? && Fixed(v).vui.value.restriction == Some(NoDelay(v.numRefFrames))
    ensures v.vui.Some? ==> Fixed(v).vui.value.(restriction := v.vui.value.restriction) == v.vui.value
    ensures v.vui.None? ==> Fixed(v).vui.value.(restriction := None) == NO_VUI
    ensures Fixed(Fixed(v)) == Fixed(v)
    ensures Printable(Fixed(v)) == Printable(v) && Rereadable(Fixed(v)) == Rereadable(v)
  {
    hide Printable, Rereadable;
    SameHigh(v, Fixed(v));
  }

  lemma SameHigh(v: Sps, w: Sps)
    requires v.high == w.high
    ensures Printable(v) == Printable(w) && Rereadable(v) == Rereadable(w)
  {
  }

  lemma FixedFits(v: Sps)
    requires SpsFits(v)
    ensures SpsFits(Fixed(v))
  {
    hide PicOrderFits, HighFits, IsHigh, UsFit, Pow2, HrdFits;
    NoDelayFits(v.numRefFrames);
  }

  lemma NoDelayFits(n: nat)
    requires n <= 16
    ensures RestrictionFits(Some(NoDelay(n)))
  {
  }

  // ---- The whole function ----

  predicate StartCode3(n: seq<Byte>) { |n| >= 3 && n[0] == 0 && n[1] == 0 && n[2] == 1 }

  predicate StartCode4(n: seq<Byte>) { |n| >= 6 && n[0] == 0 && n[1] == 0 && n[2] == 0 && n[3] == 1 }

  /** The length of the start code, or zero where there is none. */
  function StartLen(n: seq<Byte>): nat { if StartCode3(n) then 3 else if StartCode4(n) then 4 else 0 }

  /** The forbidden bit is clear and the type is that of a parameter set. */
  predicate SpsHeader(b: Byte) { b < 128 && b % 32 == SPS_TYPE }

  /** What the caller has to hand over for the unit to be read at all. */
  predicate Acceptable(n: seq<Byte>, capacity: nat) {
    && |n| >= 5 && capacity >= 32 && |n| <= capacity - 32 && StartLen(n) > 0 && SpsHeader(n[StartLen(n)])
    && Parsed(n[StartLen(n)..]).Some?
  }

  lemma AcceptableFits(n: seq<Byte>, capacity: nat)
    requires Acceptable(n, capacity)
    ensures SpsFits(Parsed(n[StartLen(n)..]).value) && SpsFits(Fixed(Parsed(n[StartLen(n)..]).value))
  {
    hide SpsFits, Parsed, Fixed;
    ParsedFits(n[StartLen(n)..]);
    FixedFits(Parsed(n[StartLen(n)..]).value);
  }

  function Rewritten(n: seq<Byte>, capacity: nat): seq<Byte>
    requires Acceptable(n, capacity)
  {
    AcceptableFits(n, capacity);
    UnitBytes(n[StartLen(n)] / 32, Fixed(Parsed(n[StartLen(n)..]).value))
  }

  /** The start code and the escaped unit, where the writer has the room for it; otherwise nothing. */
  function FixedUp(n: seq<Byte>, capacity: nat): seq<Byte> {
    if !Acceptable(n, capacity) then []
    else
      var start, b := StartLen(n), Rewritten(n, capacity);
      if |b| > (capacity - start) * 3 / 4 || start + 1 + |Escape(b, 0)| > capacity then []
      else n[..start] + Escape(b, 0)
  }

  /** FixupSps: the number of bytes written, zero for a unit left alone. */
  method FixupSps(nalu: seq<Byte>, out: array<Byte>) returns (written: nat)
    modifies out
    ensures written == |FixedUp(nalu, out.Length)| && written <= out.Length
    ensures out[..written] == FixedUp(nalu, out.Length)
  {
    hide Parsed, UnitBytes, Escape, Fixed, SpsFits;
    if |nalu| < 5 || out.Length < 32 || |nalu| > out.Length - 32 {
      return 0;
    }
    var startLen;
    if nalu[0] == 0 && nalu[1] == 0 && nalu[2] == 1 {
      startLen := 3;
    } else if |nalu| >= 6 && nalu[0] == 0 && nalu[1] == 0 && nalu[2] == 0 && nalu[3] == 1 {
      startLen := 4;
    } else {
      return 0;
    }
    if nalu[startLen] >= 128 || nalu[startLen] % 32 != SPS_TYPE {
      return 0;
    }
    var h := ReadUnit(nalu[startLen..]);
    if h.None? || h.value.unitType != SPS_TYPE {
      return 0;
    }
    AcceptableFits(nalu, out.Length);
    var sps := h.value.sps;
    var vui := if sps.vui.Some? then sps.vui.value else NO_VUI;
    var restriction := Restriction(true, [2, 1, 16, 16, 0, if sps.numRefFrames > 1 then sps.numRefFrames else 1]);
    var fixed := sps.(vui := Some(vui.(restriction := Some(restriction))));
    FixedIs(sps, fixed);
    written := Emit(nalu, startLen, h.value.(sps := fixed), out);
  }

  /** The part from the writer on: strip the zero byte in front of the header, and put the start code there. */
  method Emit(nalu: seq<Byte>, startLen: nat, u: Unit, out: array<Byte>) returns (written: nat)
    requires startLen < |nalu| && startLen + 2 <= out.Length
    requires u.unitType == SPS_TYPE && SpsFits(u.sps) && u.refIdc <= 3 && nalu[startLen] == 32 * u.refIdc + SPS_TYPE
    modifies out
    ensures var b := UnitBytes(u.refIdc, u.sps); var e := Escape(b, 0);
      if |b| > (out.Length - startLen) * 3 / 4 || startLen + 1 + |e| > out.Length then written == 0
      else written == startLen + |e| && out[..written] == nalu[..startLen] + e
  {
    hide UnitBytes, Escape, SpsFits;
    var rc := WriteUnit(u, out, startLen);
    if rc <= 0 {
      return 0;
    }
    ghost var b := UnitBytes(u.refIdc, u.sps);
    ghost var e := Escape(b, 0);
    HeaderByte(u.refIdc, u.sps);
    EscapeFirst(b);
    assert out[startLen] == out[startLen..startLen + rc][0] && out[startLen + 1] == out[startLen..startLen + rc][1];
    assert out[startLen + 1..startLen + rc] == out[startLen..startLen + rc][1..] == e;
    if rc > 1 && out[startLen] == 0 && out[startLen + 1] == nalu[startLen] {
      rc := rc - 1;
      ShiftLeft(out, startLen, rc);
    }
    assert out[startLen..startLen + rc] == e;
    assert out[startLen] == out[startLen..startLen + rc][0];
    written := 0;
    if out[startLen] == nalu[startLen] {
      ghost var tail := out[startLen..];
      assert tail[..rc] == out[startLen..startLen + rc];
      CopyFront(nalu, out, startLen);
      written := startLen + rc;
      assert out[startLen..written] == tail[..rc];
      assert out[..written] == out[..startLen] + out[startLen..written];
    }
  }

  lemma FixedIs(v: Sps, w: Sps)
    requires w ==
      v.(vui := Some((if v.vui.Some? then v.vui.value else NO_VUI).(restriction := Some(NoDelay(v.numRefFrames)))))
    ensures w == Fixed(v)
  {
  }

  lemma EscapeFirst(b: seq<Byte>)
    requires b != []
    ensures Escape(b, 0) != [] && Escape(b, 0)[0] == b[0]
  {
  }

  /** memmove of the bytes behind `at` one place to the left. */
  method ShiftLeft(a: array<Byte>, at: nat, n: nat)
    requires at + n + 1 <= a.Length
    modifies a
    ensures a[at..at + n] == old(a[at + 1..at + 1 + n]) && a[..at] == old(a[..at])
  {
    for i := 0 to n
      invariant a[..at] == old(a[..at])
      invariant forall k :: at <= k < at + i ==> a[k] == old(a[k + 1])
      invariant forall k :: at + i <= k < a.Length ==> a[k] == old(a[k])
    {
      a[at + i] := a[at + i + 1];
    }
  }

  /** memcpy of the start code. */
  method CopyFront(from: seq<Byte>, a: array<Byte>, n: nat)
    requires n <= |from| && n <= a.Length
    modifies a
    ensures a[..n] == from[..n] && a[n..] == old(a[n..])
  {
    for i := 0 to n
      invariant a[..i] == from[..i]
      invariant a[n..] == old(a[n..])
    {
      a[i] := from[i];
    }
  }

  // ---- What that means ----

  /** The start code and the header stay, the output fits, and nothing in it looks like a start code. */
  lemma FixupKeeps(n: seq<Byte>, capacity: nat)
    ensures var f := FixedUp(n, capacity); var start := StartLen(n);
      f != [] ==>
        start < |f| < capacity && start < |n| && f[..start + 1] == n[..start + 1] && Clean(f[start..])
        && StartLen(f) == start
  {
    hide Parsed, UnitBytes, Escape, Fixed, SpsFits, Clean;
    var f := FixedUp(n, capacity);
    if f != [] {
      var start, b := StartLen(n), Rewritten(n, capacity);
      AcceptableFits(n, capacity);
      HeaderByte(n[start] / 32, Fixed(Parsed(n[start..]).value));
      EscapeFirst(b);
      EscapeSafe(b, 0);
      RunFront(0, 0, Escape(b, 0));
      assert f[start..] == Escape(b, 0);
      assert f[..start + 1] == n[..start] + [n[start]];
      if start == 4 {
        UnitLong(n[start] / 32, Fixed(Parsed(n[start..]).value));
        EscapeLonger(b, 0);
      }
    }
  }

  lemma UnitLong(refIdc: nat, v: Sps)
    requires SpsFits(v)
    ensures |UnitBytes(refIdc, v)| >= 2
  {
    hide SpsFits, PrintSps;
  }

  lemma {:induction false} EscapeLonger(b: seq<Byte>, count: nat)
    ensures |Escape(b, count)| >= |b|
    decreases |b|, count
  {
    if b != [] {
      if count == 2 && b[0] <= 3 {
        EscapeLonger(b, 0);
      } else {
        EscapeLonger(b[1..], NextCount(count, b[0]));
      }
    }
  }

  /**
   * The output parses to the input's parameter set with only the restriction changed, exactly when that set is no 4:4:4
   * one with a scaling matrix and none of its scaling lists takes a step the reader refuses.
   */
  lemma FixupRereads(n: seq<Byte>, capacity: nat)
    ensures var f := FixedUp(n, capacity); var start := StartLen(n);
      f != [] ==>
        && start <= |f| && start < |n| && Parsed(n[start..]).Some?
        && var v := Parsed(n[start..]).value;
           (Parsed(f[start..]) == Some(Fixed(v)) <==> Printable(v) && Rereadable(v))
  {
    hide Parsed, UnitBytes, Escape, Fixed, SpsFits, Printable, Rereadable;
    var f := FixedUp(n, capacity);
    if f != [] {
      var start, b := StartLen(n), Rewritten(n, capacity);
      var v := Parsed(n[start..]).value;
      AcceptableFits(n, capacity);
      assert f[start..] == Escape(b, 0);
      UnitReread(n[start] / 32, Fixed(v));
      FixedOnly(v);
    }
  }

  /** Fixing up what was fixed up changes nothing more. */
  lemma FixupAgain(n: seq<Byte>, capacity: nat)
    requires FixedUp(n, capacity) != [] && |FixedUp(n, capacity)| <= capacity - 32
    requires Printable(Parsed(n[StartLen(n)..]).value) && Rereadable(Parsed(n[StartLen(n)..]).value)
    ensures FixedUp(FixedUp(n, capacity), capacity) == FixedUp(n, capacity)
  {
    hide Parsed, UnitBytes, Escape, Fixed, SpsFits, Printable, Rereadable, Clean;
    var f, start := FixedUp(n, capacity), StartLen(n);
    FixupKeeps(n, capacity);
    FixupRereads(n, capacity);
    FixedOnly(Parsed(n[start..]).value);
    assert f[start] == f[..start + 1][start] == n[..start + 1][start] == n[start];
    assert f[..start] == f[..start + 1][..start] == n[..start + 1][..start] == n[..start];
    AcceptableFits(n, capacity);
    UnitLong(n[start] / 32, Fixed(Parsed(n[start..]).value));
    EscapeLonger(Rewritten(n, capacity), 0);
  }

  // ---- What the output asks for ----

  /**
   * Vectors may leave the picture; at most a half of the raw bytes and all of the raw bits; vectors of any length;
   * no frame is held back to be reordered; and the buffer holds the reference frames, or one.
   */
  ghost predicate OutputsAtOnce(r: Restriction, numRefFrames: nat) {
    && r.motionVectorsOverBoundaries && |r.numbers| == 6
    && r.numbers[0] == 2 && r.numbers[1] == 1 && r.numbers[2] == 16 && r.numbers[3] == 16
    && r.numbers[4] == 0
    && r.numbers[5] >= 1 && r.numbers[5] >= numRefFrames && (r.numbers[5] == 1 || r.numbers[5] == numRefFrames)
  }

  /** A parameter set that asks for this, and is `v` in everything else. */
  ghost predicate AsksOnly(w: Sps, v: Sps) {
    && w.vui.Some? && w.vui.value.restriction.Some?
    && OutputsAtOnce(w.vui.value.restriction.value, v.numRefFrames)
    && w.(vui := v.vui) == v
    && (v.vui.Some? ==> w.vui.value.(restriction := v.vui.value.restriction) == v.vui.value)
    && (v.vui.None? ==>
      w.vui.value.(restriction := None) == Vui(None, None, None, None, None, None, None, false, false, None))
  }

  lemma FixedAsks(v: Sps)
    ensures AsksOnly(Fixed(v), v)
  {
  }

  /** The output is the input's start code and header with a unit that asks for this. */
  lemma FixupWrites(n: seq<Byte>, capacity: nat) returns (w: Option<Sps>)
    ensures FixedUp(n, capacity) != [] <==> w.Some?
    ensures w.Some? ==>
      && (var start := StartLen(n); start < |n| && Parsed(n[start..]).Some?)
      && SpsFits(w.value) && AsksOnly(w.value, Parsed(n[StartLen(n)..]).value)
      && FixedUp(n, capacity) == n[..StartLen(n)] + Escape(UnitBytes(n[StartLen(n)] / 32, w.value), 0)
  {
    hide Parsed, UnitBytes, Escape, Fixed, SpsFits, AsksOnly;
    w := None;
    if FixedUp(n, capacity) != [] {
      var v := Parsed(n[StartLen(n)..]).value;
      AcceptableFits(n, capacity);
      FixedAsks(v);
      w := Some(Fixed(v));
    }
  }

  /** And a decoder that parses it finds just that, wherever the input's set can be read back at all. */
  lemma FixupAsks(n: seq<Byte>, capacity: nat)
    ensures var f := FixedUp(n, capacity); var start := StartLen(n);
      f != [] ==>
        && start <= |f| && start < |n| && Parsed(n[start..]).Some?
        && var v := Parsed(n[start..]).value;
           (Printable(v) && Rereadable(v) ==> Parsed(f[start..]).Some? && AsksOnly(Parsed(f[start..]).value, v))
  {
    hide Parsed, UnitBytes, Escape, Fixed, SpsFits, Printable, Rereadable, AsksOnly;
    FixupRereads(n, capacity);
    if FixedUp(n, capacity) != [] {
      FixedAsks(Parsed(n[StartLen(n)..]).value);
    }
  }

  /** The start code, if any, and the header are those of a parameter set, and there are 32 bytes to spare. */
  ghost predicate Offered(n: seq<Byte>, capacity: nat, start: nat) {
    && 3 <= start <= 4 && start + 2 <= |n| && |n| + 32 <= capacity
    && n[0] == 0 && n[1] == 0 && n[start - 1] == 1 && (start == 4 ==> n[2] == 0)
    && n[start] < 128 && n[start] % 32 == 7
  }

  /**
   * There is an output exactly for such a unit that parses, when three quarters of the room hold the raw bytes and
   * all of it the escaped ones.
   */
  lemma FixupRoom(n: seq<Byte>, capacity: nat)
    ensures Acceptable(n, capacity) <==>
      Offered(n, capacity, StartLen(n)) && Parsed(n[StartLen(n)..]).Some?
    ensures Acceptable(n, capacity) ==>
      var start, b := StartLen(n), Rewritten(n, capacity);
      (FixedUp(n, capacity) != [] <==>
        4 * |b| <= 3 * (capacity - start) && start + 1 + |Escape(b, 0)| <= capacity)
    ensures FixedUp(n, capacity) != [] ==> Acceptable(n, capacity)
    ensures forall start :: Offered(n, capacity, start) ==> start == StartLen(n)
  {
    hide Parsed, UnitBytes, Escape, Fixed, SpsFits;
    if Acceptable(n, capacity) {
      AcceptableFits(n, capacity);
    }
  }
}
