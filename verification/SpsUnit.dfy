/** A NAL unit holding a sequence parameter set: its header, the syntax, the trailing bits, and escaping. */
module SpsUnit {
  import opened Numbers
  import opened BitStream
  import opened Nal
  import opened Options
  import opened SpsSyntax
  import opened SpsCanonical
  import opened SpsReread
  import opened SpsReader
  import opened SpsWriter

  const SPS_TYPE := 7

  // ---- Whole bytes ----

  /** The bytes whose bits these are. */
  function Bytes(s: seq<bool>): (b: seq<Byte>)
    requires |s| % 8 == 0
    ensures |b| == |s| / 8
  {
    seq(|s| / 8, i requires 0 <= i < |s| / 8 => ByteOf(s[8 * i..8 * i + 8]))
  }

  function ByteOf(t: seq<bool>): Byte
    requires |t| == 8
  {
    Pow2Eight();
    ValueSmall(t);
    Value(t)
  }

  /** Only one sequence of bytes has given bits. */
  lemma BytesOfBits(b: seq<Byte>)
    ensures Bytes(AllBits(b)) == b
  {
    hide AllBits, Value;
    forall i | 0 <= i < |b|
      ensures Bytes(AllBits(b))[i] == b[i]
    {
      AllBitsByte(b, i);
    }
  }

  lemma BitsOfBytes(s: seq<bool>)
    requires |s| % 8 == 0
    ensures AllBits(Bytes(s)) == s
  {
    hide AllBits, Value;
    var b := Bytes(s);
    forall k | 0 <= k < |s|
      ensures AllBits(b)[k] == s[k]
    {
      var i := k / 8;
      AllBitsByte(b, i);
      BitsValue(s[8 * i..8 * i + 8]);
      assert AllBits(b)[k] == AllBits(b)[8 * i..8 * i + 8][k - 8 * i];
    }
  }

  // ---- The bits of the unit ----

  /** A clear bit, the importance and the type. */
  function Header(refIdc: nat): seq<bool> { [false] + (BitsOf(refIdc, 2) + BitsOf(SPS_TYPE, 5)) }

  /** How many zeros follow the stop bit. */
  function Pad(n: nat): (pad: nat)
    ensures pad <= 7 && (n + 1 + pad) % 8 == 0
  {
    7 - n % 8
  }

  function UnitBits(refIdc: nat, v: Sps): (s: seq<bool>)
    requires SpsFits(v)
    ensures |s| % 8 == 0
  {
    Header(refIdc) + PrintSps(v) + [true] + Zeros(Pad(8 + |PrintSps(v)|))
  }

  function UnitBytes(refIdc: nat, v: Sps): seq<Byte>
    requires SpsFits(v)
  {
    Bytes(UnitBits(refIdc, v))
  }

  /** What reading an SPS unit gives: the parameter set has to end before the last bit. */
  function Parsed(nal: seq<Byte>): Option<Sps> {
    match Unescape(nal, 0)
    case None => None
    case Some(r) =>
      match ParseSps(AllBits(r), 8)
      case Fail => None
      case Got(v, q) => if q < 8 * |r| then Some(v) else None
  }

  lemma ParsedFits(nal: seq<Byte>)
    ensures Parsed(nal).Some? ==> SpsFits(Parsed(nal).value)
  {
    hide ParseSps, SpsFits, AllBits, Unescape;
    if Unescape(nal, 0).Some? {
      SpsParsed(AllBits(Unescape(nal, 0).value), 8);
    }
  }

  lemma UnitEnds(refIdc: nat, v: Sps)
    requires SpsFits(v)
    ensures Ends(UnitBits(refIdc, v), 8, PrintSps(v), Pad(8 + |PrintSps(v)|))
  {
    hide PrintSps, SpsFits, BitsOf;
    var s, c, pad := UnitBits(refIdc, v), PrintSps(v), Pad(8 + |PrintSps(v)|);
    assert s[8..8 + |c|] == c;
    assert s[8 + |c|];
    forall k | 8 + |c| < k < |s|
      ensures !s[k]
    {
      assert s[k] == Zeros(pad)[k - 8 - |c| - 1];
    }
  }

  /**
   * Reading a printed unit gives the parameter set back, exactly when it is no 4:4:4 set with a scaling matrix and no
   * scaling list takes too large a step.
   */
  lemma UnitReread(refIdc: nat, v: Sps)
    requires SpsFits(v)
    ensures Parsed(Escape(UnitBytes(refIdc, v), 0)) == Some(v) <==> Printable(v) && Rereadable(v)
  {
    hide ParseSps, PrintSps, SpsFits, Printable, Rereadable, AllBits, Escape, Unescape, Ends, BitsOf, Bytes;
    UnescapeEscape(UnitBytes(refIdc, v), 0);
    BitsOfBytes(UnitBits(refIdc, v));
    UnitEnds(refIdc, v);
    Reread(UnitBits(refIdc, v), 8, v, Pad(8 + |PrintSps(v)|));
  }

  // ---- The header byte ----

  lemma HeaderByte(refIdc: nat, v: Sps)
    requires SpsFits(v) && refIdc <= 3
    ensures UnitBytes(refIdc, v) != [] && UnitBytes(refIdc, v)[0] == 32 * refIdc + SPS_TYPE
  {
    hide PrintSps, SpsFits;
    var t := UnitBits(refIdc, v)[0..8];
    assert t == Header(refIdc);
    var h := 32 * refIdc + SPS_TYPE;
    HeaderBits(refIdc);
    Pow2Eight();
    ValueBits(h, 8);
  }

  lemma HeaderBits(refIdc: nat)
    requires refIdc <= 3
    ensures BitsOf(32 * refIdc + SPS_TYPE, 8) == Header(refIdc)
  {
    var v := 32 * refIdc + SPS_TYPE;
    var a := BitsOf(v, 8);
    BitBelow(v, 16 * refIdc + 3);
    BitBelow(16 * refIdc + 3, 8 * refIdc + 1);
    BitBelow(8 * refIdc + 1, 4 * refIdc);
    BitBelow(4 * refIdc, 2 * refIdc);
    BitBelow(2 * refIdc, refIdc);
    BitBelow(7, 3);
    BitBelow(3, 1);
    BitBelow(1, 0);
    BitBelow(0, 0);
    BitBelow(refIdc, refIdc / 2);
    BitBelow(refIdc / 2, 0);
    hide Bit;
    var b := Header(refIdc);
    assert b[0] == false && b[1] == Bit(refIdc, 1) && b[2] == Bit(refIdc, 0);
    assert b[3] == Bit(7, 4) && b[4] == Bit(7, 3) && b[5] == Bit(7, 2) && b[6] == Bit(7, 1) && b[7] == Bit(7, 0);
    assert |a| == |b| == 8;
    assert a == b;
  }

  lemma BitBelow(v: nat, half: nat)
    requires half == v / 2
    ensures Bit(v, 0) == (v % 2 == 1)
    ensures forall k: nat :: k > 0 ==> Bit(v, k) == Bit(half, k - 1)
  {
  }

  // ---- read_nal_unit and write_nal_unit ----

  datatype Unit = Unit(refIdc: nat, unitType: nat, sps: Sps)

  lemma UnescapeFirst(n: seq<Byte>)
    requires n != []
    ensures Unescape(n, 0).Some? ==>
      |Unescape(n, 0).value| > 0 && Unescape(n, 0).value[0] == n[0] && |Unescape(n, 0).value| <= |n|
  {
    UnescapeShorter(n[1..], NextCount(0, n[0]));
  }

  lemma {:induction false} UnescapeShorter(n: seq<Byte>, count: nat)
    ensures Unescape(n, count).Some? ==> |Unescape(n, count).value| <= |n|
    decreases |n|
  {
    if n != [] {
      UnescapeShorter(n[1..], NextCount(count, n[0]));
      if |n| > 1 {
        UnescapeShorter(n[2..], NextCount(0, n[1]));
      }
    }
  }

  lemma {:induction false} ValueSplit(a: seq<bool>, b: seq<bool>)
    ensures Value(a + b) == Value(a) * Pow2(|b|) + Value(b)
  {
    if b == [] {
      assert a + b == a;
    } else {
      var n := |b| - 1;
      ValueSplit(a, b[..n]);
      assert (a + b)[..|a + b| - 1] == a + b[..n];
      Doubled(Value(a), Pow2(n));
    }
  }

  lemma Doubled(v: nat, p: nat)
    ensures 2 * (v * p) == v * (2 * p)
  {
  }

  lemma SmallPowers()
    ensures Pow2(5) == 32 && Pow2(2) == 4
  {
    assert Pow2(3) == 8;
  }

  lemma TwoParts(a: seq<bool>, b: seq<bool>, p: nat)
    requires p == Pow2(|b|)
    ensures Value(a + b) == Value(a) * p + Value(b) && Value(b) < p
  {
    ValueSplit(a, b);
    ValueSmall(b);
  }

  lemma Parts(h: nat, high: nat, low: nat, top: nat, middle: nat)
    requires h == high * 32 + low && low < 32 && high == top * 4 + middle && middle < 4
    ensures h % 32 == low && h / 32 % 4 == middle
  {
  }

  lemma FirstByte(b: seq<Byte>)
    requires b != []
    ensures var s := AllBits(b);
      && ReadU(s, 1, 2) == Got(b[0] / 32 % 4, 3) && ReadU(s, 3, 5) == Got(b[0] % 32, 8)
  {
    hide Value, AllBits, Pow2, Bit, BitsOf;
    var s := AllBits(b);
    SmallPowers();
    AllBitsByte(b, 0);
    assert s[0..8] == s[0..3] + s[3..8] && s[0..3] == s[0..1] + s[1..3];
    TwoParts(s[0..3], s[3..8], 32);
    TwoParts(s[0..1], s[1..3], 4);
    Parts(b[0], Value(s[0..3]), Value(s[3..8]), Value(s[0..1]), Value(s[1..3]));
  }

  /** read_rbsp_trailing_bits: the stop bit and the zeros behind it are skipped without being looked at. */
  method SkipTrailing(c: Cursor)
    requires c.Valid()
    modifies c
    ensures c.Valid() && c.error == old(c.error) && c.Pos() == old(c.Pos()) + 1 + Pad(old(c.Pos()))
  {
    c.SkipU(1);
    ghost var pos := c.Pos();
    while !c.ByteAligned()
      invariant c.Valid() && c.error == old(c.error)
      invariant pos <= c.Pos() <= old(c.Pos()) + 1 + Pad(old(c.Pos()))
      decreases old(c.Pos()) + 1 + Pad(old(c.Pos())) - c.Pos()
    {
      c.SkipU(1);
    }
  }

  /** Reading an SPS unit; nothing is returned for an error. */
  method ReadUnit(nal: seq<Byte>) returns (u: Option<Unit>)
    requires nal != [] && nal[0] % 32 == SPS_TYPE
    ensures u.Some? <==> Parsed(nal).Some?
    ensures u.Some? ==> u.value == Unit(nal[0] / 32 % 4, SPS_TYPE, Parsed(nal).value)
  {
    hide AllBits, Unescape, ReadU, ParseSps;
    UnescapeFirst(nal);
    var rbspBuf := new Byte[|nal|](_ => 0);
    var size := NalToRbsp(nal, rbspBuf);
    if size < 0 {
      return None;
    }
    var rbsp := new Byte[size](i requires 0 <= i < size reads rbspBuf => rbspBuf[i]);
    assert rbsp[..] == rbspBuf[..size];
    FirstByte(rbsp[..]);
    var c := new Cursor(rbsp);
    c.SkipU(1);
    var refIdc := c.ReadBits(2);
    var unitType := c.ReadBits(5);
    var sps := ReadSps(c);
    SkipTrailing(c);
    if c.error || c.p > rbsp.Length {
      return None;
    }
    return Some(Unit(refIdc, unitType, sps));
  }

  /** Unless it has run out of room, the cursor is at a byte's start exactly after whole bytes. */
  lemma AlignedWhen(c: Cursor, orig: seq<bool>, start: nat, code: seq<bool>, more: seq<bool>)
    requires c.Written(orig, start, code)
    ensures c.error ==> c.ByteAligned() && c.Written(orig, start, code + more)
    ensures !c.error ==> (c.ByteAligned() <==> (start + |code|) % 8 == 0)
  {
    hide AllBits;
  }

  /** write_rbsp_trailing_bits */
  method WriteTrailing(c: Cursor, ghost orig: seq<bool>, ghost start: nat, ghost code: seq<bool>)
    requires c.Written(orig, start, code)
    modifies c, c.buf
    ensures c.Written(orig, start, code + [true] + Zeros(Pad(start + |code|))) && c.ByteAligned()
  {
    hide *;
    ghost var pad := Pad(start + |code|);
    ghost var zeros := Zeros(pad);
    c.WriteBits(1, 1, orig, start, code);
    StopBit();
    ghost var n := 0;
    ZerosAre(pad);
    assert code + [true] + zeros[..0] == code + [true];
    while !c.ByteAligned()
      invariant n <= pad && c.Written(orig, start, code + [true] + zeros[..n])
      decreases pad - n
    {
      AlignedWhen(c, orig, start, code + [true] + zeros[..n], []);
      PadCount(start + |code|, n);
      c.WriteBits(1, 0, orig, start, code + [true] + zeros[..n]);
      StopBit();
      assert code + [true] + zeros[..n] + [false] == code + [true] + zeros[..n + 1];
      n := n + 1;
    }
    AlignedWhen(c, orig, start, code + [true] + zeros[..n], zeros[n..]);
    PadCount(start + |code|, n);
    assert code + [true] + zeros[..n] + zeros[n..] == code + [true] + zeros;
    assert n == pad ==> zeros[..n] == zeros;
  }

  lemma ZerosAre(n: nat)
    ensures |Zeros(n)| == n && forall i :: 0 <= i < n ==> !Zeros(n)[i]
  {
  }

  lemma StopBit()
    ensures BitsOf(1, 1) == [true] && BitsOf(0, 1) == [false]
  {
  }

  lemma PadCount(pos: nat, n: nat)
    requires n <= Pad(pos)
    ensures (pos + 1 + n) % 8 == 0 <==> n == Pad(pos)
  {
  }

  /** The bits of a unit that fits, as the bytes they are kept in. */
  lemma BytesWritten(buf: seq<Byte>, code: seq<bool>, n: nat)
    requires n <= |buf| && |code| == 8 * n && AllBits(buf)[..8 * n] == code
    ensures buf[..n] == Bytes(code)
  {
    hide Bit;
    BytesOfBits(buf[..n]);
    assert AllBits(buf[..n]) == AllBits(buf)[..8 * n];
  }

  /** Writing an SPS unit into a buffer from `off` on, with a zero byte in front; -1 when there is no room for it. */
  method WriteUnit(u: Unit, out: array<Byte>, off: nat) returns (rc: int)
    requires off <= out.Length && u.unitType == SPS_TYPE && u.refIdc <= 3 && SpsFits(u.sps)
    modifies out
    ensures var b := UnitBytes(u.refIdc, u.sps);
      && (rc == -1 <==> |b| > (out.Length - off) * 3 / 4 || off + 1 + |Escape(b, 0)| > out.Length)
      && (rc != -1 ==> rc == 1 + |Escape(b, 0)| && out[off..off + rc] == [0] + Escape(b, 0))
    ensures out[..off] == old(out[..off])
  {
    hide AllBits, BitsOf, Escape, PrintSps, SpsFits, Cursor.Written, Bytes;
    var size := (out.Length - off) * 3 / 4;
    var rbsp := new Byte[size](_ => 0);
    var c := new Cursor(rbsp);
    ghost var orig, code := c.Bits(), Header(u.refIdc);
    WrittenNothing(c);
    StopBit();
    c.WriteBits(1, 0, orig, 0, []);
    c.WriteBits(2, u.refIdc, orig, 0, [] + [false]);
    c.WriteBits(5, u.unitType, orig, 0, [] + [false] + BitsOf(u.refIdc, 2));
    assert [] + [false] + BitsOf(u.refIdc, 2) + BitsOf(SPS_TYPE, 5) == code;
    WriteSps(c, u.sps, orig, 0, code);
    WriteTrailing(c, orig, 0, code + PrintSps(u.sps));
    HeaderSize(u.refIdc);
    ghost var bits := UnitBits(u.refIdc, u.sps);
    assert bits == code + PrintSps(u.sps) + [true] + Zeros(Pad(8 + |PrintSps(u.sps)|));
    WrittenMeans(c, orig, bits);
    if c.error || c.p > rbsp.Length {
      return -1;
    }
    BytesWritten(rbsp[..], bits, c.p);
    HeaderByte(u.refIdc, u.sps);
    assert out[..off] == old(out[..off]);
    rc := RbspToNal(rbsp[..c.p], out, off);
  }

  lemma WrittenNothing(c: Cursor)
    requires c.Valid() && c.Pos() == 0 && !c.error
    ensures c.Written(c.Bits(), 0, [])
  {
    hide AllBits;
    assert Spliced(c.Bits(), 0, []) == c.Bits();
  }

  lemma HeaderSize(refIdc: nat)
    ensures |Header(refIdc)| == 8
  {
  }

  lemma WrittenMeans(c: Cursor, orig: seq<bool>, bits: seq<bool>)
    requires c.Written(orig, 0, bits) && |bits| % 8 == 0
    ensures c.error <==> |bits| / 8 > c.buf.Length
    ensures !c.error ==> c.p == |bits| / 8 <= c.buf.Length && AllBits(c.buf[..])[..8 * c.p] == bits
  {
    hide AllBits;
    if !c.error {
      assert Spliced(orig, 0, bits)[..|bits|] == bits;
    }
  }
}
