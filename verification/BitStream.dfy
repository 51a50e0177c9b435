/** The bit cursor over a byte buffer: single bits, fixed-length and Exp-Golomb codes, most significant bit first. */
module BitStream {
  import opened Numbers

  const INT32_MAX := 0x7FFF_FFFF

  /** Bit `k` of a number, counted from the least significant. */
  predicate Bit(v: nat, k: nat) { if k == 0 then v % 2 == 1 else Bit(v / 2, k - 1) }

  /** The number with bit `k` replaced. */
  function SetBit(v: nat, k: nat, b: bool): nat {
    if k == 0 then 2 * (v / 2) + (if b then 1 else 0) else 2 * SetBit(v / 2, k - 1, b) + v % 2
  }

  lemma {:induction false} SetBitBits(v: nat, k: nat, b: bool, j: nat)
    ensures Bit(SetBit(v, k, b), j) == if j == k then b else Bit(v, j)
  {
    if k > 0 && j > 0 {
      SetBitBits(v / 2, k - 1, b, j - 1);
    }
  }

  lemma {:induction false} SetBitSmall(v: nat, k: nat, b: bool, n: nat)
    requires k < n && v < Pow2(n)
    ensures SetBit(v, k, b) < Pow2(n)
  {
    if k > 0 {
      SetBitSmall(v / 2, k - 1, b, n - 1);
    }
  }

  /** The low `n` bits of a number, most significant first. */
  function BitsOf(v: nat, n: nat): (s: seq<bool>)
    ensures |s| == n && forall i :: 0 <= i < n ==> s[i] == Bit(v, n - 1 - i)
  {
    seq(n, i requires 0 <= i < n => Bit(v, n - 1 - i))
  }

  /** The number bits stand for. */
  function Value(s: seq<bool>): nat {
    if s == [] then 0 else 2 * Value(s[..|s| - 1]) + if s[|s| - 1] then 1 else 0
  }

  lemma {:induction false} ValueBits(v: nat, n: nat)
    requires v < Pow2(n)
    ensures Value(BitsOf(v, n)) == v
  {
    if n > 0 {
      ValueBits(v / 2, n - 1);
      assert BitsOf(v, n)[..n - 1] == BitsOf(v / 2, n - 1);
    }
  }

  lemma {:induction false} ValueSmall(s: seq<bool>)
    ensures Value(s) < Pow2(|s|)
  {
    if s != [] {
      ValueSmall(s[..|s| - 1]);
    }
  }

  /** All bits of a buffer, in reading order. */
  function AllBits(buf: seq<Byte>): (s: seq<bool>)
    ensures |s| == 8 * |buf|
  {
    seq(8 * |buf|, k requires 0 <= k < 8 * |buf| => Bit(buf[k / 8], 7 - k % 8))
  }

  lemma AllBitsSet(buf: seq<Byte>, k: nat, b: bool)
    requires k < 8 * |buf|
    ensures SetBit(buf[k / 8], 7 - k % 8, b) < 256
    ensures AllBits(buf[k / 8 := SetBit(buf[k / 8], 7 - k % 8, b)]) == AllBits(buf)[k := b]
  {
    hide Bit, SetBit;
    Pow2Eight();
    SetBitSmall(buf[k / 8], 7 - k % 8, b, 8);
    var buf' := buf[k / 8 := SetBit(buf[k / 8], 7 - k % 8, b)];
    forall j | 0 <= j < 8 * |buf|
      ensures AllBits(buf')[j] == AllBits(buf)[k := b][j]
    {
      SetBitBits(buf[k / 8], 7 - k % 8, b, 7 - j % 8);
      assert j / 8 == k / 8 && j % 8 == k % 8 ==> j == k;
    }
  }

  lemma Pow2Eight()
    ensures Pow2(8) == 256
  {
    assert Pow2(4) == 16;
  }

  /** A byte of the buffer is eight of its bits. */
  lemma AllBitsByte(buf: seq<Byte>, i: nat)
    requires i < |buf|
    ensures 8 * i + 8 <= |AllBits(buf)| && AllBits(buf)[8 * i..8 * i + 8] == BitsOf(buf[i], 8)
    ensures Value(AllBits(buf)[8 * i..8 * i + 8]) == buf[i]
  {
    hide Bit, Value;
    Pow2Eight();
    ValueBits(buf[i], 8);
    forall j | 0 <= j < 8
      ensures AllBits(buf)[8 * i..8 * i + 8][j] == BitsOf(buf[i], 8)[j]
    {
      assert (8 * i + j) / 8 == i && (8 * i + j) % 8 == j;
    }
  }

  // ---- Codes, on bits ----

  /** What a reader makes of the bits from some position on. */
  datatype Read<T> = Fail | Got(value: T, pos: nat) {
    predicate IsFailure() { Fail? }

    function PropagateFailure<U>(): Read<U>
      requires Fail?
    {
      Read.Fail
    }

    function Extract(): (T, nat)
      requires Got?
    {
      (value, pos)
    }
  }

  predicate CodeAt(s: seq<bool>, pos: nat, code: seq<bool>) { pos + |code| <= |s| && s[pos..pos + |code|] == code }

  lemma CodeSplit(s: seq<bool>, pos: nat, a: seq<bool>, b: seq<bool>)
    ensures CodeAt(s, pos, a + b) <==> CodeAt(s, pos, a) && CodeAt(s, pos + |a|, b)
  {
    if pos + |a| + |b| <= |s| {
      assert s[pos..pos + |a + b|] == s[pos..pos + |a|] + s[pos + |a|..pos + |a| + |b|];
      if CodeAt(s, pos, a + b) {
        assert s[pos..pos + |a|] == (a + b)[..|a|] && s[pos + |a|..pos + |a| + |b|] == (a + b)[|a|..];
      }
    }
  }

  function ReadU(s: seq<bool>, pos: nat, n: nat): Read<nat> {
    if pos + n <= |s| then Got(Value(s[pos..pos + n]), pos + n) else Fail
  }

  lemma ReadUBack(s: seq<bool>, pos: nat, n: nat, v: nat)
    requires v < Pow2(n) && CodeAt(s, pos, BitsOf(v, n))
    ensures ReadU(s, pos, n) == Got(v, pos + n)
  {
    ValueBits(v, n);
  }

  function ReadFlag(s: seq<bool>, pos: nat): Read<bool> { if pos < |s| then Got(s[pos], pos + 1) else Fail }

  lemma ReadFlagBack(s: seq<bool>, pos: nat, b: bool)
    requires CodeAt(s, pos, [b])
    ensures ReadFlag(s, pos) == Got(b, pos + 1)
  {
    assert s[pos..pos + 1][0] == b;
  }

  /** The zeros before the first one; more than 31 are too many. */
  function LeadingZeros(s: seq<bool>, pos: nat, zeros: nat): Read<nat>
    requires zeros <= 31
    decreases 31 - zeros
  {
    if pos >= |s| then Fail
    else if s[pos] then Got(zeros, pos + 1)
    else if zeros + 1 > 31 then Fail
    else LeadingZeros(s, pos + 1, zeros + 1)
  }

  function ReadUe(s: seq<bool>, pos: nat): Read<nat> {
    match LeadingZeros(s, pos, 0)
    case Fail => Fail
    case Got(zeros, p) =>
      match ReadU(s, p, zeros)
      case Fail => Fail
      case Got(rest, q) =>
        var v := Pow2(zeros) - 1 + rest;
        if v > INT32_MAX then Fail else Got(v, q)
  }

  function Log2(v: nat): nat { if v <= 1 then 0 else 1 + Log2(v / 2) }

  function Zeros(n: nat): (s: seq<bool>)
    ensures |s| == n && forall i :: 0 <= i < n ==> !s[i]
  {
    seq(n, _ => false)
  }

  function Ue(v: nat): seq<bool> { Zeros(Log2(v + 1)) + BitsOf(v + 1, Log2(v + 1) + 1) }

  lemma {:induction false} Log2Bounds(v: nat)
    requires v >= 1
    ensures Pow2(Log2(v)) <= v < 2 * Pow2(Log2(v))
  {
    if v > 1 {
      Log2Bounds(v / 2);
    }
  }

  lemma {:induction false} Pow2Monotone(a: nat, b: nat)
    requires a <= b
    ensures Pow2(a) <= Pow2(b)
    decreases b - a
  {
    if a < b {
      Pow2Monotone(a, b - 1);
    }
  }

  lemma Pow2ThirtyTwo()
    ensures Pow2(31) == INT32_MAX + 1 && Pow2(32) == 2 * (INT32_MAX + 1)
  {
    assert Pow2(4) == 16;
    assert Pow2(8) == 256;
    assert Pow2(16) == 65536;
    assert Pow2(24) == 16777216;
    assert Pow2(28) == 268435456;
  }

  lemma Log2Small(v: nat)
    requires 1 <= v <= INT32_MAX + 1
    ensures Log2(v) <= 31
  {
    Log2Bounds(v);
    Pow2ThirtyTwo();
    if Log2(v) > 31 {
      Pow2Monotone(32, Log2(v));
    }
  }

  lemma {:induction false} ZerosBack(s: seq<bool>, pos: nat, n: nat, zeros: nat)
    requires zeros + n <= 31 && CodeAt(s, pos, Zeros(n)) && pos + n < |s| && s[pos + n]
    ensures LeadingZeros(s, pos, zeros) == Got(zeros + n, pos + n + 1)
    decreases n
  {
    if n > 0 {
      assert s[pos] == s[pos..pos + n][0];
      assert s[pos + 1..pos + 1 + (n - 1)] == s[pos..pos + n][1..];
      assert Zeros(n)[1..] == Zeros(n - 1);
      ZerosBack(s, pos + 1, n - 1, zeros + 1);
    }
  }

  /** The leading one and the bits behind it. */
  lemma {:induction false} TopBit(v: nat, n: nat)
    requires Pow2(n) <= v < 2 * Pow2(n)
    ensures Bit(v, n) && BitsOf(v, n + 1) == [true] + BitsOf(v - Pow2(n), n)
    decreases n
  {
    if n > 0 {
      TopBit(v / 2, n - 1);
      assert (v - Pow2(n)) / 2 == v / 2 - Pow2(n - 1);
      var a, b := BitsOf(v, n + 1), BitsOf(v - Pow2(n), n);
      assert a[..n] == BitsOf(v / 2, n);
      assert b[..n - 1] == BitsOf(v / 2 - Pow2(n - 1), n - 1);
      assert a[n] == (v % 2 == 1) && b[n - 1] == ((v - Pow2(n)) % 2 == 1);
      assert a == a[..n] + [a[n]] && b == b[..n - 1] + [b[n - 1]];
    }
  }

  lemma ReadUeBack(s: seq<bool>, pos: nat, v: nat)
    requires v <= INT32_MAX && CodeAt(s, pos, Ue(v))
    ensures ReadUe(s, pos) == Got(v, pos + |Ue(v)|)
  {
    hide Bit, Value, Log2, LeadingZeros, Pow2, BitsOf, CodeAt, ReadU, Zeros;
    var n := Log2(v + 1);
    Log2Bounds(v + 1);
    Log2Small(v + 1);
    TopBit(v + 1, n);
    CodeSplit(s, pos, Zeros(n), BitsOf(v + 1, n + 1));
    CodeSplit(s, pos + n, [true], BitsOf(v + 1 - Pow2(n), n));
    ReadFlagBack(s, pos + n, true);
    ZerosBack(s, pos, n, 0);
    ReadUBack(s, pos + n + 1, n, v + 1 - Pow2(n));
  }

  function SeOf(r: nat): int { if r % 2 == 1 then (r + 1) / 2 else -(r / 2) }

  function ReadSe(s: seq<bool>, pos: nat): Read<int> {
    match ReadUe(s, pos)
    case Fail => Fail
    case Got(r, p) => Got(SeOf(r), p)
  }

  predicate SeFits(v: int) { -(INT32_MAX / 2) <= v <= (INT32_MAX + 1) / 2 }

  function UeOf(v: int): nat { if v <= 0 then -v * 2 else v * 2 - 1 }

  function Se(v: int): seq<bool> { Ue(UeOf(v)) }

  lemma ReadSeBack(s: seq<bool>, pos: nat, v: int)
    requires SeFits(v) && CodeAt(s, pos, Se(v))
    ensures ReadSe(s, pos) == Got(v, pos + |Se(v)|)
  {
    hide Ue, ReadUe;
    ReadUeBack(s, pos, UeOf(v));
  }

  /** Whatever is read can be written again. */
  lemma ReadUeFits(s: seq<bool>, pos: nat)
    ensures var r := ReadUe(s, pos); r.Got? ==> r.value <= INT32_MAX && pos < r.pos <= |s|
    ensures var r := ReadSe(s, pos); r.Got? ==> SeFits(r.value) && pos < r.pos <= |s|
  {
    hide Value;
    LeadingZerosMove(s, pos, 0);
  }

  lemma {:induction false} LeadingZerosMove(s: seq<bool>, pos: nat, zeros: nat)
    requires zeros <= 31
    ensures var r := LeadingZeros(s, pos, zeros); r.Got? ==>
      zeros <= r.value <= 31 && r.pos == pos + 1 + (r.value - zeros) <= |s|
    decreases 31 - zeros
  {
    if pos < |s| && !s[pos] && zeros + 1 <= 31 {
      LeadingZerosMove(s, pos + 1, zeros + 1);
    }
  }

  // ---- The cursor ----

  lemma BitAt(buf: seq<Byte>, p: nat, left: nat)
    requires p < |buf| && left < 8
    ensures 8 * p + 7 - left < 8 * |buf| && AllBits(buf)[8 * p + 7 - left] == Bit(buf[p], left)
  {
    var k := 8 * p + 7 - left;
    assert k / 8 == p && k % 8 == 7 - left;
    hide Bit;
  }

  lemma SetBitAt(buf: seq<Byte>, p: nat, left: nat, b: bool)
    requires p < |buf| && left < 8
    ensures SetBit(buf[p], left, b) < 256
      && AllBits(buf[p := SetBit(buf[p], left, b)]) == AllBits(buf)[8 * p + 7 - left := b]
  {
    var k := 8 * p + 7 - left;
    assert k / 8 == p && k % 8 == 7 - left;
    AllBitsSet(buf, k, b);
    hide Bit, SetBit, AllBits;
  }

  lemma ValueNext(s: seq<bool>, pos: nat, i: nat)
    requires pos + i < |s|
    ensures Value(s[pos..pos + i + 1]) == 2 * Value(s[pos..pos + i]) + if s[pos + i] then 1 else 0
  {
    var t := s[pos..pos + i + 1];
    assert t[..i] == s[pos..pos + i];
  }

  /** The code written so far lies between what was there before and after. */
  function Spliced(orig: seq<bool>, start: nat, code: seq<bool>): seq<bool>
    requires start + |code| <= |orig|
  {
    orig[..start] + code + orig[start + |code|..]
  }

  lemma SplicedNext(orig: seq<bool>, start: nat, code: seq<bool>, b: bool)
    requires start + |code| < |orig|
    ensures Spliced(orig, start, code)[start + |code| := b] == Spliced(orig, start, code + [b])
  {
  }

  class Cursor {
    const buf: array<Byte>
    var p: nat
    var bitsLeft: nat
    var error: bool

    ghost predicate Valid()
      reads this
    {
      1 <= bitsLeft <= 8
    }

    ghost function Pos(): nat
      reads this
      requires Valid()
    {
      8 * p + 8 - bitsLeft
    }

    ghost function Bits(): seq<bool>
      reads this, buf
    {
      AllBits(buf[..])
    }

    constructor (buf: array<Byte>)
      ensures Valid() && Pos() == 0 && !error && this.buf == buf
    {
      this.buf, p, bitsLeft, error := buf, 0, 8, false;
    }

    predicate ByteAligned()
      reads this
    {
      bitsLeft == 8
    }

    predicate Eof()
      reads this
    {
      p >= buf.Length
    }

    /** The position is at or past the end exactly when no bit is left. */
    lemma EofAt()
      requires Valid()
      ensures Eof() <==> Pos() >= |Bits()|
      ensures ByteAligned() <==> Pos() % 8 == 0
    {
    }

    /** bs_read_u1 */
    method ReadU1() returns (r: nat)
      requires Valid()
      modifies this
      ensures Valid() && (old(error) ==> error)
      ensures match ReadFlag(Bits(), old(Pos()))
        case Fail => error && r == 0
        case Got(b, q) => error == old(error) && Pos() == q && r == if b then 1 else 0
    {
      hide AllBits, Bit;
      r := 0;
      if Eof() {
        error := true;
        return;
      }
      BitAt(buf[..], p, bitsLeft - 1);
      bitsLeft := bitsLeft - 1;
      if !Eof() {
        r := if Bit(buf[p], bitsLeft) then 1 else 0;
      }
      if bitsLeft == 0 {
        p, bitsLeft := p + 1, 8;
      }
    }

    /** bs_skip_u1 */
    method SkipU1()
      requires Valid()
      modifies this
      ensures Valid() && Pos() == old(Pos()) + 1 && error == old(error)
    {
      bitsLeft := bitsLeft - 1;
      if bitsLeft == 0 {
        p, bitsLeft := p + 1, 8;
      }
    }

    method SkipU(n: nat)
      requires Valid()
      modifies this
      ensures Valid() && Pos() == old(Pos()) + n && error == old(error)
    {
      for i := 0 to n
        invariant Valid() && Pos() == old(Pos()) + i && error == old(error)
      {
        SkipU1();
      }
    }

    /** bs_read_u */
    method ReadBits(n: nat) returns (r: nat)
      requires Valid() && n <= 32
      modifies this
      ensures Valid() && (old(error) ==> error)
      ensures !old(error) && (n > 0 || old(Pos()) <= |Bits()|) ==>
        match ReadU(Bits(), old(Pos()), n)
        case Fail => error
        case Got(v, q) => !error && Pos() == q && r == v
    {
      hide AllBits, Value;
      ghost var s, pos := Bits(), Pos();
      r := 0;
      ghost var ok := !error && (n > 0 || pos <= |s|);
      if pos <= |s| {
        ValueEmpty(s, pos);
      }
      for i := 0 to n
        invariant Valid() && Bits() == s && (old(error) ==> error)
        invariant ok && !error && i > 0 ==> pos + i <= |s|
        invariant ok && !error ==> Pos() == pos + i && (pos + i <= |s| ==> r == Value(s[pos..pos + i]))
        invariant ok && error ==> pos + n > |s|
      {
        if pos + i < |s| {
          ValueNext(s, pos, i);
        }
        var b := ReadU1();
        r := 2 * r + b;
      }
    }

    lemma ValueEmpty(s: seq<bool>, pos: nat)
      requires pos <= |s|
      ensures Value(s[pos..pos]) == 0
    {
    }

    /** bs_read_u8: a whole byte at once where it can be. */
    method ReadU8() returns (r: nat)
      requires Valid()
      modifies this
      ensures Valid() && (old(error) ==> error)
      ensures !old(error) ==>
        match ReadU(Bits(), old(Pos()), 8)
        case Fail => error
        case Got(v, q) => !error && Pos() == q && r == v
    {
      hide AllBits, Value;
      if bitsLeft == 8 && !Eof() {
        AllBitsByte(buf[..], p);
        r := buf[p];
        p := p + 1;
        return;
      }
      r := ReadBits(8);
    }

    /** bs_read_ue */
    method ReadUnsigned() returns (r: nat)
      requires Valid()
      modifies this
      ensures Valid() && (old(error) ==> error)
      ensures !old(error) ==>
        match ReadUe(Bits(), old(Pos()))
        case Fail => error
        case Got(v, q) => !error && Pos() == q && r == v
    {
      hide AllBits, Value;
      ghost var s, pos := Bits(), Pos();
      var zeros := 0;
      while true
        invariant Valid() && Bits() == s && error == old(error) && Pos() == pos + zeros && zeros <= 31
        invariant LeadingZeros(s, pos, 0) == LeadingZeros(s, Pos(), zeros)
        decreases 31 - zeros
      {
        if Eof() {
          error := true;
          return 0;
        }
        var b := ReadU1();
        if b != 0 {
          break;
        }
        zeros := zeros + 1;
        if zeros > 31 {
          error := true;
          return 0;
        }
      }
      var rest := ReadBits(zeros);
      if error {
        return 0;
      }
      r := Pow2(zeros) - 1 + rest;
      if r > INT32_MAX {
        error := true;
        return 0;
      }
    }

    /** bs_read_se */
    method ReadSigned() returns (r: int)
      requires Valid()
      modifies this
      ensures Valid() && (old(error) ==> error)
      ensures !old(error) ==>
        match ReadSe(Bits(), old(Pos()))
        case Fail => error
        case Got(v, q) => !error && Pos() == q && r == v
    {
      hide AllBits, ReadUe;
      var v := ReadUnsigned();
      if v % 2 == 1 {
        r := (v + 1) / 2;
      } else {
        var half: int := v / 2;
        r := -half;
      }
    }

    /** Everything written since `start` is `code`; there is an error exactly when it does not fit. */
    ghost predicate Written(orig: seq<bool>, start: nat, code: seq<bool>)
      reads this, buf
    {
      && Valid() && |orig| == 8 * buf.Length && start <= |orig|
      && (error <==> start + |code| > |orig|)
      && (!error ==> Pos() == start + |code| && Bits() == Spliced(orig, start, code))
      && (error ==> Eof() && ByteAligned())
    }

    /** bs_write_u1 */
    method WriteU1(b: bool, ghost orig: seq<bool>, ghost start: nat, ghost code: seq<bool>)
      requires Written(orig, start, code)
      modifies this, buf
      ensures Written(orig, start, code + [b])
    {
      hide AllBits, Bit, SetBit;
      if Eof() {
        error := true;
        return;
      }
      SplicedNext(orig, start, code, b);
      SetBitAt(buf[..], p, bitsLeft - 1, b);
      ghost var before := buf[..];
      bitsLeft := bitsLeft - 1;
      if !Eof() {
        buf[p] := SetBit(buf[p], bitsLeft, b);
        assert buf[..] == before[p := SetBit(before[p], bitsLeft, b)];
      }
      if bitsLeft == 0 {
        p, bitsLeft := p + 1, 8;
      }
    }

    /** bs_write_u */
    method WriteBits(n: nat, v: nat, ghost orig: seq<bool>, ghost start: nat, ghost code: seq<bool>)
      requires Written(orig, start, code) && n <= 32
      modifies this, buf
      ensures Written(orig, start, code + BitsOf(v, n))
    {
      hide Written, Bit;
      assert code + BitsOf(v, n)[..0] == code;
      for i := 0 to n
        invariant Written(orig, start, code + BitsOf(v, n)[..i])
      {
        WriteU1(Bit(v, n - i - 1), orig, start, code + BitsOf(v, n)[..i]);
        assert (code + BitsOf(v, n)[..i]) + [Bit(v, n - i - 1)] == code + BitsOf(v, n)[..i + 1];
      }
      assert BitsOf(v, n)[..n] == BitsOf(v, n);
    }

    /** bs_write_u8 */
    method WriteU8(v: Byte, ghost orig: seq<bool>, ghost start: nat, ghost code: seq<bool>)
      requires Written(orig, start, code)
      modifies this, buf
      ensures Written(orig, start, code + BitsOf(v, 8))
    {
      hide AllBits, Bit;
      if bitsLeft == 8 && !Eof() {
        ghost var before := buf[..];
        buf[p] := v;
        assert buf[..] == before[p := v];
        ByteWritten(before, p, v, orig, start, code);
        p := p + 1;
        return;
      }
      WriteBits(8, v, orig, start, code);
    }

    /** bs_write_ue */
    method WriteUnsigned(v: nat, ghost orig: seq<bool>, ghost start: nat, ghost code: seq<bool>)
      requires Written(orig, start, code)
      modifies this, buf
      ensures v <= INT32_MAX ==> Written(orig, start, code + Ue(v))
      ensures v > INT32_MAX ==> error
    {
      hide Written, Bit, Pow2;
      if v > INT32_MAX {
        error := true;
        return;
      }
      var value := v + 1;
      var leading, bits := 0, value;
      while bits > 1
        invariant bits >= 1 && leading + Log2(bits) == Log2(value)
        decreases bits
      {
        leading, bits := leading + 1, bits / 2;
      }
      Log2Small(value);
      assert code + Zeros(leading)[..0] == code;
      for i := 0 to leading
        invariant Written(orig, start, code + Zeros(leading)[..i])
      {
        WriteU1(false, orig, start, code + Zeros(leading)[..i]);
        assert (code + Zeros(leading)[..i]) + [false] == code + Zeros(leading)[..i + 1];
      }
      assert Zeros(leading)[..leading] == Zeros(leading);
      WriteBits(leading + 1, value, orig, start, code + Zeros(leading));
      assert (code + Zeros(leading)) + BitsOf(value, leading + 1) == code + Ue(v);
    }

    /** bs_write_se */
    method WriteSigned(v: int, ghost orig: seq<bool>, ghost start: nat, ghost code: seq<bool>)
      requires Written(orig, start, code)
      modifies this, buf
      ensures SeFits(v) ==> Written(orig, start, code + Se(v))
      ensures !SeFits(v) ==> error
    {
      hide Written, Ue;
      if v <= 0 {
        if v < -(INT32_MAX / 2) {
          error := true;
          return;
        }
        WriteUnsigned(-v * 2, orig, start, code);
      } else {
        if v > (INT32_MAX + 1) / 2 {
          error := true;
          return;
        }
        WriteUnsigned(v * 2 - 1, orig, start, code);
      }
    }
  }

  lemma ByteWritten(before: seq<Byte>, p: nat, v: Byte, orig: seq<bool>, start: nat, code: seq<bool>)
    requires p < |before| && start + |code| == 8 * p && 8 * |before| == |orig|
      && AllBits(before) == Spliced(orig, start, code)
    ensures start + |code| + 8 <= |orig| && AllBits(before[p := v]) == Spliced(orig, start, code + BitsOf(v, 8))
  {
    hide Bit;
    AllBitsByte(before[p := v], p);
    var a, b := AllBits(before[p := v]), Spliced(orig, start, code + BitsOf(v, 8));
    forall k | 0 <= k < |orig|
      ensures a[k] == b[k]
    {
      if k / 8 == p {
        assert a[k] == a[8 * p..8 * p + 8][k - 8 * p];
      } else {
        assert a[k] == AllBits(before)[k];
      }
    }
  }
}
