/** The carryless 32-bit range coder, on values: what is written and what a reader sees. */
module RangeCoder {
  import opened Numbers

  const TOP := 0x100_0000
  const BOTTOM := 0x1_0000
  const WORD := 0x1_0000_0000

  /** Bitwise exclusive or. */
  function Xor(a: nat, b: nat): nat
    decreases a + b
  {
    if a == 0 && b == 0 then 0 else (a + b) % 2 + 2 * Xor(a / 2, b / 2)
  }

  lemma {:induction false} XorHigh(a: nat, b: nat, k: nat)
    ensures Xor(a, b) >= Pow2(k) <==> a / Pow2(k) != b / Pow2(k)
    decreases k
  {
    if k == 0 {
      XorZero(a, b);
    } else {
      XorHigh(a / 2, b / 2, k - 1);
      HalfDivision(a, Pow2(k - 1));
      HalfDivision(b, Pow2(k - 1));
    }
  }

  lemma HalfDivision(a: nat, p: nat)
    requires p > 0
    ensures a / (2 * p) == (a / 2) / p
  {
    var q, r := (a / 2) / p, (a / 2) % p;
    assert a == 2 * (p * q + r) + a % 2;
    assert a == (2 * p) * q + (2 * r + a % 2);
    DivisionUnique(a, 2 * p, q, 2 * r + a % 2);
  }

  lemma SmallMultiple(d: int, k: int)
    requires 0 < d && -d < d * k < d
    ensures k == 0
  {
    assert k >= 1 ==> d * k >= d;
    assert k <= -1 ==> d * k <= -d;
  }

  lemma MulAtLeast(d: nat, k: nat)
    requires k >= 1
    ensures d * k >= d
  {
  }

  lemma DivisionUnique(a: nat, d: nat, q: nat, r: nat)
    requires d > 0 && r < d && a == d * q + r
    ensures a / d == q
  {
    var q', r' := a / d, a % d;
    assert d * (q - q') == d * q - d * q' == r' - r;
    SmallMultiple(d, q - q');
  }

  lemma Divided(a: nat, d: nat, q: nat, r: nat)
    requires d > 0 && r < d && a == d * q + r
    ensures a / d == q && a % d == r
  {
    DivisionUnique(a, d, q, r);
  }

  lemma {:induction false} XorZero(a: nat, b: nat)
    ensures Xor(a, b) == 0 <==> a == b
    decreases a + b
  {
    if a != 0 || b != 0 {
      XorZero(a / 2, b / 2);
    }
  }

  /** The two coder registers. */
  datatype Coder = Coder(low: nat, range: nat)

  const START := Coder(0, WORD - 1)

  /** The interval still crosses a boundary of the high byte. */
  predicate Straddles(c: Coder) { Xor(c.low, (c.low + c.range) % WORD) >= TOP }

  /**
   * The interval lies in the word. It may end exactly at the word's end, which the
   * register arithmetic sees as zero; then it starts at or above TOP.
   */
  ghost predicate Sound(c: Coder) {
    c.low < WORD && 0 < c.range < WORD && c.low + c.range <= WORD && (c.low + c.range == WORD ==> c.low >= TOP)
  }

  lemma HighByte()
    ensures Pow2(24) == TOP
  {
    assert Pow2(4) == 16;
    assert Pow2(8) == 256;
    assert Pow2(12) == 4096;
    assert Pow2(16) == BOTTOM;
    assert Pow2(20) == 0x10_0000;
  }

  lemma StraddlesMeans(c: Coder)
    requires Sound(c)
    ensures Straddles(c) <==> c.low + c.range == WORD || c.low / TOP != (c.low + c.range) / TOP
  {
    hide Xor;
    HighByte();
    XorHigh(c.low, (c.low + c.range) % WORD, 24);
  }

  /** A coding event: a slot of `count` parts above `under` parts out of `total`. */
  datatype Event = Event(under: nat, count: nat, total: nat)

  ghost predicate Proper(e: Event) { 0 < e.count && e.under + e.count <= e.total <= BOTTOM }

  function Narrow(c: Coder, e: Event): Coder
    requires e.total > 0
  {
    var unit := c.range / e.total;
    Coder((c.low + e.under * unit) % WORD, (unit * e.count) % WORD)
  }

  /** Narrowing stays inside the interval, and register arithmetic does not wrap. */
  lemma NarrowInside(c: Coder, e: Event)
    requires Sound(c) && c.range >= BOTTOM && Proper(e)
    ensures var unit := c.range / e.total;
      && unit > 0
      && Narrow(c, e) == Coder(c.low + e.under * unit, unit * e.count)
      && Sound(Narrow(c, e))
      && c.low + e.under * unit + unit * e.count <= c.low + c.range
  {
    hide Straddles, Xor;
    UnitBounds(c.range, e.under, e.count, e.total);
  }

  lemma UnitBounds(range: nat, under: nat, count: nat, total: nat)
    requires 0 < count && under + count <= total <= range
    ensures var unit := range / total;
      && unit > 0 && 0 < unit * count
      && 0 <= under * unit && under * unit + unit * count <= range
  {
    var unit := range / total;
    var rest := total - under - count;
    assert unit * total == under * unit + unit * count + unit * rest;
    assert unit * total + range % total == range;
    MulAtLeast(unit, count);
  }

  /** When the range is too small to straddle safely it is cut at the boundary. */
  function Cut(c: Coder): Coder {
    if Straddles(c) && c.range < BOTTOM then Coder(c.low, (WORD - c.low) % BOTTOM) else c
  }

  predicate Settled(c: Coder) { Straddles(c) && c.range >= BOTTOM }

  function Shift(c: Coder): Coder { Coder((c.low * 256) % WORD, (c.range * 256) % WORD) }

  /** One turn of the renormalisation loop keeps the coder sound and makes progress. */
  lemma TurnSound(c: Coder)
    requires Sound(c) && !Settled(c)
    ensures Cut(c).low == c.low && 0 < Cut(c).range <= c.range
    ensures c.low % TOP + Cut(c).range <= TOP
    ensures Shift(Cut(c)) == Coder((c.low % TOP) * 256, Cut(c).range * 256)
    ensures Sound(Shift(Cut(c)))
    ensures c.low + c.range < WORD || Shift(Cut(c)).low + Shift(Cut(c)).range == WORD
    ensures c.low + c.range == WORD || Straddles(c) || Shift(Cut(c)).range > c.range
    ensures c.low + c.range < WORD && Straddles(c) ==> Shift(Cut(c)).low + Shift(Cut(c)).range == WORD
    ensures c.low + c.range == WORD ==> Shift(Cut(c)).range > c.range
  {
    hide Straddles;
    StraddlesMeans(c);
    var hi, r := c.low / TOP, c.low % TOP;
    Divided(c.low * 256, WORD, hi, r * 256);
    if Straddles(c) {
      var edge := TOP - r;
      CrossesAt(c, hi, r);
      Divided(WORD - c.low, BOTTOM, 256 * (255 - hi), edge);
      Divided(edge * 256, WORD, 0, edge * 256);
    } else {
      Divided(c.low + c.range, TOP, hi, r + c.range);
      Divided(c.range * 256, WORD, 0, c.range * 256);
    }
  }

  /**
   * A turn in numbers: the loop ends when low and low + range differ in the high byte and the range is at
   * least 65536; otherwise the high byte goes out, after a shorter range was cut at the next multiple of 65536.
   */
  lemma TurnMeans(c: Coder)
    requires Sound(c)
    ensures var apart := c.low + c.range == 0x1_0000_0000 || c.low / 0x100_0000 != (c.low + c.range) / 0x100_0000;
      && (Settled(c) <==> apart && c.range >= 65536)
      && (!Settled(c) ==>
        Shift(Cut(c)) ==
        Coder(c.low % 0x100_0000 * 256, (if apart then 65536 - c.low % 65536 else c.range) * 256))
  {
    hide Straddles;
    StraddlesMeans(c);
    if !Settled(c) {
      TurnSound(c);
      if Straddles(c) {
        CutAt(c);
      }
    }
  }

  lemma CutAt(c: Coder)
    requires Sound(c) && c.range < BOTTOM
    requires c.low + c.range == WORD || c.low / TOP != (c.low + c.range) / TOP
    ensures (WORD - c.low) % BOTTOM == 65536 - c.low % 65536
  {
    var hi, r := c.low / TOP, c.low % TOP;
    CrossesAt(c, hi, r);
    var edge := TOP - r;
    Divided(WORD - c.low, BOTTOM, 256 * (255 - hi), edge);
    Divided(c.low, BOTTOM, 256 * hi + 255, BOTTOM - edge);
  }

  /** A short interval that crosses the high byte's boundary reaches at least to it. */
  lemma CrossesAt(c: Coder, hi: nat, r: nat)
    requires Sound(c) && c.low == TOP * hi + r && r < TOP && c.range < BOTTOM
    requires c.low + c.range == WORD || hi != (c.low + c.range) / TOP
    ensures TOP - r <= c.range && hi <= 255
  {
  }

  function Measure(c: Coder): (m: nat)
    requires Sound(c)
  {
    (if c.low + c.range == WORD then 0 else WORD) + WORD - c.range
  }

  /** Renormalisation: the registers it ends with and the bytes it writes. */
  function Renormalize(c: Coder): (r: (Coder, seq<Byte>))
    requires Sound(c)
    ensures Sound(r.0) && Settled(r.0)
    decreases Measure(c)
  {
    if Settled(c) then (c, [])
    else
      TurnSound(c);
      var (c', bytes) := Renormalize(Shift(Cut(c)));
      (c', [c.low / TOP] + bytes)
  }

  /** The four bytes a reader has in its window, zeros after the end. */
  function ByteAt(s: seq<Byte>, i: nat): Byte { if i < |s| then s[i] else 0 }

  function Window(s: seq<Byte>): (w: nat)
    ensures w < WORD
  {
    ByteAt(s, 0) * TOP + ByteAt(s, 1) * BOTTOM + ByteAt(s, 2) * 256 + ByteAt(s, 3)
  }

  lemma WindowStep(b: Byte, s: seq<Byte>)
    ensures Window([b] + s) == b * TOP + Window(s) / 256
    ensures Window(s) == (Window([b] + s) * 256) % WORD + ByteAt(s, 3)
  {
    var t := [b] + s;
    assert ByteAt(t, 0) == b && ByteAt(t, 1) == ByteAt(s, 0) && ByteAt(t, 2) == ByteAt(s, 1)
      && ByteAt(t, 3) == ByteAt(s, 2);
  }

  ghost predicate Within(c: Coder, s: seq<Byte>) { c.low <= Window(s) < c.low + c.range }

  /** If the window fits after renormalising, it fits before, in front of the bytes written. */
  lemma {:induction false} RenormalizeWindow(c: Coder, s: seq<Byte>)
    requires Sound(c) && Within(Renormalize(c).0, s)
    ensures Within(c, Renormalize(c).1 + s)
    decreases Measure(c)
  {
    hide Straddles, Cut, Shift, Window;
    if Settled(c) {
      assert Renormalize(c).1 + s == s;
    } else {
      TurnSound(c);
      var next := Shift(Cut(c));
      RenormalizeWindow(next, s);
      var rest, b := Renormalize(next).1 + s, c.low / TOP;
      WindowStep(b, rest);
      assert Renormalize(c).1 + s == [b] + rest;
    }
  }

  /** The bytes of the low register, until the rest is zero. */
  function Flush(low: nat): seq<Byte>
    requires low < WORD
    decreases Trailing(low)
  {
    if low == 0 then [] else FlushShorter(low); [low / TOP] + Flush((low * 256) % WORD)
  }

  /** How many bytes flushing writes. */
  function Trailing(low: nat): nat {
    if low == 0 then 0 else if low % TOP == 0 then 1 else if low % BOTTOM == 0 then 2 else if low % 256 == 0 then 3
      else 4
  }

  lemma FlushShorter(low: nat)
    requires 0 < low < WORD
    ensures (low * 256) % WORD == (low % TOP) * 256
    ensures Trailing((low * 256) % WORD) < Trailing(low)
  {
    var q1, d := low / 256, low % 256;
    var q2, c := q1 / 256, q1 % 256;
    var a, b := q2 / 256, q2 % 256;
    ShorterByBytes(low, a, b, c, d);
  }

  lemma ShorterByBytes(low: nat, a: nat, b: nat, c: nat, d: nat)
    requires 0 < low == a * TOP + b * BOTTOM + c * 256 + d && a < 256 && b < 256 && c < 256 && d < 256
    ensures (low * 256) % WORD == (low % TOP) * 256
    ensures Trailing((low * 256) % WORD) < Trailing(low)
  {
    var next := b * TOP + c * BOTTOM + d * 256;
    Divided(low, TOP, a, b * BOTTOM + c * 256 + d);
    Divided(low, BOTTOM, a * 256 + b, c * 256 + d);
    Divided(low, 256, a * BOTTOM + b * 256 + c, d);
    Divided(low * 256, WORD, a, next);
    Divided(next, TOP, b, c * BOTTOM + d * 256);
    Divided(next, BOTTOM, b * 256 + c, d * 256);
    Divided(next, 256, b * BOTTOM + c * 256 + d, 0);
  }

  /** A reader that runs off the end sees exactly the low register. */
  lemma {:induction false} FlushWindow(low: nat)
    requires low < WORD
    ensures Window(Flush(low)) == low
    decreases Trailing(low)
  {
    if low != 0 {
      FlushShorter(low);
      var rest := Flush((low * 256) % WORD);
      FlushWindow((low * 256) % WORD);
      WindowStep(low / TOP, rest);
    }
  }

  // ---- Whole messages ----

  ghost predicate Ready(c: Coder) { Sound(c) && c.range >= BOTTOM }

  ghost predicate AllProper(es: seq<Event>) { forall i :: 0 <= i < |es| ==> Proper(es[i]) }

  /** One event: the registers after it and the bytes it writes. */
  function Encode(c: Coder, e: Event): (r: (Coder, seq<Byte>))
    requires Ready(c) && Proper(e)
    ensures Ready(r.0)
  {
    NarrowInside(c, e);
    hide Straddles, Narrow, Cut, Shift;
    Renormalize(Narrow(c, e))
  }

  /** Everything written from here on, the final flush included. */
  function Emit(c: Coder, es: seq<Event>): seq<Byte>
    requires Ready(c) && AllProper(es)
    decreases |es|
  {
    hide Encode, Straddles;
    if es == [] then Flush(c.low)
    else Encode(c, es[0]).1 + Emit(Encode(c, es[0]).0, es[1..])
  }

  /** What is written always lies in the current interval. */
  lemma {:induction false} EmitWithin(c: Coder, es: seq<Event>)
    requires Ready(c) && AllProper(es)
    ensures Within(c, Emit(c, es))
    ensures es != [] ==> Within(Narrow(c, es[0]), Emit(c, es))
    decreases |es|
  {
    hide Renormalize, Window, Straddles, Narrow;
    if es == [] {
      FlushWindow(c.low);
    } else {
      var e := es[0];
      NarrowInside(c, e);
      EmitWithin(Encode(c, e).0, es[1..]);
      RenormalizeWindow(Narrow(c, e), Emit(Encode(c, e).0, es[1..]));
    }
  }

  /** The slot number a reader computes from its window. */
  function Slot(c: Coder, w: nat, total: nat): int
    requires 0 < total <= c.range
  {
    (w - c.low) / (c.range / total)
  }

  lemma SlotRange(c: Coder, e: Event, w: nat)
    requires Ready(c) && Proper(e)
    requires Narrow(c, e).low <= w < Narrow(c, e).low + Narrow(c, e).range
    ensures e.under <= Slot(c, w, e.total) < e.under + e.count
  {
    hide Straddles;
    NarrowInside(c, e);
    var unit := c.range / e.total;
    var q, r := (w - c.low) / unit, (w - c.low) % unit;
    assert unit * q + r == w - c.low;
    if q < e.under {
      assert e.under * unit == unit * q + unit * (e.under - q);
      MulAtLeast(unit, e.under - q);
    } else {
      var k := q - e.under - e.count;
      assert unit * q == e.under * unit + unit * e.count + unit * k;
      assert k >= 0 ==> unit * k >= 0;
    }
  }

  /** A reader's window always names a slot of the event being decoded. */
  lemma ReadSlot(c: Coder, es: seq<Event>)
    requires Ready(c) && AllProper(es) && es != []
    ensures es[0].under <= Slot(c, Window(Emit(c, es)), es[0].total) < es[0].under + es[0].count
  {
    hide Window, Emit, Narrow;
    EmitWithin(c, es);
    SlotRange(c, es[0], Window(Emit(c, es)));
  }

  /** At the end of the message the window names slot 0 of any further context, and goes on doing so. */
  lemma ReadEnd(c: Coder, total: nat)
    requires Ready(c) && 0 < total <= BOTTOM
    ensures Slot(c, Window(Flush(c.low)), total) == 0
  {
    hide Window, Flush;
    FlushWindow(c.low);
    UnitBounds(c.range, 0, 1, total);
  }

  /** Bytes of the stream beyond its end are zeros. */
  function Drop(s: seq<Byte>, n: nat): seq<Byte> { if n <= |s| then s[n..] else [] }

  /** Decoding an escape in slot 0 leaves a finished stream finished. */
  lemma {:induction false} RenormalizeFlush(c: Coder)
    requires Sound(c)
    ensures Drop(Flush(c.low), |Renormalize(c).1|) == Flush(Renormalize(c).0.low)
    decreases Measure(c)
  {
    hide Straddles;
    if !Settled(c) {
      TurnSound(c);
      var next := Shift(Cut(c));
      RenormalizeFlush(next);
      assert next.low == (c.low * 256) % WORD;
      if c.low == 0 {
        assert Flush(next.low) == [];
      } else {
        assert Flush(c.low)[1..] == Flush(next.low);
        var k := |Renormalize(next).1|;
        assert Drop(Flush(c.low), k + 1) == Drop(Flush(next.low), k);
      }
    }
  }
}
