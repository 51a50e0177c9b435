/** The coder registers at work: bytes written to a bounded buffer, bytes read from a message. */
module CodeStream {
  import opened Numbers
  import opened RangeCoder

  // The 32-bit register operations.

  function ShiftLeft(x: nat): (y: nat) { (x * 256) % WORD }

  function TopByte(x: nat): Byte
    requires x < WORD
  {
    x / TOP
  }

  /** The distance to the next boundary of the low half. */
  function ToBoundary(low: nat): nat
    requires low < WORD
  {
    (WORD - low) % BOTTOM
  }

  predicate HighByteOpen(low: nat, range: nat) { Xor(low, (low + range) % WORD) >= TOP }

  // ---- Writing ----

  /** What has been written, followed by what is still to be emitted, is the whole message. */
  ghost predicate Writes(written: seq<Byte>, c: Coder, rest: seq<Event>, full: seq<Byte>) {
    Ready(c) && AllProper(rest) && full == written + Emit(c, rest)
  }

  /** The bytes of one event, as they are produced one by one. */
  ghost predicate Shifting(c0: Coder, c: Coder, bytes: seq<Byte>) {
    Sound(c0) && Sound(c) && Renormalize(c0) == (Renormalize(c).0, bytes + Renormalize(c).1)
  }

  lemma ShiftStart(c: Coder)
    requires Sound(c)
    ensures Shifting(c, c, [])
  {
    hide Sound, Renormalize;
    assert [] + Renormalize(c).1 == Renormalize(c).1;
    assert Renormalize(c) == (Renormalize(c).0, Renormalize(c).1);
  }

  /** One turn: a byte goes out. */
  lemma ShiftOn(c0: Coder, c: Coder, bytes: seq<Byte>)
    requires Shifting(c0, c, bytes) && !Settled(c)
    ensures c.low / TOP < 256
    ensures Shifting(c0, Shift(Cut(c)), bytes + [c.low / TOP])
    ensures Sound(c) && Sound(Shift(Cut(c))) && Measure(Shift(Cut(c))) < Measure(c)
    ensures |Renormalize(c0).1| > |bytes|
  {
    hide Straddles, Cut, Shift, Sound;
    TurnSound(c);
    ShiftMeasure(c);
    var next := Shift(Cut(c));
    assert Renormalize(c).1 == [c.low / TOP] + Renormalize(next).1;
    assert bytes + ([c.low / TOP] + Renormalize(next).1) == (bytes + [c.low / TOP]) + Renormalize(next).1;
  }

  lemma ShiftMeasure(c: Coder)
    requires Sound(c) && !Settled(c)
    ensures Sound(Shift(Cut(c))) && Measure(Shift(Cut(c))) < Measure(c) && c.low / TOP < 256
  {
    hide Straddles;
    TurnSound(c);
  }

  lemma ShiftDone(c0: Coder, c: Coder, bytes: seq<Byte>)
    requires Shifting(c0, c, bytes) && Settled(c)
    ensures Renormalize(c0) == (c, bytes)
  {
    hide Straddles;
    assert bytes + [] == bytes;
  }

  /** What one turn of the loop does to the registers. */
  lemma TurnIs(low: nat, range: nat)
    requires Sound(Coder(low, range))
    ensures var c := Coder(low, range);
      && low < WORD
      && (Settled(c) <==> HighByteOpen(low, range) && range >= BOTTOM)
      && TopByte(low) == low / TOP
      && var cut := if HighByteOpen(low, range) then ToBoundary(low) else range;
      (!Settled(c) ==> Shift(Cut(c)) == Coder(ShiftLeft(low), ShiftLeft(cut)))
  {
    hide Xor;
  }

  /** Code one event into the buffer; fails when the buffer is full. */
  method EncodeRange(out: array<Byte>, pos: nat, c: Coder, e: Event) returns (ok: bool, pos': nat, c': Coder)
    requires Ready(c) && Proper(e) && pos <= out.Length
    modifies out
    ensures ok <==> pos + |Encode(c, e).1| <= out.Length
    ensures ok ==> pos' <= out.Length && c' == Encode(c, e).0 && out[..pos'] == old(out[..pos]) + Encode(c, e).1
  {
    hide *;
    ReadyMeans(c, e);
    var low: nat, range: nat := Narrowed(c, e);
    ghost var c0 := Coder(low, range);
    ghost var bytes: seq<Byte> := [];
    ShiftStart(c0);
    pos' := pos;
    while true
      invariant Sound(Coder(low, range)) && Shifting(c0, Coder(low, range), bytes)
        && pos' == pos + |bytes| <= out.Length
      invariant out[..pos'] == old(out[..pos]) + bytes
      decreases Measure(Coder(low, range))
    {
      TurnIs(low, range);
      ghost var cur := Coder(low, range);
      if HighByteOpen(low, range) {
        if range >= BOTTOM {
          ShiftDone(c0, cur, bytes);
          break;
        }
        range := ToBoundary(low);
      }
      ShiftOn(c0, cur, bytes);
      if pos' >= out.Length {
        return false, pos', Coder(low, range);
      }
      out[pos'] := TopByte(low);
      pos' := pos' + 1;
      bytes := bytes + [TopByte(low)];
      range := ShiftLeft(range);
      low := ShiftLeft(low);
    }
    ok, c' := true, Coder(low, range);
  }

  lemma ReadyMeans(c: Coder, e: Event)
    requires Ready(c) && Proper(e)
    ensures c.range >= e.total > 0
  {
  }

  /** The registers narrowed to the event's slots. */
  method Narrowed(c: Coder, e: Event) returns (low: nat, range: nat)
    requires Ready(c) && Proper(e)
    ensures Sound(Coder(low, range)) && Encode(c, e) == Renormalize(Coder(low, range))
  {
    hide Straddles, Sound, Renormalize, Cut, Shift, Settled;
    NarrowInside(c, e);
    var unit := c.range / e.total;
    low, range := (c.low + e.under * unit) % WORD, (unit * e.count) % WORD;
  }

  lemma FlushOn(low: nat)
    requires 0 < low < WORD
    ensures ShiftLeft(low) < WORD && Flush(low) == [TopByte(low)] + Flush(ShiftLeft(low))
      && Trailing(ShiftLeft(low)) < Trailing(low)
  {
    hide Trailing;
    FlushShorter(low);
  }

  lemma FlushEnd()
    ensures Flush(0) == []
  {
  }

  /** Write out the low register; fails when the buffer is full. */
  method FlushRange(out: array<Byte>, pos: nat, c: Coder) returns (ok: bool, pos': nat)
    requires c.low < WORD && pos <= out.Length
    modifies out
    ensures ok <==> pos + |Flush(c.low)| <= out.Length
    ensures ok ==> pos' <= out.Length && out[..pos'] == old(out[..pos]) + Flush(c.low)
  {
    hide *;
    var low: nat := c.low;
    ghost var bytes: seq<Byte> := [];
    pos' := pos;
    assert [] + Flush(low) == Flush(low);
    while low != 0
      invariant low < WORD && Flush(c.low) == bytes + Flush(low) && pos' == pos + |bytes| <= out.Length
      invariant out[..pos'] == old(out[..pos]) + bytes
      decreases Trailing(low)
    {
      FlushOn(low);
      assert bytes + ([TopByte(low)] + Flush(ShiftLeft(low))) == (bytes + [TopByte(low)]) + Flush(ShiftLeft(low));
      if pos' >= out.Length {
        return false, pos';
      }
      out[pos'] := TopByte(low);
      pos' := pos' + 1;
      bytes := bytes + [TopByte(low)];
      low := ShiftLeft(low);
    }
    FlushEnd();
    ok := true;
  }

  // ---- Reading ----

  /** The reader has shifted `p` bytes through its window, which holds the next four. */
  ghost predicate Reads(s: seq<Byte>, p: nat, next: nat, code: nat) {
    code == Window(Drop(s, p)) && next == if p + 4 <= |s| then p + 4 else |s|
  }

  lemma DropAt(s: seq<Byte>, p: nat, i: nat)
    ensures ByteAt(Drop(s, p), i) == ByteAt(s, p + i)
  {
  }

  /** Shifting one byte in. */
  lemma ReadOn(s: seq<Byte>, p: nat, next: nat, code: nat)
    requires Reads(s, p, next, code)
    ensures next <= |s|
      && Reads(s, p + 1, if next < |s| then next + 1 else next, ShiftLeft(code) + if next < |s| then s[next] else 0)
  {
    var a, b := Drop(s, p), Drop(s, p + 1);
    DropAt(s, p, 0); DropAt(s, p, 1); DropAt(s, p, 2); DropAt(s, p, 3);
    DropAt(s, p + 1, 0); DropAt(s, p + 1, 1); DropAt(s, p + 1, 2); DropAt(s, p + 1, 3);
    hide Drop;
    assert Window(b) == (Window(a) * 256) % WORD + ByteAt(s, p + 4);
  }

  /** Fill the window. */
  method Seed(s: seq<Byte>) returns (next: nat, code: nat)
    ensures Reads(s, 0, next, code)
  {
    next, code := 0, 0;
    if next < |s| {
      code := code + s[next] as nat * TOP;
      next := next + 1;
    }
    if next < |s| {
      code := code + s[next] as nat * BOTTOM;
      next := next + 1;
    }
    if next < |s| {
      code := code + s[next] as nat * 256;
      next := next + 1;
    }
    if next < |s| {
      code := code + s[next];
      next := next + 1;
    }
    assert Drop(s, 0) == s;
  }

  /** Shift the window past one event. */
  method DecodeRange(s: seq<Byte>, next: nat, code: nat, c: Coder, e: Event, ghost p: nat)
        returns (next': nat, code': nat, c': Coder)
    requires Ready(c) && Proper(e) && Reads(s, p, next, code)
    ensures c' == Encode(c, e).0 && Reads(s, p + |Encode(c, e).1|, next', code')
  {
    hide *;
    ReadyMeans(c, e);
    var low: nat, range: nat := Narrowed(c, e);
    ghost var c0 := Coder(low, range);
    ghost var bytes: seq<Byte> := [];
    ShiftStart(c0);
    next', code' := next, code;
    while true
      invariant Sound(Coder(low, range)) && Shifting(c0, Coder(low, range), bytes)
      invariant Reads(s, p + |bytes|, next', code')
      decreases Measure(Coder(low, range))
    {
      TurnIs(low, range);
      ghost var cur := Coder(low, range);
      if HighByteOpen(low, range) {
        if range >= BOTTOM {
          ShiftDone(c0, cur, bytes);
          break;
        }
        range := ToBoundary(low);
      }
      ShiftOn(c0, cur, bytes);
      ReadOn(s, p + |bytes|, next', code');
      code' := ShiftLeft(code');
      if next' < |s| {
        code' := code' + s[next'];
        next' := next' + 1;
      }
      bytes := bytes + [TopByte(low)];
      range := ShiftLeft(range);
      low := ShiftLeft(low);
    }
    c' := Coder(low, range);
  }
}
