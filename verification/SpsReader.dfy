/**
 * Reading a sequence parameter set with the bit cursor. Reading goes on after an error, as the error is never taken
 * back; each method ends in an error exactly when the bits do not parse, and otherwise returns what they parse to.
 */
module SpsReader {
  import opened BitStream
  import opened Nal
  import opened Options
  import opened SpsSyntax

  /** The cursor has done what `read` says, unless there was an error before. */
  ghost predicate Did<T>(c: Cursor, erred: bool, read: Read<T>, r: T)
    reads c
  {
    && c.Valid() && (erred ==> c.error)
    && (!erred ==>
          match read
          case Fail => c.error
          case Got(v, q) => !c.error && c.Pos() == q && r == v)
  }

  method ReadOne(c: Cursor) returns (b: bool)
    requires c.Valid()
    modifies c
    ensures Did(c, old(c.error), ReadFlag(c.Bits(), old(c.Pos())), b)
  {
    hide AllBits;
    var r := c.ReadU1();
    b := r == 1;
  }

  lemma OneBit(s: seq<bool>, p: nat)
    ensures ReadU(s, p, 1) == match ReadFlag(s, p) case Fail => Fail case Got(b, q) => Got(if b then 1 else 0, q)
  {
    if p < |s| {
      var t := [s[p]];
      assert s[p..p + 1] == t && t[..0] == [];
      assert Value(t) == 2 * Value(t[..0]) + if t[0] then 1 else 0;
    }
  }

  /** What was read, in front of what the rest gives. */
  function Before<T>(done: seq<T>, rest: Read<seq<T>>): Read<seq<T>> {
    match rest
    case Fail => Fail
    case Got(vs, q) => Got(done + vs, q)
  }

  lemma BeforeStep<T>(done: seq<T>, v: T, rest: Read<seq<T>>)
    ensures Before(done + [v], rest) == Before(done, Before([v], rest))
  {
    match rest
    case Fail =>
    case Got(vs, q) => assert (done + [v]) + vs == done + ([v] + vs);
  }

  lemma BeforeNothing<T>(done: seq<T>, rest: Read<seq<T>>)
    ensures Before([], rest) == rest
    ensures rest.Got? && rest.value == [] ==> Before(done, rest) == Got(done, rest.pos)
  {
    if rest.Got? {
      assert [] + rest.value == rest.value;
    }
    assert done + [] == done;
  }

  /** Several unsigned codes in a row. */
  method ReadUnsigneds(c: Cursor, n: nat) returns (vs: seq<nat>)
    requires c.Valid()
    modifies c
    ensures Did(c, old(c.error), ReadUes(c.Bits(), old(c.Pos()), n), vs)
  {
    hide AllBits, ReadUe;
    ghost var s, start, erred := c.Bits(), c.Pos(), c.error;
    vs := [];
    BeforeNothing(vs, ReadUes(s, start, n));
    for i := 0 to n
      invariant c.Valid() && c.Bits() == s && (erred ==> c.error)
      invariant !erred && c.error ==> ReadUes(s, start, n) == Fail
      invariant !erred && !c.error ==> ReadUes(s, start, n) == Before(vs, ReadUes(s, c.Pos(), n - i))
    {
      ghost var pos := c.Pos();
      var v := c.ReadUnsigned();
      BeforeStep(vs, v, ReadUes(s, c.Pos(), n - i - 1));
      vs := vs + [v];
    }
    BeforeNothing(vs, ReadUes(s, c.Pos(), 0));
  }

  method ReadSigneds(c: Cursor, n: nat) returns (vs: seq<int>)
    requires c.Valid()
    modifies c
    ensures Did(c, old(c.error), ReadSes(c.Bits(), old(c.Pos()), n), vs)
  {
    hide AllBits, ReadSe;
    ghost var s, start, erred := c.Bits(), c.Pos(), c.error;
    vs := [];
    BeforeNothing(vs, ReadSes(s, start, n));
    for i := 0 to n
      invariant c.Valid() && c.Bits() == s && (erred ==> c.error)
      invariant !erred && c.error ==> ReadSes(s, start, n) == Fail
      invariant !erred && !c.error ==> ReadSes(s, start, n) == Before(vs, ReadSes(s, c.Pos(), n - i))
    {
      var v := c.ReadSigned();
      BeforeStep(vs, v, ReadSes(s, c.Pos(), n - i - 1));
      vs := vs + [v];
    }
    BeforeNothing(vs, ReadSes(s, c.Pos(), 0));
  }

  /** Several codes of `n` bits in a row. */
  method ReadFixed(c: Cursor, n: nat, count: nat) returns (vs: seq<nat>)
    requires c.Valid() && 0 < n <= 32
    modifies c
    ensures Did(c, old(c.error), ReadUs(c.Bits(), old(c.Pos()), n, count), vs)
  {
    hide AllBits, ReadU;
    ghost var s, start, erred := c.Bits(), c.Pos(), c.error;
    vs := [];
    BeforeNothing(vs, ReadUs(s, start, n, count));
    for i := 0 to count
      invariant c.Valid() && c.Bits() == s && (erred ==> c.error)
      invariant !erred && c.error ==> ReadUs(s, start, n, count) == Fail
      invariant !erred && !c.error ==> ReadUs(s, start, n, count) == Before(vs, ReadUs(s, c.Pos(), n, count - i))
    {
      var v;
      if n == 8 {
        v := c.ReadU8();
      } else {
        v := c.ReadBits(n);
      }
      BeforeStep(vs, v, ReadUs(s, c.Pos(), n, count - i - 1));
      vs := vs + [v];
    }
    BeforeNothing(vs, ReadUs(s, c.Pos(), n, 0));
  }

  /** Single bits in a row, as numbers. */
  method ReadOnes(c: Cursor, count: nat) returns (vs: seq<nat>)
    requires c.Valid()
    modifies c
    ensures Did(c, old(c.error), ReadUs(c.Bits(), old(c.Pos()), 1, count), vs)
  {
    hide AllBits, ReadU;
    ghost var s, start, erred := c.Bits(), c.Pos(), c.error;
    vs := [];
    BeforeNothing(vs, ReadUs(s, start, 1, count));
    for i := 0 to count
      invariant c.Valid() && c.Bits() == s && (erred ==> c.error)
      invariant !erred && c.error ==> ReadUs(s, start, 1, count) == Fail
      invariant !erred && !c.error ==> ReadUs(s, start, 1, count) == Before(vs, ReadUs(s, c.Pos(), 1, count - i))
    {
      OneBit(s, c.Pos());
      var v := c.ReadU1();
      BeforeStep(vs, v, ReadUs(s, c.Pos(), 1, count - i - 1));
      vs := vs + [v];
    }
    BeforeNothing(vs, ReadUs(s, c.Pos(), 1, 0));
  }

  /** read_hrd_parameters */
  method ReadHrd(c: Cursor) returns (h: Hrd)
    requires c.Valid()
    modifies c
    ensures Did(c, old(c.error), ParseHrd(c.Bits(), old(c.Pos())), h)
  {
    hide AllBits, ReadUe, ReadU, ReadUs, ParseEntries;
    h := Hrd(0, 0, [], []);
    var last := c.ReadUnsigned();
    if c.error || last > 31 {
      c.error := true;
      return;
    }
    var rate := c.ReadBits(4);
    var size := c.ReadBits(4);
    var entries := ReadEntries(c, last + 1);
    var delays := ReadFixed(c, 5, 4);
    h := Hrd(rate, size, entries, delays);
  }

  method ReadEntries(c: Cursor, n: nat) returns (es: seq<CpbEntry>)
    requires c.Valid()
    modifies c
    ensures Did(c, old(c.error), ParseEntries(c.Bits(), old(c.Pos()), n), es)
  {
    hide AllBits, ReadUe, ReadFlag;
    ghost var s, start, erred := c.Bits(), c.Pos(), c.error;
    es := [];
    BeforeNothing(es, ParseEntries(s, start, n));
    for i := 0 to n
      invariant c.Valid() && c.Bits() == s && (erred ==> c.error)
      invariant !erred && c.error ==> ParseEntries(s, start, n) == Fail
      invariant !erred && !c.error ==> ParseEntries(s, start, n) == Before(es, ParseEntries(s, c.Pos(), n - i))
    {
      var rate := c.ReadUnsigned();
      var size := c.ReadUnsigned();
      var cbr := ReadOne(c);
      BeforeStep(es, CpbEntry(rate, size, cbr), ParseEntries(s, c.Pos(), n - i - 1));
      es := es + [CpbEntry(rate, size, cbr)];
    }
    BeforeNothing(es, ParseEntries(s, c.Pos(), 0));
  }

  // ---- read_vui_parameters, field group by field group ----

  method ReadAspect(c: Cursor) returns (o: Option<Aspect>)
    requires c.Valid()
    modifies c
    ensures Did(c, old(c.error), ParseAspect(c.Bits(), old(c.Pos())), o)
  {
    hide AllBits, ReadU, ReadFlag;
    o := None;
    var present := ReadOne(c);
    if present {
      var idc := c.ReadU8();
      var w, h := 0, 0;
      if idc == SAR_EXTENDED {
        w := c.ReadBits(16);
        h := c.ReadBits(16);
      }
      o := Some(Aspect(idc, w, h));
    }
  }

  method ReadOverscan(c: Cursor) returns (o: Option<bool>)
    requires c.Valid()
    modifies c
    ensures Did(c, old(c.error), ParseOverscan(c.Bits(), old(c.Pos())), o)
  {
    hide AllBits, ReadFlag;
    o := None;
    var present := ReadOne(c);
    if present {
      var b := ReadOne(c);
      o := Some(b);
    }
  }

  method ReadSignal(c: Cursor) returns (o: Option<Signal>)
    requires c.Valid()
    modifies c
    ensures Did(c, old(c.error), ParseSignal(c.Bits(), old(c.Pos())), o)
  {
    hide AllBits, ReadU, ReadFlag, ReadUs;
    o := None;
    var present := ReadOne(c);
    if present {
      var format := c.ReadBits(3);
      var full := ReadOne(c);
      var described := ReadOne(c);
      var colour: Option<seq<nat>> := None;
      if described {
        var cs := ReadFixed(c, 8, 3);
        colour := Some(cs);
      }
      o := Some(Signal(format, full, colour));
    }
  }

  method ReadGroup(c: Cursor, n: nat) returns (o: Option<seq<nat>>)
    requires c.Valid()
    modifies c
    ensures Did(c, old(c.error), ParseGroup(c.Bits(), old(c.Pos()), n), o)
  {
    hide AllBits, ReadFlag, ReadUes;
    o := None;
    var present := ReadOne(c);
    if present {
      var vs := ReadUnsigneds(c, n);
      o := Some(vs);
    }
  }

  method ReadTiming(c: Cursor) returns (o: Option<Timing>)
    requires c.Valid()
    modifies c
    ensures Did(c, old(c.error), ParseTiming(c.Bits(), old(c.Pos())), o)
  {
    hide AllBits, ReadU, ReadFlag;
    o := None;
    var present := ReadOne(c);
    if present {
      var units := c.ReadBits(32);
      var scale := c.ReadBits(32);
      var fixed := ReadOne(c);
      o := Some(Timing(units, scale, fixed));
    }
  }

  method ReadHrdOpt(c: Cursor) returns (o: Option<Hrd>)
    requires c.Valid()
    modifies c
    ensures Did(c, old(c.error), ParseHrdOpt(c.Bits(), old(c.Pos())), o)
  {
    hide AllBits, ReadFlag, ParseHrd;
    o := None;
    var present := ReadOne(c);
    if present {
      var h := ReadHrd(c);
      o := Some(h);
    }
  }

  method ReadRestriction(c: Cursor) returns (o: Option<Restriction>)
    requires c.Valid()
    modifies c
    ensures Did(c, old(c.error), ParseRestriction(c.Bits(), old(c.Pos())), o)
  {
    hide AllBits, ReadFlag, ReadUes;
    o := None;
    var present := ReadOne(c);
    if present {
      var over := ReadOne(c);
      var vs := ReadUnsigneds(c, 6);
      o := Some(Restriction(over, vs));
    }
  }

  method ReadVuiEnd(c: Cursor) returns (v: VuiEnd)
    requires c.Valid()
    modifies c
    ensures Did(c, old(c.error), ParseVuiEnd(c.Bits(), old(c.Pos())), v)
  {
    hide AllBits, ReadFlag, ParseHrdOpt, ParseRestriction;
    var nal := ReadHrdOpt(c);
    var vcl := ReadHrdOpt(c);
    var low := false;
    if nal.Some? || vcl.Some? {
      low := ReadOne(c);
    }
    var pic := ReadOne(c);
    var restriction := ReadRestriction(c);
    v := VuiEnd(nal, vcl, low, pic, restriction);
  }

  method ReadVui(c: Cursor) returns (v: Vui)
    requires c.Valid()
    modifies c
    ensures Did(c, old(c.error), ParseVui(c.Bits(), old(c.Pos())), v)
  {
    hide AllBits, ParseAspect, ParseOverscan, ParseSignal, ParseGroup, ParseTiming, ParseVuiEnd;
    var aspect := ReadAspect(c);
    var overscan := ReadOverscan(c);
    var signal := ReadSignal(c);
    var chroma := ReadGroup(c, 2);
    var timing := ReadTiming(c);
    var end := ReadVuiEnd(c);
    v := Vui(aspect, overscan, signal, chroma, timing, end.nalHrd, end.vclHrd, end.lowDelayHrd, end.picStruct,
      end.restriction);
  }

  // ---- Scaling lists ----

  /** read_scaling_list */
  method ReadScalingList(c: Cursor, size: nat) returns (l: ScalingList)
    requires c.Valid() && 0 < size
    modifies c
    ensures Did(c, old(c.error), ParseList(c.Bits(), old(c.Pos()), size), l)
  {
    hide AllBits, ReadSe, SeFits;
    ghost var s, start, erred := c.Bits(), c.Pos(), c.error;
    var values: seq<nat> := [];
    var useDefault := false;
    var last: nat, next: nat := 8, 8;
    BeforeNothing(values, ParseScales(s, start, size, 8, 8));
    for j := 0 to size
      invariant c.Valid() && c.Bits() == s && (erred ==> c.error)
      invariant !erred ==>
        !c.error && ParseScales(s, start, size, 8, 8) == Before(values, ParseScales(s, c.Pos(), size - j, last, next))
      invariant last > 0 && (j == 0 ==> last == next == 8 && c.Pos() == start)
      invariant j > 0 && !erred ==>
        ReadSe(s, start).Got? && useDefault == ((8 + ReadSe(s, start).value + 256) % 256 == 0)
      invariant j > 0 && useDefault && !erred ==> next == 0
    {
      if next != 0 {
        var delta := c.ReadSigned();
        if c.error || delta < -128 || delta > 127 {
          c.error := true;
          l := ScalingList(values, useDefault);
          return;
        }
        next := (last + delta + 256) % 256;
        useDefault := j == 0 && next == 0;
      }
      var value := if next == 0 then last else next;
      BeforeStep(values, value, ParseScales(s, c.Pos(), size - j - 1, value, next));
      values := values + [value];
      last := value;
    }
    BeforeNothing(values, ParseScales(s, c.Pos(), 0, last, next));
    l := ScalingList(values, useDefault);
  }

  method ReadListOpt(c: Cursor, i: nat) returns (o: Option<ScalingList>)
    requires c.Valid()
    modifies c
    ensures Did(c, old(c.error), ParseListOpt(c.Bits(), old(c.Pos()), i), o)
  {
    hide AllBits, ReadFlag, ParseList;
    o := None;
    var present := ReadOne(c);
    if present {
      var l := ReadScalingList(c, if i < 6 then 16 else 64);
      o := Some(l);
    }
  }

  method ReadLists(c: Cursor, n: nat) returns (ls: seq<Option<ScalingList>>)
    requires c.Valid()
    modifies c
    ensures Did(c, old(c.error), ParseLists(c.Bits(), old(c.Pos()), 0, n), ls)
  {
    hide AllBits, ParseListOpt;
    ghost var s, start, erred := c.Bits(), c.Pos(), c.error;
    ls := [];
    BeforeNothing(ls, ParseLists(s, start, 0, n));
    for i := 0 to n
      invariant c.Valid() && c.Bits() == s && (erred ==> c.error)
      invariant !erred && c.error ==> ParseLists(s, start, 0, n) == Fail
      invariant !erred && !c.error ==> ParseLists(s, start, 0, n) == Before(ls, ParseLists(s, c.Pos(), i, n))
    {
      var l := ReadListOpt(c, i);
      BeforeStep(ls, l, ParseLists(s, c.Pos(), i + 1, n));
      ls := ls + [l];
    }
    BeforeNothing(ls, ParseLists(s, c.Pos(), n, n));
  }

  // ---- read_seq_parameter_set_rbsp ----

  method ReadHigh(c: Cursor) returns (h: High)
    requires c.Valid()
    modifies c
    ensures Did(c, old(c.error), ParseHigh(c.Bits(), old(c.Pos())), h)
  {
    hide AllBits, ReadUe, ReadFlag, ParseLists;
    h := High(1, false, 0, 0, false, None);
    var chroma := c.ReadUnsigned();
    if c.error || chroma > 3 {
      c.error := true;
      return;
    }
    var residual := false;
    if chroma == 3 {
      residual := ReadOne(c);
    }
    var luma := c.ReadUnsigned();
    var depth := c.ReadUnsigned();
    if c.error || luma > 6 || depth > 6 {
      c.error := true;
      return;
    }
    var bypass := ReadOne(c);
    var present := ReadOne(c);
    var matrix: Option<seq<Option<ScalingList>>> := None;
    if present {
      var ls := ReadLists(c, if chroma != 3 then 8 else 12);
      matrix := Some(ls);
    }
    h := High(chroma, residual, luma, depth, bypass, matrix);
  }

  method ReadPicOrder(c: Cursor, kind: nat) returns (o: PicOrder)
    requires c.Valid() && kind <= 2
    modifies c
    ensures Did(c, old(c.error), ParseOrder(c.Bits(), old(c.Pos()), kind), o)
  {
    hide AllBits, ReadUe, ReadFlag, ReadSe, ReadSes, SeFits;
    o := OutputOrder;
    if kind == 0 {
      var n := c.ReadUnsigned();
      if c.error || n > 12 {
        c.error := true;
        return;
      }
      o := Lsb(n);
    } else if kind == 1 {
      var zero := ReadOne(c);
      var a := c.ReadSigned();
      var b := c.ReadSigned();
      var n := c.ReadUnsigned();
      if c.error || n > 255 {
        c.error := true;
        return;
      }
      var offsets := ReadSigneds(c, n);
      o := Cycle(zero, a, b, offsets);
    }
  }

  /** The order once its kind is known. */
  function ParseOrder(s: seq<bool>, p: nat, kind: nat): Read<PicOrder> {
    if kind == 0 then
      var (n, p2) :- ReadUe(s, p);
      if n > 12 then Fail else Got(Lsb(n), p2)
    else if kind == 1 then ParseCycle(s, p)
    else Got(OutputOrder, p)
  }

  method ReadFrames(c: Cursor) returns (f: Frames)
    requires c.Valid()
    modifies c
    ensures Did(c, old(c.error), ParseFrames(c.Bits(), old(c.Pos())), f)
  {
    hide AllBits, ReadUe, ReadFlag;
    f := Frames(0, false, 0, 0, false, false, false);
    var refs := c.ReadUnsigned();
    if c.error || refs > 16 {
      c.error := true;
      return;
    }
    var gaps := ReadOne(c);
    var width := c.ReadUnsigned();
    var height := c.ReadUnsigned();
    var only := ReadOne(c);
    var adaptive := false;
    if !only {
      adaptive := ReadOne(c);
    }
    var direct := ReadOne(c);
    f := Frames(refs, gaps, width, height, only, adaptive, direct);
  }

  method ReadVuiOpt(c: Cursor) returns (o: Option<Vui>)
    requires c.Valid()
    modifies c
    ensures Did(c, old(c.error), ParseVuiOpt(c.Bits(), old(c.Pos())), o)
  {
    hide AllBits, ReadFlag, ParseVui;
    o := None;
    var present := ReadOne(c);
    if present {
      var v := ReadVui(c);
      o := Some(v);
    }
  }

  method ReadHead(c: Cursor) returns (h: Head)
    requires c.Valid()
    modifies c
    ensures Did(c, old(c.error), ParseHead(c.Bits(), old(c.Pos())), h)
  {
    hide AllBits, ReadUe, ReadU, ReadUs;
    var profile := c.ReadU8();
    var constraints := ReadOnes(c, 6);
    c.SkipU(2);
    var level := c.ReadU8();
    var id := c.ReadUnsigned();
    if c.error || id > 31 {
      c.error := true;
    }
    h := Head(profile, constraints, level, id);
  }

  /**
   * The kind of picture order is read before the length of frame numbers is checked, which only matters for the order
   * of the refusals.
   */
  method ReadTail(c: Cursor) returns (t: Tail)
    requires c.Valid()
    modifies c
    ensures Did(c, old(c.error), ParseTail(c.Bits(), old(c.Pos())), t)
  {
    hide AllBits, ReadUe, ParseOrder, ParseCycle, ParseFrames, ParseGroup, ParseVuiOpt;
    t := Tail(0, OutputOrder, Frames(0, false, 0, 0, false, false, false), None, None);
    ghost var s, start := c.Bits(), c.Pos();
    var log2 := c.ReadUnsigned();
    var kind := c.ReadUnsigned();
    if c.error || log2 > 12 || kind > 2 {
      c.error := true;
      return;
    }
    OrderSplit(s, ReadUe(s, start).pos);
    var order := ReadPicOrder(c, kind);
    if c.error {
      return;
    }
    var frames := ReadFrames(c);
    var crop := ReadGroup(c, 4);
    var vui := ReadVuiOpt(c);
    t := Tail(log2, order, frames, crop, vui);
  }

  lemma OrderSplit(s: seq<bool>, p: nat)
    ensures var k := ReadUe(s, p); k.Got? && k.value <= 2 ==> ParsePicOrder(s, p) == ParseOrder(s, k.pos, k.value)
  {
    hide ReadUe, ParseCycle;
  }

  /** read_seq_parameter_set_rbsp */
  method ReadSps(c: Cursor) returns (v: Sps)
    requires c.Valid()
    modifies c
    ensures Did(c, old(c.error), ParseSps(c.Bits(), old(c.Pos())), v)
  {
    hide AllBits, ParseHead, ParseHigh, ParseTail, IsHigh;
    var head := ReadHead(c);
    var high: Option<High> := None;
    v := Assembled(head, high, Tail(0, OutputOrder, Frames(0, false, 0, 0, false, false, false), None, None));
    if c.error {
      return;
    }
    if IsHigh(head.profile) {
      var h := ReadHigh(c);
      if c.error {
        return;
      }
      high := Some(h);
    }
    var tail := ReadTail(c);
    v := Assembled(head, high, tail);
  }
}
