/** The adaptive model on values: contexts are named by the bytes that lead to them. */
module Ppm {
  import opened Numbers
  import opened RangeCoder

  const SYMBOL_DELTA := 3
  const SUBSYMBOL_DELTA := 2
  const SUBESCAPE_DELTA := 5
  const ORDER := 2
  const CAPACITY := 4096
  const TOTAL_LIMIT := BOTTOM - 0x100

  /** The bytes before a context, oldest first; the root is the empty history. */
  type History = seq<Byte>

  datatype Context = Context(counts: map<Byte, nat>, escapes: nat, total: nat)

  type Model = map<History, Context>

  const FRESH := Context(map[], 0, 0)
  const ROOT := Context(map[], 1, 257)

  function CountOf(counts: map<Byte, nat>, v: nat): nat { if v in counts then counts[v] else 0 }

  /** The total count of the values below `v`. */
  function SumBelow(counts: map<Byte, nat>, v: nat): nat
    requires v <= 256
  {
    if v == 0 then 0 else SumBelow(counts, v - 1) + CountOf(counts, v - 1)
  }

  /** In the root every value also has one slot of its own. */
  function Floor(root: bool, v: nat): nat { if root then v else 0 }

  function Halve(n: nat): nat { n - n / 2 }

  function Halved(counts: map<Byte, nat>): (h: map<Byte, nat>)
    ensures h.Keys == counts.Keys
    ensures forall v: Byte :: CountOf(h, v) == Halve(CountOf(counts, v))
  {
    map v | v in counts :: Halve(counts[v])
  }

  function Rescaled(c: Context, root: bool): Context {
    var counts, escapes := Halved(c.counts), Halve(c.escapes);
    Context(counts, escapes, SumBelow(counts, 256) + escapes + Floor(root, 256))
  }

  function Delta(root: bool): nat { if root then SYMBOL_DELTA else SUBSYMBOL_DELTA }

  /** The count as it is coded. */
  function Coded(c: Context, root: bool, v: Byte): nat { CountOf(c.counts, v) + Floor(root, 1) }

  /** A context after coding `v`, before any rescaling. */
  function Bumped(c: Context, root: bool, v: Byte): Context {
    var extra := if Coded(c, root, v) == 0 then SUBESCAPE_DELTA else 0;
    Context(c.counts[v := CountOf(c.counts, v) + Delta(root)], c.escapes + extra, c.total + extra + Delta(root))
  }

  predicate NeedsRescale(coded: nat, total: nat, root: bool) {
    coded > 0xFF - 2 * Delta(root) + Floor(root, 1) || total > TOTAL_LIMIT
  }

  function Touched(c: Context, root: bool, v: Byte): Context {
    var b := Bumped(c, root, v);
    if NeedsRescale(Coded(c, root, v), b.total, root) then Rescaled(b, root) else b
  }

  // ---- Coding events ----

  function SymbolEvent(c: Context, root: bool, v: Byte): Event {
    Event(c.escapes + SumBelow(c.counts, v) + Floor(root, v), Coded(c, root, v), c.total)
  }

  function EscapeEvent(c: Context): Event { Event(0, c.escapes, c.total) }

  predicate HasEscapes(c: Context) { 0 < c.escapes < c.total }

  /** Counts fit a byte, totals add up and stay in range. */
  ghost predicate Consistent(c: Context, root: bool) {
    && (forall v :: v in c.counts ==> 0 < c.counts[v] <= 0xFF)
    && c.total == c.escapes + SumBelow(c.counts, 256) + Floor(root, 256)
    && c.total <= TOTAL_LIMIT
    && (c.escapes == 0 <==> !root && c.counts == map[])
  }

  lemma {:induction false} SumMonotone(counts: map<Byte, nat>, a: nat, b: nat)
    requires a <= b <= 256
    ensures SumBelow(counts, a) <= SumBelow(counts, b)
    ensures a < b ==> SumBelow(counts, a) + CountOf(counts, a) <= SumBelow(counts, b)
    decreases b - a
  {
    if a < b {
      SumMonotone(counts, a + 1, b);
    }
  }

  lemma {:induction false} SumSet(counts: map<Byte, nat>, v: Byte, n: nat, b: nat)
    requires b <= 256
    ensures SumBelow(counts[v := n], b) ==
      SumBelow(counts, b) - (if v < b then CountOf(counts, v) else 0) + (if v < b then n else 0)
    ensures v < b ==> SumBelow(counts, b) >= CountOf(counts, v)
  {
    if b > 0 {
      SumSet(counts, v, n, b - 1);
    }
  }

  lemma {:induction false} SumHalved(counts: map<Byte, nat>, b: nat)
    requires b <= 256
    ensures 2 * SumBelow(Halved(counts), b) <= SumBelow(counts, b) + b
  {
    if b > 0 {
      SumHalved(counts, b - 1);
    }
  }

  lemma {:induction false} SumEmpty(b: nat)
    requires b <= 256
    ensures SumBelow(map[], b) == 0
  {
    if b > 0 {
      SumEmpty(b - 1);
    }
  }

  lemma RootConsistent()
    ensures Consistent(ROOT, true) && Consistent(FRESH, false)
  {
    SumEmpty(256);
  }

  /** Before rescaling everything still fits the 8- and 16-bit fields. */
  lemma BumpedFits(c: Context, root: bool, v: Byte)
    requires Consistent(c, root) && CountOf(c.counts, v) <= 0xFF - Delta(root)
    ensures var b := Bumped(c, root, v);
      && b.total == b.escapes + SumBelow(b.counts, 256) + Floor(root, 256)
      && b.total < BOTTOM && 0 < b.escapes
      && (forall w :: w in b.counts ==> 0 < b.counts[w] <= 0xFF)
  {
    SumSet(c.counts, v, CountOf(c.counts, v) + Delta(root), 256);
  }

  /** Counts are rescaled in time: there is always room for one more step. */
  ghost predicate Roomy(c: Context, root: bool) {
    forall v :: v in c.counts ==> c.counts[v] <= 0xFF - Delta(root)
  }

  lemma TouchedConsistent(c: Context, root: bool, v: Byte)
    requires Consistent(c, root) && Roomy(c, root)
    ensures Consistent(Touched(c, root, v), root) && Roomy(Touched(c, root, v), root)
  {
    hide SumBelow;
    BumpedFits(c, root, v);
    var b := Bumped(c, root, v);
    if NeedsRescale(Coded(c, root, v), b.total, root) {
      SumHalved(b.counts, 256);
      assert v in Halved(b.counts);
      forall w | w in b.counts
        ensures 0 < Halve(b.counts[w]) <= 0xFF - Delta(root)
      {
      }
      forall w | w in Halved(b.counts)
        ensures 0 < Halved(b.counts)[w] <= 0xFF - Delta(root)
      {
        assert CountOf(Halved(b.counts), w) == Halve(b.counts[w]);
      }
    } else {
      assert v in b.counts;
    }
  }

  /** Every event handed to the coder is proper. */
  lemma EventsProper(c: Context, root: bool, v: Byte)
    requires Consistent(c, root)
    ensures Coded(c, root, v) > 0 ==> Proper(SymbolEvent(c, root, v))
    ensures HasEscapes(c) ==> Proper(EscapeEvent(c))
    ensures !root ==> (HasEscapes(c) <==> c.counts != map[])
  {
    SumMonotone(c.counts, v, 256);
    if c.counts == map[] {
      SumEmpty(256);
    } else if !root {
      var w :| w in c.counts;
      SumMonotone(c.counts, w, 256);
    }
  }

  /** The slots of two values do not meet. */
  lemma SlotsOrdered(c: Context, root: bool, v: Byte, w: Byte)
    requires v < w
    ensures SymbolEvent(c, root, v).under + SymbolEvent(c, root, v).count <= SymbolEvent(c, root, w).under
  {
    SumMonotone(c.counts, v, w);
  }

  // ---- The model over one byte ----

  /** A history and every shorter suffix of it are contexts. */
  ghost predicate Chain(m: Model, h: History) { h in m && (h == [] || Chain(m, h[1..])) }

  /** Code `v` in one context: its counts change, and `v` gets a context of its own. */
  function TouchAt(m: Model, h: History, v: Byte): (m': Model)
    requires h in m
    ensures m'.Keys == m.Keys + {h + [v]}
    ensures forall k :: k in m && k != h ==> m'[k] == m[k]
    ensures m'[h] == Touched(m[h], h == [], v)
    ensures h + [v] !in m ==> m'[h + [v]] == FRESH
  {
    var m1 := m[h := Touched(m[h], h == [], v)];
    if h + [v] in m then m1 else m1[h + [v] := FRESH]
  }

  predicate Hit(m: Model, h: History, v: Byte)
    requires h in m
  {
    h == [] || v in m[h].counts
  }

  /** The shortest-first account of what one byte teaches the model. */
  ghost function Learn(m: Model, h: History, v: Byte): (m': Model)
    requires Chain(m, h)
    ensures m.Keys <= m'.Keys
    ensures forall k :: k in m' && k !in m ==> |k| <= |h| + 1
    ensures forall k :: k in m && |k| > |h| ==> m'[k] == m[k]
    ensures h + [v] in m'
  {
    if Hit(m, h, v) then TouchAt(m, h, v) else TouchAt(Learn(m, h[1..], v), h, v)
  }

  /** The events for one byte: escapes from the contexts that do not know it, then the byte. */
  ghost function Events(m: Model, h: History, v: Byte): seq<Event>
    requires Chain(m, h)
  {
    if Hit(m, h, v) then [SymbolEvent(m[h], h == [], v)]
    else (if HasEscapes(m[h]) then [EscapeEvent(m[h])] else []) + Events(m, h[1..], v)
  }

  /** Longer contexts do not matter to shorter ones. */
  lemma {:induction false} ChainTouch(m: Model, h: History, k: History, v: Byte)
    requires h in m && Chain(m, k)
    ensures Chain(TouchAt(m, h, v), k)
  {
    if k != [] {
      ChainTouch(m, h, k[1..], v);
    }
  }

  lemma {:induction false} LearnCommutes(m: Model, h: History, k: History, v: Byte)
    requires h in m && Chain(m, k) && |k| < |h|
    ensures Chain(TouchAt(m, h, v), k)
    ensures Learn(TouchAt(m, h, v), k, v) == TouchAt(Learn(m, k, v), h, v)
    ensures Events(TouchAt(m, h, v), k, v) == Events(m, k, v)
  {
    hide Touched, HasEscapes;
    ChainTouch(m, h, k, v);
    if Hit(m, k, v) {
      TouchesCommute(m, h, k, v);
    } else {
      LearnCommutes(m, h, k[1..], v);
      ChainTouch(m, h, k[1..], v);
      TouchesCommute(Learn(m, k[1..], v), h, k, v);
    }
  }

  lemma TouchesCommute(m: Model, h: History, k: History, v: Byte)
    requires h in m && k in m && |k| < |h|
    ensures TouchAt(TouchAt(m, h, v), k, v) == TouchAt(TouchAt(m, k, v), h, v)
  {
    hide Touched;
  }

  // ---- The model over a message ----

  datatype State = State(model: Model, predicted: History)

  const INITIAL := State(map[[] := ROOT], [])

  /** After a byte: the next context has at most two bytes, and a full model starts over. */
  ghost function Advance(s: State, v: Byte): State
    requires Chain(s.model, s.predicted)
  {
    var m := Learn(s.model, s.predicted, v);
    var h := s.predicted + [v];
    if |m| >= CAPACITY - ORDER then INITIAL
    else State(m, if |s.predicted| >= ORDER then h[1..] else h)
  }

  ghost predicate Sized(m: Model) { forall h :: h in m ==> Consistent(m[h], h == []) && Roomy(m[h], h == []) }

  /** Exactly the coded values have contexts of their own. */
  ghost predicate Indexed(m: Model) { forall h, v: Byte :: h in m ==> (h + [v] in m <==> v in m[h].counts) }

  ghost predicate PrefixClosed(m: Model) { forall h :: h in m && h != [] ==> h[..|h| - 1] in m }

  /** What holds of the model at every step. */
  ghost predicate Steady(m: Model) { [] in m && Sized(m) && Indexed(m) && PrefixClosed(m) }

  ghost predicate SuffixClosed(m: Model) { forall h :: h in m && h != [] ==> h[1..] in m }

  /** What holds of the model between bytes. */
  ghost predicate Coherent(m: Model) { Steady(m) && SuffixClosed(m) }

  lemma {:induction false} CoherentChain(m: Model, h: History)
    requires Coherent(m) && h in m
    ensures Chain(m, h)
  {
    hide Consistent, Roomy, Steady;
    if h != [] {
      CoherentChain(m, h[1..]);
    }
  }

  lemma InitialCoherent()
    ensures Coherent(INITIAL.model)
  {
    hide Consistent, Roomy;
    RootConsistent();
    RootRoomy();
  }

  lemma RootRoomy()
    ensures Roomy(ROOT, true) && Roomy(FRESH, false)
  {
  }

  lemma TouchSized(m: Model, h: History, v: Byte)
    requires Sized(m) && h in m
    ensures Sized(TouchAt(m, h, v))
  {
    hide Consistent, Roomy, Touched;
    RootConsistent();
    RootRoomy();
    TouchedConsistent(m[h], h == [], v);
  }

  lemma TouchIndexed(m: Model, h: History, v: Byte)
    requires Indexed(m) && PrefixClosed(m) && h in m
    ensures Indexed(TouchAt(m, h, v))
  {
    hide Touched, PrefixClosed;
    TouchedKeys(m[h], h == [], v);
    var m' := TouchAt(m, h, v);
    forall k, w: Byte | k in m'
      ensures k + [w] in m' <==> w in m'[k].counts
    {
      SameLast(k, w, h, v);
      if k !in m && k + [w] in m {
        PrefixIn(m, k, w);
      }
    }
  }

  lemma PrefixIn(m: Model, k: History, w: Byte)
    requires PrefixClosed(m) && k + [w] in m
    ensures k in m
  {
    assert (k + [w])[..|k|] == k;
  }

  lemma TouchPrefixClosed(m: Model, h: History, v: Byte)
    requires PrefixClosed(m) && h in m
    ensures PrefixClosed(TouchAt(m, h, v))
  {
    hide Touched;
    assert (h + [v])[..|h|] == h;
  }

  /** Coding a byte in any one context keeps the model steady, whatever the order. */
  lemma TouchSteady(m: Model, h: History, v: Byte)
    requires Steady(m) && h in m
    ensures Steady(TouchAt(m, h, v))
  {
    hide Sized, Indexed, PrefixClosed;
    TouchSized(m, h, v);
    TouchIndexed(m, h, v);
    TouchPrefixClosed(m, h, v);
  }

  lemma TouchSuffixClosed(m: Model, h: History, v: Byte)
    requires SuffixClosed(m) && [] in m && h in m && (h != [] ==> h[1..] + [v] in m)
    ensures SuffixClosed(TouchAt(m, h, v))
  {
    var m' := TouchAt(m, h, v);
    hide TouchAt;
    forall k | k in m' && k != []
      ensures k[1..] in m'
    {
      if k == h + [v] {
        TailOfSnoc(h, v);
      }
    }
  }

  lemma TailOfSnoc(h: History, v: Byte)
    ensures (h + [v])[1..] == if h == [] then [] else h[1..] + [v]
  {
  }

  lemma TouchCoherent(m: Model, h: History, v: Byte)
    requires Coherent(m) && h in m && (h != [] ==> h[1..] + [v] in m)
    ensures Coherent(TouchAt(m, h, v))
  {
    hide SuffixClosed, Sized, Indexed, PrefixClosed, TouchAt;
    TouchSteady(m, h, v);
    TouchSuffixClosed(m, h, v);
  }

  lemma SameLast(k: History, w: Byte, h: History, v: Byte)
    ensures k + [w] == h + [v] <==> k == h && w == v
  {
    if k + [w] == h + [v] {
      assert k == (k + [w])[..|k|] && h == (h + [v])[..|h|];
      assert (k + [w])[|k|] == w && (h + [v])[|h|] == v;
    }
  }

  lemma TouchedKeys(c: Context, root: bool, v: Byte)
    ensures Touched(c, root, v).counts.Keys == c.counts.Keys + {v}
  {
  }

  lemma {:induction false} LearnCoherent(m: Model, h: History, v: Byte)
    requires Coherent(m) && h in m
    ensures Chain(m, h) && Coherent(Learn(m, h, v))
  {
    hide Coherent, Touched;
    CoherentChain(m, h);
    if Hit(m, h, v) {
      if h != [] {
        HitSuffix(m, h, v);
      }
      TouchCoherent(m, h, v);
    } else {
      TailIn(m, h);
      LearnCoherent(m, h[1..], v);
      TouchCoherent(Learn(m, h[1..], v), h, v);
    }
  }

  lemma TailIn(m: Model, h: History)
    requires Coherent(m) && h in m && h != []
    ensures h[1..] in m
  {
  }

  lemma HitSuffix(m: Model, h: History, v: Byte)
    requires Coherent(m) && h in m && h != [] && v in m[h].counts
    ensures h[1..] + [v] in m
  {
    assert (h + [v])[1..] == h[1..] + [v];
  }

  /** A state between bytes. */
  ghost predicate Good(s: State) {
    Coherent(s.model) && s.predicted in s.model && |s.predicted| <= ORDER
  }

  lemma GoodInitial()
    ensures Good(INITIAL)
  {
    InitialCoherent();
  }

  lemma AdvanceGood(s: State, v: Byte)
    requires Good(s)
    ensures Chain(s.model, s.predicted) && Good(Advance(s, v))
  {
    hide Coherent;
    CoherentChain(s.model, s.predicted);
    LearnCoherent(s.model, s.predicted, v);
    InitialCoherent();
    TailIn(Learn(s.model, s.predicted, v), s.predicted + [v]);
  }

  ghost function AllEvents(s: State, input: seq<Byte>): seq<Event>
    requires Good(s)
    decreases |input|
  {
    if input == [] then []
    else
      AdvanceGood(s, input[0]);
      Events(s.model, s.predicted, input[0]) + AllEvents(Advance(s, input[0]), input[1..])
  }

  lemma {:induction false} EventsAllProper(m: Model, h: History, v: Byte)
    requires Coherent(m) && h in m
    ensures Chain(m, h) && AllProper(Events(m, h, v))
  {
    hide Proper, Consistent, Roomy, SymbolEvent, EscapeEvent, HasEscapes;
    CoherentChain(m, h);
    EventsProper(m[h], h == [], v);
    if Hit(m, h, v) {
      HitCoded(m, h, v);
    } else {
      EventsAllProper(m, h[1..], v);
    }
  }

  lemma HitCoded(m: Model, h: History, v: Byte)
    requires Coherent(m) && h in m && Hit(m, h, v)
    ensures Coded(m[h], h == [], v) > 0
  {
  }

  lemma {:induction false} AllEventsProper(s: State, input: seq<Byte>)
    requires Good(s)
    ensures AllProper(AllEvents(s, input))
    decreases |input|
  {
    hide Proper, Events, Advance, Coherent;
    if input != [] {
      AdvanceGood(s, input[0]);
      EventsAllProper(s.model, s.predicted, input[0]);
      AllEventsProper(Advance(s, input[0]), input[1..]);
    }
  }

  lemma AllEventsFirst(s: State, v: Byte, rest: seq<Byte>)
    requires Good(s)
    ensures Chain(s.model, s.predicted) && Good(Advance(s, v))
    ensures AllEvents(s, [v] + rest) == Events(s.model, s.predicted, v) + AllEvents(Advance(s, v), rest)
  {
    hide Good, Advance, Events;
    AdvanceGood(s, v);
    assert ([v] + rest)[0] == v && ([v] + rest)[1..] == rest;
  }

  /** The compressed form of a message. */
  ghost function Compressed(input: seq<Byte>): seq<Byte> {
    GoodInitial();
    AllEventsProper(INITIAL, input);
    Emit(START, AllEvents(INITIAL, input))
  }
}
