/**
 * Decompressing: the contexts are searched for the byte first, longest to shortest, and the ones that
 * did not know it are taught afterwards. The model ends up the same as the compressor's.
 */
module Decompress {
  import opened Numbers
  import opened RangeCoder
  import opened Ppm
  import opened SymbolTree
  import opened SymbolTable
  import opened Walk
  import opened CodeStream
  import opened Compress

  // ---- Teaching in a different order ----

  predicate Suffix(k: History, h: History) { |k| <= |h| && h[|h| - |k|..] == k }

  /** What teaching `v` to the contexts from `h` down to, but not including, `k` does. */
  ghost function Patched(m: Model, h: History, k: History, v: Byte): (m': Model)
    requires Chain(m, h) && Suffix(k, h)
    ensures m.Keys <= m'.Keys
    decreases |h|
  {
    if |h| == |k| then m else TouchAt(Patched(m, h[1..], k, v), h, v)
  }

  lemma SuffixTail(k: History, h: History)
    requires Suffix(k, h) && |k| < |h|
    ensures Suffix(k, h[1..]) && h != []
  {
  }

  /** The last context to be taught may as well be the first: the patch loop's step. */
  lemma {:induction false} PatchedFirst(m: Model, h: History, k: History, v: Byte, far: History)
    requires Chain(m, h) && Suffix(k, h) && far in m && |far| > |h|
    ensures Chain(TouchAt(m, far, v), h)
    ensures Patched(TouchAt(m, far, v), h, k, v) == TouchAt(Patched(m, h, k, v), far, v)
    decreases |h|
  {
    hide Touched, TouchAt;
    ChainTouch(m, far, h, v);
    if |h| > |k| {
      PatchedFirst(m, h[1..], k, v, far);
      TouchesCommute(Patched(m, h[1..], k, v), far, h, v);
    }
  }

  lemma PatchStep(m: Model, h: History, k: History, v: Byte)
    requires Chain(m, h) && Suffix(k, h) && |k| < |h|
    ensures Suffix(k, h[1..]) && Chain(m, h[1..]) && Chain(TouchAt(m, h, v), h[1..])
    ensures Patched(TouchAt(m, h, v), h[1..], k, v) == Patched(m, h, k, v)
  {
    hide Touched, TouchAt;
    SuffixTail(k, h);
    PatchedFirst(m, h[1..], k, v, h);
  }

  /** A context that does not know `v` moves from the learning to the patching. */
  lemma {:induction false} PatchedMiss(m: Model, h: History, k: History, v: Byte)
    requires Chain(m, h) && Suffix(k, h) && k != [] && Chain(m, k)
    ensures Suffix(k[1..], h) && Chain(TouchAt(m, k, v), h)
    ensures Patched(TouchAt(m, k, v), h, k, v) == Patched(m, h, k[1..], v)
    decreases |h|
  {
    hide Touched, TouchAt;
    ChainAfter(m, k, h, v);
    SuffixMore(k, h);
    if |h| > |k| {
      SuffixTail(k, h);
      PatchedMiss(m, h[1..], k, v);
    } else {
      assert h == k;
      SuffixSelf(h);
      assert Patched(m, h, h[1..], v) == TouchAt(Patched(m, h[1..], h[1..], v), h, v);
    }
  }

  lemma SuffixSelf(h: History)
    requires h != []
    ensures Suffix(h[1..], h) && Suffix(h[1..], h[1..])
  {
  }

  lemma SuffixMore(k: History, h: History)
    requires Suffix(k, h) && k != []
    ensures Suffix(k[1..], h)
  {
    assert k[1..] == h[|h| - |k| + 1..];
  }

  lemma {:induction false} ChainAfter(m: Model, k: History, h: History, v: Byte)
    requires k in m && Chain(m, h)
    ensures Chain(TouchAt(m, k, v), h)
  {
    hide TouchAt;
    if h != [] {
      ChainAfter(m, k, h[1..], v);
    }
  }

  lemma {:induction false} ChainLearn(m: Model, k: History, h: History, v: Byte)
    requires Chain(m, k) && Chain(m, h)
    ensures Chain(Learn(m, k, v), h)
    decreases |h|
  {
    hide Learn;
    if h != [] {
      ChainLearn(m, k, h[1..], v);
    }
  }

  /** Learning is learning in the context found, then patching. */
  lemma LearnPatchedMiss(m: Model, h: History, k: History, v: Byte)
    requires Chain(m, h) && Suffix(k, h) && Chain(m, k) && !Hit(m, k, v)
    requires Chain(Learn(m, k, v), h) && Learn(m, h, v) == Patched(Learn(m, k, v), h, k, v)
    ensures k != [] && Chain(m, k[1..]) && Suffix(k[1..], h) && Chain(Learn(m, k[1..], v), h)
    ensures Learn(m, h, v) == Patched(Learn(m, k[1..], v), h, k[1..], v)
  {
    hide Patched, TouchAt;
    ChainLearn(m, k[1..], h, v);
    MissMeans(m, k, v);
    ChainLearn(m, k[1..], k, v);
    PatchedMiss(Learn(m, k[1..], v), h, k, v);
  }

  // ---- Reading events ----

  /** The reader's registers match the writer's, and its stream is what the writer still has to emit. */
  ghost predicate ReadsOn(data: seq<Byte>, p: nat, next: nat, code: nat, c: Coder, rest: seq<Event>) {
    Ready(c) && AllProper(rest) && Reads(data, p, next, code) && Drop(data, p) == Emit(c, rest)
  }

  lemma DropMore(data: seq<Byte>, p: nat, n: nat)
    ensures Drop(Drop(data, p), n) == Drop(data, p + n)
  {
  }

  /** The slot number read names the next event. */
  lemma ReadsSlot(data: seq<Byte>, p: nat, next: nat, code: nat, c: Coder, e: Event, later: seq<Event>)
    requires ReadsOn(data, p, next, code, c, [e] + later)
    ensures Ready(c) && Proper(e) && e.total <= c.range
    ensures e.under <= Slot(c, code, e.total) < e.under + e.count
  {
    hide Window, Emit, Slot;
    assert ([e] + later)[0] == e;
    ReadSlot(c, [e] + later);
  }

  /** Past the event, reader and writer agree again. */
  lemma ReadsPast(data: seq<Byte>, p: nat, next: nat, code: nat, c: Coder, e: Event, later: seq<Event>, next': nat,
        code': nat)
    requires ReadsOn(data, p, next, code, c, [e] + later) && Ready(c) && Proper(e)
    requires Reads(data, p + |Encode(c, e).1|, next', code')
    ensures ReadsOn(data, p + |Encode(c, e).1|, next', code', Encode(c, e).0, later)
  {
    hide Window, Encode, Reads, Ready, Proper;
    assert ([e] + later)[0] == e && ([e] + later)[1..] == later;
    forall i | 0 <= i < |later|
      ensures Proper(later[i])
    {
      assert Proper(([e] + later)[i + 1]);
    }
    DropMore(data, p, |Encode(c, e).1|);
    assert (Encode(c, e).1 + Emit(Encode(c, e).0, later))[|Encode(c, e).1|..] == Emit(Encode(c, e).0, later);
  }

  /** After the last byte every context's escape is read from the zero padding. */
  lemma ReadsEscape(data: seq<Byte>, p: nat, next: nat, code: nat, c: Coder, e: Event, next': nat, code': nat)
    requires ReadsOn(data, p, next, code, c, []) && Proper(e) && e.under == 0
    ensures Ready(c) && e.total <= c.range && Slot(c, code, e.total) == 0
    ensures Reads(data, p + |Encode(c, e).1|, next', code') ==>
      ReadsOn(data, p + |Encode(c, e).1|, next', code', Encode(c, e).0, [])
  {
    hide Window, Slot, Renormalize, Flush, Straddles;
    ReadEnd(c, e.total);
    NarrowInside(c, e);
    RenormalizeFlush(Narrow(c, e));
    DropMore(data, p, |Encode(c, e).1|);
  }

  /** The next slot number of a context with this total. */
  method ReadRange(c: Coder, code: nat, total: nat) returns (slot: int)
    requires 0 < total <= c.range
    ensures slot == Slot(c, code, total)
  {
    slot := (code - c.low) / (c.range / total);
  }

  // ---- One context ----

  /** What is still to be read at context `h`: the next byte's events from there, or nothing. */
  ghost function Next(m: Model, h: History, input: seq<Byte>, later: seq<Event>): seq<Event>
    requires Chain(m, h)
  {
    if input == [] then [] else Events(m, h, input[0]) + later
  }

  /** The byte to come is known in this context. */
  predicate Known(m: Model, h: History, input: seq<Byte>)
    requires h in m
  {
    input != [] && Hit(m, h, input[0])
  }

  lemma EscapesMean(m: Model, h: History)
    requires Sized(m) && h in m
    ensures h == [] ==> HasEscapes(m[h])
    ensures HasEscapes(m[h]) ==> Proper(EscapeEvent(m[h]))
    ensures !HasEscapes(m[h]) ==> m[h].counts == map[]
  {
    assert Consistent(m[h], h == []);
    hide SumBelow;
    EventsProper(m[h], h == [], 0);
  }

  /** A context without escapes knows nothing and is passed over. */
  lemma SkipEmpty(m: Model, h: History, input: seq<Byte>, later: seq<Event>)
    requires Chain(m, h) && Sized(m) && !HasEscapes(m[h])
    ensures h != [] && !Known(m, h, input) && Next(m, h, input, later) == Next(m, h[1..], input, later)
  {
    hide SumBelow, Sized, HasEscapes;
    EscapesMean(m, h);
    if input != [] {
      OwnFirst(m, h, input[0]);
      assert [] + Events(m, h[1..], input[0]) == Events(m, h[1..], input[0]);
    }
  }

  lemma ChainHead(m: Model, h: History)
    requires Chain(m, h)
    ensures h in m
  {
  }

  lemma ChainTail(m: Model, h: History)
    requires Chain(m, h)
    ensures h != [] ==> Chain(m, h[1..])
  {
  }

  lemma NextHit(m: Model, h: History, input: seq<Byte>, later: seq<Event>)
    requires Chain(m, h) && Known(m, h, input)
    ensures Next(m, h, input, later) == [SymbolEvent(m[h], h == [], input[0])] + later
  {
    OwnFirst(m, h, input[0]);
  }

  lemma NextMiss(m: Model, h: History, input: seq<Byte>, later: seq<Event>)
    requires Chain(m, h) && !Known(m, h, input) && HasEscapes(m[h]) && input != []
    ensures h != [] && Next(m, h, input, later) == [EscapeEvent(m[h])] + Next(m, h[1..], input, later)
  {
    hide HasEscapes, Events;
    ChainTail(m, h);
    ChainHead(m, h);
    OwnFirst(m, h, input[0]);
    assert ([EscapeEvent(m[h])] + Events(m, h[1..], input[0])) + later ==
      [EscapeEvent(m[h])] + (Events(m, h[1..], input[0]) + later);
  }

  /** The slot number decides: below the escapes the byte is not known here, above them it lies in the byte's slots. */
  lemma SlotMeans(data: seq<Byte>, p: nat, next: nat, code: nat, c: Coder, m: Model, h: History, input: seq<Byte>,
        later: seq<Event>)
    requires Chain(m, h) && Sized(m) && HasEscapes(m[h]) && ReadsOn(data, p, next, code, c, Next(m, h, input, later))
    ensures Ready(c) && 0 < m[h].total <= c.range && Proper(EscapeEvent(m[h])) && Reads(data, p, next, code)
    ensures Known(m, h, input) ==> input != [] && Hit(m, h, input[0])
    ensures var slot := Slot(c, code, m[h].total);
      && (slot < m[h].escapes <==> !Known(m, h, input))
      && (Known(m, h, input) ==>
        InSlot(m, h, input[0], slot - m[h].escapes) && Proper(SymbolEvent(m[h], h == [], input[0])))
  {
    assert Reads(data, p, next, code);
    hide SumBelow, Sized, HasEscapes, ReadsOn, Slot, Ready;
    EscapesMean(m, h);
    EscapesPositive(m[h]);
    if Known(m, h, input) {
      NextHit(m, h, input, later);
      CountMeans(m, h, input[0]);
      ReadsSlot(data, p, next, code, c, SymbolEvent(m[h], h == [], input[0]), later);
    } else if input == [] {
      ReadsEscape(data, p, next, code, c, EscapeEvent(m[h]), next, code);
    } else {
      NextMiss(m, h, input, later);
      ReadsSlot(data, p, next, code, c, EscapeEvent(m[h]), Next(m, h[1..], input, later));
    }
  }

  lemma EscapesPositive(c: Context)
    requires HasEscapes(c)
    ensures 0 < c.escapes < c.total
  {
  }

  lemma EscapePast(data: seq<Byte>, p: nat, next: nat, code: nat, c: Coder, m: Model, h: History, input: seq<Byte>,
        later: seq<Event>, next': nat, code': nat)
    requires Chain(m, h) && !Known(m, h, input) && HasEscapes(m[h])
      && ReadsOn(data, p, next, code, c, Next(m, h, input, later))
    requires Ready(c) && Proper(EscapeEvent(m[h])) && Reads(data, p + |Encode(c, EscapeEvent(m[h])).1|, next', code')
    ensures h == [] ==> input == []
    ensures h != [] ==>
      ReadsOn(data, p + |Encode(c, EscapeEvent(m[h])).1|, next', code', Encode(c, EscapeEvent(m[h])).0,
      Next(m, h[1..], input, later))
  {
    hide HasEscapes, ReadsOn, Ready, Proper, Reads, Encode;
    if input == [] {
      ReadsEscape(data, p, next, code, c, EscapeEvent(m[h]), next', code');
    } else {
      NextMiss(m, h, input, later);
      ReadsPast(data, p, next, code, c, EscapeEvent(m[h]), Next(m, h[1..], input, later), next', code');
    }
  }

  lemma SymbolPast(data: seq<Byte>, p: nat, next: nat, code: nat, c: Coder, m: Model, h: History, input: seq<Byte>,
        later: seq<Event>, next': nat, code': nat)
    requires Chain(m, h) && Known(m, h, input) && ReadsOn(data, p, next, code, c, Next(m, h, input, later))
    requires Ready(c) && Proper(SymbolEvent(m[h], h == [], input[0]))
    requires Reads(data, p + |Encode(c, SymbolEvent(m[h], h == [], input[0])).1|, next', code')
    ensures var e := SymbolEvent(m[h], h == [], input[0]);
      ReadsOn(data, p + |Encode(c, e).1|, next', code', Encode(c, e).0, later)
  {
    hide ReadsOn, Ready, Proper, Reads, Encode, SymbolEvent;
    NextHit(m, h, input, later);
    ReadsPast(data, p, next, code, c, SymbolEvent(m[h], h == [], input[0]), later, next', code');
  }

  lemma HeadAt(a: seq<Symbol>, places: seq<Place>, m: Model, i: nat)
    requires Stands(a, places, m) && i < |places|
    ensures |places| <= |a| && Key(places[i]) in m && a[i].escapes == m[Key(places[i])].escapes
      && a[i].total == m[Key(places[i])].total
  {
    hide Stands, Key;
    Located(a, places, m, i);
  }

  lemma HasEscapesIs(c: Context)
    ensures HasEscapes(c) <==> 0 < c.escapes < c.total
    ensures EscapeEvent(c) == Event(0, c.escapes, c.total)
  {
  }

  lemma SymbolEventIs(c: Context, root: bool, v: Byte, under: nat, count: nat)
    requires under == SumBelow(c.counts, v) + Floor(root, v) && count == Coded(c, root, v)
    ensures SymbolEvent(c, root, v) == Event(c.escapes + under, count, c.total)
  {
    hide SumBelow, Coded, Floor;
  }

  /** Placing the decoded byte leaves nothing waiting in a context that knew it. */
  lemma DecodedParents(a: seq<Symbol>, b: seq<Symbol>, places: seq<Place>, places': seq<Place>, m: Model, h: History,
        v: Byte, symbol: nat)
    requires PlacedIn(a, b, places, places', m, h, v, symbol) && Parents(a, places, {}) && h in m && Hit(m, h, v)
    ensures Stands(b, places', Placed(m, h, v)) && Parents(b, places', {})
    ensures symbol < |places'| && Key(places'[symbol]) == h + [v] && |places| <= |places'| <= |places| + 1
      && places'[..|places|] == places
  {
    hide PlacedIn, Parents, Stands, Hit;
    PlacedParents(a, b, places, places', m, h, v, symbol, {});
  }

  /**
   * Read one event in context `i`: an escape leaves everything as it was, the byte itself is placed and accounted
   * for.
   */
  method DecodeContext(t: Table, data: seq<Byte>, next: nat, code: nat, c: Coder, i: nat, ghost p: nat,
                       ghost m: Model, ghost h: History, ghost input: seq<Byte>, ghost later: seq<Event>)
    returns (found: bool, value: Byte, symbol: nat, next': nat, code': nat, c': Coder, ghost p': nat)
    requires Open(t, m) && i < |t.places| < CAPACITY && Key(t.places[i]) == h && (i == 0 <==> h == []) && Chain(m, h)
      && h in m
    requires Parents(t.symbols[..], t.places, {}) && ReadsOn(data, p, next, code, c, Next(m, h, input, later))
    modifies t, t.symbols
    ensures found <==> Known(m, h, input)
    ensures !found ==> t.next == old(t.next) && t.places == old(t.places) && t.symbols[..] == old(t.symbols[..])
    ensures !found ==> Open(t, m) && Parents(t.symbols[..], t.places, {})
    ensures !found && h == [] ==> input == []
    ensures !found && h != [] ==> Chain(m, h[1..]) && ReadsOn(data, p', next', code', c', Next(m, h[1..], input, later))
    ensures found ==>
      value == input[0] && ReadsOn(data, p', next', code', c', later)
      && Passed(t, m, h, value, old(t.places), symbol, {})
  {
    hide *;
    OpenMeans(t, m);
    SteadyMeans(m);
    ghost var a, ps := t.symbols[..], t.places;
    HeadAt(a, ps, m, i);
    ChainTail(m, h);
    EscapesMean(m, h);
    found, value, symbol, next', code', c', p' := false, 0, 0, next, code, c, p;
    var escapes, total := t.symbols[i].escapes, t.symbols[i].total;
    HasEscapesIs(m[h]);
    if i != 0 && (escapes <= 0 || escapes >= total) {
      SkipEmpty(m, h, input, later);
      return;
    }
    SlotMeans(data, p, next, code, c, m, h, input, later);
    var slot := ReadRange(c, code, total);
    if slot < escapes {
      next', code', c' := DecodeRange(data, next, code, c, Event(0, escapes, total), p);
      EscapePast(data, p, next, code, c, m, h, input, later, next', code');
      p' := p + |Encode(c, Event(0, escapes, total)).1|;
      return;
    }
    found := true;
    var under, count;
    value, symbol, under, count := DecodeIn(t, i, slot - escapes, i == 0, m, h, input[0]);
    SymbolEventIs(m[h], h == [], value, under, count);
    DecodedParents(a, t.symbols[..], ps, t.places, m, h, value, symbol);
    StoredWhen(t, Placed(m, h, value));
    PrefixAt(ps, t.places, i);
    next', code', c' := DecodeRange(data, next, code, c, Event(escapes + under, count, total), p);
    SymbolPast(data, p, next, code, c, m, h, input, later, next', code');
    p' := p + |Encode(c, Event(escapes + under, count, total)).1|;
    Settle(t, i, count, symbol, m, h, value, ps);
  }

  // ---- One byte ----

  /** Nothing between the longest context and `k` knows the byte to come. */
  ghost predicate Sought(m: Model, h: History, k: History, input: seq<Byte>)
    requires Chain(m, h)
  {
    && Chain(m, k) && Suffix(k, h)
    && (input != [] ==>
          && Chain(Learn(m, k, input[0]), h)
          && Learn(m, h, input[0]) == Patched(Learn(m, k, input[0]), h, k, input[0]))
  }

  lemma SoughtStart(m: Model, h: History, input: seq<Byte>)
    requires Chain(m, h)
    ensures Sought(m, h, h, input)
  {
    hide Learn;
    if input != [] {
      ChainLearn(m, h, h, input[0]);
    }
  }

  lemma SoughtOn(m: Model, h: History, k: History, input: seq<Byte>)
    requires Chain(m, h) && Sought(m, h, k, input) && !Known(m, k, input) && k != []
    ensures Sought(m, h, k[1..], input)
  {
    hide Learn, Patched, Suffix;
    SuffixMore(k, h);
    ChainTail(m, k);
    if input != [] {
      LearnPatchedMiss(m, h, k, input[0]);
    }
  }

  lemma SoughtKnown(m: Model, h: History, k: History, input: seq<Byte>)
    requires Chain(m, h) && Sought(m, h, k, input) && Known(m, k, input)
    ensures var v := input[0];
      Suffix(k, h) && Chain(TouchAt(m, k, v), h) && Patched(TouchAt(m, k, v), h, k, v) == Learn(m, h, v)
  {
    hide TouchAt, Patched, Suffix;
    HitMeans(m, k, input[0]);
  }

  /** The table while the contexts that missed the byte are being taught. */
  ghost predicate Patching(t: Table, m: Model, h: History, k: History, v: Byte, i: nat, found: nat, bottom: nat,
                           pending: nat, predicted: nat, s: State, goal: Model)
    reads t, t.symbols
  {
    && Open(t, m) && Chain(m, h) && Suffix(k, h) && Patched(m, h, k, v) == goal
    && Parents(t.symbols[..], t.places, {pending}) && Awaits(t.places, pending, h, v)
    && i < |t.places| && Key(t.places[i]) == h && |t.places| + |h| <= CAPACITY
    && found < |t.places| && Key(t.places[found]) == k && bottom < |t.places| && Key(t.places[bottom]) == k + [v]
    && predicted < |t.places|
    && (if pending == 0 then h == s.predicted && predicted == i else Key(t.places[predicted]) == s.predicted + [v])
  }

  lemma PatchMeans(t: Table, m: Model, h: History, k: History, v: Byte, i: nat, found: nat, bottom: nat,
                   pending: nat, predicted: nat, s: State, goal: Model)
    requires Patching(t, m, h, k, v, i, found, bottom, pending, predicted, s, goal)
    ensures Open(t, m) && h in m && Chain(m, h) && i < |t.places| <= t.symbols.Length && Key(t.places[i]) == h
      && (i == 0 <==> h == [])
    ensures Parents(t.symbols[..], t.places, {pending}) && Awaits(t.places, pending, h, v) && predicted < |t.places|
    ensures Suffix(k, h) && (i == found <==> h == k) && (i != found ==> |k| < |h| && |t.places| < CAPACITY)
  {
    hide Parents, Stands, Steady, Patched, Awaits, Key, Apart, Spanned;
    StoredMeans(t, m);
    RootPlace(t.symbols[..], t.places, m);
    Located(t.symbols[..], t.places, m, i);
    if i != found {
      LaidAt(t.places, i, found);
    }
  }

  lemma PatchGoal(t: Table, m: Model, h: History, k: History, v: Byte, i: nat, found: nat, bottom: nat,
                  pending: nat, predicted: nat, s: State, goal: Model)
    requires Patching(t, m, h, k, v, i, found, bottom, pending, predicted, s, goal)
    ensures Chain(m, h) && Suffix(k, h) && Patched(m, h, k, v) == goal && |t.places| + |h| <= CAPACITY && i < |t.places|
      && Key(t.places[i]) == h
    ensures found < |t.places| && Key(t.places[found]) == k && bottom < |t.places| && Key(t.places[bottom]) == k + [v]
    ensures predicted < |t.places|
      && (if pending == 0 then h == s.predicted && predicted == i else Key(t.places[predicted]) == s.predicted + [v])
  {
  }

  /** Teach context `i`. */
  method PatchContext(t: Table, i: nat, value: Byte, pending: nat, predicted: nat, ghost m: Model, ghost h: History)
    returns (symbol: nat, predicted': nat)
    requires Open(t, m) && i < |t.places| < CAPACITY && Key(t.places[i]) == h && (i == 0 <==> h == []) && h in m
    requires Parents(t.symbols[..], t.places, {pending}) && Awaits(t.places, pending, h, value)
    modifies t, t.symbols
    ensures Passed(t, m, h, value, old(t.places), symbol, {symbol})
      && predicted' == if pending == 0 then symbol else predicted
  {
    hide *;
    ghost var ps := t.places;
    OpenMeans(t, m);
    var under, count;
    symbol, under, count, predicted' := PlaceContext(t, i, value, pending, predicted, m, h);
    Settle(t, i, count, symbol, m, h, value, ps);
    PassedAny(t, m, h, value, ps, symbol);
  }

  lemma PassedAny(t: Table, m: Model, h: History, v: Byte, places: seq<Place>, symbol: nat)
    requires h in m && Passed(t, m, h, v, places, symbol, if Hit(m, h, v) then {} else {symbol})
    ensures Passed(t, m, h, v, places, symbol, {symbol})
  {
    hide Parents, Key, Stands, Steady, TouchAt;
    if Hit(m, h, v) {
      ParentsAny(t.symbols[..], t.places, symbol);
    }
  }

  lemma PatchOn(t: Table, m: Model, h: History, k: History, v: Byte, i: nat, found: nat, bottom: nat, pending: nat,
        predicted: nat, predicted': nat, s: State, goal: Model, places: seq<Place>, symbol: nat)
    requires h in m && Chain(m, h) && Suffix(k, h) && |k| < |h| && Patched(m, h, k, v) == goal
      && Passed(t, m, h, v, places, symbol, {symbol})
    requires i < |places| && Key(places[i]) == h && |places| + |h| <= CAPACITY && 0 < |t.places| <= t.symbols.Length
    requires found < |places| && Key(places[found]) == k && bottom < |places| && Key(places[bottom]) == k + [v]
    requires predicted < |places|
      && (if pending == 0 then h == s.predicted && predicted == i else Key(places[predicted]) == s.predicted + [v])
    requires predicted' == if pending == 0 then symbol else predicted
    ensures h != [] && i < |t.places|
    ensures Patching(t, TouchAt(m, h, v), h[1..], k, v, t.symbols[i].parent, found, bottom, symbol, predicted', s, goal)
  {
    hide *;
    PassedMeans(t, m, h, v, places, symbol, {symbol});
    PrefixAt(places, t.places, i);
    PrefixAt(places, t.places, predicted);
    PrefixAt(places, t.places, found);
    PrefixAt(places, t.places, bottom);
    OpenMeans(t, TouchAt(m, h, v));
    SuffixTail(k, h);
    PatchStep(m, h, k, v);
    ClimbParent(t.symbols[..], t.places, TouchAt(m, h, v), i, symbol, h, v);
    PatchWhen(t, TouchAt(m, h, v), h[1..], k, v, t.symbols[i].parent, found, bottom, symbol, predicted', s, goal);
  }

  lemma PatchWhen(t: Table, m: Model, h: History, k: History, v: Byte, i: nat, found: nat, bottom: nat,
                  pending: nat, predicted: nat, s: State, goal: Model)
    requires Open(t, m) && Chain(m, h) && Suffix(k, h) && Patched(m, h, k, v) == goal
    requires Parents(t.symbols[..], t.places, {pending}) && Awaits(t.places, pending, h, v)
    requires i < |t.places| && Key(t.places[i]) == h && |t.places| + |h| <= CAPACITY
    requires found < |t.places| && Key(t.places[found]) == k && bottom < |t.places| && Key(t.places[bottom]) == k + [v]
    requires predicted < |t.places|
      && (if pending == 0 then h == s.predicted && predicted == i else Key(t.places[predicted]) == s.predicted + [v])
    ensures Patching(t, m, h, k, v, i, found, bottom, pending, predicted, s, goal)
  {
  }

  /** The contexts are all taught: what is left is to tell the last one where the byte was found. */
  lemma PatchDone(t: Table, m: Model, h: History, v: Byte, i: nat, bottom: nat, pending: nat, predicted: nat, s: State,
        goal: Model)
    requires Patching(t, m, h, h, v, i, i, bottom, pending, predicted, s, goal)
    ensures t.Stored(m) && m == goal && bottom < |t.places| && Parents(t.symbols[..], t.places, {pending})
    ensures pending != 0 ==>
      pending < |t.places| && Key(t.places[pending]) != [] && Key(t.places[bottom]) == Key(t.places[pending])[1..]
    ensures var p := if pending == 0 then bottom else predicted;
      p < |t.places| && Key(t.places[p]) == s.predicted + [v]
  {
    hide Parents, Stands, Steady, Key;
  }

  /** What is to be read after the next byte. */
  ghost function Later(s: State, input: seq<Byte>): seq<Event>
    requires Good(s)
  {
    if input == [] then []
    else
      AdvanceGood(s, input[0]);
      AllEvents(Advance(s, input[0]), input[1..])
  }

  lemma LaterIs(s: State, input: seq<Byte>)
    requires Good(s)
    ensures Chain(s.model, s.predicted) && AllEvents(s, input) == Next(s.model, s.predicted, input, Later(s, input))
  {
    hide Good, Advance, Events;
    AdvanceGood(s, 0);
    if input != [] {
      AdvanceGood(s, input[0]);
    }
  }

  lemma TracksMean(t: Table, s: State, predicted: nat, order: nat)
    requires Tracks(t, s, predicted, order)
    ensures Good(s) && Chain(s.model, s.predicted) && Open(t, s.model) && Parents(t.symbols[..], t.places, {})
    ensures predicted < |t.places| && |t.places| + ORDER < CAPACITY && Key(t.places[predicted]) == s.predicted
      && |s.predicted| <= ORDER
    ensures forall i :: 0 <= i < |t.places| ==> (i == 0 <==> Key(t.places[i]) == [])
  {
    hide Parents, Key, Stands, Sized, Indexed, PrefixClosed, SuffixClosed;
    StoredMeans(t, s.model);
    RootPlace(t.symbols[..], t.places, s.model);
    CoherentChain(s.model, s.predicted);
  }

  /** The search goes on with the shorter context. */
  lemma SearchParent(t: Table, s: State, i: nat, h: History)
    requires Parents(t.symbols[..], t.places, {}) && i < |t.places| && Key(t.places[i]) == h && 0 < i
    ensures h != [] && i < t.symbols.Length && t.symbols[i].parent < |t.places|
      && Key(t.places[t.symbols[i].parent]) == h[1..]
  {
    hide Key;
    assert ParentAt(t.symbols[..][i], t.places, i);
  }

  lemma PatchStart(t: Table, s: State, k: History, input: seq<Byte>, i: nat, symbol: nat, predicted: nat,
        places: seq<Place>)
    requires Chain(s.model, s.predicted) && Sought(s.model, s.predicted, k, input) && k in s.model
      && Known(s.model, k, input)
    requires input != [] && Passed(t, s.model, k, input[0], places, symbol, {}) && i < |places| && Key(places[i]) == k
    requires predicted < |places| && Key(places[predicted]) == s.predicted && |places| + ORDER < CAPACITY
      && |s.predicted| <= ORDER
    ensures Patching(t, TouchAt(s.model, k, input[0]), s.predicted, k, input[0], predicted, i, symbol, 0, predicted, s,
                     Learn(s.model, s.predicted, input[0]))
  {
    hide *;
    PassedMeans(t, s.model, k, input[0], places, symbol, {});
    SoughtKnown(s.model, s.predicted, k, input);
    ParentsAny(t.symbols[..], t.places, 0);
    PrefixAt(places, t.places, i);
    PrefixAt(places, t.places, predicted);
    NoneAwaits(t.places, s.predicted, input[0]);
    PatchWhen(t, TouchAt(s.model, k, input[0]), s.predicted, k, input[0], predicted, i, symbol, 0, predicted, s,
              Learn(s.model, s.predicted, input[0]));
  }

  lemma NoneAwaits(places: seq<Place>, h: History, v: Byte)
    ensures Awaits(places, 0, h, v)
  {
  }

  lemma LearntIs(t: Table, s: State, v: Byte, predicted: nat)
    requires Chain(s.model, s.predicted) && t.Stored(Learn(s.model, s.predicted, v))
      && Parents(t.symbols[..], t.places, {})
    requires predicted < |t.places| && Key(t.places[predicted]) == s.predicted + [v]
    ensures Learnt(t, s, v, predicted)
  {
  }

  /** Teach the contexts from the predicted one down to where the byte was found. */
  method Patch(t: Table, predicted: nat, value: Byte, found: nat, bottom: nat, ghost m: Model, ghost k: History,
        ghost s: State)
    returns (predicted': nat)
    requires Chain(s.model, s.predicted)
    requires Patching(t, m, s.predicted, k, value, predicted, found, bottom, 0, predicted, s,
      Learn(s.model, s.predicted, value))
    modifies t, t.symbols
    ensures Learnt(t, s, value, predicted')
  {
    hide *;
    ghost var mc, h, goal := m, s.predicted, Learn(s.model, s.predicted, value);
    var patch, pending := predicted, 0;
    predicted' := predicted;
    PatchMeans(t, mc, h, k, value, patch, found, bottom, pending, predicted', s, goal);
    while patch != found
      invariant Patching(t, mc, h, k, value, patch, found, bottom, pending, predicted', s, goal)
        && (patch == found ==> h == k)
      decreases |h|
    {
      ghost var places, at, before, waited := t.places, patch, predicted', pending;
      PatchMeans(t, mc, h, k, value, patch, found, bottom, pending, predicted', s, goal);
      PatchGoal(t, mc, h, k, value, patch, found, bottom, pending, predicted', s, goal);
      pending, predicted' := PatchContext(t, patch, value, pending, predicted', mc, h);
      PassedMeans(t, mc, h, value, places, pending, {pending});
      PatchOn(t, mc, h, k, value, at, found, bottom, waited, before, predicted', s, goal, places, pending);
      patch := t.symbols[patch].parent;
      mc, h := TouchAt(mc, h, value), h[1..];
      PatchMeans(t, mc, h, k, value, patch, found, bottom, pending, predicted', s, goal);
    }
    PatchDone(t, mc, h, value, patch, bottom, pending, predicted', s, goal);
    predicted' := Link(t, pending, bottom, predicted', mc, {pending});
    assert {pending} - {pending} == {};
    LearntIs(t, s, value, predicted');
  }

  lemma KnownMeans(m: Model, h: History, input: seq<Byte>)
    requires h in m && Known(m, h, input)
    ensures input != []
  {
  }

  /** Search the contexts for the next byte, longest first. */
  method Search(t: Table, data: seq<Byte>, next: nat, code: nat, c: Coder, predicted: nat, ghost p: nat,
                ghost s: State, ghost order: nat, ghost input: seq<Byte>)
    returns (found: bool, subcontext: nat, value: Byte, symbol: nat, next': nat, code': nat, c': Coder, ghost p': nat,
      ghost k: History)
    requires Tracks(t, s, predicted, order) && Good(s) && ReadsOn(data, p, next, code, c, AllEvents(s, input))
    modifies t, t.symbols
    ensures found <==> input != []
    ensures found ==>
      Chain(s.model, s.predicted) && Sought(s.model, s.predicted, k, input) && k in s.model && Known(s.model, k, input)
    ensures found ==> value == input[0] && ReadsOn(data, p', next', code', c', Later(s, input))
    ensures found ==> subcontext < |old(t.places)| && Key(old(t.places)[subcontext]) == k
    ensures found ==> Passed(t, s.model, k, value, old(t.places), symbol, {})
  {
    hide *;
    LaterIs(s, input);
    TracksMean(t, s, predicted, order);
    SoughtStart(s.model, s.predicted, input);
    ghost var a, ps, count := t.symbols[..], t.places, t.next;
    subcontext, next', code', c', p', k := predicted, next, code, c, p, s.predicted;
    while subcontext != 0
      invariant subcontext < |ps| && Key(ps[subcontext]) == k && Chain(s.model, k)
        && Sought(s.model, s.predicted, k, input)
      invariant t.places == ps && t.next == count && t.symbols[..] == a && Open(t, s.model)
        && Parents(t.symbols[..], t.places, {})
      invariant ReadsOn(data, p', next', code', c', Next(s.model, k, input, Later(s, input)))
      decreases |k|
    {
      ChainHead(s.model, k);
      SearchParent(t, s, subcontext, k);
      found, value, symbol, next', code', c', p' :=
        DecodeContext(t, data, next', code', c', subcontext, p', s.model, k, input, Later(s, input));
      if found {
        KnownMeans(s.model, k, input);
        return;
      }
      SoughtOn(s.model, s.predicted, k, input);
      subcontext := t.symbols[subcontext].parent;
      k := k[1..];
    }
    ChainHead(s.model, k);
    found, value, symbol, next', code', c', p' :=
      DecodeContext(t, data, next', code', c', 0, p', s.model, k, input, Later(s, input));
    if found {
      KnownMeans(s.model, k, input);
    }
  }

  /** Decode one byte, or find the end of the message. */
  method DecodeByte(t: Table, data: seq<Byte>, next: nat, code: nat, c: Coder, predicted: nat, ghost p: nat,
                    ghost s: State, ghost order: nat, ghost input: seq<Byte>)
    returns (done: bool, value: Byte, next': nat, code': nat, c': Coder, predicted': nat, ghost p': nat)
    requires Tracks(t, s, predicted, order) && Good(s) && ReadsOn(data, p, next, code, c, AllEvents(s, input))
    modifies t, t.symbols
    ensures done <==> input == []
    ensures !done ==> value == input[0] && ReadsOn(data, p', next', code', c', Later(s, input))
    ensures !done ==> Chain(s.model, s.predicted) && Learnt(t, s, value, predicted')
  {
    hide *;
    TracksMean(t, s, predicted, order);
    ghost var ps, k := t.places, [];
    var found, subcontext, symbol;
    found, subcontext, value, symbol, next', code', c', p', k :=
      Search(t, data, next, code, c, predicted, p, s, order, input);
    done, predicted' := !found, predicted;
    if found {
      PatchStart(t, s, k, input, subcontext, symbol, predicted, ps);
      predicted' := Patch(t, predicted, value, subcontext, symbol, TouchAt(s.model, k, value), k, s);
    }
  }

  // ---- The whole message ----

  lemma ReadsStart(input: seq<Byte>, next: nat, code: nat)
    requires Reads(Compressed(input), 0, next, code)
    ensures Good(INITIAL) && ReadsOn(Compressed(input), 0, next, code, START, AllEvents(INITIAL, input))
  {
    hide AllEvents, Emit, Reads;
    GoodInitial();
    AllEventsProper(INITIAL, input);
    assert Drop(Compressed(input), 0) == Compressed(input)[0..];
  }

  lemma FirstEvent(input: seq<Byte>)
    requires input != []
    ensures Good(INITIAL) && AllEvents(INITIAL, input) == [SymbolEvent(ROOT, true, input[0])] + Later(INITIAL, input)
  {
    hide Learn, Good, SumBelow, AllEvents, Later, SymbolEvent;
    GoodInitial();
    LaterIs(INITIAL, input);
    NextHit(INITIAL.model, [], input, Later(INITIAL, input));
  }

  /** An interval that starts above zero cannot be named by no bytes at all. */
  lemma NotNothing(e: Event, later: seq<Event>)
    requires Ready(START) && AllProper([e] + later) && e.under > 0
    ensures Emit(START, [e] + later) != []
  {
    hide Emit, Window, Narrow;
    assert ([e] + later)[0] == e;
    EmitWithin(START, [e] + later);
    NarrowInside(START, e);
    MulAtLeast(START.range / e.total, e.under);
    EmptyWindow();
  }

  lemma EmptyWindow()
    ensures Window([]) == 0
  {
  }

  /** A message that is not empty leaves a trace. */
  lemma SomethingWritten(input: seq<Byte>)
    requires input != []
    ensures Compressed(input) != []
  {
    hide AllEvents, Emit, Good, SumBelow, Later, Ready, AllProper;
    WritesStart(input);
    FirstEvent(input);
    NotNothing(SymbolEvent(ROOT, true, input[0]), Later(INITIAL, input));
  }

  lemma AdvanceStep(s: State, input: seq<Byte>)
    requires Good(s) && input != [] && Chain(s.model, s.predicted) && Good(Advance(s, input[0]))
    ensures Later(s, input) == AllEvents(Advance(s, input[0]), input[1..])
  {
    hide Good, Advance, AllEvents;
  }

  /**
   * Decompress what was compressed from `input`. The result is the number of bytes produced, or 0 when
   * they do not fit.
   */
  method Decompress(t: Table, data: seq<Byte>, out: array<Byte>, ghost input: seq<Byte>) returns (n: nat)
    requires t.symbols.Length == CAPACITY && data == Compressed(input)
    modifies t, t.symbols, out
    ensures if |input| <= out.Length then n == |input| && out[..n] == input else n == 0
  {
    hide *;
    if input != [] {
      SomethingWritten(input);
    }
    if |data| <= 0 {
      assert out[..0] == [];
      return 0;
    }
    ghost var s, p, rest := INITIAL, 0, input;
    CreateRoot(t);
    var next, code := Seed(data);
    ReadsStart(input, next, code);
    var predicted, order, c := 0, 0, START;
    n := 0;
    while true
      invariant Tracks(t, s, predicted, order) && Good(s) && ReadsOn(data, p, next, code, c, AllEvents(s, rest))
      invariant n <= out.Length && n <= |input| && rest == input[n..] && out[..n] == input[..n]
      decreases |rest|
    {
      TracksGood(t, s, predicted, order);
      var done, value;
      done, value, next, code, c, predicted, p := DecodeByte(t, data, next, code, c, predicted, p, s, order, rest);
      if done {
        break;
      }
      AdvanceIs(s, value);
      AdvanceStep(s, rest);
      if n >= out.Length {
        return 0;
      }
      out[n] := value;
      n := n + 1;
      predicted, order := NextInput(t, predicted, order, s, value);
      s, rest := Advance(s, value), rest[1..];
    }
  }

  /** Compressing and decompressing again gives the message back. */
  method RoundTrip(t: Table, u: Table, buffers: seq<seq<Byte>>, packed: array<Byte>, out: array<Byte>)
        returns (n: nat, k: nat)
    requires t.symbols.Length == u.symbols.Length == CAPACITY && packed != out
    requires buffers != [] && forall i :: 0 < i < |buffers| ==> buffers[i] != []
    modifies t, t.symbols, u, u.symbols, packed, out
    ensures n > 0 && |Concat(buffers)| <= out.Length ==> k == |Concat(buffers)| && out[..k] == Concat(buffers)
  {
    hide *;
    n := Compress.Compress(t, buffers, 1, packed);
    k := 0;
    if n > 0 {
      k := Decompress(u, packed[..n], out, Concat(buffers));
    }
  }
}
