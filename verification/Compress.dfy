/** Compressing a message: the model walked and taught byte by byte, its events coded as they come. */
module Compress {
  import opened Numbers
  import opened RangeCoder
  import opened Ppm
  import opened SymbolTree
  import opened SymbolTable
  import opened Walk
  import opened CodeStream

  // ---- Parent links ----

  /** Every symbol but the root points to the context one byte shorter, except those in `waiting`. */
  ghost predicate Parents(a: seq<Symbol>, places: seq<Place>, waiting: set<nat>) {
    |places| <= |a| && forall k: nat :: 0 < k < |places| && k !in waiting ==> ParentAt(a[k], places, k)
  }

  predicate ParentAt(s: Symbol, places: seq<Place>, k: nat)
    requires k < |places|
  {
    s.parent < |places| && Key(places[k]) != [] && Key(places[s.parent]) == Key(places[k])[1..]
  }

  function WithParent(s: Symbol, parent: Half): Symbol { s.(parent := parent) }

  lemma ParentsMove(a: seq<Symbol>, b: seq<Symbol>, places: seq<Place>, waiting: set<nat>)
    requires Parents(a, places, waiting) && SameParents(a, b, |places|)
    ensures Parents(b, places, waiting)
  {
    hide Key;
    forall k: nat | 0 < k < |places| && k !in waiting
      ensures ParentAt(b[k], places, k)
    {
      assert ParentAt(a[k], places, k);
    }
  }

  /** A new symbol waits for its parent. */
  lemma ParentsGrow(a: seq<Symbol>, b: seq<Symbol>, places: seq<Place>, places': seq<Place>, waiting: set<nat>)
    requires Parents(a, places, waiting) && SameParents(a, b, |places|)
    requires |places'| == |places| + 1 <= |b| && places'[..|places|] == places
    ensures Parents(b, places', waiting + {|places|})
  {
    hide Key;
    forall k: nat | 0 < k < |places'| && k !in waiting + {|places|}
      ensures ParentAt(b[k], places', k)
    {
      assert ParentAt(a[k], places, k);
      assert places'[k] == places'[..|places|][k];
      assert places'[a[k].parent] == places'[..|places|][a[k].parent];
    }
  }

  lemma ParentSet(a: seq<Symbol>, places: seq<Place>, x: nat, parent: Half, waiting: set<nat>)
    requires Parents(a, places, waiting) && 0 < x < |places| && parent < |places|
    requires Key(places[x]) != [] && Key(places[parent]) == Key(places[x])[1..]
    ensures Parents(a[x := WithParent(a[x], parent)], places, waiting - {x})
  {
    hide Key;
    var b := a[x := WithParent(a[x], parent)];
    forall k: nat | 0 < k < |places| && k !in waiting - {x}
      ensures ParentAt(b[k], places, k)
    {
      assert k != x ==> ParentAt(a[k], places, k);
    }
  }

  /** A new child of the root has the root for parent from the start. */
  lemma RootChild(a: seq<Symbol>, places: seq<Place>, m: Model, symbol: nat, v: Byte, waiting: set<nat>)
    requires Stands(a, places, m) && Parents(a, places, waiting) && symbol < |places| && Key(places[symbol]) == [v]
      && a[symbol].parent == 0
    ensures Parents(a, places, waiting - {symbol})
  {
    hide Stands, Key;
    RootPlace(a, places, m);
    forall k: nat | 0 < k < |places| && k !in waiting - {symbol}
      ensures ParentAt(a[k], places, k)
    {
    }
  }

  lemma RootPlace(a: seq<Symbol>, places: seq<Place>, m: Model)
    requires Stands(a, places, m)
    ensures 0 < |places| <= |a| == CAPACITY == |a| && |m| == |places| && Key(places[0]) == []
    ensures forall i :: 0 < i < |places| ==> Key(places[i]) != []
  {
  }

  lemma FineParent(s: Symbol, places: seq<Place>, k: nat, m: Model, parent: Half)
    requires k < |places| && Fine(s, places, k, m)
    ensures Fine(WithParent(s, parent), places, k, m)
  {
  }

  lemma StandsParent(a: seq<Symbol>, places: seq<Place>, m: Model, x: nat, parent: Half)
    requires Stands(a, places, m) && x < |places|
    ensures |places| <= |a| == CAPACITY && Stands(a[x := WithParent(a[x], parent)], places, m)
  {
    hide *;
    Located(a, places, m, x);
    var b := a[x := WithParent(a[x], parent)];
    forall k | 0 <= k < |places|
      ensures Fine(b[k], places, k, m)
    {
      Located(a, places, m, k);
      FineParent(a[k], places, k, m, parent);
    }
    StandsWhen(b, places, m);
  }

  // ---- One context ----

  /** The event a context contributes when `v` is coded there. */
  ghost function Own(m: Model, h: History, v: Byte): seq<Event>
    requires h in m
  {
    if Hit(m, h, v) then [SymbolEvent(m[h], h == [], v)] else if HasEscapes(m[h]) then [EscapeEvent(m[h])] else []
  }

  lemma OwnFirst(m: Model, h: History, v: Byte)
    requires Chain(m, h)
    ensures Events(m, h, v) == if Hit(m, h, v) then Own(m, h, v) else Own(m, h, v) + Events(m, h[1..], v)
  {
  }

  lemma WritesOn(written: seq<Byte>, c: Coder, e: Event, later: seq<Event>, full: seq<Byte>)
    requires Writes(written, c, [e] + later, full)
    ensures Ready(c) && Proper(e)
    ensures Writes(written + Encode(c, e).1, Encode(c, e).0, later, full)
    ensures |full| >= |written| + |Encode(c, e).1|
  {
    hide Ready, Proper, Encode;
    assert ([e] + later)[0] == e && ([e] + later)[1..] == later;
    forall i | 0 <= i < |later|
      ensures Proper(later[i])
    {
      assert Proper(([e] + later)[i + 1]);
    }
    assert written + (Encode(c, e).1 + Emit(Encode(c, e).0, later)) ==
      (written + Encode(c, e).1) + Emit(Encode(c, e).0, later);
  }

  /** The symbol waiting for its parent; 0 stands for the predicted context itself. */
  ghost predicate Awaits(places: seq<Place>, pending: nat, h: History, v: Byte) {
    pending != 0 ==> pending < |places| && Key(places[pending]) != [] && Key(places[pending])[1..] == h + [v]
  }

  /** Code the context's own event. */
  method EncodeOwn(out: array<Byte>, pos: nat, c: Coder, escapes: nat, under: nat, count: nat, total: nat,
                   ghost m: Model, ghost h: History, ghost v: Byte, ghost later: seq<Event>, ghost full: seq<Byte>)
    returns (ok: bool, pos': nat, c': Coder)
    requires h in m && pos <= out.Length && Writes(out[..pos], c, Own(m, h, v) + later, full)
    requires escapes == m[h].escapes && total == m[h].total && (count > 0 <==> Hit(m, h, v))
    requires under == SumBelow(m[h].counts, v) + Floor(h == [], v) && count == Coded(m[h], h == [], v)
    modifies out
    ensures !ok ==> |full| > out.Length
    ensures ok ==> pos' <= out.Length && Writes(out[..pos'], c', later, full)
  {
    hide Writes, SumBelow, Proper, Ready;
    ok, pos', c' := true, pos, c;
    if count > 0 {
      WritesOn(out[..pos], c, Event(escapes + under, count, total), later, full);
      ok, pos', c' := EncodeRange(out, pos, c, Event(escapes + under, count, total));
    } else if escapes > 0 && escapes < total {
      WritesOn(out[..pos], c, Event(0, escapes, total), later, full);
      ok, pos', c' := EncodeRange(out, pos, c, Event(0, escapes, total));
    } else {
      assert Own(m, h, v) + later == later;
    }
  }

  /** Put `symbol` where the last one, or the predicted context, was waiting for it. */
  method Link(t: Table, pending: nat, symbol: nat, predicted: nat, ghost m: Model, ghost waiting: set<nat>)
        returns (predicted': nat)
    requires t.Stored(m) && symbol < |t.places| && Parents(t.symbols[..], t.places, waiting)
    requires pending != 0 ==>
      pending < |t.places| && Key(t.places[pending]) != [] && Key(t.places[symbol]) == Key(t.places[pending])[1..]
    modifies t.symbols
    ensures t.Stored(m) && Parents(t.symbols[..], t.places, waiting - {pending})
    ensures predicted' == if pending == 0 then symbol else predicted
    ensures forall k :: 0 <= k < |t.places| && k != pending ==> t.symbols[k] == old(t.symbols[k])
    ensures forall k :: 0 <= k < |t.places| ==>
      t.symbols[k].escapes == old(t.symbols[k].escapes) && t.symbols[k].total == old(t.symbols[k].total)
  {
    hide *;
    ghost var a := t.symbols[..];
    StoredMeans(t, m);
    predicted' := predicted;
    if pending == 0 {
      predicted' := symbol;
      assert waiting - {0} == waiting - {pending};
      ParentsLess(a, t.places, waiting);
    } else {
      StandsParent(a, t.places, m, pending, symbol);
      ParentSet(a, t.places, pending, symbol, waiting);
      t.symbols[pending] := WithParent(t.symbols[pending], symbol);
      assert t.symbols[..] == a[pending := WithParent(a[pending], symbol)];
      WithParentSame(a[pending], symbol);
      StoredWhen(t, m);
    }
  }

  lemma WithParentSame(s: Symbol, parent: Half)
    ensures WithParent(s, parent).escapes == s.escapes && WithParent(s, parent).total == s.total
  {
  }

  lemma ParentsLess(a: seq<Symbol>, places: seq<Place>, waiting: set<nat>)
    requires Parents(a, places, waiting)
    ensures Parents(a, places, waiting - {0})
  {
    hide ParentAt;
  }

  lemma StoredMeans(t: Table, m: Model)
    requires t.Stored(m)
    ensures t.next == |t.places| && Stands(t.symbols[..], t.places, m)
      && 0 < |t.places| <= CAPACITY == t.symbols.Length < BOTTOM
  {
    RootPlace(t.symbols[..], t.places, m);
  }

  lemma StoredWhen(t: Table, m: Model)
    requires t.next == |t.places| && Stands(t.symbols[..], t.places, m)
    ensures t.Stored(m)
  {
  }

  /** A context once `v` has been coded in it. */
  ghost predicate Passed(t: Table, m: Model, h: History, v: Byte, places: seq<Place>, symbol: nat, waiting: set<nat>)
    reads t, t.symbols
    requires h in m
  {
    && Open(t, TouchAt(m, h, v)) && Parents(t.symbols[..], t.places, waiting)
    && |places| <= |t.places| <= |places| + 1 && t.places[..|places|] == places
    && symbol < |t.places| && Key(t.places[symbol]) == h + [v]
  }

  /** What placing `v` does for the links. */
  lemma PlacedParents(a: seq<Symbol>, b: seq<Symbol>, places: seq<Place>, places': seq<Place>, m: Model, h: History,
        v: Byte, symbol: nat, waiting: set<nat>)
    requires PlacedIn(a, b, places, places', m, h, v, symbol) && Parents(a, places, waiting)
    ensures h in m && Stands(b, places', Placed(m, h, v)) && symbol < |places'| && Key(places'[symbol]) == h + [v]
    ensures |places| <= |places'| <= |places| + 1 && places'[..|places|] == places
    ensures Parents(b, places', if Hit(m, h, v) then waiting else waiting + {symbol})
  {
    hide Stands, SameParents, Placed, Key, Parents;
    if v in m[h].counts {
      ParentsMove(a, b, places, waiting);
      assert places'[..|places|] == places;
      ParentsMore(b, places', waiting, symbol);
    } else {
      ParentsGrow(a, b, places, places', waiting);
      if h == [] {
        RootChild(b, places', Placed(m, h, v), symbol, v, waiting + {symbol});
        ParentsMore2(b, places', waiting, symbol);
      }
    }
  }

  lemma ParentsMore(a: seq<Symbol>, places: seq<Place>, waiting: set<nat>, x: nat)
    requires Parents(a, places, waiting)
    ensures Parents(a, places, waiting + {x})
  {
    hide ParentAt;
  }

  lemma ParentsMore2(a: seq<Symbol>, places: seq<Place>, waiting: set<nat>, x: nat)
    requires Parents(a, places, waiting + {x} - {x})
    ensures Parents(a, places, waiting)
  {
    hide ParentAt;
  }

  /** The heads the encoder reads after placing `v`. */
  lemma PlacedHead(b: seq<Symbol>, places: seq<Place>, m: Model, h: History, v: Byte, i: nat)
    requires h in m && Stands(b, places, Placed(m, h, v)) && i < |places| && Key(places[i]) == h
    ensures |places| <= |b| && b[i].escapes == m[h].escapes && b[i].total == m[h].total
  {
    hide Stands, Placed;
    Located(b, places, Placed(m, h, v), i);
  }

  lemma CountMeans(m: Model, h: History, v: Byte)
    requires h in m && Sized(m)
    ensures Coded(m[h], h == [], v) > 0 <==> Hit(m, h, v)
  {
    assert Consistent(m[h], h == []);
  }

  lemma AwaitsOn(places: seq<Place>, places': seq<Place>, pending: nat, h: History, v: Byte, symbol: nat, i: nat)
    requires Awaits(places, pending, h, v) && |places| <= |places'| && places'[..|places|] == places
    requires symbol < |places'| && Key(places'[symbol]) == h + [v] && i < |places|
    ensures pending != 0 ==>
      pending < |places'| && Key(places'[pending]) != [] && Key(places'[symbol]) == Key(places'[pending])[1..]
    ensures places'[i] == places[i]
  {
    hide Key;
    assert pending != 0 ==> places'[pending] == places'[..|places|][pending];
    assert places'[i] == places'[..|places|][i];
  }

  lemma PassedWhen(t: Table, b: seq<Symbol>, m: Model, h: History, v: Byte, places: seq<Place>, symbol: nat,
        waiting: set<nat>, waiting': set<nat>)
    requires h in m && Steady(m) && t.next == |t.places| && Stands(t.symbols[..], t.places, TouchAt(m, h, v))
    requires Parents(b, t.places, waiting) && SameParents(b, t.symbols[..], |t.places|) && waiting == waiting'
    requires |places| <= |t.places| <= |places| + 1 && t.places[..|places|] == places && symbol < |t.places|
      && Key(t.places[symbol]) == h + [v]
    ensures Passed(t, m, h, v, places, symbol, waiting')
  {
    hide Steady, Stands, Parents, SameParents, TouchAt, Key;
    TouchSteady(m, h, v);
    ParentsMove(b, t.symbols[..], t.places, waiting);
  }

  /** Who still waits once `pending` has been served. */
  function Waiting(hit: bool, pending: nat, symbol: nat): set<nat> { if hit then {pending} else {pending} + {symbol} }

  lemma Served(hit: bool, pending: nat, symbol: nat)
    requires hit || pending != symbol
    ensures Waiting(hit, pending, symbol) - {pending} == if hit then {} else {symbol}
  {
  }

  lemma NewSymbol(a: seq<Symbol>, b: seq<Symbol>, places: seq<Place>, places': seq<Place>, m: Model, h: History,
        v: Byte, symbol: nat, pending: nat)
    requires PlacedIn(a, b, places, places', m, h, v, symbol) && Awaits(places, pending, h, v) && 0 < |places|
    ensures Hit(m, h, v) || pending != symbol
  {
    hide Stands, SameParents, Placed, Key;
  }

  /** Place `value` in context `i` and tell the previous context, or the predicted one, about it. */
  method PlaceContext(t: Table, i: nat, value: Byte, pending: nat, predicted: nat, ghost m: Model, ghost h: History)
    returns (symbol: nat, under: nat, count: nat, predicted': nat)
    requires Open(t, m) && i < |t.places| < CAPACITY && Key(t.places[i]) == h && (i == 0 <==> h == []) && h in m
    requires Parents(t.symbols[..], t.places, {pending}) && Awaits(t.places, pending, h, value)
    modifies t, t.symbols
    ensures t.Stored(Placed(m, h, value)) && Parents(t.symbols[..], t.places, if Hit(m, h, value) then {} else {symbol})
    ensures i < |t.places| <= t.symbols.Length == CAPACITY && Key(t.places[i]) == h
    ensures t.symbols[i].escapes == m[h].escapes && t.symbols[i].total == m[h].total
    ensures under == SumBelow(m[h].counts, value) + Floor(h == [], value) && count == Coded(m[h], h == [], value)
    ensures count > 0 <==> Hit(m, h, value)
    ensures |old(t.places)| <= |t.places| <= |old(t.places)| + 1 && t.places[..|old(t.places)|] == old(t.places)
    ensures symbol < |t.places| && Key(t.places[symbol]) == h + [value]
      && predicted' == if pending == 0 then symbol else predicted
  {
    hide *;
    ghost var a, ps, hit := t.symbols[..], t.places, Hit(m, h, value);
    OpenMeans(t, m);
    SteadyMeans(m);
    CountMeans(m, h, value);
    symbol, under, count := EncodeIn(t, i, value, i == 0, m, h);
    PlacedParents(a, t.symbols[..], ps, t.places, m, h, value, symbol, {pending});
    PlacedHead(t.symbols[..], t.places, m, h, value, i);
    NewSymbol(a, t.symbols[..], ps, t.places, m, h, value, symbol, pending);
    AwaitsOn(ps, t.places, pending, h, value, symbol, i);
    StoredWhen(t, Placed(m, h, value));
    Served(hit, pending, symbol);
    WaitingIs(hit, pending, symbol);
    StoredMeans(t, Placed(m, h, value));
    predicted' := Link(t, pending, symbol, predicted, Placed(m, h, value), Waiting(hit, pending, symbol));
  }

  /** Take the placed value into the context's totals. */
  method Settle(t: Table, i: nat, count: nat, symbol: nat, ghost m: Model, ghost h: History, ghost v: Byte,
        ghost places: seq<Place>)
    requires Steady(m) && h in m && t.Stored(Placed(m, h, v)) && i < |t.places| && Key(t.places[i]) == h
      && (i == 0 <==> h == [])
    requires count == Coded(m[h], h == [], v) && Parents(t.symbols[..], t.places, if Hit(m, h, v) then {} else {symbol})
    requires |places| <= |t.places| <= |places| + 1 && t.places[..|places|] == places
    requires symbol < |t.places| && Key(t.places[symbol]) == h + [v]
    modifies t.symbols
    ensures Passed(t, m, h, v, places, symbol, if Hit(m, h, v) then {} else {symbol})
  {
    hide *;
    SteadyMeans(m);
    StoredMeans(t, Placed(m, h, v));
    ghost var b := t.symbols[..];
    t.Account(i, count, i == 0, m, h, v);
    PassedWhen(t, b, m, h, v, places, symbol, if Hit(m, h, v) then {} else {symbol},
      if Hit(m, h, v) then {} else {symbol});
  }

  /** Code `value` in context `i`: place it, write the event, account for it. */
  method EncodeContext(t: Table, out: array<Byte>, pos: nat, c: Coder, i: nat, value: Byte, pending: nat,
        predicted: nat, ghost m: Model, ghost h: History, ghost later: seq<Event>, ghost full: seq<Byte>)
    returns (ok: bool, pos': nat, c': Coder, symbol: nat, count: nat, predicted': nat)
    requires Open(t, m) && i < |t.places| < CAPACITY && Key(t.places[i]) == h && (i == 0 <==> h == []) && h in m
    requires Parents(t.symbols[..], t.places, {pending}) && Awaits(t.places, pending, h, value)
    requires pos <= out.Length && Writes(out[..pos], c, Own(m, h, value) + later, full)
    modifies t, t.symbols, out
    ensures !ok ==> |full| > out.Length
    ensures ok ==> pos' <= out.Length && Writes(out[..pos'], c', later, full)
    ensures ok ==> (count > 0 <==> Hit(m, h, value))
    ensures ok ==> Passed(t, m, h, value, old(t.places), symbol, if Hit(m, h, value) then {} else {symbol})
    ensures predicted' == if pending == 0 then symbol else predicted
  {
    hide *;
    ghost var ps := t.places;
    OpenMeans(t, m);
    var under: nat;
    symbol, under, count, predicted' := PlaceContext(t, i, value, pending, predicted, m, h);
    ok, pos', c' :=
      EncodeOwn(out, pos, c, t.symbols[i].escapes, under, count, t.symbols[i].total, m, h, value, later, full);
    if ok {
      Settle(t, i, count, symbol, m, h, value, ps);
    }
  }

  lemma WaitingIs(hit: bool, pending: nat, symbol: nat)
    ensures Waiting(hit, pending, symbol) == if hit then {pending} else {pending} + {symbol}
  {
  }

  // ---- One byte ----

  /** The table between bytes. */
  ghost predicate Tracks(t: Table, s: State, predicted: nat, order: nat)
    reads t, t.symbols
  {
    && Good(s) && t.Stored(s.model) && Parents(t.symbols[..], t.places, {})
    && predicted < |t.places| < CAPACITY - ORDER && Key(t.places[predicted]) == s.predicted && order == |s.predicted|
  }

  /** The table on the way from the longest context to the root. */
  ghost predicate Climbing(t: Table, m: Model, h: History, v: Byte, i: nat, pending: nat, predicted: nat, s: State,
        goal: Model)
    reads t, t.symbols
  {
    && Open(t, m) && Chain(m, h) && Parents(t.symbols[..], t.places, {pending}) && Awaits(t.places, pending, h, v)
    && i < |t.places| && Key(t.places[i]) == h && |t.places| + |h| < CAPACITY
    && Learn(m, h, v) == goal
    && predicted < |t.places| && (if pending == 0 then h == s.predicted && m == s.model && predicted == i
                                  else Key(t.places[predicted]) == s.predicted + [v])
  }

  lemma ClimbStart(t: Table, s: State, predicted: nat, order: nat, v: Byte)
    requires Tracks(t, s, predicted, order)
    ensures Chain(s.model, s.predicted)
    ensures Climbing(t, s.model, s.predicted, v, predicted, 0, predicted, s, Learn(s.model, s.predicted, v))
  {
    hide Parents, Key, Stands, Indexed, PrefixClosed, Sized, SuffixClosed, Learn;
    StoredMeans(t, s.model);
    CoherentChain(s.model, s.predicted);
    hide Coherent;
    ParentsAny(t.symbols[..], t.places, 0);
  }

  lemma ParentsAny(a: seq<Symbol>, places: seq<Place>, x: nat)
    requires Parents(a, places, {})
    ensures Parents(a, places, {x})
  {
    hide ParentAt;
  }

  lemma ClimbMeans(t: Table, m: Model, h: History, v: Byte, i: nat, pending: nat, predicted: nat, s: State, goal: Model)
    requires Climbing(t, m, h, v, i, pending, predicted, s, goal)
    ensures Open(t, m) && i < |t.places| < CAPACITY && Key(t.places[i]) == h && (i == 0 <==> h == []) && h in m
      && Chain(m, h)
    ensures Parents(t.symbols[..], t.places, {pending}) && Awaits(t.places, pending, h, v)
      && predicted < |t.places| <= t.symbols.Length
    ensures Events(m, h, v) == if Hit(m, h, v) then Own(m, h, v) else Own(m, h, v) + Events(m, h[1..], v)
  {
    hide Parents, Stands, Steady, Learn, Awaits, Key;
    StoredMeans(t, m);
    RootPlace(t.symbols[..], t.places, m);
    OwnFirst(m, h, v);
  }

  /** A miss: on to the next shorter context. */
  lemma ClimbOn(t: Table, m: Model, h: History, v: Byte, symbol: nat, i: nat, pending: nat, predicted: nat,
        predicted': nat, places: seq<Place>, s: State, goal: Model)
    requires h in m && Chain(m, h) && !Hit(m, h, v) && Passed(t, m, h, v, places, symbol, {symbol})
    requires i < |places| && Key(places[i]) == h && |places| + |h| < CAPACITY && Learn(m, h, v) == goal
      && 0 < |t.places| <= t.symbols.Length
    requires predicted < |places| && predicted' == (if pending == 0 then symbol else predicted)
    requires if pending == 0 then h == s.predicted && m == s.model && predicted == i
      else Key(places[predicted]) == s.predicted + [v]
    ensures h != [] && i < |t.places|
      && Climbing(t, TouchAt(m, h, v), h[1..], v, t.symbols[i].parent, symbol, predicted', s, goal)
    ensures Chain(m, h[1..]) && Chain(TouchAt(m, h, v), h[1..])
      && Events(TouchAt(m, h, v), h[1..], v) == Events(m, h[1..], v)
  {
    hide *;
    PassedMeans(t, m, h, v, places, symbol, {symbol});
    PrefixAt(places, t.places, i);
    PrefixAt(places, t.places, predicted);
    OpenMeans(t, TouchAt(m, h, v));
    MissMeans(m, h, v);
    LearnCommutes(m, h, h[1..], v);
    ClimbParent(t.symbols[..], t.places, TouchAt(m, h, v), i, symbol, h, v);
    ClimbWhen(t, TouchAt(m, h, v), h[1..], v, t.symbols[i].parent, symbol, predicted', s, goal);
  }

  lemma PrefixAt(places: seq<Place>, places': seq<Place>, i: nat)
    requires i < |places| <= |places'| && places'[..|places|] == places
    ensures places'[i] == places[i]
  {
    assert places'[i] == places'[..|places|][i];
  }

  lemma MissMeans(m: Model, h: History, v: Byte)
    requires h in m && Chain(m, h) && !Hit(m, h, v)
    ensures h != [] && |h[1..]| == |h| - 1 && Chain(m, h[1..]) && Learn(m, h, v) == TouchAt(Learn(m, h[1..], v), h, v)
  {
  }

  lemma PassedMeans(t: Table, m: Model, h: History, v: Byte, places: seq<Place>, symbol: nat, waiting: set<nat>)
    requires h in m && Passed(t, m, h, v, places, symbol, waiting)
    ensures Open(t, TouchAt(m, h, v)) && Parents(t.symbols[..], t.places, waiting) && symbol < |t.places|
      && Key(t.places[symbol]) == h + [v]
    ensures |places| <= |t.places| <= |places| + 1 && t.places[..|places|] == places
    ensures 0 < |t.places| <= t.symbols.Length == CAPACITY
  {
    hide Parents, Key, Stands, Steady, TouchAt;
    StoredMeans(t, TouchAt(m, h, v));
  }

  /** The shorter context, and the symbol that waits there. */
  lemma ClimbParent(a: seq<Symbol>, places: seq<Place>, m: Model, i: nat, symbol: nat, h: History, v: Byte)
    requires Parents(a, places, {symbol}) && Stands(a, places, m) && i < |places| && Key(places[i]) == h && h != []
    requires symbol < |places| && Key(places[symbol]) == h + [v]
    ensures i < |a| && a[i].parent < |places| && Key(places[a[i].parent]) == h[1..] && Awaits(places, symbol, h[1..], v)
      && symbol != 0
  {
    hide Stands, Key;
    RootPlace(a, places, m);
    SnocLonger(h, v);
    assert i != symbol && ParentAt(a[i], places, i);
    TailOfSnoc(h, v);
  }

  lemma ClimbWhen(t: Table, m: Model, h: History, v: Byte, i: nat, pending: nat, predicted: nat, s: State, goal: Model)
    requires Open(t, m) && Chain(m, h) && Parents(t.symbols[..], t.places, {pending}) && Awaits(t.places, pending, h, v)
    requires i < |t.places| && Key(t.places[i]) == h && |t.places| + |h| < CAPACITY && Learn(m, h, v) == goal
    requires pending != 0 && predicted < |t.places| && Key(t.places[predicted]) == s.predicted + [v]
    ensures Climbing(t, m, h, v, i, pending, predicted, s, goal)
  {
  }

  lemma HitMeans(m: Model, h: History, v: Byte)
    requires h in m && Chain(m, h)
    ensures Hit(m, h, v) ==> Learn(m, h, v) == TouchAt(m, h, v)
    ensures h == [] ==> Hit(m, h, v)
  {
    hide TouchAt;
  }

  /** The table once the byte has been learnt, before moving on to the next. */
  ghost predicate Learnt(t: Table, s: State, v: Byte, predicted: nat)
    reads t, t.symbols
    requires Chain(s.model, s.predicted)
  {
    && t.Stored(Learn(s.model, s.predicted, v)) && Parents(t.symbols[..], t.places, {})
    && predicted < |t.places| && Key(t.places[predicted]) == s.predicted + [v]
  }

  lemma LearntWhen(t: Table, m: Model, h: History, v: Byte, symbol: nat, i: nat, pending: nat, predicted: nat,
        predicted': nat, places: seq<Place>, s: State)
    requires h in m && Chain(m, h) && Hit(m, h, v) && Passed(t, m, h, v, places, symbol, {})
      && Chain(s.model, s.predicted)
    requires Learn(m, h, v) == Learn(s.model, s.predicted, v)
    requires predicted < |places| && predicted' == (if pending == 0 then symbol else predicted)
    requires if pending == 0 then h == s.predicted else Key(places[predicted]) == s.predicted + [v]
    ensures Learnt(t, s, v, predicted')
  {
    hide Parents, Key, Stands, Steady, TouchAt, Learn, Hit;
    HitMeans(m, h, v);
    PassedMeans(t, m, h, v, places, symbol, {});
    PrefixAt(places, t.places, predicted);
  }

  lemma ClimbGoal(t: Table, m: Model, h: History, v: Byte, i: nat, pending: nat, predicted: nat, s: State, goal: Model)
    requires Climbing(t, m, h, v, i, pending, predicted, s, goal)
    ensures Chain(m, h) && Learn(m, h, v) == goal && |t.places| + |h| < CAPACITY && predicted < |t.places|
    ensures if pending == 0 then h == s.predicted && m == s.model && predicted == i
      else Key(t.places[predicted]) == s.predicted + [v]
  {
  }

  lemma WritesAssoc(written: seq<Byte>, c: Coder, a: seq<Event>, b: seq<Event>, d: seq<Event>, full: seq<Byte>)
    requires Writes(written, c, (a + b) + d, full)
    ensures Writes(written, c, a + (b + d), full)
  {
    hide Emit, Ready, AllProper;
    assert (a + b) + d == a + (b + d);
  }

  /** Code one byte, from the longest context down to the first that knows it. */
  method EncodeByte(t: Table, out: array<Byte>, pos: nat, c: Coder, predicted: nat, value: Byte,
                    ghost s: State, ghost order: nat, ghost later: seq<Event>, ghost full: seq<Byte>)
    returns (ok: bool, pos': nat, c': Coder, predicted': nat)
    requires Tracks(t, s, predicted, order) && Chain(s.model, s.predicted)
    requires pos <= out.Length && Writes(out[..pos], c, Events(s.model, s.predicted, value) + later, full)
    modifies t, t.symbols, out
    ensures !ok ==> |full| > out.Length
    ensures ok ==> pos' <= out.Length && Writes(out[..pos'], c', later, full) && Learnt(t, s, value, predicted')
  {
    hide *;
    ghost var m, h, goal := s.model, s.predicted, Learn(s.model, s.predicted, value);
    ClimbStart(t, s, predicted, order, value);
    var subcontext, pending := predicted, 0;
    ok, pos', c', predicted' := true, pos, c, predicted;
    while subcontext != 0
      invariant Climbing(t, m, h, value, subcontext, pending, predicted', s, goal) && Chain(m, h)
      invariant pos' <= out.Length && Writes(out[..pos'], c', Events(m, h, value) + later, full)
      decreases |h|
    {
      ClimbMeans(t, m, h, value, subcontext, pending, predicted', s, goal);
      ClimbGoal(t, m, h, value, subcontext, pending, predicted', s, goal);
      ghost var rest, places := (if Hit(m, h, value) then later else Events(m, h[1..], value) + later), t.places;
      ghost var at, before, waited := subcontext, predicted', pending;
      WritesAssocHit(out[..pos'], c', m, h, value, later, full);
      var symbol, count;
      ok, pos', c', symbol, count, predicted' :=
        EncodeContext(t, out, pos', c', subcontext, value, pending, predicted', m, h, rest, full);
      if !ok {
        return;
      }
      if count > 0 {
        LearntWhen(t, m, h, value, symbol, at, waited, before, predicted', places, s);
        return;
      }
      MissMeans(m, h, value);
      PassedMeans(t, m, h, value, places, symbol, {symbol});
      ClimbOn(t, m, h, value, symbol, at, waited, before, predicted', places, s, goal);
      pending := symbol;
      subcontext := t.symbols[subcontext].parent;
      m, h := TouchAt(m, h, value), h[1..];
    }
    ClimbMeans(t, m, h, value, 0, pending, predicted', s, goal);
    ClimbGoal(t, m, h, value, 0, pending, predicted', s, goal);
    HitMeans(m, h, value);
    ghost var places, before, waited := t.places, predicted', pending;
    var symbol, count;
    ok, pos', c', symbol, count, predicted' :=
      EncodeContext(t, out, pos', c', 0, value, pending, predicted', m, h, later, full);
    if ok {
      LearntWhen(t, m, h, value, symbol, 0, waited, before, predicted', places, s);
    }
  }

  lemma WritesAssocHit(written: seq<Byte>, c: Coder, m: Model, h: History, v: Byte, later: seq<Event>, full: seq<Byte>)
    requires Chain(m, h) && Writes(written, c, Events(m, h, v) + later, full)
    ensures Hit(m, h, v) ==> Writes(written, c, Own(m, h, v) + later, full)
    ensures !Hit(m, h, v) ==>
      h != [] && Chain(m, h[1..]) && Writes(written, c, Own(m, h, v) + (Events(m, h[1..], v) + later), full)
  {
    hide Writes, Own, Events;
    OwnFirst(m, h, v);
    if !Hit(m, h, v) {
      WritesAssoc(written, c, Own(m, h, v), Events(m, h[1..], v), later, full);
    }
  }

  // ---- From byte to byte ----

  const ROOT_SYMBOL := Symbol(0, 0, 0, 0, 0, 0, 1, 257, 0)

  lemma RootStands(a: seq<Symbol>)
    requires |a| == CAPACITY && a[0] == ROOT_SYMBOL
    ensures Stands(a, [Root], INITIAL.model) && Parents(a, [Root], {})
  {
  }

  /** Start the model afresh. */
  method CreateRoot(t: Table)
    requires t.symbols.Length == CAPACITY
    modifies t, t.symbols
    ensures Tracks(t, INITIAL, 0, 0)
  {
    hide Stands, Parents, Good;
    t.symbols[0] := ROOT_SYMBOL;
    t.next := 1;
    t.places := [Root];
    RootStands(t.symbols[..]);
    GoodInitial();
  }

  lemma AdvanceIs(s: State, v: Byte)
    requires Good(s)
    ensures Chain(s.model, s.predicted) && Good(Advance(s, v))
    ensures var m := Learn(s.model, s.predicted, v);
      if |m| >= CAPACITY - ORDER then Advance(s, v) == INITIAL
      else Advance(s, v) == State(m, if |s.predicted| >= ORDER then (s.predicted + [v])[1..] else s.predicted + [v])
  {
    hide Coherent, Learn;
    AdvanceGood(s, v);
  }

  lemma ParentOf(a: seq<Symbol>, places: seq<Place>, k: nat)
    requires Parents(a, places, {}) && 0 < k < |places|
    ensures k < |a| && a[k].parent < |places| && Key(places[k]) != [] && Key(places[a[k].parent]) == Key(places[k])[1..]
  {
    hide Key;
    assert ParentAt(a[k], places, k);
  }

  lemma LearntMeans(t: Table, s: State, v: Byte, predicted: nat)
    requires Chain(s.model, s.predicted) && Learnt(t, s, v, predicted)
    ensures var m := Learn(s.model, s.predicted, v); t.next == |t.places| == |m| && t.Stored(m)
    ensures 0 < |t.places| <= CAPACITY == t.symbols.Length && predicted < |t.places|
      && Key(t.places[predicted]) == s.predicted + [v]
    ensures t.symbols[predicted].parent < |t.places|
      && Key(t.places[t.symbols[predicted].parent]) == (s.predicted + [v])[1..]
    ensures Parents(t.symbols[..], t.places, {})
  {
    hide Key, Learn, Stands, Parents, ParentAt;
    StoredMeans(t, Learn(s.model, s.predicted, v));
    RootPlace(t.symbols[..], t.places, Learn(s.model, s.predicted, v));
    ParentOf(t.symbols[..], t.places, predicted);
  }

  /** Move on to the next byte's context, and start over when the table is nearly full. */
  method NextInput(t: Table, predicted: nat, order: nat, ghost s: State, ghost v: Byte)
        returns (predicted': nat, order': nat)
    requires Good(s) && Chain(s.model, s.predicted) && Learnt(t, s, v, predicted) && order == |s.predicted|
    modifies t, t.symbols
    ensures Tracks(t, Advance(s, v), predicted', order')
  {
    hide *;
    AdvanceIs(s, v);
    LearntMeans(t, s, v, predicted);
    predicted', order' := predicted, order;
    GoodShort(s);
    if order >= ORDER {
      predicted' := t.symbols[predicted].parent;
    } else {
      order' := order + 1;
    }
    if t.next >= CAPACITY - ORDER {
      CreateRoot(t);
      predicted', order' := 0, 0;
    } else {
      TracksWhen(t, Advance(s, v), predicted', order');
    }
  }

  lemma GoodShort(s: State)
    requires Good(s)
    ensures |s.predicted| <= ORDER
  {
  }

  lemma TracksWhen(t: Table, s: State, predicted: nat, order: nat)
    requires Good(s) && t.Stored(s.model) && Parents(t.symbols[..], t.places, {})
    requires predicted < |t.places| < CAPACITY - ORDER && Key(t.places[predicted]) == s.predicted
      && order == |s.predicted|
    ensures Tracks(t, s, predicted, order)
  {
  }

  // ---- The whole message ----

  function Concat(buffers: seq<seq<Byte>>): seq<Byte> {
    if buffers == [] then [] else buffers[0] + Concat(buffers[1..])
  }

  lemma WritesStart(input: seq<Byte>)
    ensures Good(INITIAL) && Writes([], START, AllEvents(INITIAL, input), Compressed(input))
  {
    hide AllEvents, Emit;
    GoodInitial();
    AllEventsProper(INITIAL, input);
  }

  lemma WritesEnd(s: State, written: seq<Byte>, c: Coder, full: seq<Byte>)
    requires Good(s) && Writes(written, c, AllEvents(s, []), full)
    ensures c.low < WORD && full == written + Flush(c.low)
  {
    hide Flush;
  }

  /** The input not yet coded: the rest of this buffer and the buffers after it. */
  function Remaining(buffer: seq<Byte>, at: nat, buffers: seq<seq<Byte>>, next: nat): seq<Byte>
    requires at <= |buffer| && next <= |buffers|
  {
    buffer[at..] + Concat(buffers[next..])
  }

  lemma RemainingStart(buffers: seq<seq<Byte>>)
    requires buffers != []
    ensures Remaining(buffers[0], 0, buffers, 1) == Concat(buffers)
  {
  }

  lemma RemainingNext(buffer: seq<Byte>, buffers: seq<seq<Byte>>, next: nat)
    requires next <= |buffers|
    ensures next < |buffers| ==>
      Remaining(buffer, |buffer|, buffers, next) == Remaining(buffers[next], 0, buffers, next + 1)
    ensures next == |buffers| ==> Remaining(buffer, |buffer|, buffers, next) == []
  {
    if next < |buffers| {
      assert buffers[next..][1..] == buffers[next + 1..];
    }
  }

  lemma RemainingByte(buffer: seq<Byte>, at: nat, buffers: seq<seq<Byte>>, next: nat)
    requires at < |buffer| && next <= |buffers|
    ensures Remaining(buffer, at, buffers, next) == [buffer[at]] + Remaining(buffer, at + 1, buffers, next)
  {
  }

  lemma TracksGood(t: Table, s: State, predicted: nat, order: nat)
    requires Tracks(t, s, predicted, order)
    ensures Good(s) && order == |s.predicted| && t.symbols.Length == CAPACITY
  {
    StoredMeans(t, s.model);
  }

  /**
   * Compress the buffers' bytes. The result is the number of bytes written, or 0 when they do not fit
   * or there is nothing to do. Every buffer after the first holds at least one byte.
   */
  method Compress(t: Table, buffers: seq<seq<Byte>>, inLimit: nat, out: array<Byte>) returns (n: nat)
    requires t.symbols.Length == CAPACITY && forall i :: 0 < i < |buffers| ==> buffers[i] != []
    modifies t, t.symbols, out
    ensures |buffers| == 0 || inLimit == 0 ==> n == 0
    ensures |buffers| > 0 && inLimit > 0 ==>
              var full := Compressed(Concat(buffers)); if |full| <= out.Length then n == |full| && out[..n] == full
                else n == 0
  {
    hide *;
    if |buffers| <= 0 || inLimit <= 0 {
      return 0;
    }
    ghost var full, s := Compressed(Concat(buffers)), INITIAL;
    var buffer, at, next, c, predicted, order := buffers[0], 0, 1, START, 0, 0;
    var pos: nat := 0;
    CreateRoot(t);
    WritesStart(Concat(buffers));
    RemainingStart(buffers);
    TracksGood(t, s, predicted, order);
    assert out[..0] == [];
    while true
      invariant Tracks(t, s, predicted, order) && Good(s) && at <= |buffer| && next <= |buffers| && pos <= out.Length
      invariant Writes(out[..pos], c, AllEvents(s, Remaining(buffer, at, buffers, next)), full)
      decreases |buffers| - next, |buffer| - at
    {
      if at >= |buffer| {
        RemainingNext(buffer, buffers, next);
        if next >= |buffers| {
          break;
        }
        buffer, at, next := buffers[next], 0, next + 1;
      }
      var value := buffer[at];
      RemainingByte(buffer, at, buffers, next);
      at := at + 1;
      ghost var rest := Remaining(buffer, at, buffers, next);
      AllEventsFirst(s, value, rest);
      TracksGood(t, s, predicted, order);
      var ok;
      ok, pos, c, predicted :=
        EncodeByte(t, out, pos, c, predicted, value, s, order, AllEvents(Advance(s, value), rest), full);
      if !ok {
        return 0;
      }
      predicted, order := NextInput(t, predicted, order, s, value);
      s := Advance(s, value);
    }
    WritesEnd(s, out[..pos], c, full);
    var ok;
    ok, n := FlushRange(out, pos, c);
    if !ok {
      n := 0;
    }
  }
}
