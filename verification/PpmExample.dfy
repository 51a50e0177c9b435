/** Two short messages, coded by hand. */
module PpmExample {
  import opened Numbers
  import opened RangeCoder
  import opened Ppm
  import opened PpmCounts

  const A: Byte := 97
  const B: Byte := 98
  const C: Byte := 99
  const AA: seq<Byte> := [A, A]
  const AB: seq<Byte> := [A, B]
  const ABA: seq<Byte> := [A, B, A]

  const ONE_A := Context(map[A := 3], 1, 260)
  const SEEN_A := Context(map[A := 2], 5, 7)
  const SEEN_B := Context(map[B := 2], 5, 7)
  const AFTER_A := State(map[[] := ONE_A, [A] := FRESH], [A])

  lemma RootMiss(v: Byte)
    ensures SymbolEvent(ROOT, true, v) == Event(1 + v, 1, 257)
    ensures Touched(ROOT, true, v) == Context(map[v := 3], 1, 260)
  {
    hide SumBelow, Touched, Consistent;
    SumEmpty(v);
    RootConsistent();
    RootTouched(ROOT, v);
  }

  lemma FreshMiss(v: Byte)
    ensures !HasEscapes(FRESH) && v !in FRESH.counts
    ensures Touched(FRESH, false, v) == Context(map[v := 2], 5, 7)
  {
    hide SumBelow, Touched, Consistent;
    RootConsistent();
    SubTouched(FRESH, v);
  }

  lemma StepA()
    ensures INITIAL.predicted == [] && Good(INITIAL) && Chain(INITIAL.model, [])
    ensures Events(INITIAL.model, [], A) == [Event(98, 1, 257)]
    ensures Advance(INITIAL, A) == AFTER_A
  {
    hide Touched, SymbolEvent, HasEscapes, Good;
    GoodInitial();
    RootMiss(A);
    assert [] + [A] == [A];
    assert TouchAt(INITIAL.model, [], A) == AFTER_A.model;
    assert |AFTER_A.model| <= 4000;
  }

  lemma EventInRoot(counts: map<Byte, nat>, total: nat, v: Byte)
    ensures SymbolEvent(Context(counts, 1, total), true, v) ==
      Event(1 + SumBelow(counts, v) + v, CountOf(counts, v) + 1, total)
  {
    hide SumBelow;
  }

  lemma SumOne(a: Byte, n: nat, v: Byte)
    ensures SumBelow(map[a := n], v) == if a < v then n else 0
  {
    hide SumBelow;
    SumEmpty(v);
    SumSet(map[], a, n, v);
  }

  lemma SumTwo(a: Byte, n: nat, b: Byte, k: nat, v: Byte)
    requires a != b
    ensures SumBelow(map[a := n, b := k], v) == (if a < v then n else 0) + if b < v then k else 0
  {
    hide SumBelow;
    SumOne(a, n, v);
    SumSet(map[a := n], b, k, v);
    assert map[a := n][b := k] == map[a := n, b := k];
  }

  lemma EventsMiss(m: Model, h: History, v: Byte)
    requires Chain(m, h) && h != [] && v !in m[h].counts
    ensures Chain(m, h[1..])
    ensures Events(m, h, v) == (if HasEscapes(m[h]) then [EscapeEvent(m[h])] else []) + Events(m, h[1..], v)
  {
    hide HasEscapes;
  }

  /** A context that has seen nothing adds no event. */
  lemma EventsFresh(m: Model, h: History, v: Byte)
    requires Chain(m, h) && h != [] && m[h] == FRESH
    ensures Chain(m, h[1..]) && Events(m, h, v) == Events(m, h[1..], v)
  {
    hide HasEscapes;
    FreshMiss(v);
    EventsMiss(m, h, v);
  }

  lemma EventsHit(m: Model, h: History, v: Byte)
    requires Chain(m, h) && (h == [] || v in m[h].counts)
    ensures Events(m, h, v) == [SymbolEvent(m[h], h == [], v)]
  {
    hide HasEscapes;
  }

  lemma GoodRoot(s: State)
    requires Good(s)
    ensures [] in s.model && Consistent(s.model[[]], true)
  {
    hide Consistent;
  }

  lemma Three(a: Event, b: Event, c: Event)
    ensures [a] + ([b] + ([c] + [])) == [a, b, c]
  {
  }

  predicate Has(m: Model, h: History, c: Context) { h in m && m[h] == c }

  /** One byte in a short message, context by context. */
  lemma Step(before: seq<Byte>, v: Byte, k: History)
    requires |before| < 1000
    ensures Good(After(before)) && Chain(After(before).model, After(before).predicted)
    ensures After(before + [v]).predicted ==
      var h := After(before).predicted + [v];
      if |h| > 2 then h[1..] else h
    ensures var s, m := After(before), After(before + [v]).model;
      && (k in m <==> k in s.model || (k != [] && Last(k) == v && Reaches(s.model, s.predicted, Front(k), v)))
      && (Reaches(s.model, s.predicted, k, v) ==> k in s.model && k + [v] in m)
      && (k in m ==>
        m[k] == if k !in s.model then FRESH
          else if Reaches(s.model, s.predicted, k, v) then Touched(s.model[k], k == [], v)
          else s.model[k])
  {
    hide After, Learn, Chain, Good, Touched, Reaches, StartsOver;
    AfterMore(before, v);
    ShortNeverStartsOver(before + [v]);
    LearnReaches(After(before).model, After(before).predicted, v, k);
  }

  lemma AfterOne()
    ensures After([A]) == AFTER_A && Good(AFTER_A)
  {
    hide Good, Learn;
    StepA();
    SinceNone();
    AfterAdvances([], A);
    assert [] + [A] == [A];
    AdvanceGood(INITIAL, A);
  }

  lemma ReachA(v: Byte)
    ensures Chain(AFTER_A.model, [A]) && Reaches(AFTER_A.model, [A], [A], v) && Reaches(AFTER_A.model, [A], [], v)
  {
    assert [A][1..] == [];
    assert Chain(AFTER_A.model, []);
    assert Reaches(AFTER_A.model, [], [], v);
  }

  // ---- The bytes ----

  /** The slot still spans a change of the high byte: nothing is written. */
  lemma Quiet(c: Coder, e: Event, low: nat, range: nat)
    requires Ready(c) && Proper(e) && Narrow(c, e) == Coder(low, range) && low + range < 0x1_0000_0000
    requires low / 0x100_0000 != (low + range) / 0x100_0000 && range >= 65536
    ensures Ready(Coder(low, range)) && Encode(c, e) == (Coder(low, range), [])
  {
    hide Straddles;
    NarrowInside(c, e);
    StraddlesMeans(Coder(low, range));
  }

  /** The slot lies within one high byte, and that one is written. */
  lemma Loud(c: Coder, e: Event, low: nat, range: nat, b: Byte, low': nat, range': nat)
    requires Ready(c) && Proper(e) && Narrow(c, e) == Coder(low, range) && low + range < 0x1_0000_0000
    requires b == low / 0x100_0000 == (low + range) / 0x100_0000
    requires low' == low % 0x100_0000 * 256 && range' == range * 256 && low' + range' < 0x1_0000_0000
    requires low' / 0x100_0000 != (low' + range') / 0x100_0000 && range' >= 65536
    ensures Ready(Coder(low', range')) && Encode(c, e) == (Coder(low', range'), [b])
  {
    hide Straddles, Shift, Narrow, Renormalize;
    NarrowInside(c, e);
    StraddlesMeans(Coder(low, range));
    TurnSound(Coder(low, range));
    StraddlesMeans(Coder(low', range'));
    RenormalizeOnce(Coder(low, range), Coder(low', range'));
  }

  lemma RenormalizeOnce(c: Coder, next: Coder)
    requires Sound(c) && !Settled(c) && Shift(Cut(c)) == next && Sound(next) && Settled(next)
    ensures Renormalize(c) == (next, [c.low / 0x100_0000])
  {
    hide Straddles, Shift, Cut, Sound;
    assert Renormalize(next) == (next, []);
    TurnSound(c);
    assert [c.low / TOP] + [] == [c.low / TOP];
  }

  lemma FlushStep(low: nat)
    requires 0 < low < WORD
    ensures Flush(low) == [low / 0x100_0000] + Flush(low % 0x100_0000 * 256)
  {
    FlushShorter(low);
  }

  lemma EmitStep(c: Coder, e: Event, rest: seq<Event>, next: Coder, bytes: seq<Byte>)
    requires Ready(c) && AllProper([e] + rest) && Ready(next)
    requires Proper(e) && Encode(c, e) == (next, bytes)
    ensures AllProper(rest) && Emit(c, [e] + rest) == bytes + Emit(next, rest)
  {
    hide Encode, Proper, Ready;
    assert ([e] + rest)[0] == e && ([e] + rest)[1..] == rest;
  }

  lemma EmitEnd(c: Coder)
    requires Ready(c)
    ensures Emit(c, []) == Flush(c.low)
  {
    hide Flush;
  }

  // ---- The same byte three times ----

  lemma AfterTwice()
    ensures After(AA).predicted == [A, A] && Has(After(AA).model, [A], SEEN_A) && Has(After(AA).model, [A, A], FRESH)
  {
    hide After, Good, Touched, SumBelow, Consistent;
    AfterOne();
    ReachA(A);
    Step([A], A, [A]);
    Step([A], A, [A, A]);
    FreshMiss(A);
    assert [A] + [A] == [A, A];
  }

  lemma EventsAA()
    ensures Good(AFTER_A) && Chain(AFTER_A.model, [A]) && Events(AFTER_A.model, [A], A) == [Event(98, 4, 260)]
  {
    hide SymbolEvent, Good, SumBelow, Events, Chain, HasEscapes, Reaches;
    AfterOne();
    ReachA(A);
    EventsFresh(AFTER_A.model, [A], A);
    assert [A][1..] == [];
    EventsHit(AFTER_A.model, [], A);
    SumOne(A, 3, A);
    EventInRoot(map[A := 3], 260, A);
  }

  lemma EventsAAA()
    ensures var s := After(AA); Good(s) && Chain(s.model, s.predicted) && s.predicted == [A, A]
    ensures Events(After(AA).model, [A, A], A) == [Event(5, 2, 7)]
  {
    hide After, Good, SumBelow, Consistent, Events, Chain;
    AfterTwice();
    AfterAdvances(AA, A);
    EventsFresh(After(AA).model, [A, A], A);
    assert [A, A][1..] == [A];
    EventsHit(After(AA).model, [A], A);
    SumOne(A, 2, A);
  }

  /** Unknown twice, then known to the context of one byte. */
  lemma MessageAAA()
    ensures Good(INITIAL)
    ensures AllEvents(INITIAL, [A, A, A]) == [Event(98, 1, 257), Event(98, 4, 260), Event(5, 2, 7)]
  {
    hide Good, Events, Advance, AllEvents, Chain, After;
    GoodInitial();
    StepA();
    AfterOne();
    EventsAA();
    EventsAAA();
    AfterAdvances([A], A);
    AfterAdvances(AA, A);
    assert [A] + [A] == AA && [A] + AA == [A, A, A] && [A] + [] == [A];
    AllEventsFirst(INITIAL, A, AA);
    AllEventsFirst(AFTER_A, A, [A]);
    AllEventsFirst(After(AA), A, []);
    AllEventsNone(Advance(After(AA), A));
    assert AllEvents(After(AA), [A]) == [Event(5, 2, 7)] + [];
    assert AllEvents(AFTER_A, AA) == [Event(98, 4, 260)] + ([Event(5, 2, 7)] + []);
    Three(Event(98, 1, 257), Event(98, 4, 260), Event(5, 2, 7));
  }

  lemma FlushAAA()
    ensures Flush(21799680) == [0x01, 0x4c, 0xa3]
  {
    hide Flush;
    FlushStep(21799680);
    FlushStep(1285750784);
    FlushStep(2734686208);
    FlushNone();
  }

  lemma FlushNone()
    ensures Flush(0) == []
  {
  }

  /** The byte 97 three times is compressed to four bytes. */
  lemma CompressedAAA()
    ensures Compressed([A, A, A]) == [0x62, 0x01, 0x4c, 0xa3]
  {
    hide Flush, Encode, Emit, AllEvents, Straddles, Good;
    MessageAAA();
    var e1, e2, e3 := Event(98, 1, 257), Event(98, 4, 260), Event(5, 2, 7);
    Three(e1, e2, e3);
    Quiet(START, e1, 1637769630, 16711935);
    Quiet(Coder(1637769630, 16711935), e2, 1644068678, 257104);
    Loud(Coder(1644068678, 257104), e3, 1644252323, 73458, 0x62, 21799680, 18805248);
    EmitStep(START, e1, [e2] + ([e3] + []), Coder(1637769630, 16711935), []);
    EmitStep(Coder(1637769630, 16711935), e2, [e3] + [], Coder(1644068678, 257104), []);
    EmitStep(Coder(1644068678, 257104), e3, [], Coder(21799680, 18805248), [0x62]);
    EmitEnd(Coder(21799680, 18805248));
    FlushAAA();
  }

  // ---- Four bytes with an escape ----

  /** What is left after 97, 98. */
  predicate TwoLeft(s: State) {
    && s.predicted == [A, B] && [B, A] !in s.model
    && Has(s.model, [], Context(map[A := 3, B := 3], 1, 263))
    && Has(s.model, [A], SEEN_B) && Has(s.model, [B], FRESH) && Has(s.model, [A, B], FRESH)
  }

  /** And after 97, 98, 97. */
  predicate ThreeLeft(s: State) {
    && s.predicted == [B, A]
    && Has(s.model, [], Context(map[A := 6, B := 3], 1, 266))
    && Has(s.model, [A], SEEN_B) && Has(s.model, [B, A], FRESH)
  }

  lemma AfterTwo()
    ensures TwoLeft(After(AB))
  {
    hide After, Good, Touched, SumBelow, Consistent;
    AfterOne();
    ReachA(B);
    Step([A], B, []);
    Step([A], B, [A]);
    Step([A], B, [B]);
    Step([A], B, [A, B]);
    Step([A], B, [B, A]);
    assert [A] + [B] == [A, B] && [] + [B] == [B];
    FreshMiss(B);
    GoodRoot(AFTER_A);
    RootTouched(ONE_A, B);
    assert ONE_A.counts[B := 3] == map[A := 3, B := 3];
  }

  lemma ReachAB(m: Model)
    requires Chain(m, [A, B]) && A !in m[[A, B]].counts && [B] in m && A !in m[[B]].counts
    ensures Reaches(m, [A, B], [A, B], A) && Reaches(m, [A, B], [B], A) && Reaches(m, [A, B], [], A)
    ensures !Reaches(m, [A, B], [A], A)
  {
    assert [A, B][1..] == [B] && [B][1..] == [];
    assert Reaches(m, [B], [], A);
    assert !Reaches(m, [], [A], A);
    assert !Reaches(m, [B], [A], A);
  }

  lemma AfterThree()
    ensures ThreeLeft(After(ABA))
  {
    hide After, Good, Touched, SumBelow, Consistent, Reaches;
    AfterTwo();
    var s := After(AB);
    Step(AB, A, []);
    Step(AB, A, [A]);
    Step(AB, A, [B]);
    Step(AB, A, [B, A]);
    ReachAB(s.model);
    assert [A, B] + [A] == [A, B, A] && [] + [A] == [A] && [B] + [A] == [B, A] && [A, B, A][1..] == [B, A];
    FreshMiss(A);
    GoodRoot(s);
    RootTouched(s.model[[]], A);
    assert s.model[[]].counts[A := 6] == map[A := 6, B := 3];
  }

  lemma EventsAB()
    ensures Good(AFTER_A) && Chain(AFTER_A.model, [A]) && Events(AFTER_A.model, [A], B) == [Event(102, 1, 260)]
  {
    hide SymbolEvent, Good, SumBelow, Events, Chain, HasEscapes, Reaches;
    AfterOne();
    ReachA(B);
    EventsFresh(AFTER_A.model, [A], B);
    assert [A][1..] == [];
    EventsHit(AFTER_A.model, [], B);
    SumOne(A, 3, B);
    EventInRoot(map[A := 3], 260, B);
  }

  lemma EventsABA()
    ensures var s := After(AB); Good(s) && Chain(s.model, s.predicted) && s.predicted == [A, B]
    ensures Events(After(AB).model, [A, B], A) == [Event(98, 4, 263)]
  {
    hide After, SymbolEvent, Good, SumBelow, Consistent, Events, Chain;
    AfterTwo();
    AfterAdvances(AB, A);
    var m := After(AB).model;
    EventsFresh(m, [A, B], A);
    assert [A, B][1..] == [B] && [B][1..] == [];
    EventsFresh(m, [B], A);
    EventsHit(m, [], A);
    SumTwo(A, 3, B, 3, A);
    EventInRoot(map[A := 3, B := 3], 263, A);
  }

  lemma EventsABAC()
    ensures var s := After(ABA); Good(s) && Chain(s.model, s.predicted) && s.predicted == [B, A]
    ensures Events(After(ABA).model, [B, A], C) == [Event(0, 5, 7), Event(109, 1, 266)]
  {
    hide After, SymbolEvent, Good, SumBelow, Consistent, Events, Chain;
    AfterThree();
    AfterAdvances(ABA, C);
    var m := After(ABA).model;
    EventsFresh(m, [B, A], C);
    assert [B, A][1..] == [A] && [A][1..] == [];
    EventsMiss(m, [A], C);
    EventsHit(m, [], C);
    SumTwo(A, 6, B, 3, C);
    EventInRoot(map[A := 6, B := 3], 266, C);
  }

  lemma Five(a: Event, b: Event, c: Event, d: Event, e: Event)
    ensures [a] + ([b] + ([c] + ([d, e] + []))) == [a, b, c, d, e]
    ensures [a] + ([b] + ([c] + ([d] + ([e] + [])))) == [a, b, c, d, e]
  {
  }

  /** The last byte escapes from the context of one byte, which knows another. */
  lemma MessageABAC()
    ensures Good(INITIAL)
    ensures AllEvents(INITIAL, [A, B, A, C]) ==
      [Event(98, 1, 257), Event(102, 1, 260), Event(98, 4, 263), Event(0, 5, 7), Event(109, 1, 266)]
  {
    hide Good, Events, Advance, AllEvents, Chain, After;
    GoodInitial();
    StepA();
    AfterOne();
    EventsAB();
    EventsABA();
    EventsABAC();
    AfterAdvances([A], B);
    AfterAdvances(AB, A);
    AfterAdvances(ABA, C);
    assert [A] + [B] == [A, B] && [A, B] + [A] == [A, B, A];
    AllEventsFirst(INITIAL, A, [B, A, C]);
    AllEventsFirst(AFTER_A, B, [A, C]);
    AllEventsFirst(After(AB), A, [C]);
    AllEventsFirst(After(ABA), C, []);
    AllEventsNone(Advance(After(ABA), C));
    assert [A] + [B, A, C] == [A, B, A, C] && [B] + [A, C] == [B, A, C] && [A] + [C] == [A, C] && [C] + [] == [C];
    var e1, e2, e3, e4, e5 :=
      Event(98, 1, 257), Event(102, 1, 260), Event(98, 4, 263), Event(0, 5, 7), Event(109, 1, 266);
    assert AllEvents(After(ABA), [C]) == [e4, e5] + [];
    assert AllEvents(After(AB), [A, C]) == [e3] + ([e4, e5] + []);
    assert AllEvents(AFTER_A, [B, A, C]) == [e2] + ([e3] + ([e4, e5] + []));
    Five(e1, e2, e3, e4, e5);
  }

  lemma FlushABAC()
    ensures Flush(1120646144) == [0x42, 0xcb, 0xb4]
  {
    hide Flush;
    FlushStep(1120646144);
    FlushStep(3417571328);
    FlushStep(3019898880);
    FlushNone();
  }

  /** And 97, 98, 97, 99 to six. */
  lemma CompressedABAC()
    ensures Compressed([A, B, A, C]) == [0x62, 0x02, 0xca, 0x42, 0xcb, 0xb4]
  {
    hide Flush, Encode, Emit, AllEvents, Straddles, Good;
    MessageABAC();
    var e1, e2, e3, e4, e5 :=
      Event(98, 1, 257), Event(102, 1, 260), Event(98, 4, 263), Event(0, 5, 7), Event(109, 1, 266);
    Five(e1, e2, e3, e4, e5);
    var c1, c2, c3, c4, c5 := Coder(1637769630, 16711935), Coder(40605184, 16454656), Coder(3374623232, 64066560),
      Coder(3374623232, 45761825), Coder(1120646144, 44041216);
    Quiet(START, e1, 1637769630, 16711935);
    Loud(c1, e2, 1644325782, 64276, 0x62, 40605184, 16454656);
    Loud(c2, e3, 46736554, 250260, 0x02, 3374623232, 64066560);
    Quiet(c3, e4, 3374623232, 45761825);
    Loud(c4, e5, 3393375156, 172036, 0xca, 1120646144, 44041216);
    EmitStep(START, e1, [e2] + ([e3] + ([e4] + ([e5] + []))), c1, []);
    EmitStep(c1, e2, [e3] + ([e4] + ([e5] + [])), c2, [0x62]);
    EmitStep(c2, e3, [e4] + ([e5] + []), c3, [0x02]);
    EmitStep(c3, e4, [e5] + [], c4, []);
    EmitStep(c4, e5, [], c5, [0xca]);
    EmitEnd(c5);
    FlushABAC();
    assert [0x62] + ([0x02] + ([0xca] + [0x42, 0xcb, 0xb4])) == [0x62, 0x02, 0xca, 0x42, 0xcb, 0xb4];
  }
}
