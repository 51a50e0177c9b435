/** What the model's contexts hold, told from the message alone. */
module PpmCounts {
  import opened Numbers
  import opened RangeCoder
  import opened Ppm

  // ---- One context ----

  function Front<T>(s: seq<T>): seq<T>
    requires s != []
  {
    s[..|s| - 1]
  }

  function Last<T>(s: seq<T>): T
    requires s != []
  {
    s[|s| - 1]
  }

  /** How often `v` occurs. */
  function Occurs(lessons: seq<Byte>, v: nat): nat {
    if lessons == [] then 0 else Occurs(Front(lessons), v) + if Last(lessons) == v then 1 else 0
  }

  /** How many are below `v`. */
  function Below(lessons: seq<Byte>, v: nat): nat {
    if lessons == [] then 0 else Below(Front(lessons), v) + if Last(lessons) < v then 1 else 0
  }

  function Values(lessons: seq<Byte>): set<Byte> { set v | v in lessons }

  /** A context that was taught these values, oldest first. */
  function Taught(lessons: seq<Byte>, root: bool): Context {
    if lessons == [] then (if root then ROOT else FRESH) else Touched(Taught(Front(lessons), root), root, Last(lessons))
  }

  lemma {:induction false} TaughtConsistent(lessons: seq<Byte>, root: bool)
    ensures Consistent(Taught(lessons, root), root) && Roomy(Taught(lessons, root), root)
    decreases |lessons|
  {
    hide Touched, Consistent, Roomy;
    if lessons == [] {
      RootConsistent();
      RootRoomy();
    } else {
      TaughtConsistent(Front(lessons), root);
      TouchedConsistent(Taught(Front(lessons), root), root, Last(lessons));
    }
  }

  /**
   * One lesson outside the root: the count grows by two, a new value adds five escapes, and all is halved
   * when the count was over 251 or the total goes over 65280.
   */
  lemma SubTouched(c: Context, v: Byte)
    requires Consistent(c, false)
    ensures var n, grown, c' := CountOf(c.counts, v), if v in c.counts then 0 else 5, Touched(c, false, v);
      if n <= 251 && c.total + grown + 2 <= 65280 then
        c' == Context(c.counts[v := n + 2], c.escapes + grown, c.total + grown + 2)
      else
        && c'.counts.Keys == c.counts.Keys + {v}
        && (forall w :: w in c'.counts && w != v ==> c'.counts[w] == (CountOf(c.counts, w) + 1) / 2)
        && c'.counts[v] == (n + 3) / 2
        && c'.escapes == (c.escapes + grown + 1) / 2
        && c'.total == c'.escapes + SumBelow(c'.counts, 256)
  {
    hide SumBelow;
    HalvedAt(Bumped(c, false, v).counts);
  }

  /** One lesson in the root: the count grows by three, and all is halved when it was 250 or more. */
  lemma RootTouched(c: Context, v: Byte)
    requires Consistent(c, true)
    ensures var n, c' := CountOf(c.counts, v), Touched(c, true, v);
      if n <= 249 && c.total + 3 <= 65280 then
        c' == Context(c.counts[v := n + 3], c.escapes, c.total + 3)
      else
        && c'.counts.Keys == c.counts.Keys + {v}
        && (forall w :: w in c'.counts && w != v ==> c'.counts[w] == (CountOf(c.counts, w) + 1) / 2)
        && c'.counts[v] == (n + 4) / 2
        && c'.escapes == (c.escapes + 1) / 2
        && c'.total == c'.escapes + SumBelow(c'.counts, 256) + 256
  {
    hide SumBelow;
    HalvedAt(Bumped(c, true, v).counts);
  }

  lemma HalvedAt(counts: map<Byte, nat>)
    ensures forall v :: v in Halved(counts) ==> Halved(counts)[v] == (counts[v] + 1) / 2
  {
    forall v | v in Halved(counts)
      ensures Halved(counts)[v] == (counts[v] + 1) / 2
    {
      assert CountOf(Halved(counts), v) == Halve(CountOf(counts, v));
    }
  }

  /** There is room for one more lesson without halving. */
  predicate Spare(before: seq<Byte>, v: Byte, root: bool) {
    if root then 3 * Occurs(before, v) <= 249 && 257 + 3 * (|before| + 1) <= 65280
    else 2 * Occurs(before, v) <= 251 && 5 * |Values(before + [v])| + 2 * (|before| + 1) <= 65280
  }

  /** These lessons never made a context halve its counts. */
  predicate Unscaled(lessons: seq<Byte>, root: bool)
    decreases |lessons|
  {
    lessons == [] || (Unscaled(Front(lessons), root) && Spare(Front(lessons), Last(lessons), root))
  }

  /** What a context holds that never halved its counts. */
  ghost predicate Plain(c: Context, lessons: seq<Byte>, root: bool) {
    && c.counts.Keys == Values(lessons)
    && (forall v :: v in lessons ==> c.counts[v] == (if root then 3 else 2) * Occurs(lessons, v))
    && c.escapes == (if root then 1 else 5 * |Values(lessons)|)
    && c.total == if root then 257 + 3 * |lessons| else 5 * |Values(lessons)| + 2 * |lessons|
  }

  lemma {:induction false} OccursNone(lessons: seq<Byte>, v: Byte)
    ensures Occurs(lessons, v) == 0 <==> v !in lessons
  {
    if lessons != [] {
      OccursNone(Front(lessons), v);
      assert lessons == Front(lessons) + [Last(lessons)];
    }
  }

  lemma ValuesMore(before: seq<Byte>, v: Byte)
    ensures Values(before + [v]) == Values(before) + {v}
    ensures |Values(before + [v])| == |Values(before)| + if v in before then 0 else 1
  {
  }

  lemma PlainSub(c: Context, before: seq<Byte>, v: Byte)
    requires Consistent(c, false) && Plain(c, before, false) && Spare(before, v, false)
    requires Occurs(before + [v], v) == Occurs(before, v) + 1
    requires forall w :: w in before && w != v ==> Occurs(before + [v], w) == Occurs(before, w)
    ensures Plain(Touched(c, false, v), before + [v], false)
  {
    hide Touched, SumBelow, Occurs, Consistent;
    SubTouched(c, v);
    ValuesMore(before, v);
    OccursNone(before, v);
  }

  lemma PlainRoot(c: Context, before: seq<Byte>, v: Byte)
    requires Consistent(c, true) && Plain(c, before, true) && Spare(before, v, true)
    requires Occurs(before + [v], v) == Occurs(before, v) + 1
    requires forall w :: w in before && w != v ==> Occurs(before + [v], w) == Occurs(before, w)
    ensures Plain(Touched(c, true, v), before + [v], true)
  {
    hide Touched, SumBelow, Occurs, Consistent;
    RootTouched(c, v);
    ValuesMore(before, v);
    OccursNone(before, v);
  }

  lemma OccursMore(before: seq<Byte>, v: Byte, w: nat)
    ensures Occurs(before + [v], w) == Occurs(before, w) + if w == v then 1 else 0
    ensures Below(before + [v], w) == Below(before, w) + if v < w then 1 else 0
  {
    assert Front(before + [v]) == before;
  }

  /** Counts are two a lesson, or three in the root; escapes five for each value, or one in the root. */
  lemma {:induction false} TaughtPlain(lessons: seq<Byte>, root: bool)
    requires Unscaled(lessons, root)
    ensures Plain(Taught(lessons, root), lessons, root)
    decreases |lessons|
  {
    hide Touched, Consistent, Roomy, SumBelow, Occurs, Spare;
    if lessons == [] {
      assert Values([]) == {};
    } else {
      var before, v := Front(lessons), Last(lessons);
      assert lessons == before + [v];
      TaughtPlain(before, root);
      TaughtConsistent(before, root);
      forall w { OccursMore(before, v, w); }
      if root {
        PlainRoot(Taught(before, true), before, v);
      } else {
        PlainSub(Taught(before, false), before, v);
      }
    }
  }

  lemma BelowSub(c: Context, before: seq<Byte>, v: Byte, w: nat)
    requires Consistent(c, false) && Plain(c, before, false) && Spare(before, v, false) && w <= 256
    ensures SumBelow(Touched(c, false, v).counts, w) == SumBelow(c.counts, w) + if v < w then 2 else 0
  {
    hide Touched, SumBelow, Occurs, Consistent;
    SubTouched(c, v);
    OccursNone(before, v);
    SumSet(c.counts, v, CountOf(c.counts, v) + 2, w);
    ValuesMore(before, v);
  }

  lemma BelowRoot(c: Context, before: seq<Byte>, v: Byte, w: nat)
    requires Consistent(c, true) && Plain(c, before, true) && Spare(before, v, true) && w <= 256
    ensures SumBelow(Touched(c, true, v).counts, w) == SumBelow(c.counts, w) + if v < w then 3 else 0
  {
    hide Touched, SumBelow, Occurs, Consistent;
    RootTouched(c, v);
    OccursNone(before, v);
    SumSet(c.counts, v, CountOf(c.counts, v) + 3, w);
  }

  lemma {:induction false} TaughtBelow(lessons: seq<Byte>, root: bool, v: nat)
    requires Unscaled(lessons, root) && v <= 256
    ensures SumBelow(Taught(lessons, root).counts, v) == (if root then 3 else 2) * Below(lessons, v)
    decreases |lessons|
  {
    hide Touched, Consistent, Roomy, SumBelow, Plain, Spare;
    if lessons == [] {
      SumEmpty(v);
    } else {
      var before, w := Front(lessons), Last(lessons);
      TaughtBelow(before, root, v);
      TaughtPlain(before, root);
      TaughtConsistent(before, root);
      if root {
        BelowRoot(Taught(before, true), before, w, v);
      } else {
        BelowSub(Taught(before, false), before, w, v);
      }
    }
  }

  // ---- The whole message ----

  /** Context `k` is one of those a byte coded after `h` is taught to: no longer one knows it. */
  ghost predicate Reaches(m: Model, h: History, k: History, v: Byte)
    requires Chain(m, h)
  {
    k == h || (h != [] && v !in m[h].counts && Reaches(m, h[1..], k, v))
  }

  lemma TouchReaches(m: Model, h: History, v: Byte, k: History)
    requires h in m
    ensures h + [v] in TouchAt(m, h, v)
    ensures k in TouchAt(m, h, v) <==> k in m || (k != [] && Last(k) == v && Front(k) == h)
    ensures k in TouchAt(m, h, v) ==>
      TouchAt(m, h, v)[k] == if k !in m then FRESH else if k == h then Touched(m[k], k == [], v) else m[k]
  {
    hide Touched;
    assert k != [] ==> k == Front(k) + [Last(k)];
    assert Front(h + [v]) == h && Last(h + [v]) == v;
  }

  /** One byte changes the contexts it reaches and no others, and gives it a context of its own behind each. */
  lemma {:induction false} LearnReaches(m: Model, h: History, v: Byte, k: History)
    requires Chain(m, h)
    ensures Reaches(m, h, k, v) ==> k in m && |k| <= |h| && k + [v] in Learn(m, h, v)
    ensures k in Learn(m, h, v) <==> k in m || (k != [] && Last(k) == v && Reaches(m, h, Front(k), v))
    ensures k in Learn(m, h, v) ==>
      Learn(m, h, v)[k] == if k !in m then FRESH else if Reaches(m, h, k, v) then Touched(m[k], k == [], v) else m[k]
    decreases |h|
  {
    hide Touched, TouchAt;
    if Hit(m, h, v) {
      TouchReaches(m, h, v, k);
      ReachesHit(m, h, k, v);
      if k != [] {
        ReachesHit(m, h, Front(k), v);
      }
    } else {
      LearnReaches(m, h[1..], v, k);
      TouchReaches(Learn(m, h[1..], v), h, v, k);
    }
  }

  lemma ReachesHit(m: Model, h: History, k: History, v: Byte)
    requires Chain(m, h) && Hit(m, h, v)
    ensures Reaches(m, h, k, v) <==> k == h
  {
  }

  /** The model and the next context after these bytes. */
  ghost function After(input: seq<Byte>): (s: State)
    ensures Good(s)
    decreases |input|
  {
    GoodInitial();
    if input == [] then INITIAL
    else
      AdvanceGood(After(Front(input)), Last(input));
      Advance(After(Front(input)), Last(input))
  }

  /** The model the last byte left behind held 4094 contexts or more, and the table starts over. */
  ghost predicate StartsOver(input: seq<Byte>)
    requires input != []
  {
    AdvanceGood(After(Front(input)), Last(input));
    |Learn(After(Front(input)).model, After(Front(input)).predicted, Last(input))| >= 4094
  }

  /** The bytes coded since the table last started over. */
  ghost function Since(input: seq<Byte>): seq<Byte>
    decreases |input|
  {
    hide Learn, After;
    if input == [] || StartsOver(input) then [] else Since(Front(input)) + [Last(input)]
  }

  /** The bytes among them that were taught to context `k`. */
  ghost function Lessons(input: seq<Byte>, k: History): seq<Byte>
    decreases |input|
  {
    if input == [] || StartsOver(input) then []
    else
      AdvanceGood(After(Front(input)), Last(input));
      var s := After(Front(input));
      Lessons(Front(input), k) + if Reaches(s.model, s.predicted, k, Last(input)) then [Last(input)] else []
  }

  /** One more byte: unless the table starts over, the model learns it behind at most two bytes. */
  lemma AfterMore(before: seq<Byte>, v: Byte)
    ensures Good(After(before)) && Chain(After(before).model, After(before).predicted)
    ensures var s, next := After(before), After(before + [v]);
      var m, h := Learn(s.model, s.predicted, v), s.predicted + [v];
      && (StartsOver(before + [v]) <==> |m| >= 4094)
      && next == if |m| >= 4094 then State(map[[] := Context(map[], 1, 257)], [])
        else State(m, if |h| > 2 then h[1..] else h)
  {
    hide Learn, Good, Reaches;
    AdvanceGood(After(before), v);
    assert Front(before + [v]) == before;
  }

  lemma SinceMore(before: seq<Byte>, v: Byte)
    ensures Since(before + [v]) == if StartsOver(before + [v]) then [] else Since(before) + [v]
  {
    hide After, StartsOver;
    assert Front(before + [v]) == before;
  }

  lemma {:induction false} SinceEnd(input: seq<Byte>)
    ensures |Since(input)| <= |input| && Since(input) == input[|input| - |Since(input)|..]
    decreases |input|
  {
    hide After, StartsOver, Since;
    if input == [] {
      SinceNone();
    } else {
      SinceEnd(Front(input));
      assert input == Front(input) + [Last(input)];
      SinceMore(Front(input), Last(input));
    }
  }

  lemma SinceNone()
    ensures Since([]) == [] && After([]) == INITIAL
  {
    hide StartsOver, Learn;
  }

  lemma {:induction false} LearnSmall(m: Model, h: History, v: Byte)
    requires Chain(m, h)
    ensures |Learn(m, h, v)| <= |m| + |h| + 1
    decreases |h|
  {
    hide Touched;
    if Hit(m, h, v) {
      TouchSmall(m, h, v);
    } else {
      LearnSmall(m, h[1..], v);
      TouchSmall(Learn(m, h[1..], v), h, v);
    }
  }

  lemma TouchSmall(m: Model, h: History, v: Byte)
    requires h in m
    ensures |TouchAt(m, h, v)| <= |m| + 1
  {
    hide Touched;
    var m' := TouchAt(m, h, v);
    assert |m'.Keys| <= |m.Keys| + 1;
  }

  /** A byte adds at most three contexts, so that no message of up to 1364 bytes starts the table over. */
  lemma {:induction false} ShortNeverStartsOver(input: seq<Byte>)
    requires |input| <= 1364
    ensures Since(input) == input && |After(input).model| <= 1 + 3 * |input|
    ensures input != [] ==> !StartsOver(input)
    decreases |input|
  {
    hide Learn, Good, After, Since, StartsOver, Chain;
    if input == [] {
      SinceNone();
    } else {
      var before, v := Front(input), Last(input);
      assert input == before + [v];
      ShortNeverStartsOver(before);
      AfterMore(before, v);
      Predicts(before);
      SinceMore(before, v);
      LearnSmall(After(before).model, After(before).predicted, v);
    }
  }

  /** The next byte is expected after the last two, or as many as there are. */
  lemma {:induction false} Predicts(input: seq<Byte>)
    ensures After(input).predicted == var since := Since(input);
      if |since| >= 2 then since[|since| - 2..] else since
    decreases |input|
  {
    hide Learn, Good, After, Since, StartsOver;
    if input == [] {
      SinceNone();
    } else {
      var before, v := Front(input), Last(input);
      assert input == before + [v];
      Predicts(before);
      AfterMore(before, v);
      SinceMore(before, v);
    }
  }

  lemma LessonsMore(before: seq<Byte>, v: Byte, k: History)
    ensures Chain(After(before).model, After(before).predicted)
    ensures var s := After(before);
      Lessons(before + [v], k) ==
      if StartsOver(before + [v]) then []
      else if Reaches(s.model, s.predicted, k, v) then Lessons(before, k) + [v] else Lessons(before, k)
  {
    hide Learn, StartsOver, Good, After, Reaches;
    AfterMore(before, v);
    assert Front(before + [v]) == before;
  }

  lemma LessonsNone(k: History)
    ensures Lessons([], k) == []
  {
    hide Learn, StartsOver, Good, After, Reaches;
  }

  /** Every context holds what its lessons make it hold. */
  lemma {:induction false} ModelHolds(input: seq<Byte>, k: History)
    ensures k in After(input).model ==> After(input).model[k] == Taught(Lessons(input, k), k == [])
    ensures k !in After(input).model ==> Lessons(input, k) == []
    decreases |input|
  {
    hide Learn, Good, Reaches, Touched, Taught, After, Lessons, StartsOver, Chain;
    TaughtNone(k == []);
    if input == [] {
      SinceNone();
      LessonsNone(k);
    } else {
      var before, v := Front(input), Last(input);
      assert input == before + [v];
      var s := After(before);
      ModelHolds(before, k);
      AfterMore(before, v);
      LessonsMore(before, v, k);
      LearnReaches(s.model, s.predicted, v, k);
      TaughtMore(Lessons(before, k), v, k == []);
      RootIn(before);
    }
  }

  lemma RootIn(before: seq<Byte>)
    ensures [] in After(before).model
  {
    hide After;
  }

  lemma TaughtNone(root: bool)
    ensures Taught([], root) == if root then Context(map[], 1, 257) else Context(map[], 0, 0)
  {
  }

  lemma TaughtMore(lessons: seq<Byte>, v: Byte, root: bool)
    ensures Taught(lessons + [v], root) == Touched(Taught(lessons, root), root, v)
  {
    hide Touched;
    assert Front(lessons + [v]) == lessons;
  }

  /** After any message: the numbers in a context that never halved its counts. */
  lemma ContextHolds(input: seq<Byte>, k: History)
    requires k in After(input).model && Unscaled(Lessons(input, k), k == [])
    ensures Plain(After(input).model[k], Lessons(input, k), k == [])
  {
    hide *;
    ModelHolds(input, k);
    TaughtPlain(Lessons(input, k), k == []);
  }

  /** And the slots it codes with. */
  lemma SlotsHold(input: seq<Byte>, k: History, v: Byte)
    requires k in After(input).model && Unscaled(Lessons(input, k), k == [])
    ensures var c, lessons := After(input).model[k], Lessons(input, k);
      if k == [] then
        SymbolEvent(c, true, v) ==
          Event(1 + 3 * Below(lessons, v) + v, 1 + 3 * Occurs(lessons, v), 257 + 3 * |lessons|)
      else
        var escapes := 5 * |Values(lessons)|;
        && SymbolEvent(c, false, v) ==
          Event(escapes + 2 * Below(lessons, v), 2 * Occurs(lessons, v), escapes + 2 * |lessons|)
        && EscapeEvent(c) == Event(0, escapes, escapes + 2 * |lessons|)
        && (HasEscapes(c) <==> lessons != [])
  {
    hide *;
    ModelHolds(input, k);
    TaughtSlots(Lessons(input, k), k == [], v);
  }

  lemma TaughtSlots(lessons: seq<Byte>, root: bool, v: Byte)
    requires Unscaled(lessons, root)
    ensures var c := Taught(lessons, root);
      if root then
        SymbolEvent(c, true, v) ==
          Event(1 + 3 * Below(lessons, v) + v, 1 + 3 * Occurs(lessons, v), 257 + 3 * |lessons|)
      else
        var escapes := 5 * |Values(lessons)|;
        && SymbolEvent(c, false, v) ==
          Event(escapes + 2 * Below(lessons, v), 2 * Occurs(lessons, v), escapes + 2 * |lessons|)
        && EscapeEvent(c) == Event(0, escapes, escapes + 2 * |lessons|)
        && (HasEscapes(c) <==> lessons != [])
  {
    hide Taught, Unscaled, SumBelow, Occurs, Below, Values;
    TaughtPlain(lessons, root);
    TaughtBelow(lessons, root, v);
    OccursNone(lessons, v);
    ValuesNone(lessons);
    ValuesMean(lessons, v);
  }

  lemma ValuesMean(lessons: seq<Byte>, v: Byte)
    ensures v in Values(lessons) <==> v in lessons
  {
  }

  lemma ValuesNone(lessons: seq<Byte>)
    ensures |Values(lessons)| == 0 <==> lessons == []
  {
    if lessons != [] {
      assert lessons[0] in Values(lessons);
    }
  }

  lemma AllEventsNone(s: State)
    requires Good(s)
    ensures AllEvents(s, []) == []
  {
    hide Good, Events;
  }

  lemma AfterAdvances(before: seq<Byte>, v: Byte)
    ensures Good(After(before)) && Chain(After(before).model, After(before).predicted)
    ensures After(before + [v]) == Advance(After(before), v)
  {
    hide Advance, Good;
    AdvanceGood(After(before), v);
    assert Front(before + [v]) == before;
  }

  /** The events of a message are those of its bytes, each coded with the model the bytes before it left. */
  lemma {:induction false} EventsAt(before: seq<Byte>, rest: seq<Byte>)
    ensures Good(INITIAL) && Good(After(before))
    ensures AllEvents(INITIAL, before + rest) == AllEvents(INITIAL, before) + AllEvents(After(before), rest)
    decreases |before|
  {
    hide *;
    GoodInitial();
    if before == [] {
      SinceNone();
      AllEventsNone(INITIAL);
      assert before + rest == rest;
    } else {
      var front, v := before[..|before| - 1], before[|before| - 1];
      assert before == front + [v];
      assert before + rest == front + ([v] + rest);
      AfterAdvances(front, v);
      EventsAt(front, [v] + rest);
      EventsAt(front, [v]);
      AllEventsFirst(After(front), v, rest);
      AllEventsFirst(After(front), v, []);
      AllEventsNone(Advance(After(front), v));
      assert [v] + [] == [v];
    }
  }
}
