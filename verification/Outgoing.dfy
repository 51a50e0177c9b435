/** The sending side of a channel: its two lists, the window counters, the gate, timeouts and acknowledgements. */
module Outgoing {
  import opened Transport
  import opened Sequence

  datatype Command = Command(number: nat, attempts: nat)

  /** The commands stand for these numbers. */
  ghost predicate Stands(commands: seq<Command>, xs: seq<nat>) {
    |commands| == |xs| && forall i :: 0 <= i < |xs| ==> commands[i].number == Wire(xs[i])
  }

  ghost predicate Distinct(xs: seq<nat>) { forall i, j :: 0 <= i < j < |xs| ==> xs[i] != xs[j] }

  /** The numbers after `from`, `n` of them. */
  function After(from: nat, n: nat): (xs: seq<nat>)
    ensures |xs| == n && forall i :: 0 <= i < n ==> xs[i] == from + 1 + i
  {
    seq(n, i requires 0 <= i < n => from + 1 + i)
  }

  // ---- The counters ----

  /** Each window's counter is the number of its outstanding commands, and its flag says whether there are any. */
  ghost predicate Counted(windows: seq<nat>, used: seq<bool>, unacked: set<nat>) {
    && |windows| == |used| == WINDOWS
    && forall w :: 0 <= w < WINDOWS ==> windows[w] == |InWindow(unacked, w)| && (used[w] <==> windows[w] > 0)
  }

  lemma WireWindow(x: nat)
    ensures Wire(x) / WINDOW == Win(x) % WINDOWS < WINDOWS
    ensures Wire(x) % WINDOW == x % WINDOW
  {
    var cycle, w := Halves(x);
    ModWindows(cycle, w / WINDOW);
    WindowRemainder(cycle, w);
  }

  lemma ModWindows(cycle: nat, i: nat)
    requires i < WINDOWS
    ensures (cycle * WINDOWS + i) % WINDOWS == i
  {
  }

  lemma WindowRemainder(cycle: nat, w: nat)
    requires w < WRAP
    ensures (cycle * WRAP + w) % WINDOW == w % WINDOW
  {
  }

  lemma InWindowAdd(unacked: set<nat>, x: nat, w: int)
    ensures x !in unacked ==>
      |InWindow(unacked + {x}, w)| == |InWindow(unacked, w)| + if Win(x) % WINDOWS == w then 1 else 0
    ensures x in unacked ==>
      |InWindow(unacked - {x}, w)| == |InWindow(unacked, w)| - if Win(x) % WINDOWS == w then 1 else 0
  {
    if Win(x) % WINDOWS == w {
      assert x !in unacked ==> InWindow(unacked + {x}, w) == InWindow(unacked, w) + {x};
      assert x in unacked ==> InWindow(unacked - {x}, w) == InWindow(unacked, w) - {x};
    } else {
      assert x !in unacked ==> InWindow(unacked + {x}, w) == InWindow(unacked, w);
      assert x in unacked ==> InWindow(unacked - {x}, w) == InWindow(unacked, w);
    }
  }

  lemma CountedAdd(windows: seq<nat>, used: seq<bool>, unacked: set<nat>, x: nat)
    requires Counted(windows, used, unacked) && x !in unacked
    ensures var w := Win(x) % WINDOWS;
      Counted(windows[w := windows[w] + 1], used[w := true], unacked + {x})
  {
    hide Win, InWindow;
    forall w | 0 <= w < WINDOWS
      ensures |InWindow(unacked + {x}, w)| == |InWindow(unacked, w)| + if Win(x) % WINDOWS == w then 1 else 0
    {
      InWindowAdd(unacked, x, w);
    }
  }

  lemma CountedRemove(windows: seq<nat>, used: seq<bool>, unacked: set<nat>, x: nat)
    requires Counted(windows, used, unacked) && x in unacked
    ensures var w := Win(x) % WINDOWS;
      && windows[w] > 0
      && Counted(windows[w := windows[w] - 1], if windows[w] == 1 then used[w := false] else used, unacked - {x})
  {
    hide Win, InWindow;
    forall w | 0 <= w < WINDOWS
      ensures |InWindow(unacked - {x}, w)| == |InWindow(unacked, w)| - if Win(x) % WINDOWS == w then 1 else 0
    {
      InWindowAdd(unacked, x, w);
    }
  }

  function Slot(w: nat, i: nat): (v: nat)
    ensures v < WINDOWS
  {
    (w + i) % WINDOWS
  }

  /** The flags of the ten windows from `w` on, modulo 16. */
  predicate AnyUsed(used: seq<bool>, w: nat)
    requires |used| == WINDOWS
  {
    exists i: nat :: i < FREE_WINDOWS + 2 && used[Slot(w, i)]
  }

  /** The gate's mask: ten ones shifted up to the window, and those that fell off at the top brought round. */
  function GateMask(w: bv8): bv32
    requires w <= 16
  {
    var ten: bv32 := 0x3FF;
    (ten << w) | (ten >> (16 - w))
  }
  predicate Bit(word: bv32, i: bv8)
    requires i < 32
  {
    (word >> i) & 1 == 1
  }

  /** The mask selects exactly the ten flags from `w` on, modulo 16. */
  lemma GateMaskSelects(w: bv8, i: bv8)
    requires w < 16 && i < 16
    ensures Bit(GateMask(w), i) <==> ((i + 16) - w) & 15 < 10
  {
  }

  lemma Distance(w: bv8, i: bv8)
    requires w < 16 && i < 16
    ensures (((i + 16) - w) & 15) as int == (i as int + 16 - w as int) % 16
  {
  }

  function Flag(b: bool, i: bv8): bv32
    requires i < 32
  {
    if b then (1 as bv32) << i else 0
  }

  /** The flags as the bits of one word. */
  function FlagsWord(used: seq<bool>): bv32
    requires |used| == WINDOWS
  {
    Flag(used[0], 0) | Flag(used[1], 1) | Flag(used[2], 2) | Flag(used[3], 3)
    | Flag(used[4], 4) | Flag(used[5], 5) | Flag(used[6], 6) | Flag(used[7], 7)
    | Flag(used[8], 8) | Flag(used[9], 9) | Flag(used[10], 10) | Flag(used[11], 11)
    | Flag(used[12], 12) | Flag(used[13], 13) | Flag(used[14], 14) | Flag(used[15], 15)
  }

  lemma FlagAt(used: seq<bool>, i: bv8)
    requires |used| == WINDOWS && i < 16
    ensures Bit(FlagsWord(used), i) <==> used[i as int]
  {
  }

  lemma FlagsFit(used: seq<bool>)
    requires |used| == WINDOWS
    ensures FlagsWord(used) < 0x10000
  {
  }

  /** Two words of 16 bits meet in some bit. */
  lemma Meet(a: bv32, b: bv32)
    requires a < 0x10000
    ensures a & b != 0 <==> exists i: bv8 :: i < 16 && Bit(a, i) && Bit(b, i)
  {
    if a & b != 0 {
      SixteenBits(a, b);
    }
    hide Bit;
    if i: bv8 :| i < 16 && Bit(a, i) && Bit(b, i) {
      OneBit(a, b, i);
    }
  }

  lemma OneBit(a: bv32, b: bv32, i: bv8)
    requires i < 16 && Bit(a, i) && Bit(b, i)
    ensures a & b != 0
  {
  }

  lemma SixteenBits(a: bv32, b: bv32)
    requires a < 0x10000 && a & b != 0
    ensures
      || (Bit(a, 0) && Bit(b, 0)) || (Bit(a, 1) && Bit(b, 1)) || (Bit(a, 2) && Bit(b, 2)) || (Bit(a, 3) && Bit(b, 3))
      || (Bit(a, 4) && Bit(b, 4)) || (Bit(a, 5) && Bit(b, 5)) || (Bit(a, 6) && Bit(b, 6)) || (Bit(a, 7) && Bit(b, 7))
      || (Bit(a, 8) && Bit(b, 8)) || (Bit(a, 9) && Bit(b, 9)) || (Bit(a, 10) && Bit(b, 10))
      || (Bit(a, 11) && Bit(b, 11))
      || (Bit(a, 12) && Bit(b, 12)) || (Bit(a, 13) && Bit(b, 13)) || (Bit(a, 14) && Bit(b, 14))
      || (Bit(a, 15) && Bit(b, 15))
  {
  }

  lemma AnyUsedAt(used: seq<bool>, w: nat)
    requires |used| == WINDOWS && w < WINDOWS
    ensures AnyUsed(used, w) <==> exists i :: 0 <= i < WINDOWS && used[i] && (i + 16 - w) % 16 < FREE_WINDOWS + 2
  {
    if d: nat :| d < FREE_WINDOWS + 2 && used[Slot(w, d)] {
      assert (Slot(w, d) + 16 - w) % 16 == d;
    }
    if i :| 0 <= i < WINDOWS && used[i] && (i + 16 - w) % 16 < FREE_WINDOWS + 2 {
      assert Slot(w, (i + 16 - w) % 16) == i;
    }
  }

  lemma Selected(used: seq<bool>, w: bv8, i: bv8)
    requires |used| == WINDOWS && w < 16 && i < 16
    ensures Bit(FlagsWord(used), i) && Bit(GateMask(w), i) <==> used[i as int] && (i as int + 16 - w as int) % 16 < 10
  {
    hide GateMask, FlagsWord, Bit;
    FlagAt(used, i);
    GateMaskSelects(w, i);
    Distance(w, i);
  }

  lemma Index(i: nat) returns (j: bv8)
    requires i < WINDOWS
    ensures j < 16 && j as int == i
  {
    j := i as bv8;
  }

  lemma MaskedIsUsed(used: seq<bool>, w: bv8)
    requires |used| == WINDOWS && w < 16 && FlagsWord(used) & GateMask(w) != 0
    ensures AnyUsed(used, w as int)
  {
    hide AnyUsed, GateMask, FlagsWord, Bit;
    FlagsFit(used);
    Meet(FlagsWord(used), GateMask(w));
    AnyUsedAt(used, w as int);
    var i: bv8 :| i < 16 && Bit(FlagsWord(used), i) && Bit(GateMask(w), i);
    Selected(used, w, i);
  }

  lemma UsedIsMasked(used: seq<bool>, w: bv8)
    requires |used| == WINDOWS && w < 16 && AnyUsed(used, w as int)
    ensures FlagsWord(used) & GateMask(w) != 0
  {
    hide AnyUsed, GateMask, FlagsWord, Bit;
    FlagsFit(used);
    Meet(FlagsWord(used), GateMask(w));
    AnyUsedAt(used, w as int);
    var i :| 0 <= i < WINDOWS && used[i] && (i + 16 - w as int) % 16 < FREE_WINDOWS + 2;
    var j := Index(i);
    Selected(used, w, j);
  }

  /** The masked word of flags is not zero exactly when one of the ten windows from `w` on is in use. */
  lemma MaskDecides(used: seq<bool>, w: bv8)
    requires |used| == WINDOWS && w < 16
    ensures FlagsWord(used) & GateMask(w) != 0 <==> AnyUsed(used, w as int)
  {
    hide *;
    if FlagsWord(used) & GateMask(w) != 0 {
      MaskedIsUsed(used, w);
    }
    if AnyUsed(used, w as int) {
      UsedIsMasked(used, w);
    }
  }

  /** Blocked at the start of a window, by the flags and the counter of the window before. */
  predicate Blocked(number: nat, windows: seq<nat>, used: seq<bool>)
    requires |windows| == |used| == WINDOWS
  {
    number % WINDOW == 0 && (windows[Slot(number / WINDOW, WINDOWS - 1)] >= WINDOW || AnyUsed(used, number / WINDOW))
  }

  lemma WatchedIndex(x: nat, y: nat, i: nat)
    requires i < WINDOWS
    ensures (Win(y) - Win(x)) % WINDOWS == i <==> Win(y) % WINDOWS == Slot(Win(x) % WINDOWS, i)
  {
    hide Win;
    var p, r, q, t := Win(x) / WINDOWS, Win(x) % WINDOWS, Win(y) / WINDOWS, Win(y) % WINDOWS;
    var d := if t >= r then t - r else t - r + WINDOWS;
    Remainder(if t >= r then q - p else q - p - 1, d, Win(y) - Win(x));
  }

  lemma Remainder(k: int, d: nat, n: int)
    requires n == WINDOWS * k + d && d < WINDOWS
    ensures n % WINDOWS == d
  {
  }

  lemma WatchedAt(x: nat, y: nat) returns (i: nat)
    ensures i < WINDOWS && Win(y) % WINDOWS == Slot(Win(x) % WINDOWS, i) && (Watched(x, y) <==> i < FREE_WINDOWS + 2)
  {
    i := (Win(y) - Win(x)) % WINDOWS;
    WatchedIndex(x, y, i);
  }

  lemma UsedMeans(windows: seq<nat>, used: seq<bool>, unacked: set<nat>, w: nat)
    requires Counted(windows, used, unacked) && w < WINDOWS
    ensures used[w] <==> exists y :: y in unacked && Win(y) % WINDOWS == w
  {
    hide Win;
    if used[w] {
      assert InWindow(unacked, w) != {};
      var y :| y in InWindow(unacked, w);
    }
    if y :| y in unacked && Win(y) % WINDOWS == w {
      assert y in InWindow(unacked, w);
    }
  }

  /** The flags decide as the watched windows do. */
  lemma FlagsDecide(windows: seq<nat>, used: seq<bool>, unacked: set<nat>, x: nat)
    requires Counted(windows, used, unacked)
    ensures AnyUsed(used, Win(x) % WINDOWS) <==> exists y :: y in unacked && Watched(x, y)
  {
    hide Win, Watched, Slot, InWindow, Counted;
    CountedSizes(windows, used, unacked);
    if y :| y in unacked && Watched(x, y) {
      var i := WatchedAt(x, y);
      UsedMeans(windows, used, unacked, Slot(Win(x) % WINDOWS, i));
    }
    if i: nat :| i < FREE_WINDOWS + 2 && used[Slot(Win(x) % WINDOWS, i)] {
      UsedMeans(windows, used, unacked, Slot(Win(x) % WINDOWS, i));
      var y :| y in unacked && Win(y) % WINDOWS == Slot(Win(x) % WINDOWS, i);
      WatchedIndexIs(x, y, i);
    }
  }

  lemma WatchedIndexIs(x: nat, y: nat, i: nat)
    requires i < FREE_WINDOWS + 2 && Win(y) % WINDOWS == Slot(Win(x) % WINDOWS, i)
    ensures Watched(x, y)
  {
    WatchedIndex(x, y, i);
  }

  lemma CountedSizes(windows: seq<nat>, used: seq<bool>, unacked: set<nat>)
    requires Counted(windows, used, unacked)
    ensures |windows| == |used| == WINDOWS && forall w :: 0 <= w < WINDOWS ==> windows[w] == |InWindow(unacked, w)|
  {
  }

  /** The flags and counters decide as the gate does. */
  lemma GateDecides(windows: seq<nat>, used: seq<bool>, unacked: set<nat>, x: nat)
    requires Counted(windows, used, unacked)
    ensures |windows| == |used| == WINDOWS
    ensures Blocked(Wire(x), windows, used) <==> !GateOpen(x, unacked)
  {
    hide Win, Wire, Counted, Watched, InWindow, AnyUsed;
    CountedSizes(windows, used, unacked);
    WireWindow(x);
    FlagsDecide(windows, used, unacked, x);
    PreviousIndex(x);
  }

  lemma PreviousIndex(x: nat)
    ensures (Win(x) + WINDOWS - 1) % WINDOWS == Slot(Win(x) % WINDOWS, WINDOWS - 1)
  {
  }

  // ---- The two lists ----

  /** The last number given out. */
  function Last(s: State): nat { End(s.sizes, |s.sizes|) }

  /**
   * `waiting` holds commands to be sent again, for the numbers `rs`, and then all those never sent; `kept` holds
   * the commands sent and not acknowledged, for `ss`. Together `rs` and `ss` are the outstanding numbers.
   */
  ghost predicate Lists(waiting: seq<Command>, kept: seq<Command>, rs: seq<nat>, ss: seq<nat>, s: State) {
    && s.sent <= Last(s) && |waiting| == |rs| + (Last(s) - s.sent)
    && Stands(waiting[..|rs|], rs) && Stands(waiting[|rs|..], After(s.sent, Last(s) - s.sent)) && Stands(kept, ss)
    && Tried(waiting[..|rs|]) && Untried(waiting[|rs|..]) && Tried(kept)
    && Distinct(rs) && Distinct(ss) && (forall x :: x in rs ==> x !in ss)
    && (forall x :: x in s.unacked <==> x in rs || x in ss)
  }

  ghost predicate Tried(commands: seq<Command>) { forall i :: 0 <= i < |commands| ==> commands[i].attempts > 0 }

  ghost predicate Untried(commands: seq<Command>) { forall i :: 0 <= i < |commands| ==> commands[i].attempts == 0 }

  function Again(c: Command): Command { Command(c.number, c.attempts + 1) }

  /** A packet of one more number at the end. */
  lemma ListsSubmit(waiting: seq<Command>, kept: seq<Command>, rs: seq<nat>, ss: seq<nat>, s: State, n: nat, c: Command)
    requires s.sent <= Last(s) + n
    requires |waiting| == |rs| + (Last(s) + n - s.sent)
    requires Stands(waiting[|rs|..], After(s.sent, Last(s) + n - s.sent)) && Untried(waiting[|rs|..])
    requires c == Command(Wire(Last(s) + n + 1), 0)
    ensures (waiting + [c])[..|rs|] == waiting[..|rs|]
    ensures Stands((waiting + [c])[|rs|..], After(s.sent, Last(s) + n + 1 - s.sent)) && Untried((waiting + [c])[|rs|..])
  {
    hide Wire, End;
    assert (waiting + [c])[|rs|..] == waiting[|rs|..] + [c];
  }

  /** Sending the first of the waiting commands for the first time. */
  lemma ListsSendNew(waiting: seq<Command>, kept: seq<Command>, ss: seq<nat>, s: State)
    requires Lists(waiting, kept, [], ss, s) && waiting != [] && s.sent + 1 !in s.unacked
    ensures s.sent < Last(s) && waiting[0].number == Wire(s.sent + 1) && waiting[0].attempts == 0
    ensures Lists(waiting[1..], kept + [Again(waiting[0])], [], ss + [s.sent + 1],
      s.(sent := s.sent + 1, unacked := s.unacked + {s.sent + 1}))
  {
    hide Wire, End;
    assert waiting[0..] == waiting;
    assert waiting[1..][0..] == waiting[1..];
    assert waiting[..0] == waiting[1..][..0] == [];
    var xs := After(s.sent, Last(s) - s.sent);
    assert xs[0] == s.sent + 1;
    forall i | 0 <= i < |waiting| - 1
      ensures waiting[1..][i].number == Wire(After(s.sent + 1, Last(s) - s.sent - 1)[i])
    {
      assert waiting[0..][i + 1].number == Wire(xs[i + 1]);
    }
  }

  /** Sending the first of the waiting commands again. */
  lemma ListsResend(waiting: seq<Command>, kept: seq<Command>, rs: seq<nat>, ss: seq<nat>, s: State)
    requires Lists(waiting, kept, rs, ss, s) && rs != []
    ensures waiting != [] && waiting[0].attempts > 0 && rs[0] in s.unacked && waiting[0].number == Wire(rs[0])
    ensures Lists(waiting[1..], kept + [Again(waiting[0])], rs[1..], ss + [rs[0]], s)
  {
    hide Wire, End;
    assert waiting[..|rs|][0] == waiting[0];
    assert waiting[1..][..|rs| - 1] == waiting[..|rs|][1..];
    assert waiting[1..][|rs| - 1..] == waiting[|rs|..];
    forall x | x in rs
      ensures x == rs[0] || x in rs[1..]
    {
      var i :| 0 <= i < |rs| && rs[i] == x;
      assert i > 0 ==> rs[1..][i - 1] == x;
    }
  }

  /** A kept command that timed out goes back in front of the waiting ones, behind those moved before it. */
  lemma ListsTimeout(waiting: seq<Command>, kept: seq<Command>, rs: seq<nat>, ss: seq<nat>, s: State, at: nat, i: nat)
    requires Lists(waiting, kept, rs, ss, s) && i < |kept| && at <= |rs|
    ensures |ss| == |kept| && at <= |waiting|
    ensures Lists(Put(waiting, at, kept[i]), Cut(kept, i), Put(rs, at, ss[i]), Cut(ss, i), s)
  {
    hide Wire, End;
    var w, r := Put(waiting, at, kept[i]), Put(rs, at, ss[i]);
    assert w[..|rs| + 1] == Put(waiting[..|rs|], at, kept[i]);
    assert w[|rs| + 1..] == waiting[|rs|..];
    PutElements(rs, at, ss[i]);
    CutElements(ss, i);
    PutDistinct(rs, at, ss[i]);
    CutDistinct(ss, i);
  }

  function Put<T>(s: seq<T>, at: nat, e: T): (r: seq<T>)
    requires at <= |s|
    ensures |r| == |s| + 1 && forall j :: 0 <= j < |r| ==>
      r[j] == if j < at then s[j] else if j == at then e else s[j - 1]
  {
    s[..at] + [e] + s[at..]
  }

  function Cut<T>(s: seq<T>, i: nat): (r: seq<T>)
    requires i < |s|
    ensures |r| == |s| - 1 && forall j :: 0 <= j < |r| ==> r[j] == if j < i then s[j] else s[j + 1]
  {
    s[..i] + s[i + 1..]
  }

  lemma PutElements(s: seq<nat>, at: nat, e: nat)
    requires at <= |s|
    ensures forall x :: x in Put(s, at, e) <==> x in s || x == e
  {
    assert s == s[..at] + s[at..];
  }

  lemma CutElements(s: seq<nat>, i: nat)
    requires i < |s| && Distinct(s)
    ensures forall x :: x in Cut(s, i) <==> x in s && x != s[i]
  {
    assert s == s[..i] + [s[i]] + s[i + 1..];
  }

  lemma PutDistinct(s: seq<nat>, at: nat, e: nat)
    requires at <= |s| && Distinct(s) && e !in s
    ensures Distinct(Put(s, at, e))
  {
    var r := Put(s, at, e);
    forall i, j | 0 <= i < j < |r|
      ensures r[i] != r[j]
    {
      var x, y := if i < at then i else i - 1, if j < at then j else j - 1;
      assert i != at ==> r[i] == s[x];
      assert j != at ==> r[j] == s[y];
    }
  }

  lemma CutDistinct(s: seq<nat>, i: nat)
    requires i < |s| && Distinct(s)
    ensures Distinct(Cut(s, i))
  {
    var r := Cut(s, i);
    forall x, y | 0 <= x < y < |r|
      ensures r[x] != r[y]
    {
      assert r[x] == s[if x < i then x else x + 1] && r[y] == s[if y < i then y else y + 1];
    }
  }

  /** An acknowledged number leaves whichever list it is in. */
  lemma ListsKeptAcked(waiting: seq<Command>, kept: seq<Command>, rs: seq<nat>, ss: seq<nat>, s: State, i: nat)
    requires Lists(waiting, kept, rs, ss, s) && i < |kept|
    ensures |ss| == |kept| && ss[i] in s.unacked
    ensures Lists(waiting, Cut(kept, i), rs, Cut(ss, i), s.(unacked := s.unacked - {ss[i]}))
  {
    hide Wire, End;
    CutElements(ss, i);
    CutDistinct(ss, i);
  }

  lemma ListsWaitingAcked(waiting: seq<Command>, kept: seq<Command>, rs: seq<nat>, ss: seq<nat>, s: State, i: nat)
    requires Lists(waiting, kept, rs, ss, s) && i < |rs|
    ensures i < |waiting| && rs[i] in s.unacked
    ensures Lists(Cut(waiting, i), kept, Cut(rs, i), ss, s.(unacked := s.unacked - {rs[i]}))
  {
    hide Wire, End;
    CutElements(rs, i);
    CutDistinct(rs, i);
    assert Cut(waiting, i)[..|rs| - 1] == Cut(waiting[..|rs|], i);
    assert Cut(waiting, i)[|rs| - 1..] == waiting[|rs|..];
  }

  // ---- The sender ----

  /** Two outstanding numbers are never sent as the same. */
  lemma OnlyThisOne(s: State, x: nat, y: nat)
    requires Safe(s) && x in s.unacked && y in s.unacked && Wire(x) == Wire(y)
    ensures x == y
  {
    hide Wire, ReceiverSound, Sizes, End;
    OutstandingNear(s, x);
    OutstandingNear(s, y);
    if x <= y {
      OrderTest(x, y, x);
    } else {
      OrderTest(x, y, y);
    }
  }

  /** So what a number names is one outstanding number or none. */
  lemma NamesOne(s: State, x: nat)
    requires Safe(s) && x in s.unacked
    ensures Named(s.unacked, Wire(x)) == {x}
  {
    hide Safe;
    forall y | y in Named(s.unacked, Wire(x))
      ensures y == x
    {
      OnlyThisOne(s, x, y);
    }
  }

  /** A number given out less than one turn of the counter ago names no other command. */
  lemma NamesNoOther(s: State, x: nat)
    requires Safe(s) && x <= s.sent < x + WRAP
    ensures Named(s.unacked, Wire(x)) <= {x}
  {
    hide ReceiverSound, Sizes, End;
    forall y | y in Named(s.unacked, Wire(x))
      ensures y == x
    {
      OutstandingNear(s, y);
      if x <= y {
        OrderTest(x, y, x);
      } else {
        OrderTest(x, y, y);
      }
    }
  }

  lemma OutstandingNear(s: State, y: nat)
    requires SenderSound(s) && y in s.unacked
    ensures 1 <= y <= s.sent < y + WRAP
  {
  }

  class Sender {
    /** The last number given out. */
    var outgoing: nat
    var waiting: seq<Command>
    var kept: seq<Command>
    const reliableWindows: array<nat>
    var usedReliableWindows: seq<bool>
    ghost var rs: seq<nat>
    ghost var ss: seq<nat>

    ghost predicate Represents(s: State)
      reads this, reliableWindows
    {
      && outgoing == Wire(Last(s)) && Lists(waiting, kept, rs, ss, s)
      && Counted(reliableWindows[..], usedReliableWindows, s.unacked)
    }

    constructor ()
      ensures Represents(Transport.START) && fresh(reliableWindows)
    {
      outgoing, waiting, kept, rs, ss := 0, [], [], [], [];
      reliableWindows := new nat[WINDOWS](_ => 0);
      usedReliableWindows := seq(WINDOWS, _ => false);
      new;
      NothingCounted(reliableWindows[..], usedReliableWindows);
    }

    /** Queue the commands of one packet: each takes the next number. */
    method Submit(n: nat, ghost s: State)
      requires Represents(s) && 1 <= n
      modifies this
      ensures Represents(s.(sizes := s.sizes + [n]))
    {
      hide *;
      SenderMeans(this, s);
      ListsMean(waiting, kept, rs, ss, s);
      ghost var before := waiting;
      for i := 0 to n
        invariant kept == old(kept) && rs == old(rs) && ss == old(ss) && usedReliableWindows == old(usedReliableWindows)
        invariant outgoing == Wire(Last(s) + i) && |waiting| == |rs| + (Last(s) + i - s.sent)
          && waiting[..|rs|] == before[..|rs|]
        invariant Stands(waiting[|rs|..], After(s.sent, Last(s) + i - s.sent)) && Untried(waiting[|rs|..])
      {
        NextTest(Last(s) + i);
        ListsSubmit(waiting, kept, rs, ss, s, i, Command((outgoing + 1) % WRAP, 0));
        outgoing := (outgoing + 1) % WRAP;
        waiting := waiting + [Command(outgoing, 0)];
      }
      ListsSubmitted(before, waiting, kept, rs, ss, s, n);
      SenderWhen(this, s.(sizes := s.sizes + [n]));
    }

    /**
     * Send the first waiting command, unless it opens a window and the gate is closed. A first sending counts
     * in its window.
     */
    method SendFront(ghost s: State) returns (blocked: bool, ghost s': State)
      requires Represents(s) && Safe(s) && waiting != []
      modifies this, reliableWindows
      ensures Represents(s') && (s' == s || SendNew(s, s'))
      ensures blocked <==> old(waiting[0]).attempts < 1 && !GateOpen(s.sent + 1, s.unacked)
      ensures blocked ==> s' == s && waiting == old(waiting) && kept == old(kept)
      ensures !blocked ==> waiting == old(waiting)[1..] && kept == old(kept) + [Again(old(waiting[0]))]
      ensures !blocked && old(waiting[0]).attempts < 1 ==> SendNew(s, s')
      ensures old(waiting[0]).attempts >= 1 ==> s' == s
    {
      hide *;
      SenderMeans(this, s);
      FrontIs(waiting, kept, rs, ss, s);
      var c := waiting[0];
      s' := s;
      GateDecides(reliableWindows[..], usedReliableWindows, s.unacked, s.sent + 1);
      blocked := c.attempts < 1 && Blocked(c.number, reliableWindows[..], usedReliableWindows);
      if blocked {
        return;
      }
      if c.attempts < 1 {
        ListsSendNew(waiting, kept, ss, s);
        CountedAdd(reliableWindows[..], usedReliableWindows, s.unacked, s.sent + 1);
        WireWindow(s.sent + 1);
        CountedSizes(reliableWindows[..], usedReliableWindows, s.unacked);
        ghost var before := reliableWindows[..];
        var w := c.number / WINDOW;
        usedReliableWindows := usedReliableWindows[w := true];
        reliableWindows[w] := reliableWindows[w] + 1;
        assert reliableWindows[..] == before[w := before[w] + 1];
        s' := s.(sent := s.sent + 1, unacked := s.unacked + {s.sent + 1});
        SendNewWhen(s, s');
        ss := ss + [s.sent + 1];
      } else {
        ListsResend(waiting, kept, rs, ss, s);
        rs, ss := rs[1..], ss + [rs[0]];
      }
      waiting := waiting[1..];
      kept := kept + [Again(c)];
      SenderWhen(this, s');
    }

    /** One sending pass: from the front, until the gate closes or something else stops it after `limit` commands. */
    method SendPass(limit: nat, ghost s: State) returns (ghost trace: seq<State>)
      requires Represents(s) && Safe(s)
      modifies this, reliableWindows
      ensures trace != [] && trace[0] == s && Represents(trace[|trace| - 1])
      ensures forall i :: 0 <= i < |trace| - 1 ==> trace[i + 1] == trace[i] || SendNew(trace[i], trace[i + 1])
    {
      hide *;
      trace := [s];
      var sent := 0;
      while waiting != [] && sent < limit
        invariant trace != [] && trace[0] == s && Represents(trace[|trace| - 1]) && Safe(trace[|trace| - 1])
        invariant forall i :: 0 <= i < |trace| - 1 ==> trace[i + 1] == trace[i] || SendNew(trace[i], trace[i + 1])
        decreases limit - sent
      {
        ghost var now := trace[|trace| - 1];
        var blocked;
        ghost var next;
        blocked, next := SendFront(now);
        if next != now {
          SendSafe(now, next);
        }
        trace := trace + [next];
        if blocked { break; }
        sent := sent + 1;
      }
    }

    /** Move the expired commands to the front of the waiting ones, in order. */
    method CheckTimeouts(expired: seq<bool>, ghost s: State)
      requires Represents(s) && |expired| == |kept|
      modifies this
      ensures Represents(s)
      ensures waiting == Picked(old(kept), expired, true) + old(waiting) && kept == Picked(old(kept), expired, false)
    {
      hide *;
      SenderMeans(this, s);
      ListsMean(waiting, kept, rs, ss, s);
      ghost var before, was := waiting, kept;
      var current, insert, m := 0, 0, 0;
      MovingStart(was, expired, before);
      while m < |expired|
        invariant m <= |expired| == |was| && outgoing == old(outgoing)
          && usedReliableWindows == old(usedReliableWindows)
        invariant Lists(waiting, kept, rs, ss, s) && insert <= |rs|
          && Moving(was, expired, before, waiting, kept, m, current, insert)
      {
        MovingOn(was, expired, before, waiting, kept, m, current, insert);
        if !expired[m] {
          current := current + 1;
        } else {
          ListsTimeout(waiting, kept, rs, ss, s, insert, current);
          rs, ss := Put(rs, insert, ss[current]), Cut(ss, current);
          waiting := Put(waiting, insert, kept[current]);
          kept := Cut(kept, current);
          insert := insert + 1;
        }
        m := m + 1;
      }
      MovingEnd(was, expired, before, waiting, kept, current, insert);
      SenderWhen(this, s);
    }

    /** Find an acknowledged command: kept, or waiting to be sent again. */
    method FindSent(number: nat) returns (isKept: bool, i: nat, found: bool)
      ensures isKept ==> found && i < |kept| && kept[i].number == number
      ensures !isKept && found ==> i < |waiting| && waiting[i].number == number && waiting[i].attempts >= 1
      ensures !found ==> i <= |waiting| && (i == |waiting| || waiting[i].attempts < 1)
      ensures !found ==>
        (forall j :: 0 <= j < |kept| ==> kept[j].number != number)
        && (forall j :: 0 <= j < i ==> waiting[j].number != number)
    {
      i := 0;
      while i < |kept|
        invariant i <= |kept| && forall j :: 0 <= j < i ==> kept[j].number != number
      {
        if kept[i].number == number {
          return true, i, true;
        }
        i := i + 1;
      }
      isKept, i := false, 0;
      while i < |waiting|
        invariant i <= |waiting| && forall j :: 0 <= j < i ==> waiting[j].number != number
      {
        if waiting[i].attempts < 1 {
          return false, i, false;
        }
        if waiting[i].number == number {
          return false, i, true;
        }
        i := i + 1;
      }
      found := false;
    }

    /** One command fewer outstanding in its window. */
    method Uncount(number: nat, ghost unacked: set<nat>, ghost x: nat)
      requires Counted(reliableWindows[..], usedReliableWindows, unacked) && x in unacked && number == Wire(x)
      modifies this`usedReliableWindows, reliableWindows
      ensures Counted(reliableWindows[..], usedReliableWindows, unacked - {x})
    {
      hide *;
      CountedRemove(reliableWindows[..], usedReliableWindows, unacked, x);
      CountedSizes(reliableWindows[..], usedReliableWindows, unacked);
      WireWindow(x);
      ghost var before := reliableWindows[..];
      var w := number / WINDOW;
      if reliableWindows[w] > 0 {
        reliableWindows[w] := reliableWindows[w] - 1;
        assert reliableWindows[..] == before[w := before[w] - 1];
        if reliableWindows[w] == 0 {
          usedReliableWindows := usedReliableWindows[w := false];
        }
      }
    }

    /** An acknowledgement of any number arrives: the one command it names, if there is one, is outstanding no more. */
    method HandleAcknowledge(number: nat, ghost s: State)
      requires Represents(s) && Safe(s)
      modifies this, reliableWindows
      ensures Represents(s.(unacked := s.unacked - Named(s.unacked, number)))
      ensures |Named(s.unacked, number)| <= 1 && outgoing == old(outgoing)
    {
      hide *;
      SenderMeans(this, s);
      var isKept, i, found := FindSent(number);
      if !found {
        NothingNamed(waiting, kept, rs, ss, s, number, i);
        assert s.unacked - {} == s.unacked;
        assert s.(unacked := s.unacked) == s;
        return;
      }
      ghost var x := WhichOne(waiting, kept, rs, ss, s, number, isKept, i);
      Uncount(number, s.unacked, x);
      if isKept {
        ListsKeptAcked(waiting, kept, rs, ss, s, i);
        kept, ss := Cut(kept, i), Cut(ss, i);
      } else {
        ListsWaitingAcked(waiting, kept, rs, ss, s, i);
        waiting, rs := Cut(waiting, i), Cut(rs, i);
      }
      LastSame(s, s.(unacked := s.unacked - {x}));
      SenderWhen(this, s.(unacked := s.unacked - {x}));
    }
  }

  /** The commands whose flag is `want`. */
  function Picked(commands: seq<Command>, flags: seq<bool>, want: bool): seq<Command>
    requires |commands| == |flags|
  {
    if commands == [] then []
    else
      var n := |commands| - 1;
      Picked(commands[..n], flags[..n], want) + if flags[n] == want then [commands[n]] else []
  }

  /** How many of the first `k` flags are `want`. */
  function Flagged(flags: seq<bool>, k: nat, want: bool): nat
    requires k <= |flags|
  {
    if k == 0 then 0 else Flagged(flags, k - 1, want) + if flags[k - 1] == want then 1 else 0
  }

  /** Every command with that flag is there, behind as many as there were before it, and no other is. */
  lemma {:induction false} PickedAt(commands: seq<Command>, flags: seq<bool>, want: bool, k: nat)
    requires k < |commands| == |flags|
    ensures |Picked(commands, flags, want)| == Flagged(flags, |flags|, want)
    ensures flags[k] == want ==>
      && Flagged(flags, k, want) < |Picked(commands, flags, want)|
      && Picked(commands, flags, want)[Flagged(flags, k, want)] == commands[k]
    decreases |commands|
  {
    var n := |commands| - 1;
    FlaggedFront(flags, n, n, want);
    FlaggedFront(flags, n, if k < n then k else n, want);
    if n > 0 {
      PickedAt(commands[..n], flags[..n], want, if k < n then k else n - 1);
    }
  }

  lemma {:induction false} FlaggedFront(flags: seq<bool>, n: nat, k: nat, want: bool)
    requires k <= n <= |flags|
    ensures Flagged(flags[..n], k, want) == Flagged(flags, k, want)
  {
    if k > 0 {
      FlaggedFront(flags, n, k - 1, want);
    }
  }

  /** The timeout loop has gone over the first `m` of the commands that were kept. */
  ghost predicate Moving(was: seq<Command>, expired: seq<bool>, before: seq<Command>, waiting: seq<Command>,
        kept: seq<Command>, m: nat, current: nat, insert: nat)
  {
    && m <= |was| == |expired|
    && kept == Picked(was[..m], expired[..m], false) + was[m..] && current == |Picked(was[..m], expired[..m], false)|
    && waiting == Picked(was[..m], expired[..m], true) + before && insert == |Picked(was[..m], expired[..m], true)|
  }

  lemma MovingStart(was: seq<Command>, expired: seq<bool>, before: seq<Command>)
    requires |was| == |expired|
    ensures Moving(was, expired, before, before, was, 0, 0, 0)
  {
    assert Picked([], [], false) == [] && Picked([], [], true) == [];
    assert was[0..] == was && was[..0] == [] && expired[..0] == [];
  }

  lemma MovingOn(was: seq<Command>, expired: seq<bool>, before: seq<Command>, waiting: seq<Command>, kept: seq<Command>,
                 m: nat, current: nat, insert: nat)
    requires Moving(was, expired, before, waiting, kept, m, current, insert) && m < |was|
    ensures current < |kept| && insert <= |waiting|
    ensures
      if expired[m] then
        Moving(was, expired, before, Put(waiting, insert, kept[current]), Cut(kept, current), m + 1, current,
          insert + 1)
      else Moving(was, expired, before, waiting, kept, m + 1, current + 1, insert)
  {
    PickedNext(was, expired, m, true);
    PickedNext(was, expired, m, false);
    hide Picked;
    assert was[m..] == [was[m]] + was[m + 1..];
    assert kept[current] == was[m];
  }

  lemma PickedNext(commands: seq<Command>, flags: seq<bool>, m: nat, want: bool)
    requires m < |commands| == |flags|
    ensures Picked(commands[..m + 1], flags[..m + 1], want) ==
            Picked(commands[..m], flags[..m], want) + if flags[m] == want then [commands[m]] else []
  {
    assert commands[..m + 1][..m] == commands[..m] && flags[..m + 1][..m] == flags[..m];
  }

  lemma MovingEnd(was: seq<Command>, expired: seq<bool>, before: seq<Command>, waiting: seq<Command>,
        kept: seq<Command>, current: nat, insert: nat)
    requires |was| == |expired| && Moving(was, expired, before, waiting, kept, |was|, current, insert)
    ensures waiting == Picked(was, expired, true) + before && kept == Picked(was, expired, false)
  {
    hide Picked;
    assert was[..|was|] == was && expired[..|was|] == expired && was[|was|..] == [];
  }

  /** The command found is the one the number names. */
  lemma WhichOne(waiting: seq<Command>, kept: seq<Command>, rs: seq<nat>, ss: seq<nat>, s: State,
                 number: nat, isKept: bool, i: nat) returns (x: nat)
    requires Lists(waiting, kept, rs, ss, s) && Safe(s)
    requires if isKept then i < |kept| && kept[i].number == number
             else i < |waiting| && waiting[i].number == number && waiting[i].attempts >= 1
    ensures |kept| == |ss| && (if isKept then ss[i] == x else i < |rs| && rs[i] == x)
    ensures x in s.unacked && number == Wire(x) && Named(s.unacked, number) == {x}
  {
    hide Lists, Safe, Wire;
    ListsMean(waiting, kept, rs, ss, s);
    x := if isKept then ss[i] else rs[i];
    NamesOne(s, x);
  }

  lemma NothingNamed(waiting: seq<Command>, kept: seq<Command>, rs: seq<nat>, ss: seq<nat>, s: State, number: nat,
        j: nat)
    requires Lists(waiting, kept, rs, ss, s) && j <= |waiting| && (j == |waiting| || waiting[j].attempts < 1)
    requires forall n :: 0 <= n < |kept| ==> kept[n].number != number
    requires forall n :: 0 <= n < j ==> waiting[n].number != number
    ensures Named(s.unacked, number) == {}
  {
    hide Last;
    ListsMean(waiting, kept, rs, ss, s);
  }

  lemma LastSame(s: State, s': State)
    requires s'.sizes == s.sizes
    ensures Last(s') == Last(s)
  {
  }

  /** What the receiver does leaves the sender as it is. */
  lemma ReceiverLeavesSender(sender: Sender, s: State, s': State)
    requires sender.Represents(s) && s' == s.(delivered := s'.delivered, got := s'.got, acks := s'.acks)
    ensures sender.Represents(s')
  {
    hide Wire, Counted;
    LastSame(s, s');
    SenderMeans(sender, s);
  }

  lemma NothingCounted(windows: seq<nat>, used: seq<bool>)
    requires |windows| == |used| == WINDOWS && (forall w :: 0 <= w < WINDOWS ==> windows[w] == 0 && !used[w])
    ensures Counted(windows, used, {})
  {
    forall w | 0 <= w < WINDOWS
      ensures |InWindow({}, w)| == 0
    {
      assert InWindow({}, w) == {};
    }
  }

  lemma SenderMeans(sender: Sender, s: State)
    requires sender.Represents(s)
    ensures sender.outgoing == Wire(Last(s)) && Lists(sender.waiting, sender.kept, sender.rs, sender.ss, s)
    ensures Counted(sender.reliableWindows[..], sender.usedReliableWindows, s.unacked)
  {
    hide Wire, Lists, Counted, Last;
  }

  lemma SenderWhen(sender: Sender, s: State)
    requires sender.outgoing == Wire(Last(s)) && Lists(sender.waiting, sender.kept, sender.rs, sender.ss, s)
    requires Counted(sender.reliableWindows[..], sender.usedReliableWindows, s.unacked)
    ensures sender.Represents(s)
  {
    hide Wire, Lists, Counted, Last;
  }

  lemma ListsMean(waiting: seq<Command>, kept: seq<Command>, rs: seq<nat>, ss: seq<nat>, s: State)
    requires Lists(waiting, kept, rs, ss, s)
    ensures s.sent <= Last(s) && |waiting| == |rs| + (Last(s) - s.sent) && |kept| == |ss|
    ensures Stands(waiting[|rs|..], After(s.sent, Last(s) - s.sent)) && Untried(waiting[|rs|..])
    ensures forall i :: 0 <= i < |rs| ==>
      waiting[i].number == Wire(rs[i]) && waiting[i].attempts > 0 && rs[i] in s.unacked
    ensures forall i :: 0 <= i < |ss| ==> kept[i].number == Wire(ss[i]) && ss[i] in s.unacked
    ensures forall i :: |rs| <= i < |waiting| ==> waiting[i].attempts == 0
    ensures forall x :: x in s.unacked ==> x in rs || x in ss
  {
    hide Wire, Last;
    forall i | 0 <= i < |rs|
      ensures waiting[i].number == Wire(rs[i]) && waiting[i].attempts > 0
    {
      assert waiting[i] == waiting[..|rs|][i];
    }
    forall i | |rs| <= i < |waiting|
      ensures waiting[i].attempts == 0
    {
      assert waiting[i] == waiting[|rs|..][i - |rs|];
    }
  }

  lemma ListsSubmitted(before: seq<Command>, waiting: seq<Command>, kept: seq<Command>, rs: seq<nat>, ss: seq<nat>,
        s: State, n: nat)
    requires Lists(before, kept, rs, ss, s) && |waiting| == |rs| + (Last(s) + n - s.sent) && |rs| <= |before|
      && waiting[..|rs|] == before[..|rs|]
    requires s.sent <= Last(s) && Stands(waiting[|rs|..], After(s.sent, Last(s) + n - s.sent))
      && Untried(waiting[|rs|..])
    ensures Lists(waiting, kept, rs, ss, s.(sizes := s.sizes + [n])) && Last(s.(sizes := s.sizes + [n])) == Last(s) + n
  {
    hide Wire;
    EndPrefix(s.sizes, n, |s.sizes|);
  }

  lemma FrontIs(waiting: seq<Command>, kept: seq<Command>, rs: seq<nat>, ss: seq<nat>, s: State)
    requires Lists(waiting, kept, rs, ss, s) && waiting != [] && Safe(s)
    ensures waiting[0].attempts < 1 <==> rs == []
    ensures rs == [] ==> waiting[0].number == Wire(s.sent + 1) && s.sent < Last(s)
    ensures s.sent + 1 !in s.unacked
  {
    hide Wire, Win, ReceiverSound, Sizes;
    if rs != [] {
      assert waiting[..|rs|][0] == waiting[0];
    } else {
      assert waiting[0..][0] == waiting[0];
      assert After(s.sent, Last(s) - s.sent)[0] == s.sent + 1;
    }
  }

  lemma SendNewWhen(s: State, s': State)
    requires s.sent < Last(s) && GateOpen(s.sent + 1, s.unacked)
      && s' == s.(sent := s.sent + 1, unacked := s.unacked + {s.sent + 1})
    ensures SendNew(s, s') && Last(s') == Last(s)
  {
  }
}
