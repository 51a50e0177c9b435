/**
 * Reliable transport between a sender, a network that loses, repeats and reorders, and a receiver, on
 * unbounded sequence numbers: one channel, one direction.
 */
module Transport {
  const WINDOW := 4096
  const WINDOWS := 16
  const FREE_WINDOWS := 8
  const WRAP := 0x1_0000
  /** The most numbers one packet may take. */
  const FRAGMENTS := 0x10_0000

  /** The most numbers a packet may take for every copy of it that the sender still sends to be told from a new one. */
  const LIVE_NUMBERS := 3 * WINDOW + 1

  /** The window a number lies in. */
  function Win(x: nat): (w: nat)
    ensures w * WINDOW <= x < (w + 1) * WINDOW
  {
    x / WINDOW
  }

  /** The last number taken by the first `k` packets; packet `k` takes `sizes[k]` numbers from there on. */
  function End(sizes: seq<nat>, k: nat): nat
    requires k <= |sizes|
  {
    if k == 0 then 0 else End(sizes, k - 1) + sizes[k - 1]
  }

  /**
   * `sent` is the highest number sent so far and `unacked` those the sender still keeps; `got` are the numbers
   * the receiver has queued or delivered, `delivered` how many packets it has handed on, and `acks` the
   * numbers it has acknowledged.
   */
  datatype State = State(sizes: seq<nat>, sent: nat, unacked: set<nat>, delivered: nat, got: set<nat>, acks: set<nat>)

  const START := State([], 0, {}, 0, {}, {})

  /** The receiver's cumulative number. */
  function Cumulative(s: State): nat
    requires s.delivered <= |s.sizes|
  {
    End(s.sizes, s.delivered)
  }

  ghost predicate Holds(sizes: seq<nat>, got: set<nat>, k: nat)
    requires k < |sizes|
  {
    forall x :: End(sizes, k) < x <= End(sizes, k + 1) ==> x in got
  }

  /** Packets are handed on as soon as they are whole and their turn has come. */
  ghost function Advance(sizes: seq<nat>, got: set<nat>, k: nat): (j: nat)
    requires k <= |sizes|
    ensures k <= j <= |sizes|
    ensures j < |sizes| ==> !Holds(sizes, got, j)
    ensures forall i :: k <= i < j ==> Holds(sizes, got, i)
    decreases |sizes| - k
  {
    if k < |sizes| && Holds(sizes, got, k) then Advance(sizes, got, k + 1) else k
  }

  // ---- The steps ----

  /** How many windows ahead of `c` the receiver takes `x` to be; old numbers look far ahead. */
  function Ahead(x: nat, c: nat): int { if x >= c then Win(x) - Win(c) else WINDOWS - (Win(c) - Win(x)) }

  predicate Acceptable(start: nat, c: nat) { start >= c && Ahead(start, c) < FREE_WINDOWS - 1 }

  /** Acknowledgements for the two windows past the free ones are held back. */
  predicate Suppressed(x: nat, c: nat) { FREE_WINDOWS - 1 <= Ahead(x, c) <= FREE_WINDOWS }

  predicate InPacket(sizes: seq<nat>, k: nat, x: nat) { k < |sizes| && End(sizes, k) < x <= End(sizes, k + 1) }

  /** The windows the gate looks at for the first number of a window: it and the nine after it, all modulo 16. */
  predicate Watched(x: nat, y: nat) { (Win(y) - Win(x)) % WINDOWS < FREE_WINDOWS + 2 }

  /** The unacknowledged numbers whose window has index `w` modulo 16. */
  function InWindow(unacked: set<nat>, w: int): set<nat> { set y | y in unacked && Win(y) % WINDOWS == w }

  /** At the start of a window: nothing watched is outstanding and the window before is not outstanding whole. */
  ghost predicate GateOpen(x: nat, unacked: set<nat>) {
    x % WINDOW == 0 ==>
      && (forall y :: y in unacked ==> !Watched(x, y))
      && |InWindow(unacked, (Win(x) + WINDOWS - 1) % WINDOWS)| < WINDOW
  }

  // ---- The same in numbers ----

  /** New numbers are taken up to the end of the sixth window after the receiver's own. */
  lemma AcceptableMeans(start: nat, c: nat)
    ensures Acceptable(start, c) <==> start >= c && start / 4096 <= c / 4096 + 6
  {
  }

  /** No acknowledgement is sent seven or eight windows ahead of the receiver, nor eight or nine behind. */
  lemma SuppressedMeans(x: nat, c: nat)
    ensures Suppressed(x, c) <==>
      if x >= c then 7 <= x / 4096 - c / 4096 <= 8 else 8 <= c / 4096 - x / 4096 <= 9
  {
  }

  /**
   * A new window is entered when nothing more than six windows back is outstanding and not all 4096 numbers of the
   * last one are, as long as nothing sixteen windows back is.
   */
  lemma GateOpens(x: nat, unacked: set<nat>)
    requires x % 4096 == 0 && forall y :: y in unacked ==> y < x && x / 4096 - y / 4096 <= 15
    ensures GateOpen(x, unacked) <==>
      && (forall y :: y in unacked ==> x / 4096 - y / 4096 <= 6)
      && |set y | y in unacked && y / 4096 == x / 4096 - 1| < 4096
  {
    forall y | y in unacked
      ensures Watched(x, y) <==> x / 4096 - y / 4096 > 6
      ensures Win(y) % WINDOWS == (Win(x) + WINDOWS - 1) % WINDOWS <==> y / 4096 == x / 4096 - 1
    {
      GateDistance(Win(x), Win(y));
      assert Win(y) < Win(x);
    }
    assert InWindow(unacked, (Win(x) + WINDOWS - 1) % WINDOWS) == set y | y in unacked && y / 4096 == x / 4096 - 1;
  }

  lemma GateDistance(a: nat, b: nat)
    requires b < a <= b + 15
    ensures (b - a) % 16 == 16 - (a - b)
    ensures b % 16 == (a + 15) % 16 <==> b == a - 1
  {
    var q, r := a / 16, a % 16;
  }

  ghost predicate Submit(s: State, s': State) {
    exists n: nat :: 1 <= n <= FRAGMENTS && s' == s.(sizes := s.sizes + [n])
  }

  ghost predicate SendNew(s: State, s': State) {
    && s.sent < End(s.sizes, |s.sizes|) && GateOpen(s.sent + 1, s.unacked)
    && s' == s.(sent := s.sent + 1, unacked := s.unacked + {s.sent + 1})
  }

  /** What the receiver makes of number `x` of packet `k`. */
  ghost function Receive(s: State, k: nat, x: nat): (s': State)
    requires k < |s.sizes| && s.delivered <= |s.sizes|
    ensures s' == s.(got := s'.got, delivered := s'.delivered) && s.delivered <= s'.delivered <= |s.sizes|
  {
    if Acceptable(End(s.sizes, k) + 1, Cumulative(s)) && End(s.sizes, k) + 1 > Cumulative(s) then
      var got := s.got + {x};
      s.(got := got, delivered := Advance(s.sizes, got, s.delivered))
    else s
  }

  /** Then it acknowledges, or holds the acknowledgement back. */
  function Answer(s: State, x: nat): State
    requires s.delivered <= |s.sizes|
  {
    if Suppressed(x, Cumulative(s)) then s else s.(acks := s.acks + {x})
  }

  /** No copy arrives whose packet begins more than nine windows behind the receiver. */
  predicate Timely(s: State, k: nat)
    requires s.delivered <= |s.sizes| && k <= |s.sizes|
  {
    Win(End(s.sizes, k) + 1) + FREE_WINDOWS + 1 >= Win(Cumulative(s))
  }

  /** Any copy of any number ever sent may arrive, any number of times, in any order. */
  ghost predicate Arrive(s: State, s': State) {
    s.delivered <= |s.sizes| && exists k: nat, x: nat ::
      1 <= x <= s.sent && InPacket(s.sizes, k, x) && Timely(s, k) && s' == Answer(Receive(s, k, x), x)
  }

  /** The outstanding numbers that are sent as `number`, of which there is never more than one. */
  function Named(unacked: set<nat>, number: nat): set<nat> { set y | y in unacked && y % WRAP == number }

  /** An acknowledgement of `x` takes away what its number names. */
  function Acknowledged(s: State, x: nat): State { s.(unacked := s.unacked - Named(s.unacked, x % WRAP)) }

  /** Any acknowledgement may arrive at any time, unless its number names another command by now. */
  ghost predicate Acknowledge(s: State, s': State) {
    exists x: nat :: x in s.acks && Named(s.unacked, x % WRAP) <= {x} && s' == Acknowledged(s, x)
  }

  ghost predicate Step(s: State, s': State) {
    Submit(s, s') || SendNew(s, s') || Arrive(s, s') || Acknowledge(s, s')
  }

  // ---- What every step keeps ----

  ghost predicate Sizes(sizes: seq<nat>) { forall i :: 0 <= i < |sizes| ==> 1 <= sizes[i] <= FRAGMENTS }

  ghost predicate SenderSound(s: State) {
    && s.sent <= End(s.sizes, |s.sizes|)
    && (forall x :: x in s.unacked ==> 1 <= x <= s.sent && Win(x) + FREE_WINDOWS - 2 >= Win(s.sent))
    && (forall x :: 1 <= x <= s.sent && x !in s.unacked ==> x in s.acks)
  }

  ghost predicate ReceiverSound(s: State)
    requires s.delivered <= |s.sizes|
  {
    && (forall x :: x in s.got ==> 1 <= x <= s.sent)
    && (forall x :: 1 <= x <= Cumulative(s) ==> x in s.got)
    && (s.delivered < |s.sizes| ==> !Holds(s.sizes, s.got, s.delivered))
    && (forall k: nat, x: nat :: InPacket(s.sizes, k, x) && x in s.got && k >= s.delivered ==>
      Acceptable(End(s.sizes, k) + 1, Cumulative(s)))
  }

  /** How far the sender is ahead, and that nothing in the last window it may reach has been acknowledged. */
  ghost predicate Bounded(s: State)
    requires s.delivered <= |s.sizes|
  {
    && Win(s.sent) <= Win(Cumulative(s)) + FREE_WINDOWS - 1
    && forall x :: x in s.acks ==> Win(x) <= Win(Cumulative(s)) + FREE_WINDOWS - 2
  }

  ghost predicate Safe(s: State) {
    && Sizes(s.sizes) && SenderSound(s) && s.delivered <= |s.sizes| && ReceiverSound(s) && Bounded(s)
    && s.acks <= s.got
  }

  lemma {:induction false} EndMonotone(sizes: seq<nat>, i: nat, j: nat)
    requires Sizes(sizes) && i <= j <= |sizes|
    ensures End(sizes, i) + (j - i) <= End(sizes, j)
    decreases j - i
  {
    if i < j {
      EndMonotone(sizes, i, j - 1);
    }
  }

  lemma {:induction false} EndPrefix(sizes: seq<nat>, n: nat, k: nat)
    requires k <= |sizes|
    ensures End(sizes + [n], k) == End(sizes, k)
  {
    if k > 0 {
      EndPrefix(sizes, n, k - 1);
    }
  }

  lemma OnePacket(sizes: seq<nat>, j: nat, k: nat, x: nat)
    requires Sizes(sizes) && InPacket(sizes, j, x) && InPacket(sizes, k, x)
    ensures j == k
  {
    if j < k {
      EndMonotone(sizes, j + 1, k);
    } else if k < j {
      EndMonotone(sizes, k + 1, j);
    }
  }

  /** The gate keeps the sender within seven windows of the receiver, however many numbers a packet takes. */
  lemma Lag(s: State)
    requires Safe(s)
    ensures Win(s.sent) <= Win(Cumulative(s)) + FREE_WINDOWS - 1
    ensures Cumulative(s) <= s.sent
  {
    hide Acceptable, Holds, Win;
    var c := Cumulative(s);
    assert c >= 1 ==> c in s.got;
  }

  lemma Initially()
    ensures Safe(START)
  {
  }

  /** A packet more changes nothing before it. */
  lemma SubmitEnds(sizes: seq<nat>, n: nat)
    ensures forall k: nat :: k <= |sizes| ==> End(sizes + [n], k) == End(sizes, k)
    ensures End(sizes + [n], |sizes| + 1) == End(sizes, |sizes|) + n
  {
    forall k: nat | k <= |sizes|
      ensures End(sizes + [n], k) == End(sizes, k)
    {
      EndPrefix(sizes, n, k);
    }
  }

  lemma SubmitHolds(sizes: seq<nat>, n: nat, got: set<nat>, k: nat)
    requires k <= |sizes| && 1 <= n && (forall x :: x in got ==> x <= End(sizes, |sizes|))
    requires k < |sizes| ==> !Holds(sizes, got, k)
    ensures !Holds(sizes + [n], got, k)
  {
    SubmitEnds(sizes, n);
    hide End;
    if k == |sizes| {
      assert End(sizes + [n], |sizes| + 1) !in got;
    } else {
      var x :| End(sizes, k) < x <= End(sizes, k + 1) && x !in got;
    }
  }

  lemma SubmitSafe(s: State, s': State)
    requires Safe(s) && Submit(s, s')
    ensures Safe(s')
  {
    hide Win, Ahead, Acceptable, Holds, End;
    var n: nat :| 1 <= n <= FRAGMENTS && s' == s.(sizes := s.sizes + [n]);
    SubmitEnds(s.sizes, n);
    SubmitHolds(s.sizes, n, s.got, s.delivered);
    forall k: nat, x: nat | InPacket(s'.sizes, k, x) && x in s'.got && k >= s'.delivered
      ensures Acceptable(End(s'.sizes, k) + 1, Cumulative(s'))
    {
      assert k < |s.sizes| ==> InPacket(s.sizes, k, x);
    }
  }

  /** What the gate lets through keeps everything outstanding within seven windows. */
  lemma GateMeans(y: nat, sent: nat)
    requires y <= sent && Win(y) + FREE_WINDOWS - 2 >= Win(sent)
    requires (sent + 1) % WINDOW == 0 ==> !Watched(sent + 1, y)
    ensures Win(y) + FREE_WINDOWS - 2 >= Win(sent + 1)
  {
  }

  function Numbers(from: nat, n: nat): (xs: set<nat>)
    ensures |xs| == n && forall x :: x in xs <==> from <= x < from + n
  {
    if n == 0 then {} else Numbers(from, n - 1) + {from + n - 1}
  }

  lemma {:induction false} SubsetSize(a: set<nat>, b: set<nat>)
    requires a <= b
    ensures |a| <= |b|
  {
    if x :| x in a {
      SubsetSize(a - {x}, b - {x});
    }
  }

  lemma WindowStart(x: nat)
    requires (x + 1) % WINDOW == 0
    ensures Win(x + 1) == Win(x) + 1 && x + 1 == (Win(x) + 1) * WINDOW
    ensures (Win(x + 1) + WINDOWS - 1) % WINDOWS == Win(x) % WINDOWS
  {
  }

  lemma SameWindow(x: nat)
    requires (x + 1) % WINDOW != 0
    ensures Win(x + 1) == Win(x)
  {
  }

  /** The last window the sender may reach is outstanding whole when it is full, and shuts the gate. */
  lemma LastWindowShuts(s: State)
    requires Safe(s) && Win(s.sent) == Win(Cumulative(s)) + FREE_WINDOWS - 1 && (s.sent + 1) % WINDOW == 0
    ensures !GateOpen(s.sent + 1, s.unacked)
  {
    hide ReceiverSound, Sizes, Watched;
    WindowStart(s.sent);
    var w := Win(s.sent);
    var whole := Numbers(w * WINDOW, WINDOW);
    forall y | y in whole
      ensures y in InWindow(s.unacked, w % WINDOWS)
    {
      assert Win(y) == w;
      assert y !in s.acks;
    }
    SubsetSize(whole, InWindow(s.unacked, w % WINDOWS));
  }

  lemma SendBounded(s: State)
    requires Safe(s) && GateOpen(s.sent + 1, s.unacked)
    ensures Win(s.sent + 1) <= Win(Cumulative(s)) + FREE_WINDOWS - 1
  {
    hide SenderSound, ReceiverSound, GateOpen, Win;
    if (s.sent + 1) % WINDOW == 0 {
      WindowStart(s.sent);
      if Win(s.sent) == Win(Cumulative(s)) + FREE_WINDOWS - 1 {
        LastWindowShuts(s);
      }
    } else {
      SameWindow(s.sent);
    }
  }

  lemma SendSafe(s: State, s': State)
    requires Safe(s) && SendNew(s, s')
    ensures Safe(s')
  {
    hide Win, Watched, InWindow, End, Holds, Acceptable;
    SendBounded(s);
    forall y | y in s.unacked
      ensures Win(y) + FREE_WINDOWS - 2 >= Win(s.sent + 1)
    {
      GateMeans(y, s.sent);
    }
  }

  /** Acknowledgements keep the transport safe exactly when all they take away has been acknowledged. */
  lemma LateAcknowledgement(s: State, x: nat)
    requires Safe(s) && x in s.acks
    ensures Safe(Acknowledged(s, x)) <==> Named(s.unacked, x % WRAP) <= s.acks
  {
    hide ReceiverSound, Bounded, Sizes, Win, End;
    var s' := Acknowledged(s, x);
    SameReceiver(s, s');
    if Safe(s') {
      forall y | y in Named(s.unacked, x % WRAP)
        ensures y in s.acks
      {
        assert y !in s'.unacked;
      }
    }
  }

  lemma SameReceiver(s: State, s': State)
    requires s' == s.(unacked := s'.unacked) && s.delivered <= |s.sizes|
    ensures ReceiverSound(s') <==> ReceiverSound(s)
    ensures Bounded(s') <==> Bounded(s)
  {
    hide Acceptable, Holds;
    assert Cumulative(s') == Cumulative(s);
  }

  lemma AcknowledgeSafe(s: State, s': State)
    requires Safe(s) && Acknowledge(s, s')
    ensures Safe(s')
  {
    hide Safe;
    var x: nat :| x in s.acks && Named(s.unacked, x % WRAP) <= {x} && s' == Acknowledged(s, x);
    LateAcknowledgement(s, x);
  }

  /** Handing packets on keeps everything up to the new cumulative number. */
  lemma {:induction false} AdvanceHolds(sizes: seq<nat>, got: set<nat>, k: nat, j: nat)
    requires Sizes(sizes) && k <= j <= |sizes|
    requires forall i :: k <= i < j ==> Holds(sizes, got, i)
    ensures forall x :: End(sizes, k) < x <= End(sizes, j) ==> x in got
    decreases j - k
  {
    if k < j {
      AdvanceHolds(sizes, got, k, j - 1);
      assert Holds(sizes, got, j - 1);
    }
  }

  /** Moving ahead never makes an acceptable packet unacceptable, while it lies ahead. */
  lemma StillAcceptable(start: nat, c: nat, c': nat)
    requires Acceptable(start, c) && c <= c' <= start
    ensures Acceptable(start, c')
  {
  }

  lemma WinMonotone(x: nat, y: nat)
    requires x <= y
    ensures Win(x) <= Win(y)
  {
  }

  /** Taking a new number, with the cumulative number moved on. */
  lemma ReceiveSafe(s: State, k: nat, x: nat)
    requires Safe(s) && 1 <= x <= s.sent && InPacket(s.sizes, k, x)
    ensures Safe(Receive(s, k, x))
  {
    hide Win, Ahead, Acceptable, Holds, End;
    var s' := Receive(s, k, x);
    if s' != s {
      AdvanceHolds(s.sizes, s'.got, s.delivered, s'.delivered);
      EndMonotone(s.sizes, s.delivered, s'.delivered);
      WinMonotone(Cumulative(s), Cumulative(s'));
      forall i: nat, y: nat | InPacket(s.sizes, i, y) && y in s'.got && i >= s'.delivered
        ensures Acceptable(End(s.sizes, i) + 1, Cumulative(s'))
      {
        EndMonotone(s.sizes, s'.delivered, i);
        if y == x {
          OnePacket(s.sizes, i, k, x);
        }
        StillAcceptable(End(s.sizes, i) + 1, Cumulative(s), Cumulative(s'));
      }
    }
  }

  /** A packet that is not ahead has been delivered. */
  lemma BehindIsDelivered(s: State, k: nat, x: nat)
    requires Safe(s) && InPacket(s.sizes, k, x) && End(s.sizes, k) + 1 <= Cumulative(s)
    ensures k < s.delivered && x <= Cumulative(s) && x in s.got
  {
    hide Win, Ahead, Acceptable, Holds;
    if k >= s.delivered {
      EndMonotone(s.sizes, s.delivered, k);
    } else {
      EndMonotone(s.sizes, k + 1, s.delivered);
    }
  }

  /** What lies ahead but is not acceptable lies exactly in the first window held back. */
  lemma TooFarIsSuppressed(start: nat, x: nat, sent: nat, c: nat)
    requires c < start <= x <= sent && !Acceptable(start, c) && Win(sent) <= Win(c) + FREE_WINDOWS - 1
    ensures Suppressed(x, c)
  {
    WinMonotone(start, x);
    WinMonotone(x, sent);
    WinMonotone(c, start);
    hide Win;
  }

  /** Nothing is acknowledged that is not queued or delivered. */
  lemma AnswerTaken(s: State, k: nat, x: nat)
    requires Safe(s) && 1 <= x <= s.sent && InPacket(s.sizes, k, x)
    ensures var r := Receive(s, k, x); !Suppressed(x, Cumulative(r)) ==> x in r.got
  {
    hide Win, Ahead, Suppressed, Acceptable, Holds, Watched;
    Lag(s);
    var c, start := Cumulative(s), End(s.sizes, k) + 1;
    if start <= c {
      BehindIsDelivered(s, k, x);
    } else if !Acceptable(start, c) {
      TooFarIsSuppressed(start, x, s.sent, c);
    }
  }

  lemma NotSuppressedIsNear(x: nat, sent: nat, c: nat)
    requires x <= sent && Win(sent) <= Win(c) + FREE_WINDOWS - 1 && !Suppressed(x, c)
    ensures Win(x) <= Win(c) + FREE_WINDOWS - 2
  {
    WinMonotone(x, sent);
    if x < c {
      WinMonotone(x, c);
    }
  }

  lemma AnswerSafe(s: State, k: nat, x: nat)
    requires Safe(s) && 1 <= x <= s.sent && InPacket(s.sizes, k, x)
    ensures Safe(Answer(Receive(s, k, x), x))
  {
    ReceiveSafe(s, k, x);
    AnswerTaken(s, k, x);
    hide Win, Ahead, Suppressed, Acceptable, Holds, Sizes, Receive, InPacket, End;
    var r := Receive(s, k, x);
    if !Suppressed(x, Cumulative(r)) {
      Lag(r);
      NotSuppressedIsNear(x, r.sent, Cumulative(r));
      AnswerLeaves(r, x);
    }
  }

  lemma AnswerLeaves(s: State, x: nat)
    requires Safe(s) && x in s.got && Win(x) <= Win(Cumulative(s)) + FREE_WINDOWS - 2
    ensures Safe(s.(acks := s.acks + {x}))
  {
    hide Win, Acceptable, Holds, Sizes;
    assert Cumulative(s.(acks := s.acks + {x})) == Cumulative(s);
  }

  lemma ArriveSafe(s: State, s': State)
    requires Safe(s) && Arrive(s, s')
    ensures Safe(s')
  {
    var k: nat, x: nat :| 1 <= x <= s.sent && InPacket(s.sizes, k, x) && Timely(s, k)
      && s' == Answer(Receive(s, k, x), x);
    AnswerSafe(s, k, x);
  }

  /** Every step keeps the transport safe. */
  lemma StepSafe(s: State, s': State)
    requires Safe(s) && Step(s, s')
    ensures Safe(s')
  {
    hide *;
    StepIs(s, s');
    if Submit(s, s') {
      SubmitSafe(s, s');
    } else if SendNew(s, s') {
      SendSafe(s, s');
    } else if Arrive(s, s') {
      ArriveSafe(s, s');
    } else {
      AcknowledgeSafe(s, s');
    }
  }

  lemma StepIs(s: State, s': State)
    requires Step(s, s')
    ensures Submit(s, s') || SendNew(s, s') || Arrive(s, s') || Acknowledge(s, s')
  {
  }

  ghost predicate Run(states: seq<State>) {
    states != [] && states[0] == START && forall i :: 0 <= i < |states| - 1 ==> Step(states[i], states[i + 1])
  }

  /** Safety over whole runs. */
  lemma {:induction false} RunSafe(states: seq<State>, i: nat)
    requires Run(states) && i < |states|
    ensures Safe(states[i])
  {
    hide Safe, Step;
    if i == 0 {
      Initially();
    } else {
      RunSafe(states, i - 1);
      StepSafe(states[i - 1], states[i]);
    }
  }

  /** Whatever has been acknowledged is delivered or waits in the receiver's queue. */
  lemma AcknowledgedIsTaken(states: seq<State>, i: nat, x: nat)
    requires Run(states) && i < |states| && x in states[i].acks
    ensures x in states[i].got && 1 <= x <= states[i].sent
  {
    hide Run, Step;
    RunSafe(states, i);
  }

  /**
   * A copy of a delivered number that the sender still keeps is always timely and always acknowledged again, as long as
   * its packet takes no more than three windows and one number.
   */
  lemma Reacknowledged(states: seq<State>, i: nat, k: nat, x: nat)
    requires Run(states) && i < |states| && x in states[i].unacked && states[i].delivered <= |states[i].sizes|
    requires InPacket(states[i].sizes, k, x) && k < states[i].delivered && states[i].sizes[k] <= LIVE_NUMBERS
    ensures Timely(states[i], k) && Receive(states[i], k, x) == states[i]
    ensures x in Answer(Receive(states[i], k, x), x).acks
  {
    hide Run, Step;
    RunSafe(states, i);
    var s := states[i];
    Lag(s);
    EndMonotone(s.sizes, k + 1, s.delivered);
    NearStart(x, End(s.sizes, k) + 1, s.sizes[k]);
    WinMonotone(Cumulative(s), s.sent);
  }

  lemma NearStart(x: nat, start: nat, n: nat)
    requires start <= x < start + n && n <= LIVE_NUMBERS
    ensures Win(x) <= Win(start) + 3
  {
  }

  /** Packets are handed on in order: what a later state has handed on extends what an earlier one had. */
  lemma {:induction false} DeliveredGrows(states: seq<State>, i: nat, j: nat)
    requires Run(states) && i <= j < |states|
    ensures states[i].delivered <= states[j].delivered && states[i].sizes <= states[j].sizes
    decreases j - i
  {
    if i < j {
      DeliveredGrows(states, i, j - 1);
      RunSafe(states, j - 1);
      DeliveredStep(states[j - 1], states[j]);
    }
  }

  lemma DeliveredStep(s: State, s': State)
    requires Step(s, s')
    ensures s.delivered <= s'.delivered && s.sizes <= s'.sizes
  {
    hide Receive, GateOpen, Suppressed, InPacket, Timely;
  }

  // ---- Which packets can be delivered ----

  /** The packet ends in the last window the sender may reach before it is delivered. */
  predicate Deliverable(sizes: seq<nat>, k: nat)
    requires k < |sizes|
  {
    End(sizes, k + 1) < (Win(End(sizes, k)) + FREE_WINDOWS) * WINDOW
  }

  lemma AdvancedFit(s: State, k: nat, x: nat, i: nat)
    requires Safe(s) && 1 <= x <= s.sent && k < |s.sizes| && s.delivered <= i < Receive(s, k, x).delivered
    ensures Deliverable(s.sizes, i)
  {
    hide Acceptable, SenderSound;
    assert Holds(s.sizes, Receive(s, k, x).got, i);
    EndMonotone(s.sizes, s.delivered, i);
    EndMonotone(s.sizes, i, i + 1);
    assert End(s.sizes, i + 1) in Receive(s, k, x).got;
    hide Win;
    WinMonotone(End(s.sizes, s.delivered), End(s.sizes, i));
    WinMonotone(End(s.sizes, i + 1), s.sent);
  }

  /** No other packet is ever delivered. */
  lemma {:induction false} DeliveredFit(states: seq<State>, i: nat, k: nat)
    requires Run(states) && i < |states| && k < states[i].delivered
    ensures k < |states[i].sizes| && Deliverable(states[i].sizes, k)
  {
    hide Safe, Submit, SendNew, Acknowledge, Timely, Deliverable;
    RunSafe(states, i);
    SafeDelivered(states[i]);
    if i > 0 {
      var s, s' := states[i - 1], states[i];
      RunSafe(states, i - 1);
      StepIs(s, s');
      if k < s.delivered {
        DeliveredFit(states, i - 1, k);
        DeliveredStep(s, s');
        FitPrefix(s.sizes, s'.sizes, k);
      } else {
        assert Arrive(s, s') by {
          OnlyArrivals(s, s');
        }
        var j: nat, x: nat :|
          1 <= x <= s.sent && InPacket(s.sizes, j, x) && Timely(s, j) && s' == Answer(Receive(s, j, x), x);
        AdvancedFit(s, j, x, k);
      }
    }
  }

  lemma SafeDelivered(s: State)
    requires Safe(s)
    ensures s.delivered <= |s.sizes|
  {
  }

  lemma OnlyArrivals(s: State, s': State)
    requires Step(s, s') && s'.delivered > s.delivered
    ensures Arrive(s, s')
  {
    hide Arrive;
  }

  lemma {:induction false} EndOf(sizes: seq<nat>, more: seq<nat>, k: nat)
    requires sizes <= more && k <= |sizes|
    ensures End(more, k) == End(sizes, k)
  {
    if k > 0 {
      EndOf(sizes, more, k - 1);
    }
  }

  lemma FitPrefix(sizes: seq<nat>, more: seq<nat>, k: nat)
    requires sizes <= more && k < |sizes| && Deliverable(sizes, k)
    ensures Deliverable(more, k)
  {
    EndOf(sizes, more, k);
    EndOf(sizes, more, k + 1);
  }

  // ---- Runs that deliver everything that can be ----

  function UpTo(n: nat): (xs: set<nat>)
    ensures forall x :: x in xs <==> 1 <= x <= n
  {
    if n == 0 then {} else UpTo(n - 1) + {n}
  }

  /** The first number after `c` whose acknowledgement is held back. */
  function HeldFrom(c: nat): nat { (Win(c) + FREE_WINDOWS - 1) * WINDOW }

  /** The numbers up to `to` whose acknowledgements are held back while `c` is the receiver's number. */
  function Held(c: nat, to: nat): (xs: set<nat>)
    ensures forall x :: x in xs <==> HeldFrom(c) <= x <= to
  {
    if to < HeldFrom(c) then {} else Numbers(HeldFrom(c), to - HeldFrom(c) + 1)
  }

  /** All packets delivered, with the numbers `u` still outstanding. */
  function Done(sizes: seq<nat>, u: set<nat>): State {
    var all := UpTo(End(sizes, |sizes|));
    State(sizes, End(sizes, |sizes|), u, |sizes|, all, all)
  }

  /** Of one more packet the first `j` numbers have arrived. */
  function Part(sizes: seq<nat>, n: nat, j: nat, u: set<nat>): State {
    var c := End(sizes, |sizes|);
    var held := Held(c, c + j);
    State(sizes + [n], c + j, u + held, if j < n then |sizes| else |sizes| + 1, UpTo(c + j),
          if j < n then UpTo(c + j) - held else UpTo(c + j) - held + {c + j})
  }

  lemma PartStart(sizes: seq<nat>, n: nat, u: set<nat>)
    requires n > 0
    ensures Part(sizes, n, 0, u) == Done(sizes, u).(sizes := sizes + [n])
  {
    var c := End(sizes, |sizes|);
    assert Held(c, c) == {};
  }

  lemma PartWhole(sizes: seq<nat>, n: nat, u: set<nat>)
    requires n > 0 && End(sizes, |sizes|) + n < HeldFrom(End(sizes, |sizes|))
    ensures Part(sizes, n, n, u) == Done(sizes + [n], u)
  {
    SubmitEnds(sizes, n);
    hide UpTo, Held, HeldFrom, End;
    var c := End(sizes, |sizes|);
    assert Held(c, c + n) == {};
  }

  /** What is outstanding neither shuts the gate for `x` nor shares its number. */
  ghost predicate Clear(x: nat, u: set<nat>) {
    GateOpen(x, u) && x !in u && forall y :: y in u ==> y % WRAP != x % WRAP
  }

  lemma SendsNext(sizes: seq<nat>, n: nat, j: nat, u: set<nat>)
    requires j < n && Clear(End(sizes, |sizes|) + j + 1, u) && Deliverable(sizes + [n], |sizes|)
    ensures var s := Part(sizes, n, j, u); SendNew(s, s.(sent := s.sent + 1, unacked := s.unacked + {s.sent + 1}))
  {
    hide GateOpen, Held, Win, End, UpTo;
    SubmitEnds(sizes, n);
    GateStaysOpen(End(sizes, |sizes|), n, j, u);
  }

  /** Nothing held back shuts the gate before the packet's last number is sent. */
  lemma GateStaysOpen(c: nat, n: nat, j: nat, u: set<nat>)
    requires j < n && Clear(c + j + 1, u) && c + n < (Win(c) + FREE_WINDOWS) * WINDOW
    ensures GateOpen(c + j + 1, u + Held(c, c + j))
  {
    hide GateOpen, Held, Win;
    var x := c + j + 1;
    if x % WINDOW == 0 {
      NothingHeld(c, x);
      assert u + Held(c, c + j) == u;
    } else {
      OpenInside(x, u + Held(c, c + j));
    }
  }

  lemma NothingHeld(c: nat, x: nat)
    requires c < x < (Win(c) + FREE_WINDOWS) * WINDOW && x % WINDOW == 0
    ensures Held(c, x - 1) == {}
  {
  }

  lemma OpenInside(x: nat, u: set<nat>)
    requires x % WINDOW != 0
    ensures GateOpen(x, u)
  {
  }

  /** Ahead of the receiver an acknowledgement is held back exactly from the seventh window on. */
  lemma HeldBack(x: nat, c: nat)
    requires c <= x < (Win(c) + FREE_WINDOWS) * WINDOW
    ensures Suppressed(x, c) <==> x >= HeldFrom(c)
  {
  }

  lemma HeldBackPart(sizes: seq<nat>, n: nat, x: nat)
    requires Deliverable(sizes + [n], |sizes|) && End(sizes, |sizes|) <= x <= End(sizes, |sizes|) + n
    ensures Suppressed(x, End(sizes, |sizes|)) <==> x >= HeldFrom(End(sizes, |sizes|))
    ensures !Suppressed(x, x)
    ensures Win(End(sizes, |sizes|) + 1) + FREE_WINDOWS + 1 >= Win(End(sizes, |sizes|))
  {
    SubmitEnds(sizes, n);
    hide End;
    HeldBack(x, End(sizes, |sizes|));
  }

  /** The next number is received, and answered unless its acknowledgement is held back. */
  lemma ArrivesNext(sizes: seq<nat>, n: nat, j: nat, u: set<nat>, s: State)
    requires Sizes(sizes) && j < n <= FRAGMENTS && Deliverable(sizes + [n], |sizes|)
    requires var p := Part(sizes, n, j, u); s == p.(sent := p.sent + 1, unacked := p.unacked + {p.sent + 1})
    ensures var next := Part(sizes, n, j + 1, u); Arrive(s, next.(unacked := s.unacked))
  {
    hide *;
    var k, next := |sizes|, Part(sizes, n, j + 1, u);
    ReceivesNext(sizes, n, j, u, s);
    AnswersNext(sizes, n, j, u, s);
    ArriveWhen(s, next.(unacked := s.unacked), k, s.sent);
  }

  lemma ArriveWhen(s: State, s': State, k: nat, x: nat)
    requires s.delivered <= |s.sizes| && 1 <= x <= s.sent && InPacket(s.sizes, k, x) && Timely(s, k)
    requires s' == Answer(Receive(s, k, x), x)
    ensures Arrive(s, s')
  {
  }

  lemma ReceivesNext(sizes: seq<nat>, n: nat, j: nat, u: set<nat>, s: State)
    requires j < n && Deliverable(sizes + [n], |sizes|)
    requires var p := Part(sizes, n, j, u); s == p.(sent := p.sent + 1, unacked := p.unacked + {p.sent + 1})
    ensures s.delivered <= |s.sizes| && 1 <= s.sent && InPacket(s.sizes, |sizes|, s.sent) && Timely(s, |sizes|)
    ensures var next := Part(sizes, n, j + 1, u);
      Receive(s, |sizes|, s.sent) == s.(got := next.got, delivered := next.delivered)
  {
    hide End, Held, HeldFrom, Suppressed, Deliverable, UpTo, Win, Advance, Acceptable, Holds;
    HeldBackPart(sizes, n, End(sizes, |sizes|));
    SubmitEnds(sizes, n);
    var c, k := End(sizes, |sizes|), |sizes|;
    var x := c + j + 1;
    UpToNext(c + j);
    AcceptsNext(c);
    AdvanceLast(s.sizes, UpTo(x), k);
    WholeWhen(s.sizes, k, x);
    assert Cumulative(s) == c;
  }

  lemma UpToNext(n: nat)
    ensures UpTo(n) + {n + 1} == UpTo(n + 1)
  {
  }

  lemma AcceptsNext(c: nat)
    ensures Acceptable(c + 1, c)
  {
  }

  lemma AdvanceLast(sizes: seq<nat>, got: set<nat>, k: nat)
    requires |sizes| == k + 1
    ensures Advance(sizes, got, k) == if Holds(sizes, got, k) then k + 1 else k
  {
    hide Holds;
  }

  lemma WholeWhen(sizes: seq<nat>, k: nat, x: nat)
    requires k < |sizes| && End(sizes, k) < x <= End(sizes, k + 1)
    ensures Holds(sizes, UpTo(x), k) <==> x == End(sizes, k + 1)
  {
    hide End, UpTo;
    if x < End(sizes, k + 1) {
      assert x + 1 !in UpTo(x);
    }
  }

  lemma AnswersNext(sizes: seq<nat>, n: nat, j: nat, u: set<nat>, s: State)
    requires j < n && Deliverable(sizes + [n], |sizes|)
    requires var p := Part(sizes, n, j, u); s == p.(sent := p.sent + 1, unacked := p.unacked + {p.sent + 1})
    ensures var next := Part(sizes, n, j + 1, u);
      && next.delivered <= |s.sizes|
      && Answer(s.(got := next.got, delivered := next.delivered), s.sent) == next.(unacked := s.unacked)
  {
    hide *;
    HeldBackPart(sizes, n, End(sizes, |sizes|) + j + 1);
    SubmitEnds(sizes, n);
    AcksNext(End(sizes, |sizes|), n, j);
    PartFields(sizes, n, j, u);
    PartFields(sizes, n, j + 1, u);
    var next := Part(sizes, n, j + 1, u);
    AnswerIs(s.(got := next.got, delivered := next.delivered), s.sent);
  }

  lemma AnswerIs(s: State, x: nat)
    requires s.delivered <= |s.sizes|
    ensures Answer(s, x) == if Suppressed(x, End(s.sizes, s.delivered)) then s else s.(acks := s.acks + {x})
  {
    hide Suppressed, End;
  }

  lemma PartFields(sizes: seq<nat>, n: nat, j: nat, u: set<nat>)
    ensures var p := Part(sizes, n, j, u); var c := End(sizes, |sizes|);
      && p.sizes == sizes + [n] && p.sent == c + j && p.unacked == u + Held(c, c + j) && p.got == UpTo(c + j)
      && p.delivered == (if j < n then |sizes| else |sizes| + 1)
      && p.acks == if j < n then UpTo(c + j) - Held(c, c + j) else UpTo(c + j) - Held(c, c + j) + {c + j}
  {
    hide End, UpTo, Held;
  }

  lemma AcksNext(c: nat, n: nat, j: nat)
    requires j < n
    ensures var x := c + j + 1; var acks := UpTo(c + j) - Held(c, c + j);
      (if x >= HeldFrom(c) && j + 1 < n then acks else acks + {x}) ==
      if j + 1 < n then UpTo(x) - Held(c, x) else UpTo(x) - Held(c, x) + {x}
  {
    hide UpTo, Held, HeldFrom;
  }

  /** An acknowledgement of a number that shares its own with no other takes it away. */
  lemma Acknowledges(s: State, x: nat)
    requires x in s.acks && x in s.unacked && forall y :: y in s.unacked && y != x ==> y % WRAP != x % WRAP
    ensures Acknowledge(s, s.(unacked := s.unacked - {x}))
  {
    assert Named(s.unacked, x % WRAP) == {x};
    assert Acknowledged(s, x) == s.(unacked := s.unacked - {x});
  }

  lemma Extended(states: seq<State>, s: State) returns (more: seq<State>)
    requires Run(states) && Step(states[|states| - 1], s)
    ensures Run(more) && more == states + [s]
  {
    hide Step;
    more := states + [s];
    forall i | 0 <= i < |more| - 1
      ensures Step(more[i], more[i + 1])
    {
      if i < |states| - 1 {
        assert more[i + 1] == states[i + 1];
      }
    }
  }

  /** The next number is sent and arrives, and is acknowledged unless that is held back. */
  lemma OneMore(before: seq<State>, sizes: seq<nat>, n: nat, j: nat, u: set<nat>) returns (states: seq<State>)
    requires Run(before) && before[|before| - 1] == Part(sizes, n, j, u)
    requires Sizes(sizes) && j < n <= FRAGMENTS && Deliverable(sizes + [n], |sizes|)
    requires Clear(End(sizes, |sizes|) + j + 1, u)
    ensures Run(states) && states[|states| - 1] == Part(sizes, n, j + 1, u)
  {
    hide *;
    var p, next := Part(sizes, n, j, u), Part(sizes, n, j + 1, u);
    var sent := p.(sent := p.sent + 1, unacked := p.unacked + {p.sent + 1});
    StepKinds(p, sent);
    ClearMeans(End(sizes, |sizes|) + j + 1, u);
    SendsNext(sizes, n, j, u);
    states := Extended(before, sent);
    ArrivesNext(sizes, n, j, u, sent);
    var arrived := next.(unacked := sent.unacked);
    StepKinds(sent, arrived);
    states := Extended(states, arrived);
    AcknowledgesNext(sizes, n, j, u);
    if arrived != next {
      StepKinds(arrived, next);
      states := Extended(states, next);
    }
  }

  lemma StepKinds(s: State, s': State)
    ensures SendNew(s, s') || Arrive(s, s') || Acknowledge(s, s') ==> Step(s, s')
  {
  }

  lemma ClearMeans(x: nat, u: set<nat>)
    requires Clear(x, u)
    ensures x !in u && forall y :: y in u ==> y % WRAP != x % WRAP
  {
  }

  lemma AcknowledgesNext(sizes: seq<nat>, n: nat, j: nat, u: set<nat>)
    requires j < n && Clear(End(sizes, |sizes|) + j + 1, u) && Deliverable(sizes + [n], |sizes|)
    ensures var p, next := Part(sizes, n, j, u), Part(sizes, n, j + 1, u);
      var arrived := next.(unacked := p.unacked + {p.sent + 1});
      arrived == next || Acknowledge(arrived, next)
  {
    hide End, GateOpen, Acknowledge, HeldFrom, Deliverable, UpTo, Held, Win;
    var p, next, c := Part(sizes, n, j, u), Part(sizes, n, j + 1, u), End(sizes, |sizes|);
    var x := p.sent + 1;
    var arrived := next.(unacked := p.unacked + {x});
    if x < HeldFrom(c) {
      assert Held(c, c + j) == {} && Held(c, x) == {};
      assert p.unacked == u && next.unacked == u;
      Acknowledges(arrived, x);
      assert arrived.unacked - {x} == next.unacked;
    } else {
      assert Held(c, x) == Held(c, c + j) + {x};
      assert next.unacked == arrived.unacked;
    }
  }

  lemma {:induction false} More(before: seq<State>, sizes: seq<nat>, n: nat, j: nat, u: set<nat>)
        returns (states: seq<State>)
    requires Run(before) && before[|before| - 1] == Part(sizes, n, 0, u)
    requires Sizes(sizes) && j <= n <= FRAGMENTS && Deliverable(sizes + [n], |sizes|)
    requires forall x :: End(sizes, |sizes|) < x <= End(sizes, |sizes|) + j ==> Clear(x, u)
    ensures Run(states) && states[|states| - 1] == Part(sizes, n, j, u)
    decreases j
  {
    hide Run, Part, Sizes, Deliverable, Clear;
    states := before;
    if j > 0 {
      states := More(before, sizes, n, j - 1, u);
      states := OneMore(states, sizes, n, j - 1, u);
    }
  }

  lemma Submits(before: seq<State>, sizes: seq<nat>, n: nat, u: set<nat>) returns (states: seq<State>)
    requires Run(before) && before[|before| - 1] == Done(sizes, u) && 1 <= n <= FRAGMENTS
    ensures Run(states) && states[|states| - 1] == Part(sizes, n, 0, u)
  {
    hide Run, Part, SendNew, Arrive, Acknowledge;
    PartStart(sizes, n, u);
    assert Submit(Done(sizes, u), Part(sizes, n, 0, u));
    states := Extended(before, Part(sizes, n, 0, u));
  }

  /** Copies of numbers whose acknowledgements were held back are acknowledged once their packet is delivered. */
  lemma {:induction false} CatchUp(before: seq<State>, s: State, k: nat) returns (states: seq<State>)
    requires Run(before) && before[|before| - 1] == s && |s.sizes| == k + 1 && s.delivered == k + 1 && Sizes(s.sizes)
    requires s.sent == End(s.sizes, k + 1) && s.got == UpTo(s.sent) && s.got - s.unacked <= s.acks <= s.got
      && Timely(s, k)
    requires forall y :: y in s.unacked ==> InPacket(s.sizes, k, y) && Win(y) == Win(s.sent)
    ensures Run(states) && states[|states| - 1] == Done(s.sizes, {})
    decreases s.unacked
  {
    hide Run, Sizes, End, Win, UpTo, Timely, InPacket;
    states := before;
    if s.unacked == {} {
      assert s.acks == s.got;
    } else {
      var y :| y in s.unacked;
      var s1 := s.(acks := s.acks + {y});
      var s2 := s1.(unacked := s.unacked - {y});
      CopyArrives(s, k, y);
      StepKinds(s, s1);
      states := Extended(states, s1);
      OneWindow(s.unacked, y, s.sent);
      Acknowledges(s1, y);
      StepKinds(s1, s2);
      states := Extended(states, s2);
      TimelySame(s, s2, k);
      states := CatchUp(states, s2, k);
    }
  }

  lemma TimelySame(s: State, s': State, k: nat)
    requires s.sizes == s'.sizes && s.delivered == s'.delivered <= |s.sizes| && k <= |s.sizes|
    ensures Timely(s, k) == Timely(s', k)
  {
  }

  lemma OneWindow(u: set<nat>, y: nat, e: nat)
    requires forall z :: z in u ==> Win(z) == Win(e)
    ensures y in u ==> forall z :: z in u && z != y ==> z % WRAP != y % WRAP
  {
    if y in u {
      forall z | z in u && z != y
        ensures z % WRAP != y % WRAP
      {
        Apart(y, z);
      }
    }
  }

  lemma Apart(y: nat, z: nat)
    requires Win(y) == Win(z) && y != z
    ensures y % WRAP != z % WRAP
  {
    assert y - z < WINDOW && z - y < WINDOW;
    var a, b := y / WRAP, z / WRAP;
    assert y == a * WRAP + y % WRAP && z == b * WRAP + z % WRAP;
  }

  lemma CopyArrives(s: State, k: nat, y: nat)
    requires |s.sizes| == k + 1 && s.delivered == k + 1 && s.sent == End(s.sizes, k + 1) && Timely(s, k)
    requires InPacket(s.sizes, k, y) && Win(y) == Win(s.sent)
    ensures Arrive(s, s.(acks := s.acks + {y}))
  {
    hide Timely, End, Acceptable;
    var start := End(s.sizes, k) + 1;
    assert Receive(s, k, y) == s;
    assert !Suppressed(y, s.sent);
    ArriveWhen(s, s.(acks := s.acks + {y}), k, y);
  }

  /** Everything that is left of a packet after its last number has arrived. */
  lemma FromPart(before: seq<State>, sizes: seq<nat>, n: nat) returns (states: seq<State>)
    requires Run(before) && before[|before| - 1] == Part(sizes, n, n, {}) && Sizes(sizes) && 1 <= n <= FRAGMENTS
    requires Deliverable(sizes + [n], |sizes|)
    ensures Run(states) && states[|states| - 1] == Done(sizes + [n], {})
  {
    hide Run;
    PartReady(sizes, n);
    hide Part, Done, End, Deliverable;
    states := CatchUp(before, Part(sizes, n, n, {}), |sizes|);
  }

  lemma PartReady(sizes: seq<nat>, n: nat)
    requires Sizes(sizes) && 1 <= n <= FRAGMENTS && Deliverable(sizes + [n], |sizes|)
    ensures var s := Part(sizes, n, n, {}); var k := |sizes|;
      && s.sizes == sizes + [n] && s.delivered == k + 1 && Sizes(s.sizes)
      && s.sent == End(s.sizes, k + 1) && s.got == UpTo(s.sent) && s.got - s.unacked <= s.acks <= s.got && Timely(s, k)
      && forall y :: y in s.unacked ==> InPacket(s.sizes, k, y) && Win(y) == Win(s.sent)
  {
    SubmitEnds(sizes, n);
    hide UpTo, Held, End;
    var c := End(sizes, |sizes|);
    forall y | y in Held(c, c + n)
      ensures c < y <= c + n && Win(y) == Win(c + n)
    {
      HeldNear(c, c + n, y);
    }
  }

  lemma HeldNear(c: nat, to: nat, y: nat)
    requires HeldFrom(c) <= y <= to < (Win(c) + FREE_WINDOWS) * WINDOW
    ensures c < y && Win(y) == Win(to)
  {
  }

  lemma ClearEmpty(x: nat)
    ensures Clear(x, {})
  {
    assert InWindow({}, (Win(x) + WINDOWS - 1) % WINDOWS) == {};
  }

  /** Whatever the packets are, if each can be delivered there is a run that delivers them and has them acknowledged. */
  lemma {:induction false} Delivers(sizes: seq<nat>) returns (states: seq<State>)
    requires Sizes(sizes) && forall k :: 0 <= k < |sizes| ==> Deliverable(sizes, k)
    ensures Run(states) && states[|states| - 1] == Done(sizes, {})
  {
    hide Part, SendNew, Arrive, Acknowledge, Clear, Deliverable;
    if sizes == [] {
      states := [START];
    } else {
      var n := |sizes| - 1;
      var some := sizes[..n];
      assert sizes == some + [sizes[n]];
      forall k | 0 <= k < n
        ensures Deliverable(some, k)
      {
        FitBefore(some, sizes, k);
      }
      states := Delivers(some);
      states := Submits(states, some, sizes[n], {});
      forall x | End(some, n) < x <= End(some, n) + sizes[n]
        ensures Clear(x, {})
      {
        ClearEmpty(x);
      }
      states := More(states, some, sizes[n], sizes[n], {});
      states := FromPart(states, some, sizes[n]);
    }
  }

  lemma FitBefore(sizes: seq<nat>, more: seq<nat>, k: nat)
    requires sizes <= more && k < |sizes| && Deliverable(more, k)
    ensures Deliverable(sizes, k)
  {
    EndOf(sizes, more, k);
    EndOf(sizes, more, k + 1);
  }

  ghost predicate Delivering(states: seq<State>, sizes: seq<nat>) {
    Run(states) && states[|states| - 1].sizes == sizes && states[|states| - 1].delivered == |sizes|
  }

  /**
   * Packets can all be delivered exactly when each ends less than eight windows after the window it follows: a packet
   * of more than 32767 fragments never can, although the sender accepts 2^20.
   */
  lemma DeliveredExactlyWhen(sizes: seq<nat>)
    requires Sizes(sizes)
    ensures (exists states :: Delivering(states, sizes)) <==> forall k :: 0 <= k < |sizes| ==> Deliverable(sizes, k)
    ensures forall k :: 0 <= k < |sizes| && sizes[k] >= FREE_WINDOWS * WINDOW ==> !Deliverable(sizes, k)
  {
    hide Run, Deliverable, Sizes, Delivering;
    if states :| Delivering(states, sizes) {
      DeliveringMeans(states, sizes);
      forall k | 0 <= k < |sizes|
        ensures Deliverable(sizes, k)
      {
        DeliveredFit(states, |states| - 1, k);
      }
    }
    if forall k :: 0 <= k < |sizes| ==> Deliverable(sizes, k) {
      var states := Delivers(sizes);
      DeliveringWhen(states, sizes);
    }
    forall k | 0 <= k < |sizes| && sizes[k] >= FREE_WINDOWS * WINDOW
      ensures !Deliverable(sizes, k)
    {
      TooBig(sizes, k);
    }
  }

  lemma DeliveringMeans(states: seq<State>, sizes: seq<nat>)
    requires Delivering(states, sizes)
    ensures Run(states) && states != [] && states[|states| - 1].sizes == sizes
      && states[|states| - 1].delivered == |sizes|
  {
  }

  lemma DeliveringWhen(states: seq<State>, sizes: seq<nat>)
    requires Run(states) && states[|states| - 1] == Done(sizes, {})
    ensures Delivering(states, sizes)
  {
    hide End;
  }

  lemma TooBig(sizes: seq<nat>, k: nat)
    requires k < |sizes| && sizes[k] >= FREE_WINDOWS * WINDOW
    ensures !Deliverable(sizes, k)
  {
  }

  // ---- Two ways in which sixteen bits are not enough ----

  lemma {:induction false} EndOnes(sizes: seq<nat>, k: nat)
    requires k <= |sizes| && forall i :: 0 <= i < |sizes| ==> sizes[i] == 1
    ensures End(sizes, k) == k
  {
    if k > 0 {
      EndOnes(sizes, k - 1);
    }
  }

  /** Packets of one number. */
  lemma Ones(n: nat) returns (sizes: seq<nat>)
    ensures |sizes| == n && Sizes(sizes) && End(sizes, n) == n
    ensures forall k :: 0 <= k < n ==> Deliverable(sizes, k)
  {
    sizes := seq(n, _ => 1);
    EndOnes(sizes, n);
    forall k | 0 <= k < n
      ensures Deliverable(sizes, k)
    {
      EndOnes(sizes, k);
      EndOnes(sizes, k + 1);
      ShortFits(k, k + 1);
    }
  }

  lemma ShortFits(c: nat, e: nat)
    requires c <= e <= c + 7 * WINDOW
    ensures e < (Win(c) + FREE_WINDOWS) * WINDOW
    ensures e <= c + 6 * WINDOW ==> e < HeldFrom(c)
  {
  }

  /**
   * An acknowledgement that comes after its number was given out again takes away a command that never arrived: number
   * 1 acknowledged again after 65536 more numbers. Nobody sends number 65537 again.
   */
  lemma LateIsLost() returns (states: seq<State>)
    ensures Run(states)
    ensures var s := states[|states| - 1];
      && 1 in s.acks && s.unacked == {WRAP + 1} && WRAP + 1 !in s.got
      && Acknowledged(s, 1).unacked == {} && !Safe(Acknowledged(s, 1))
  {
    hide Run, Safe, Deliverable, SendNew, Part, Sizes, End, Held, UpTo;
    var sizes := Ones(WRAP);
    states := Delivers(sizes);
    states := Submits(states, sizes, 1, {});
    OneFits(sizes);
    ClearEmpty(End(sizes, WRAP) + 1);
    SendsNext(sizes, 1, 0, {});
    PartFields(sizes, 1, 0, {});
    var p := Part(sizes, 1, 0, {});
    NoneHeld(WRAP);
    var sent := p.(sent := p.sent + 1, unacked := p.unacked + {p.sent + 1});
    StepKinds(p, sent);
    states := Extended(states, sent);
    RunSafe(states, |states| - 1);
    assert Named(sent.unacked, 1) == {WRAP + 1};
    LateAcknowledgement(sent, 1);
  }

  lemma NoneHeld(c: nat)
    ensures Held(c, c) == {}
  {
  }

  lemma OneFits(sizes: seq<nat>)
    ensures Deliverable(sizes + [1], |sizes|) && End(sizes, |sizes|) + 1 < HeldFrom(End(sizes, |sizes|))
  {
    SubmitEnds(sizes, 1);
    hide End;
    ShortFits(End(sizes, |sizes|), End(sizes, |sizes|) + 1);
  }

  /** The number that stays outstanding in the run below. */
  const STRAY := 4 * WINDOW

  lemma StrayClear(x: nat)
    requires STRAY < x <= 10 * WINDOW
    ensures Clear(x, {STRAY})
  {
    var w := (Win(x) + WINDOWS - 1) % WINDOWS;
    SubsetSize(InWindow({STRAY}, w), {STRAY});
    assert Win(STRAY) == 4;
  }

  /** More packets of one number each are delivered and acknowledged. */
  lemma {:induction false} GoOn(before: seq<State>, sizes: seq<nat>, n: nat)
        returns (states: seq<State>, more: seq<nat>)
    requires Run(before) && before[|before| - 1] == Done(sizes, {STRAY}) && Sizes(sizes)
    requires STRAY <= End(sizes, |sizes|) && End(sizes, |sizes|) + n <= 10 * WINDOW
    ensures sizes <= more && End(more, |more|) == End(sizes, |sizes|) + n
    ensures Run(states) && states[|states| - 1] == Done(more, {STRAY})
    decreases n
  {
    hide Run, Deliverable, Part, Clear, End, Done;
    states, more := before, sizes;
    if n > 0 {
      OneFits(sizes);
      StrayClear(End(sizes, |sizes|) + 1);
      states := Submits(before, sizes, 1, {STRAY});
      states := OneMore(states, sizes, 1, 0, {STRAY});
      PartWhole(sizes, 1, {STRAY});
      SubmitEnds(sizes, 1);
      states, more := GoOn(states, sizes + [1], n - 1);
    }
  }

  /**
   * Beyond `LIVE_NUMBERS` an ordinary copy may come too late: a packet of one number more, delivered and acknowledged
   * but for the acknowledgement of its last number, which stays outstanding while the receiver goes on for six windows.
   */
  lemma LiveCopyTooLate() returns (states: seq<State>, k: nat)
    ensures Run(states)
    ensures var s := states[|states| - 1];
      && k < s.delivered <= |s.sizes| && s.sizes[k] == LIVE_NUMBERS + 1
      && STRAY in s.unacked && InPacket(s.sizes, k, STRAY) && !Timely(s, k)
  {
    hide Run, Deliverable, Part, Sizes, SendNew, Arrive, Acknowledge, Clear, Held, UpTo, End;
    k := WINDOW - 2;
    var n := LIVE_NUMBERS + 1;
    var sizes := Ones(k);
    states := Delivers(sizes);
    states := Submits(states, sizes, n, {});
    LongFits(sizes, n);
    forall x | End(sizes, k) < x <= End(sizes, k) + n
      ensures Clear(x, {})
    {
      ClearEmpty(x);
    }
    states := More(states, sizes, n, n - 1, {});
    states := LastUnanswered(states, sizes, n);
    SubmitEnds(sizes, n);
    SizesMore(sizes, n);
    var more;
    states, more := GoOn(states, sizes + [n], 6 * WINDOW);
    EndOf(sizes + [n], more, k);
    EndOf(sizes + [n], more, k + 1);
    assert more[k] == n;
    Late(more, k);
  }

  lemma SizesMore(sizes: seq<nat>, n: nat)
    requires Sizes(sizes) && 1 <= n <= FRAGMENTS
    ensures Sizes(sizes + [n])
  {
  }

  lemma LongFits(sizes: seq<nat>, n: nat)
    requires n == LIVE_NUMBERS + 1
    ensures Deliverable(sizes + [n], |sizes|) && End(sizes, |sizes|) + n < HeldFrom(End(sizes, |sizes|))
  {
    SubmitEnds(sizes, n);
    hide End;
    ShortFits(End(sizes, |sizes|), End(sizes, |sizes|) + n);
  }

  /** The last number is sent and received, but its acknowledgement does not come back. */
  lemma LastUnanswered(before: seq<State>, sizes: seq<nat>, n: nat) returns (states: seq<State>)
    requires 1 <= n <= FRAGMENTS && Run(before) && before[|before| - 1] == Part(sizes, n, n - 1, {}) && Sizes(sizes)
    requires Deliverable(sizes + [n], |sizes|) && End(sizes, |sizes|) + n < HeldFrom(End(sizes, |sizes|))
    ensures Run(states) && states[|states| - 1] == Done(sizes + [n], {End(sizes, |sizes|) + n})
  {
    hide *;
    var p, next := Part(sizes, n, n - 1, {}), Part(sizes, n, n, {});
    var sent := p.(sent := p.sent + 1, unacked := p.unacked + {p.sent + 1});
    ClearEmpty(End(sizes, |sizes|) + n);
    SendsNext(sizes, n, n - 1, {});
    StepKinds(p, sent);
    states := Extended(before, sent);
    ArrivesNext(sizes, n, n - 1, {}, sent);
    StepKinds(sent, next.(unacked := sent.unacked));
    states := Extended(states, next.(unacked := sent.unacked));
    PartWhole(sizes, n, {});
    PartFields(sizes, n, n - 1, {});
    NoneHeldBefore(End(sizes, |sizes|), End(sizes, |sizes|) + n - 1);
    assert sent.unacked == {End(sizes, |sizes|) + n};
    DoneWith(sizes + [n], sent.unacked);
  }

  lemma NoneHeldBefore(c: nat, to: nat)
    requires to < HeldFrom(c)
    ensures Held(c, to) == {}
  {
  }

  lemma DoneWith(sizes: seq<nat>, u: set<nat>)
    ensures Done(sizes, u) == Done(sizes, {}).(unacked := u)
  {
    hide UpTo, End;
  }

  lemma Late(sizes: seq<nat>, k: nat)
    requires k < |sizes| && End(sizes, k) == WINDOW - 2 && End(sizes, |sizes|) == 10 * WINDOW
    ensures !Timely(Done(sizes, {STRAY}), k)
  {
    hide End, UpTo;
  }
}
