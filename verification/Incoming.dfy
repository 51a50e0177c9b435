/** The receiving side of a channel on 16-bit numbers: the sorted queue, reassembly, dispatch and acknowledgements. */
module Incoming {
  import opened Numbers
  import opened Transport
  import opened Sequence
  import opened Fragments

  /** What becomes of a command that should go into the queue. */
  datatype Outcome = Dropped | Refused | Taken

  /** A queued command; a plain packet has no fragments. */
  datatype Entry = Entry(number: nat, fragmentCount: nat, remaining: nat, bits: seq<bool>, packet: seq<Byte>)

  ghost predicate Cuts(ps: seq<Packet>) {
    forall k :: 0 <= k < |ps| ==> ps[k].cut > 0 && 1 <= Count(ps[k]) <= FRAGMENTS
  }

  /** How many numbers each packet takes. */
  function SizesOf(ps: seq<Packet>): (sizes: seq<nat>)
    requires forall k :: 0 <= k < |ps| ==> ps[k].cut > 0
    ensures |sizes| == |ps| && forall k :: 0 <= k < |ps| ==> sizes[k] == Count(ps[k])
  {
    seq(|ps|, k requires 0 <= k < |ps| => Count(ps[k]))
  }

  function First(sizes: seq<nat>, k: nat): nat
    requires k <= |sizes|
  {
    End(sizes, k) + 1
  }

  /** The entry stands for packet `k`, as far as its numbers have come. */
  ghost predicate EntryFor(e: Entry, p: Packet, first: nat, got: set<nat>)
    requires p.cut > 0
  {
    && e.number == Wire(first)
    && if Fragmented(p) then
         && e.fragmentCount == Count(p) && Holding(p, e.bits, e.packet) && e.remaining == ClearBits(e.bits)
         && (forall j :: 0 <= j < Count(p) ==> (e.bits[j] <==> first + j in got))
       else e.fragmentCount == 0 && e.remaining == 0 && e.packet == p.data && first in got
  }

  ghost predicate EntryAt(queue: seq<Entry>, ks: seq<nat>, i: nat, ps: seq<Packet>, got: set<nat>, c: nat)
    requires i < |queue| && |ks| == |queue| && Cuts(ps)
  {
    && ks[i] < |ps| && EntryFor(queue[i], ps[ks[i]], First(SizesOf(ps), ks[i]), got)
    && c < First(SizesOf(ps), ks[i]) && Acceptable(First(SizesOf(ps), ks[i]), c)
  }

  /** The queue holds the packets `ks`, in order, all ahead of `c`. */
  ghost predicate Sorted(queue: seq<Entry>, ks: seq<nat>, ps: seq<Packet>, got: set<nat>, c: nat)
    requires Cuts(ps)
  {
    && |ks| == |queue|
    && (forall i :: 0 <= i < |queue| ==> EntryAt(queue, ks, i, ps, got, c))
    && (forall i, j :: 0 <= i < j < |ks| ==> ks[i] < ks[j])
  }

  /** Every number taken beyond the delivered packets has its packet in the queue. */
  ghost predicate Queued(ks: seq<nat>, sizes: seq<nat>, got: set<nat>, delivered: nat) {
    forall k: nat, x: nat :: InPacket(sizes, k, x) && x in got && k >= delivered ==> k in ks
  }

  function Bodies(ps: seq<Packet>, n: nat): (b: seq<seq<Byte>>)
    requires n <= |ps|
    ensures |b| == n && forall k :: 0 <= k < n ==> b[k] == ps[k].data
  {
    seq(n, k requires 0 <= k < n => ps[k].data)
  }

  // ---- Order and nearness ----

  lemma AcceptableIsNear(x: nat, c: nat)
    requires c < x && Acceptable(x, c)
    ensures c <= x < c + WRAP && Near(x, c)
  {
  }

  lemma FirstOrder(sizes: seq<nat>, i: nat, j: nat)
    requires Sizes(sizes) && i < |sizes| && j < |sizes|
    ensures i < j <==> First(sizes, i) < First(sizes, j)
    ensures i == j <==> First(sizes, i) == First(sizes, j)
  {
    if i < j {
      EndMonotone(sizes, i, j);
    } else if j < i {
      EndMonotone(sizes, j, i);
    }
  }

  lemma SizesFine(ps: seq<Packet>)
    requires Cuts(ps)
    ensures Sizes(SizesOf(ps))
  {
  }

  /** An entry compared with a number both on the wire and in truth. */
  lemma Compare(queue: seq<Entry>, ks: seq<nat>, i: nat, ps: seq<Packet>, got: set<nat>, c: nat, v: nat)
    requires Cuts(ps) && Sorted(queue, ks, ps, got, c) && i < |queue| && c <= v < c + WRAP
    ensures ks[i] < |ps| && queue[i].number < WRAP
    ensures var f, e := First(SizesOf(ps), ks[i]), queue[i].number;
      && (WireBefore(e, Wire(v), Wire(c)) <==> f < v)
      && (e == Wire(v) <==> f == v)
  {
    hide Acceptable, WireBefore, Wire, Holding, Count, First;
    assert EntryAt(queue, ks, i, ps, got, c);
    AcceptableIsNear(First(SizesOf(ps), ks[i]), c);
    OrderTest(First(SizesOf(ps), ks[i]), v, c);
  }

  /** The place for a packet whose first number is `v`. */
  ghost predicate Place(ks: seq<nat>, sizes: seq<nat>, i: nat, v: nat) {
    && i <= |ks| && (forall j :: 0 <= j < |ks| ==> ks[j] < |sizes|)
    && (forall j :: 0 <= j < i ==> First(sizes, ks[j]) < v) && (forall j :: i <= j < |ks| ==> v < First(sizes, ks[j]))
  }

  /** Among numbers that are packets' own the place is where the packet belongs. */
  lemma PlaceGap(ks: seq<nat>, sizes: seq<nat>, i: nat, k: nat)
    requires Sizes(sizes) && k < |sizes| && Place(ks, sizes, i, First(sizes, k))
    ensures Gap(ks, i, k)
  {
    hide First;
    forall j | 0 <= j < |ks|
      ensures if j < i then ks[j] < k else k < ks[j]
    {
      FirstOrder(sizes, ks[j], k);
      FirstOrder(sizes, k, ks[j]);
    }
  }

  // ---- Changing the queue ----

  /** Taking a number of one packet leaves the entries of the others as they are. */
  lemma OtherEntry(e: Entry, ps: seq<Packet>, i: nat, k: nat, x: nat, got: set<nat>)
    requires Cuts(ps) && i < |ps| && k < |ps| && i != k && InPacket(SizesOf(ps), k, x)
    requires EntryFor(e, ps[i], First(SizesOf(ps), i), got)
    ensures EntryFor(e, ps[i], First(SizesOf(ps), i), got + {x})
  {
    hide ByteHeld, ClearBits, Wire, First, Count;
    SizesFine(ps);
    var first, p := First(SizesOf(ps), i), ps[i];
    NotTaken(SizesOf(ps), i, k, x, 0);
    if Fragmented(p) {
      forall j | 0 <= j < Count(p)
        ensures e.bits[j] <==> first + j in got + {x}
      {
        NotTaken(SizesOf(ps), i, k, x, j);
      }
    }
  }

  lemma NotTaken(sizes: seq<nat>, i: nat, k: nat, x: nat, j: nat)
    requires Sizes(sizes) && i < |sizes| && i != k && InPacket(sizes, k, x) && j < sizes[i]
    ensures First(sizes, i) + j != x
  {
    if First(sizes, i) + j == x {
      assert InPacket(sizes, i, x);
      OnePacket(sizes, i, k, x);
    }
  }

  function Inserted<T>(s: seq<T>, i: nat, e: T): (r: seq<T>)
    requires i <= |s|
    ensures |r| == |s| + 1 && r[i] == e
    ensures forall j :: 0 <= j < i ==> r[j] == s[j]
    ensures forall j :: i < j <= |s| ==> r[j] == s[j - 1]
  {
    s[..i] + [e] + s[i..]
  }

  /** The place for packet `k`. */
  ghost predicate Gap(ks: seq<nat>, i: nat, k: nat) {
    i <= |ks| && (forall j :: 0 <= j < i ==> ks[j] < k) && (forall j :: i <= j < |ks| ==> k < ks[j])
  }

  /** A new entry with the numbers taken so far. */
  lemma InsertSorted(queue: seq<Entry>, ks: seq<nat>, ps: seq<Packet>, got: set<nat>, c: nat, i: nat, e: Entry, k: nat)
    requires Cuts(ps) && Sorted(queue, ks, ps, got, c) && Gap(ks, i, k) && k < |ps|
    requires EntryFor(e, ps[k], First(SizesOf(ps), k), got)
    requires c < First(SizesOf(ps), k) && Acceptable(First(SizesOf(ps), k), c)
    ensures Sorted(Inserted(queue, i, e), Inserted(ks, i, k), ps, got, c)
  {
    hide EntryFor, Acceptable, First;
    var q, l := Inserted(queue, i, e), Inserted(ks, i, k);
    forall j | 0 <= j < |q|
      ensures EntryAt(q, l, j, ps, got, c)
    {
      if j < i {
        assert EntryAt(queue, ks, j, ps, got, c);
      } else if j > i {
        assert EntryAt(queue, ks, j - 1, ps, got, c);
      }
    }
  }

  /** One more number taken, with the packet's own entry brought up to date. */
  lemma TakeSorted(queue: seq<Entry>, ks: seq<nat>, ps: seq<Packet>, got: set<nat>, c: nat, i: nat, e: Entry, x: nat)
    requires Cuts(ps) && Sorted(queue, ks, ps, got, c) && i < |queue| && ks[i] < |ps| && InPacket(SizesOf(ps), ks[i], x)
    requires EntryFor(e, ps[ks[i]], First(SizesOf(ps), ks[i]), got + {x})
    ensures Sorted(queue[i := e], ks, ps, got + {x}, c)
  {
    hide EntryFor, Acceptable, First;
    var q := queue[i := e];
    forall j | 0 <= j < |q|
      ensures EntryAt(q, ks, j, ps, got + {x}, c)
    {
      assert EntryAt(queue, ks, j, ps, got, c);
      if j != i {
        OtherEntry(queue[j], ps, ks[j], ks[i], x, got);
      }
    }
  }

  lemma TakeQueued(ks: seq<nat>, sizes: seq<nat>, got: set<nat>, delivered: nat, k: nat, x: nat)
    requires Sizes(sizes) && Queued(ks, sizes, got, delivered) && k in ks && InPacket(sizes, k, x)
    ensures Queued(ks, sizes, got + {x}, delivered)
  {
    forall i: nat, y: nat | InPacket(sizes, i, y) && y in got + {x} && i >= delivered
      ensures i in ks
    {
      if y == x {
        OnePacket(sizes, i, k, x);
      }
    }
  }

  // ---- Handing packets on ----

  /** The head of the queue, once it is whole and next, is the next packet to hand on. */
  lemma HeadIsNext(queue: seq<Entry>, ks: seq<nat>, ps: seq<Packet>, got: set<nat>, c: nat, d: nat)
    requires Cuts(ps) && Sorted(queue, ks, ps, got, c) && queue != [] && d <= |ps| && c == End(SizesOf(ps), d)
    ensures ks[0] < |ps|
    ensures queue[0].remaining == 0 && queue[0].number == Wire(c + 1) <==>
            ks[0] == d && Holds(SizesOf(ps), got, d)
    ensures queue[0].remaining == 0 ==> queue[0].packet == ps[ks[0]].data
    ensures queue[0].fragmentCount == if Fragmented(ps[ks[0]]) then Count(ps[ks[0]]) else 0
  {
    hide Holding, Count, Wire, Acceptable, ClearBits;
    assert EntryAt(queue, ks, 0, ps, got, c);
    var k, sizes, first := ks[0], SizesOf(ps), First(SizesOf(ps), ks[0]);
    SizesFine(ps);
    AcceptableIsNear(first, c);
    OrderTest(first, c + 1, c);
    if d < |ps| {
      FirstOrder(sizes, k, d);
    } else {
      EndMonotone(sizes, k + 1, d);
    }
    WholeEntry(queue[0], ps[k], sizes, k, got);
  }

  /** An entry with nothing remaining holds its whole packet, and only such an entry. */
  lemma WholeEntry(e: Entry, p: Packet, sizes: seq<nat>, k: nat, got: set<nat>)
    requires k < |sizes| && p.cut > 0 && sizes[k] == Count(p) && EntryFor(e, p, First(sizes, k), got)
    ensures e.remaining == 0 <==> Holds(sizes, got, k)
    ensures e.remaining == 0 ==> e.packet == p.data
  {
    var first := First(sizes, k);
    if Fragmented(p) {
      hide ByteHeld, Count, End, Wire;
      ClearBitsZero(e.bits);
      if e.remaining == 0 {
        Reassembled(p, e.bits, e.packet);
        forall x | End(sizes, k) < x <= End(sizes, k + 1)
          ensures x in got
        {
          EndNext(sizes, k);
          assert e.bits[x - first];
        }
      } else {
        var j :| 0 <= j < |e.bits| && !e.bits[j];
        EndNext(sizes, k);
        assert first + j !in got;
      }
    } else {
      EndNext(sizes, k);
    }
  }

  lemma EndNext(sizes: seq<nat>, k: nat)
    requires k < |sizes|
    ensures End(sizes, k + 1) == End(sizes, k) + sizes[k] && First(sizes, k) == End(sizes, k) + 1
  {
  }

  /** Without its head the queue is still sorted, seen from further on. */
  lemma TailSorted(queue: seq<Entry>, ks: seq<nat>, ps: seq<Packet>, got: set<nat>, c: nat, d: nat)
    requires Cuts(ps) && Sorted(queue, ks, ps, got, c) && queue != [] && d < |ps| && ks[0] == d
      && c == End(SizesOf(ps), d)
    ensures Sorted(queue[1..], ks[1..], ps, got, End(SizesOf(ps), d + 1))
  {
    hide EntryFor, Acceptable, Count;
    var q, l, c' := queue[1..], ks[1..], End(SizesOf(ps), d + 1);
    forall i | 0 <= i < |q|
      ensures EntryAt(q, l, i, ps, got, c')
    {
      assert EntryAt(queue, ks, i + 1, ps, got, c);
      SizesFine(ps);
      EndMonotone(SizesOf(ps), d + 1, ks[i + 1]);
      EndMonotone(SizesOf(ps), d, d + 1);
      StillAcceptable(First(SizesOf(ps), ks[i + 1]), c, c');
    }
  }

  lemma TailQueued(ks: seq<nat>, sizes: seq<nat>, got: set<nat>, d: nat)
    requires ks != [] && ks[0] == d && Queued(ks, sizes, got, d)
    ensures Queued(ks[1..], sizes, got, d + 1)
  {
    forall k: nat, x: nat | InPacket(sizes, k, x) && x in got && k >= d + 1
      ensures k in ks[1..]
    {
      var i :| 0 <= i < |ks| && ks[i] == k;
      assert ks[1..][i - 1] == k;
    }
  }

  /** When the next packet is whole, it is at the head. */
  lemma NextIsHead(queue: seq<Entry>, ks: seq<nat>, ps: seq<Packet>, got: set<nat>, d: nat)
    requires Cuts(ps) && d < |ps| && Holds(SizesOf(ps), got, d) && Queued(ks, SizesOf(ps), got, d)
    requires |ks| == |queue| && (forall i, j :: 0 <= i < j < |ks| ==> ks[i] < ks[j])
      && (forall i :: 0 <= i < |ks| ==> d <= ks[i])
    ensures queue != [] && ks[0] == d
  {
    SizesFine(ps);
    EndMonotone(SizesOf(ps), d, d + 1);
    var x := End(SizesOf(ps), d + 1);
    assert InPacket(SizesOf(ps), d, x);
    assert x in got;
  }

  lemma HeadAtLeast(queue: seq<Entry>, ks: seq<nat>, ps: seq<Packet>, got: set<nat>, d: nat)
    requires Cuts(ps) && d <= |ps| && Sorted(queue, ks, ps, got, End(SizesOf(ps), d))
    ensures forall i :: 0 <= i < |ks| ==> d <= ks[i]
  {
    hide EntryFor, Acceptable, Count;
    forall i | 0 <= i < |ks|
      ensures d <= ks[i]
    {
      assert EntryAt(queue, ks, i, ps, got, End(SizesOf(ps), d));
      if ks[i] < d {
        SizesFine(ps);
        EndMonotone(SizesOf(ps), ks[i] + 1, d);
      }
    }
  }

  lemma AdvanceOn(sizes: seq<nat>, got: set<nat>, d: nat)
    requires d <= |sizes|
    ensures d < |sizes| && Holds(sizes, got, d) ==> Advance(sizes, got, d) == Advance(sizes, got, d + 1)
    ensures d == |sizes| || !Holds(sizes, got, d) ==> Advance(sizes, got, d) == d
  {
    hide Holds;
  }

  function Packets(queue: seq<Entry>): (b: seq<seq<Byte>>)
    ensures |b| == |queue| && forall i :: 0 <= i < |b| ==> b[i] == queue[i].packet
  {
    seq(|queue|, i requires 0 <= i < |queue| => queue[i].packet)
  }

  /** The dispatch loop has gone over the first `i` entries and reached packet `d`. */
  ghost predicate Dispatching(queue: seq<Entry>, ks: seq<nat>, ps: seq<Packet>, got: set<nat>, from: nat, i: nat,
        d: nat, incoming: nat) {
    && Cuts(ps) && from <= d <= |ps| && i <= |queue| == |ks|
    && Sorted(queue[i..], ks[i..], ps, got, End(SizesOf(ps), d)) && Queued(ks[i..], SizesOf(ps), got, d)
    && incoming == Wire(End(SizesOf(ps), d))
    && i == d - from && Packets(queue[..i]) == Bodies(ps, d)[from..]
    && Advance(SizesOf(ps), got, from) == Advance(SizesOf(ps), got, d)
  }

  lemma LogTurn(queue: seq<Entry>, ps: seq<Packet>, from: nat, i: nat, d: nat)
    requires i < |queue| && from <= d < |ps| && i == d - from && queue[i].packet == ps[d].data
    requires Packets(queue[..i]) == Bodies(ps, d)[from..]
    ensures Packets(queue[..i + 1]) == Bodies(ps, d + 1)[from..]
  {
    assert Packets(queue[..i + 1]) == Packets(queue[..i]) + [queue[i].packet];
    assert Bodies(ps, d + 1)[from..] == Bodies(ps, d)[from..] + [ps[d].data];
  }

  lemma DispatchTurn(queue: seq<Entry>, ks: seq<nat>, ps: seq<Packet>, got: set<nat>, from: nat, i: nat, d: nat,
        incoming: nat)
    requires Dispatching(queue, ks, ps, got, from, i, d, incoming) && i < |queue|
    requires queue[i].remaining == 0 && queue[i].number == (incoming + 1) % WRAP
    ensures Dispatching(queue, ks, ps, got, from, i + 1, d + 1,
                        if queue[i].fragmentCount > 0 then (queue[i].number + queue[i].fragmentCount - 1) % WRAP
                          else queue[i].number)
  {
    hide Sorted, Queued, Holds, Wire, Count, Advance, Packets, Bodies, End;
    var q, l, sizes, c := queue[i..], ks[i..], SizesOf(ps), End(SizesOf(ps), d);
    HeadIsNext(q, l, ps, got, c, d);
    NextTest(c);
    TailSorted(q, l, ps, got, c, d);
    TailQueued(l, sizes, got, d);
    AdvanceOn(sizes, got, d);
    EndNext(sizes, d);
    AddTest(c + 1, Count(ps[d]) - 1);
    PlainCount(ps[d]);
    assert q[1..] == queue[i + 1..] && l[1..] == ks[i + 1..];
    LogTurn(queue, ps, from, i, d);
  }

  lemma PlainCount(p: Packet)
    requires p.cut > 0
    ensures !Fragmented(p) ==> Count(p) == 1
  {
  }

  lemma DispatchEnd(queue: seq<Entry>, ks: seq<nat>, ps: seq<Packet>, got: set<nat>, from: nat, i: nat, d: nat,
        incoming: nat)
    requires Dispatching(queue, ks, ps, got, from, i, d, incoming)
    requires i == |queue| || queue[i].remaining > 0 || queue[i].number != (incoming + 1) % WRAP
    ensures Advance(SizesOf(ps), got, from) == d
  {
    hide Holds, Wire, Count, Advance, EntryAt;
    var q, l, c := queue[i..], ks[i..], End(SizesOf(ps), d);
    AdvanceOn(SizesOf(ps), got, d);
    NextTest(c);
    if d < |ps| && Holds(SizesOf(ps), got, d) {
      HeadAtLeast(q, l, ps, got, d);
      NextIsHead(q, l, ps, got, d);
      HeadIsNext(q, l, ps, got, c, d);
    }
  }

  // ---- Arrivals ----

  /** A copy of number `x` of packet `k` reaches a receiver in state `s`. */
  ghost predicate Arrival(ps: seq<Packet>, s: State, k: nat, x: nat) {
    && Cuts(ps) && s.sizes == SizesOf(ps) && Safe(s) && 1 <= x <= s.sent && InPacket(s.sizes, k, x) && Timely(s, k)
  }

  /** The window test tells the packets ahead that fit from all others. */
  lemma ArrivalTest(ps: seq<Packet>, s: State, k: nat, x: nat)
    requires Arrival(ps, s, k, x)
    ensures k < |ps| && s.delivered <= |s.sizes| == |ps|
    ensures var first, c := First(s.sizes, k), Cumulative(s);
      && Near(first, c) && c < first + WRAP && WireAhead(Wire(first), Wire(c)) >= 0
      && (WireAhead(Wire(first), Wire(c)) < FREE_WINDOWS - 1 <==> first == c || (c < first && Acceptable(first, c)))
      && (first == c ==> !Fragmented(ps[k]))
      && (Wire(first) == Wire(c) <==> first == c)
      && (first <= c || !Acceptable(first, c) ==> Receive(s, k, x) == s)
  {
    hide Win, Wire, WireAhead, Count, Safe;
    ArrivalNear(ps, s, k, x);
    var first, c := First(s.sizes, k), Cumulative(s);
    WindowTest(first, c);
    AheadBehind(first, c);
    if first <= c {
      OrderBehind(first, c);
    } else {
      OrderTest(first, c, c);
    }
    if first == c {
      OnlyNumber(ps, s, k, x);
    }
  }

  lemma OrderBehind(x: nat, c: nat)
    requires x <= c < x + WRAP
    ensures Wire(x) == Wire(c) <==> x == c
  {
    hide Wire;
    OrderTest(c, x, x);
  }

  lemma AheadBehind(x: nat, c: nat)
    requires Win(x) + FREE_WINDOWS + 1 >= Win(c)
    ensures x < c ==> Ahead(x, c) >= FREE_WINDOWS - 1
    ensures x == c ==> Ahead(x, c) == 0
    ensures x >= c ==> (Acceptable(x, c) <==> Ahead(x, c) < FREE_WINDOWS - 1)
  {
  }

  /** A packet of several numbers never has the cumulative number for its first. */
  lemma OnlyNumber(ps: seq<Packet>, s: State, k: nat, x: nat)
    requires Arrival(ps, s, k, x) && First(s.sizes, k) == Cumulative(s)
    ensures !Fragmented(ps[k])
  {
    hide Win, Acceptable, Holds, Count;
    BehindIsDelivered(s, k, x);
    EndMonotone(s.sizes, k + 1, s.delivered);
    if Fragmented(ps[k]) {
      CountCovers(ps[k]);
      EndNext(s.sizes, k);
    }
  }

  /** Everything that can arrive is near the receiver, before and after it is taken. */
  lemma ArrivalNear(ps: seq<Packet>, s: State, k: nat, x: nat)
    requires Arrival(ps, s, k, x)
    ensures k < |ps| && s.delivered <= |s.sizes| == |ps| && Sizes(s.sizes)
    ensures Near(First(s.sizes, k), Cumulative(s)) && First(s.sizes, k) <= x
    ensures Safe(Receive(s, k, x)) && Near(x, Cumulative(Receive(s, k, x)))
  {
    hide Holds, Acceptable, End, InPacket, Count;
    ArrivalFirst(s.sizes, k, x);
    ReceiveSafe(s, k, x);
    Lag(s);
    Lag(Receive(s, k, x));
    CumulativeGrows(s, k, x);
  }

  lemma ArrivalFirst(sizes: seq<nat>, k: nat, x: nat)
    requires InPacket(sizes, k, x)
    ensures k < |sizes| && First(sizes, k) <= x
  {
  }

  lemma CumulativeGrows(s: State, k: nat, x: nat)
    requires Safe(s) && k < |s.sizes|
    ensures Cumulative(s) <= Cumulative(Receive(s, k, x))
    ensures End(s.sizes, k) + 1 <= Cumulative(s) ==> Receive(s, k, x) == s
  {
    hide Holds, Acceptable, Win;
    EndMonotone(s.sizes, s.delivered, Receive(s, k, x).delivered);
  }

  lemma EntriesFine(queue: seq<Entry>, ks: seq<nat>, ps: seq<Packet>, got: set<nat>, c: nat)
    requires Cuts(ps) && Sorted(queue, ks, ps, got, c)
    ensures |queue| == |ks| && (forall j :: 0 <= j < |ks| ==> ks[j] < |ps|)
      && (forall i, j :: 0 <= i < j < |ks| ==> ks[i] < ks[j])
  {
    hide EntryFor, Acceptable;
    forall j | 0 <= j < |ks|
      ensures ks[j] < |ps|
    {
      assert EntryAt(queue, ks, j, ps, got, c);
    }
  }

  lemma PlaceDown(queue: seq<Entry>, ks: seq<nat>, i: nat, ps: seq<Packet>, got: set<nat>, c: nat, v: nat)
    requires Cuts(ps) && Sorted(queue, ks, ps, got, c) && i < |queue| == |ks| && ks[i] < |ps|
    requires First(SizesOf(ps), ks[i]) < v
    requires forall j :: i < j < |ks| ==> ks[j] < |ps| && v < First(SizesOf(ps), ks[j])
    ensures Place(ks, SizesOf(ps), i + 1, v)
  {
    hide First, Sorted;
    EntriesFine(queue, ks, ps, got, c);
    SizesFine(ps);
    forall j | 0 <= j <= i
      ensures First(SizesOf(ps), ks[j]) < v
    {
      FirstOrder(SizesOf(ps), ks[j], ks[i]);
    }
  }

  lemma PlaceLow(queue: seq<Entry>, ks: seq<nat>, ps: seq<Packet>, got: set<nat>, c: nat, v: nat)
    requires Cuts(ps) && Sorted(queue, ks, ps, got, c) && |queue| == |ks|
    requires forall j :: 0 <= j < |ks| ==> ks[j] < |ps| && v < First(SizesOf(ps), ks[j])
    ensures Place(ks, SizesOf(ps), 0, v)
  {
    hide First, Sorted;
  }

  /** With a place for it between the entries, no entry has the number. */
  lemma NoSuchEntry(queue: seq<Entry>, ks: seq<nat>, ps: seq<Packet>, got: set<nat>, c: nat, v: nat, i: nat)
    requires Cuts(ps) && Sorted(queue, ks, ps, got, c) && c <= v < c + WRAP && Place(ks, SizesOf(ps), i, v)
    ensures forall j :: 0 <= j < |queue| ==> queue[j].number != Wire(v)
  {
    hide First, Wire, WireBefore, EntryAt;
    forall j | 0 <= j < |queue|
      ensures queue[j].number != Wire(v)
    {
      Compare(queue, ks, j, ps, got, c, v);
    }
  }

  lemma MissingHere(ks: seq<nat>, i: nat, k: nat, sizes: seq<nat>, got: set<nat>, delivered: nat, x: nat)
    requires Gap(ks, i, k) && Queued(ks, sizes, got, delivered) && InPacket(sizes, k, x) && k >= delivered
    ensures x !in got
  {
    assert k !in ks;
  }

  lemma AheadIndex(s: State, k: nat)
    requires Sizes(s.sizes) && s.delivered <= |s.sizes| && k < |s.sizes| && Cumulative(s) < First(s.sizes, k)
    ensures s.delivered <= k
  {
    if k < s.delivered {
      EndMonotone(s.sizes, k + 1, s.delivered);
      EndNext(s.sizes, k);
    }
  }

  lemma PlainEntry(p: Packet, first: nat, got: set<nat>)
    requires p.cut > 0 && !Fragmented(p)
    ensures EntryFor(Entry(Wire(first), 0, 0, [], p.data), p, first, got + {first})
  {
  }

  lemma BlankEntry(p: Packet, first: nat, got: set<nat>, blank: seq<Byte>)
    requires p.cut > 0 && Fragmented(p) && |blank| == |p.data| && forall x :: first <= x < first + Count(p) ==>
      x !in got
    ensures EntryFor(Entry(Wire(first), Count(p), Count(p), seq(Count(p), _ => false), blank), p, first, got)
  {
    hide Wire, ByteHeld, Count;
    HoldingNothing(p, blank);
    ClearBitsNone(Count(p));
    var n := Count(p);
    var bits := seq(n, _ => false);
    forall j | 0 <= j < n
      ensures bits[j] <==> first + j in got
    {
      assert first <= first + j < first + n;
    }
  }

  lemma SetMore(ks: seq<nat>, i: nat, k: nat, sizes: seq<nat>, got: set<nat>, delivered: nat)
    requires i <= |ks| && Queued(ks, sizes, got, delivered)
    ensures Queued(Inserted(ks, i, k), sizes, got, delivered) && k in Inserted(ks, i, k)
  {
    var l := Inserted(ks, i, k);
    forall j | 0 <= j < |ks|
      ensures ks[j] in l
    {
      assert l[if j < i then j else j + 1] == ks[j];
    }
    assert l[i] == k;
  }

  /** Taking a number leaves the state as it was when it is there already. */
  lemma TakenAlready(s: State, k: nat, x: nat)
    requires Safe(s) && k < |s.sizes| && x in s.got
    ensures Receive(s, k, x) == s
  {
    hide Holds, Acceptable, End, Win, InPacket;
    assert s.got + {x} == s.got;
    AdvanceOn(s.sizes, s.got, s.delivered);
  }

  lemma ReceiveIs(s: State, k: nat, x: nat)
    requires k < |s.sizes| && s.delivered <= |s.sizes| && Cumulative(s) < First(s.sizes, k)
      && Acceptable(First(s.sizes, k), Cumulative(s))
    ensures var got := s.got + {x};
      Receive(s, k, x) == s.(got := got, delivered := Advance(s.sizes, got, s.delivered))
  {
    hide Acceptable, End, Advance;
  }

  lemma DispatchStart(queue: seq<Entry>, ks: seq<nat>, ps: seq<Packet>, got: set<nat>, d: nat, incoming: nat)
    requires Cuts(ps) && d <= |ps| && Sorted(queue, ks, ps, got, End(SizesOf(ps), d)) && Queued(ks, SizesOf(ps), got, d)
    requires incoming == Wire(End(SizesOf(ps), d)) && |queue| == |ks|
    ensures Dispatching(queue, ks, ps, got, d, 0, d, incoming)
  {
    hide Sorted, Queued, Wire, Advance;
    assert queue[0..] == queue && ks[0..] == ks;
    assert Packets(queue[..0]) == Bodies(ps, d)[d..];
  }

  lemma DispatchBounds(queue: seq<Entry>, ks: seq<nat>, ps: seq<Packet>, got: set<nat>, from: nat, i: nat, d: nat,
        incoming: nat)
    requires Dispatching(queue, ks, ps, got, from, i, d, incoming)
    ensures i <= |queue| == |ks| && from <= d <= |ps| && i == d - from
  {
  }

  lemma RepresentsMeans(channel: Channel, ps: seq<Packet>, s: State)
    requires channel.Represents(ps, s)
    ensures Cuts(ps) && s.sizes == SizesOf(ps) && s.delivered <= |ps| == |s.sizes| && |channel.queue| == |channel.ks|
    ensures Cumulative(s) == End(SizesOf(ps), s.delivered) && channel.incoming == Wire(Cumulative(s))
      && channel.dispatched == Bodies(ps, s.delivered)
    ensures Sorted(channel.queue, channel.ks, ps, s.got, Cumulative(s))
      && Queued(channel.ks, s.sizes, s.got, s.delivered)
  {
    hide Wire, Queued, End, EntryAt;
  }

  lemma RepresentsWhen(channel: Channel, ps: seq<Packet>, s: State)
    requires Cuts(ps) && s.sizes == SizesOf(ps) && s.delivered <= |ps|
    requires channel.incoming == Wire(End(SizesOf(ps), s.delivered)) && channel.dispatched == Bodies(ps, s.delivered)
    requires Sorted(channel.queue, channel.ks, ps, s.got, End(SizesOf(ps), s.delivered))
      && Queued(channel.ks, s.sizes, s.got, s.delivered)
    ensures channel.Represents(ps, s)
  {
    hide Wire, Queued, End, Sorted;
  }

  /** The window test lets the number through and it is not there yet. */
  predicate Takes(queue: seq<Entry>, incoming: nat, number: nat) {
    && 0 <= WireAhead(number, incoming) < FREE_WINDOWS - 1 && number != incoming
    && forall j :: 0 <= j < |queue| ==> queue[j].number != number
  }

  lemma TakesMeans(queue: seq<Entry>, incoming: nat, number: nat)
    ensures Takes(queue, incoming, number) <==>
      && 0 <= WireAhead(number, incoming) < FREE_WINDOWS - 1 && number != incoming
      && forall j :: 0 <= j < |queue| ==> queue[j].number != number
  {
    hide WireAhead;
  }

  lemma CompareWire(e: nat, x: nat, c: nat)
    ensures WireBefore(e, x, c) <==> if x >= c then c <= e < x else e >= c || e < x
  {
  }

  /** The number less than a turn ahead of the receiver that is sent as the packet's first. */
  lemma Turned(ps: seq<Packet>, s: State, k: nat) returns (v: nat)
    requires k < |s.sizes| && Arrival(ps, s, k, First(s.sizes, k))
    ensures s.delivered <= |s.sizes| && Cumulative(s) <= v < Cumulative(s) + WRAP && Wire(v) == Wire(First(s.sizes, k))
    ensures v == First(s.sizes, k) || First(s.sizes, k) < Cumulative(s)
  {
    hide Arrival, First, Cumulative, Wire;
    ArrivalNear(ps, s, k, First(s.sizes, k));
    v := if First(s.sizes, k) >= Cumulative(s) then First(s.sizes, k) else First(s.sizes, k) + WRAP;
    WireTurn(First(s.sizes, k));
  }

  lemma WireTurn(x: nat)
    ensures Wire(x + WRAP) == Wire(x)
  {
  }

  /** What is taken lies ahead and fits. */
  lemma TakenAhead(queue: seq<Entry>, ps: seq<Packet>, s: State, k: nat, x: nat, incoming: nat)
    requires Arrival(ps, s, k, x) && k < |s.sizes| && s.delivered <= |s.sizes| && incoming == Wire(Cumulative(s))
    requires Takes(queue, incoming, Wire(First(s.sizes, k)))
    ensures Cumulative(s) < First(s.sizes, k) && Acceptable(First(s.sizes, k), Cumulative(s))
  {
    hide Wire, WireAhead, Acceptable, Arrival, First, End;
    ArrivalTest(ps, s, k, x);
  }

  /** What is dropped changes nothing. */
  lemma DroppedPlain(queue: seq<Entry>, ks: seq<nat>, ps: seq<Packet>, s: State, k: nat, incoming: nat)
    requires k < |ps| && k < |s.sizes| && Arrival(ps, s, k, First(s.sizes, k)) && !Fragmented(ps[k])
    requires s.delivered <= |s.sizes| && incoming == Wire(Cumulative(s))
    requires Sorted(queue, ks, ps, s.got, Cumulative(s)) && !Takes(queue, incoming, Wire(First(s.sizes, k)))
    ensures Receive(s, k, First(s.sizes, k)) == s
  {
    hide Wire, WireAhead, Acceptable, Arrival, First, End, Sorted, Receive, Fragmented;
    var x := First(s.sizes, k);
    ArrivalTest(ps, s, k, x);
    ArrivalMeans(ps, s, k, x);
    if Cumulative(s) < x && Acceptable(x, Cumulative(s)) {
      var j :| 0 <= j < |queue| && queue[j].number == Wire(x);
      AcceptableIsNear(x, Cumulative(s));
      EntriesFine(queue, ks, ps, s.got, Cumulative(s));
      Compare(queue, ks, j, ps, s.got, Cumulative(s), x);
      SizesAre(ps, s, k, x);
      FirstOrder(SizesOf(ps), ks[j], k);
      FoundPlain(queue, ks, ps, s.got, Cumulative(s), j);
      TakenAlready(s, k, x);
    }
  }

  lemma SizesAre(ps: seq<Packet>, s: State, k: nat, x: nat)
    requires Arrival(ps, s, k, x)
    ensures s.sizes == SizesOf(ps)
  {
    hide Safe, Sorted;
  }

  /** A plain packet in its place, with its number taken. */
  lemma InsertedPlain(queue: seq<Entry>, ks: seq<nat>, ps: seq<Packet>, s: State, i: nat, e: Entry, k: nat)
    requires Cuts(ps) && s.sizes == SizesOf(ps) && s.delivered <= |s.sizes| && k < |ps| && i <= |queue|
    requires Sorted(queue, ks, ps, s.got, Cumulative(s)) && Queued(ks, s.sizes, s.got, s.delivered)
    requires Gap(ks, i, k) && InPacket(s.sizes, k, First(s.sizes, k))
    requires Cumulative(s) < First(s.sizes, k) && Acceptable(First(s.sizes, k), Cumulative(s))
    requires EntryFor(e, ps[k], First(s.sizes, k), s.got + {First(s.sizes, k)})
    ensures i <= |ks|
    ensures Sorted(Inserted(queue, i, e), Inserted(ks, i, k), ps, s.got + {First(s.sizes, k)}, Cumulative(s))
    ensures Queued(Inserted(ks, i, k), s.sizes, s.got + {First(s.sizes, k)}, s.delivered)
  {
    hide Sorted, Queued, EntryFor, Acceptable, InPacket, First;
    var x := First(s.sizes, k);
    SizesFine(ps);
    GrowSorted(queue, ks, ps, s.got, Cumulative(s), i, k, x);
    InsertSorted(queue, ks, ps, s.got + {x}, Cumulative(s), i, e, k);
    SetMore(ks, i, k, s.sizes, s.got, s.delivered);
    TakeQueued(Inserted(ks, i, k), s.sizes, s.got, s.delivered, k, x);
  }

  class Channel {
    /** The last number delivered. */
    var incoming: nat
    var queue: seq<Entry>
    var dispatched: seq<seq<Byte>>
    var acknowledgements: seq<nat>
    /** The packets the entries stand for. */
    ghost var ks: seq<nat>

    ghost predicate Represents(ps: seq<Packet>, s: State)
      reads this
    {
      && Cuts(ps) && s.sizes == SizesOf(ps) && s.delivered <= |ps|
      && incoming == Wire(Cumulative(s)) && dispatched == Bodies(ps, s.delivered)
      && Sorted(queue, ks, ps, s.got, Cumulative(s)) && Queued(ks, s.sizes, s.got, s.delivered)
    }

    constructor ()
      ensures Represents([], Transport.START) && acknowledgements == []
      ensures queue == [] && ks == []
    {
      incoming, queue, dispatched, acknowledgements, ks := 0, [], [], [], [];
    }

    /** Move the whole packets at the head of the queue, in order, to the dispatched ones. */
    method Dispatch(ghost ps: seq<Packet>, ghost s: State)
      requires Represents(ps, s)
      modifies this
      ensures Represents(ps, s.(delivered := Advance(s.sizes, s.got, s.delivered)))
      ensures acknowledgements == old(acknowledgements)
      ensures Advance(s.sizes, s.got, s.delivered) == s.delivered ==>
        queue == old(queue) && ks == old(ks) && incoming == old(incoming)
    {
      hide *;
      ghost var d := s.delivered;
      RepresentsMeans(this, ps, s);
      DispatchStart(queue, ks, ps, s.got, d, incoming);
      DispatchBounds(queue, ks, ps, s.got, d, 0, d, incoming);
      var i := 0;
      while i < |queue|
        invariant i <= |queue| && queue == old(queue) && ks == old(ks) && dispatched == old(dispatched)
          && acknowledgements == old(acknowledgements)
        invariant Dispatching(queue, ks, ps, s.got, s.delivered, i, d, incoming)
        invariant i == 0 ==> incoming == old(incoming)
      {
        if queue[i].remaining > 0 || queue[i].number != (incoming + 1) % WRAP {
          break;
        }
        DispatchTurn(queue, ks, ps, s.got, s.delivered, i, d, incoming);
        incoming := queue[i].number;
        if queue[i].fragmentCount > 0 {
          incoming := (incoming + queue[i].fragmentCount - 1) % WRAP;
        }
        i, d := i + 1, d + 1;
      }
      DispatchEnd(queue, ks, ps, s.got, s.delivered, i, d, incoming);
      DispatchMoved(queue, ks, ps, s.got, s.delivered, i, d, incoming);
      dispatched := dispatched + Packets(queue[..i]);
      queue := queue[i..];
      ks := ks[i..];
      RepresentsWhen(this, ps, s.(delivered := d));
    }

    /** The entry with the number sent for `v`, or the place for it, searching from the back. */
    method Find(number: nat, ghost ps: seq<Packet>, ghost s: State, ghost v: nat) returns (i: nat, found: bool)
      requires Represents(ps, s) && Cumulative(s) <= v < Cumulative(s) + WRAP && number == Wire(v)
      ensures found ==>
        i < |queue| == |ks| && queue[i].number == number && ks[i] < |s.sizes| && First(s.sizes, ks[i]) == v
      ensures !found ==> i <= |queue| == |ks| && Place(ks, s.sizes, i, v)
    {
      hide *;
      RepresentsMeans(this, ps, s);
      i := |queue|;
      while i > 0
        invariant i <= |queue| == |ks| && forall j :: i <= j < |ks| ==> ks[j] < |s.sizes| && v < First(s.sizes, ks[j])
      {
        Compare(queue, ks, i - 1, ps, s.got, Cumulative(s), v);
        CompareWire(queue[i - 1].number, number, incoming);
        if number >= incoming {
          if queue[i - 1].number < incoming {
            i := i - 1;
            continue;
          }
        } else if queue[i - 1].number >= incoming {
          PlaceDown(queue, ks, i - 1, ps, s.got, Cumulative(s), v);
          return i, false;
        }
        if queue[i - 1].number <= number {
          if queue[i - 1].number < number {
            PlaceDown(queue, ks, i - 1, ps, s.got, Cumulative(s), v);
            return i, false;
          }
          return i - 1, true;
        }
        i := i - 1;
      }
      PlaceLow(queue, ks, ps, s.got, Cumulative(s), v);
      found := false;
    }

    /**
     * The window test, the search and the limit, for any number; every number is sent for exactly one `v` less than a
     * turn ahead of the receiver. A command that is taken goes to its place in the queue.
     */
    method QueueCommand(number: nat, e: Entry, full: bool, ghost ps: seq<Packet>, ghost s: State, ghost v: nat)
        returns (outcome: Outcome, i: nat)
      requires Represents(ps, s) && Cumulative(s) <= v < Cumulative(s) + WRAP && number == Wire(v)
      modifies this`queue
      ensures outcome == if !Takes(old(queue), incoming, number) then Dropped else if full then Refused else Taken
      ensures outcome.Taken? ==>
        i <= |old(queue)| == |ks| && queue == Inserted(old(queue), i, e) && Place(ks, s.sizes, i, v)
      ensures !outcome.Taken? ==> queue == old(queue)
    {
      hide *;
      RepresentsMeans(this, ps, s);
      TakesMeans(queue, incoming, number);
      outcome, i := Dropped, 0;
      if WireAhead(number, incoming) < 0 || WireAhead(number, incoming) >= FREE_WINDOWS - 1 || number == incoming {
        return;
      }
      var found;
      i, found := Find(number, ps, s, v);
      if found {
        return;
      }
      NoSuchEntry(queue, ks, ps, s.got, Cumulative(s), v, i);
      if full {
        outcome := Refused;
        return;
      }
      queue := Inserted(queue, i, e);
      outcome := Taken;
    }

    /** Put an entry in its place, with the number it may bring. */
    method Insert(i: nat, e: Entry, ghost ps: seq<Packet>, ghost s: State, ghost k: nat, ghost x: nat,
          ghost got: set<nat>)
      requires Represents(ps, s) && i <= |queue| && Gap(ks, i, k) && InPacket(s.sizes, k, x) && k < |ps|
        && k < |s.sizes|
      requires (got == s.got || got == s.got + {x}) && EntryFor(e, ps[k], First(s.sizes, k), got)
      requires Cumulative(s) < First(s.sizes, k) && Acceptable(First(s.sizes, k), Cumulative(s))
      modifies this
      ensures Represents(ps, s.(got := got)) && queue == Inserted(old(queue), i, e) && ks == Inserted(old(ks), i, k)
      ensures acknowledgements == old(acknowledgements) && incoming == old(incoming)
    {
      hide *;
      RepresentsMeans(this, ps, s);
      GrowSorted(queue, ks, ps, s.got, Cumulative(s), i, k, x);
      InsertSorted(queue, ks, ps, got, Cumulative(s), i, e, k);
      SetMore(ks, i, k, s.sizes, s.got, s.delivered);
      SizesFine(ps);
      TakeQueued(Inserted(ks, i, k), s.sizes, s.got, s.delivered, k, x);
      queue := Inserted(queue, i, e);
      ks := Inserted(ks, i, k);
      RepresentsWhen(this, ps, s.(got := got));
    }

    /** Bring an entry up to date with one more number. */
    method Update(i: nat, e: Entry, ghost ps: seq<Packet>, ghost s: State, ghost k: nat, ghost x: nat)
      requires Represents(ps, s) && i < |queue| == |ks| && ks[i] == k && InPacket(s.sizes, k, x) && k < |ps|
        && k < |s.sizes|
      requires EntryFor(e, ps[k], First(s.sizes, k), s.got + {x})
      modifies this
      ensures Represents(ps, s.(got := s.got + {x})) && queue == old(queue)[i := e]
      ensures acknowledgements == old(acknowledgements) && incoming == old(incoming)
    {
      hide *;
      RepresentsMeans(this, ps, s);
      TakeSorted(queue, ks, ps, s.got, Cumulative(s), i, e, x);
      SizesFine(ps);
      TakeQueued(ks, s.sizes, s.got, s.delivered, k, x);
      queue := queue[i := e];
      RepresentsWhen(this, ps, s.(got := s.got + {x}));
    }

    /** A whole packet arrives; `full` when too much data waits already. */
    method HandleReliable(number: nat, data: seq<Byte>, full: bool, ghost ps: seq<Packet>, ghost s: State, ghost k: nat)
          returns (rc: int)
      requires Represents(ps, s) && k < |ps| && k < |s.sizes| && Arrival(ps, s, k, First(s.sizes, k))
      requires !Fragmented(ps[k]) && number == Wire(First(s.sizes, k)) && data == ps[k].data
      modifies this
      ensures rc == 0 || (rc == -1 && full)
      ensures acknowledgements == old(acknowledgements)
      ensures Represents(ps, if rc == 0 then Receive(s, k, First(s.sizes, k)) else s)
    {
      hide *;
      ghost var x := First(s.sizes, k);
      ghost var v := Turned(ps, s, k);
      RepresentsMeans(this, ps, s);
      ArrivalMeans(ps, s, k, x);
      ghost var queueBefore, ksBefore := queue, ks;
      var outcome, i := QueueCommand(number, Entry(number, 0, 0, [], data), full, ps, s, v);
      match outcome {
        case Dropped =>
          DroppedPlain(queue, ks, ps, s, k, incoming);
          RepresentsWhen(this, ps, s);
          rc := 0;
        case Refused =>
          RepresentsWhen(this, ps, s);
          rc := -1;
        case Taken =>
          TakenAhead(queueBefore, ps, s, k, x, incoming);
          PlaceGap(ks, s.sizes, i, k);
          PlainEntry(ps[k], x, s.got);
          InsertedPlain(queueBefore, ksBefore, ps, s, i, Entry(number, 0, 0, [], data), k);
          ks := Inserted(ks, i, k);
          RepresentsWhen(this, ps, s.(got := s.got + {x}));
          ReceiveIs(s, k, x);
          Dispatch(ps, s.(got := s.got + {x}));
          rc := 0;
      }
    }

    /** Mark a fragment, copy its bytes, and hand on what has become whole. */
    method TakeFragment(i: nat, f: Fragment, piece: seq<Byte>, ghost ps: seq<Packet>, ghost s: State, ghost k: nat,
          ghost x: nat)
      requires Represents(ps, s) && Arrival(ps, s, k, x) && k < |ps| && k < |s.sizes| && i < |queue| == |ks|
        && ks[i] == k
      requires Cumulative(s) < First(s.sizes, k) && Acceptable(First(s.sizes, k), Cumulative(s))
      requires ps[k].cut > 0 && IsFragment(f, ps[k], f.number) && x == First(s.sizes, k) + f.number
      requires f.offset + f.length <= |ps[k].data| && piece == ps[k].data[f.offset..f.offset + f.length]
      modifies this
      ensures acknowledgements == old(acknowledgements)
      ensures Represents(ps, Receive(s, k, x))
    {
      hide *;
      RepresentsMeans(this, ps, s);
      ArrivalMeans(ps, s, k, x);
      FragmentEntry(queue, ks, ps, s.got, Cumulative(s), i, f);
      ReceiveIs(s, k, x);
      var e := queue[i];
      if !e.bits[f.number] {
        FragmentTaken(e, ps[k], First(s.sizes, k), s.got, f, piece);
        var e' :=
          Entry(e.number, e.fragmentCount, e.remaining - 1, e.bits[f.number := true],
          Copied(e.packet, f.offset, piece));
        Update(i, e', ps, s, k, x);
        if e'.remaining <= 0 {
          Dispatch(ps, s.(got := s.got + {x}));
        } else {
          StillIncomplete(e', ps[k], s, k, x);
        }
      } else {
        TakenAlready(s, k, x);
      }
    }

    /**
     * A fragment arrives. `blank` is whatever a new packet's memory holds; `full` as above.
     * Fragments whose fields are out of range, or do not fit the queued packet, are refused.
     */
    method HandleFragment(start: nat, f: Fragment, piece: seq<Byte>, blank: seq<Byte>, maximumPacketSize: nat,
          full: bool, ghost ps: seq<Packet>, ghost s: State, ghost k: nat, ghost x: nat) returns (rc: int)
      requires Represents(ps, s) && k < |ps| && k < |s.sizes| && Arrival(ps, s, k, x)
        && start == Wire(First(s.sizes, k))
      requires ps[k].cut > 0 && IsFragment(f, ps[k], f.number) && x == First(s.sizes, k) + f.number
      requires f.offset + f.length <= |ps[k].data| <= maximumPacketSize
        && piece == ps[k].data[f.offset..f.offset + f.length]
      requires |blank| == f.total
      modifies this
      ensures rc == 0 || (rc == -1 && full)
      ensures acknowledgements == old(acknowledgements)
      ensures Represents(ps, if rc == 0 then Receive(s, k, x) else s)
    {
      hide *;
      RepresentsMeans(this, ps, s);
      ArrivalTest(ps, s, k, x);
      ArrivalMeans(ps, s, k, x);
      IsFragmentMeans(f, ps[k], f.number);
      CountFine(ps, k);
      FragmentsAccepted(ps[k], f, f.number, maximumPacketSize);
      FieldsMean(f, maximumPacketSize);
      if f.length <= 0 || f.length > maximumPacketSize {
        return -1;
      }
      if WireAhead(start, incoming) < 0 || WireAhead(start, incoming) >= FREE_WINDOWS - 1 {
        return 0;
      }
      if !FieldsAccepted(f, maximumPacketSize) {
        return -1;
      }
      AcceptableIsNear(First(s.sizes, k), Cumulative(s));
      var i, found := Find(start, ps, s, First(s.sizes, k));
      if found {
        FirstOrder(s.sizes, ks[i], k);
        FragmentEntry(queue, ks, ps, s.got, Cumulative(s), i, f);
        if queue[i].fragmentCount == 0 || f.total != |queue[i].packet| || f.count != queue[i].fragmentCount {
          return -1;
        }
      } else {
        if start == incoming || full {
          return -1;
        }
        PlaceGap(ks, s.sizes, i, k);
        NothingTaken(ks, i, ps, s, k);
        BlankEntry(ps[k], First(s.sizes, k), s.got, blank);
        var e := Entry(start, f.count, f.count, seq(f.count, _ => false), blank);
        Insert(i, e, ps, s, k, x, s.got);
        assert s.(got := s.got) == s;
        AdvanceOn(s.sizes, s.got, s.delivered);
        Dispatch(ps, s);
        assert s.(delivered := s.delivered) == s;
        RepresentsMeans(this, ps, s);
      }
      TakeFragment(i, f, piece, ps, s, k, x);
      rc := 0;
    }

    /** Acknowledge a command, unless it lies in the windows past the free ones. */
    method QueueAcknowledgement(number: nat, ghost ps: seq<Packet>, ghost s: State, ghost x: nat)
      requires Represents(ps, s) && number == Wire(x) && s.delivered <= |s.sizes| && Near(x, Cumulative(s))
      modifies this
      ensures Represents(ps, s)
      ensures acknowledgements == old(acknowledgements) + if Suppressed(x, Cumulative(s)) then [] else [number]
    {
      hide *;
      RepresentsMeans(this, ps, s);
      WindowTest(x, Cumulative(s));
      SuppressedIs(x, Cumulative(s));
      if WireAhead(number, incoming) >= FREE_WINDOWS - 1 && WireAhead(number, incoming) <= FREE_WINDOWS {
        return;
      }
      acknowledgements := acknowledgements + [number];
      RepresentsWhen(this, ps, s);
    }

    /** A plain command: handled, then acknowledged. */
    method ArriveReliable(number: nat, data: seq<Byte>, full: bool, ghost ps: seq<Packet>, ghost s: State, ghost k: nat)
          returns (rc: int)
      requires Represents(ps, s) && k < |ps| && k < |s.sizes| && Arrival(ps, s, k, First(s.sizes, k))
      requires !Fragmented(ps[k]) && number == Wire(First(s.sizes, k)) && data == ps[k].data
      modifies this
      ensures rc != 0 ==> full && Represents(ps, s) && acknowledgements == old(acknowledgements)
      ensures var x := First(s.sizes, k); var s' := Receive(s, k, x);
        rc == 0 ==>
          Represents(ps, Answer(s', x))
          && acknowledgements == old(acknowledgements) + if Suppressed(x, Cumulative(s')) then [] else [number]
    {
      hide *;
      ghost var x := First(s.sizes, k);
      rc := HandleReliable(number, data, full, ps, s, k);
      if rc == 0 {
        ArrivalNear(ps, s, k, x);
        RepresentsMeans(this, ps, Receive(s, k, x));
        QueueAcknowledgement(number, ps, Receive(s, k, x), x);
        RepresentsAnswer(this, ps, Receive(s, k, x), x);
      }
    }

    /** A fragment command: handled, then acknowledged. */
    method ArriveFragment(number: nat, start: nat, f: Fragment, piece: seq<Byte>, blank: seq<Byte>,
          maximumPacketSize: nat, full: bool, ghost ps: seq<Packet>, ghost s: State, ghost k: nat, ghost x: nat)
          returns (rc: int)
      requires Represents(ps, s) && k < |ps| && k < |s.sizes| && Arrival(ps, s, k, x)
        && start == Wire(First(s.sizes, k)) && number == Wire(x)
      requires ps[k].cut > 0 && IsFragment(f, ps[k], f.number) && x == First(s.sizes, k) + f.number
      requires f.offset + f.length <= |ps[k].data| <= maximumPacketSize
        && piece == ps[k].data[f.offset..f.offset + f.length]
      requires |blank| == f.total
      modifies this
      ensures rc != 0 ==> full && Represents(ps, s) && acknowledgements == old(acknowledgements)
      ensures var s' := Receive(s, k, x);
        rc == 0 ==>
          Represents(ps, Answer(s', x))
          && acknowledgements == old(acknowledgements) + if Suppressed(x, Cumulative(s')) then [] else [number]
    {
      hide *;
      rc := HandleFragment(start, f, piece, blank, maximumPacketSize, full, ps, s, k, x);
      if rc == 0 {
        ArrivalNear(ps, s, k, x);
        RepresentsMeans(this, ps, Receive(s, k, x));
        QueueAcknowledgement(number, ps, Receive(s, k, x), x);
        RepresentsAnswer(this, ps, Receive(s, k, x), x);
      }
    }
  }

  lemma SuppressedIs(x: nat, c: nat)
    ensures Suppressed(x, c) <==> FREE_WINDOWS - 1 <= Ahead(x, c) <= FREE_WINDOWS
  {
  }

  /** Acknowledging changes nothing the channel stands for. */
  lemma RepresentsAnswer(channel: Channel, ps: seq<Packet>, s: State, x: nat)
    requires channel.Represents(ps, s) && s.delivered <= |s.sizes|
    ensures channel.Represents(ps, Answer(s, x))
  {
    hide Sorted, Queued, Suppressed, Cuts;
  }

  lemma IsFragmentMeans(f: Fragment, p: Packet, j: nat)
    requires p.cut > 0 && IsFragment(f, p, j)
    ensures Fragmented(p) && j < Count(p) && f.number == j && f.count == Count(p) && f.total == |p.data|
      && Offset(p.cut, j) <= |p.data|
    ensures f.offset == Offset(p.cut, j) && f.length == Length(p, j)
  {
  }

  lemma CountFine(ps: seq<Packet>, k: nat)
    requires Cuts(ps) && k < |ps|
    ensures 0 < Count(ps[k]) <= MAXIMUM_FRAGMENT_COUNT
  {
    hide Count;
  }

  lemma FragmentEntry(queue: seq<Entry>, ks: seq<nat>, ps: seq<Packet>, got: set<nat>, c: nat, i: nat, f: Fragment)
    requires Cuts(ps) && Sorted(queue, ks, ps, got, c) && i < |queue| && ks[i] < |ps|
      && IsFragment(f, ps[ks[i]], f.number)
    ensures var e, first := queue[i], First(SizesOf(ps), ks[i]);
      && EntryFor(e, ps[ks[i]], first, got) && e.fragmentCount == f.count > 0 && |e.packet| == f.total
      && f.number < |e.bits| && 0 <= e.remaining
      && (e.bits[f.number] <==> first + f.number in got)
      && |e.packet| == |ps[ks[i]].data| && e.fragmentCount == Count(ps[ks[i]])
  {
    hide Wire, Acceptable, ByteHeld, Count;
    assert EntryAt(queue, ks, i, ps, got, c);
  }

  /** The entry with one more fragment in it. */
  lemma FragmentTaken(e: Entry, p: Packet, first: nat, got: set<nat>, f: Fragment, piece: seq<Byte>)
    requires p.cut > 0 && IsFragment(f, p, f.number) && EntryFor(e, p, first, got) && f.number < |e.bits|
      && !e.bits[f.number]
    requires f.offset + f.length <= |p.data| && piece == p.data[f.offset..f.offset + f.length]
    ensures |e.packet| == |p.data| && f.offset + |piece| <= |e.packet| && e.remaining > 0
    ensures EntryFor(Entry(e.number, e.fragmentCount, e.remaining - 1, e.bits[f.number := true],
      Copied(e.packet, f.offset, piece)),
                     p, first, got + {first + f.number})
  {
    hide Wire, Count, ClearBits, ByteHeld, Copied;
    HoldingMore(p, e.bits, e.packet, f.number);
    ClearBitsSet(e.bits, f.number);
    var bits := e.bits[f.number := true];
    forall j | 0 <= j < Count(p)
      ensures bits[j] <==> first + j in got + {first + f.number}
    {
      assert e.bits[j] <==> first + j in got;
    }
  }

  /** While a fragment is missing nothing can be handed on. */
  lemma StillIncomplete(e: Entry, p: Packet, s: State, k: nat, x: nat)
    requires Sizes(s.sizes) && s.delivered <= |s.sizes|
      && (s.delivered < |s.sizes| ==> !Holds(s.sizes, s.got, s.delivered))
    requires InPacket(s.sizes, k, x) && p.cut > 0 && s.sizes[k] == Count(p)
      && EntryFor(e, p, First(s.sizes, k), s.got + {x}) && e.remaining > 0
    ensures Advance(s.sizes, s.got + {x}, s.delivered) == s.delivered
  {
    hide EntryFor, Count;
    AdvanceOn(s.sizes, s.got + {x}, s.delivered);
    WholeEntry(e, p, s.sizes, k, s.got + {x});
    if s.delivered < |s.sizes| && s.delivered != k {
      var y :| End(s.sizes, s.delivered) < y <= End(s.sizes, s.delivered + 1) && y !in s.got;
      if y == x {
        assert InPacket(s.sizes, s.delivered, x);
        OnePacket(s.sizes, s.delivered, k, x);
      }
      assert y !in s.got + {x};
    }
  }

  /** A packet that is not in the queue has none of its numbers taken. */
  lemma NothingTaken(ks: seq<nat>, i: nat, ps: seq<Packet>, s: State, k: nat)
    requires Cuts(ps) && s.sizes == SizesOf(ps) && s.delivered <= |s.sizes| && Gap(ks, i, k)
      && Queued(ks, s.sizes, s.got, s.delivered)
    requires k < |ps| && Cumulative(s) < First(s.sizes, k)
    ensures forall x :: First(s.sizes, k) <= x < First(s.sizes, k) + Count(ps[k]) ==> x !in s.got
  {
    SizesFine(ps);
    AheadIndex(s, k);
    EndNext(s.sizes, k);
    hide Count, End, Queued;
    forall x | First(s.sizes, k) <= x < First(s.sizes, k) + Count(ps[k])
      ensures x !in s.got
    {
      MissingHere(ks, i, k, s.sizes, s.got, s.delivered, x);
    }
  }

  lemma ArrivalMeans(ps: seq<Packet>, s: State, k: nat, x: nat)
    requires Arrival(ps, s, k, x)
    ensures Cuts(ps) && Safe(s) && InPacket(s.sizes, k, x) && Sizes(s.sizes) && k < |ps| && ps[k].cut > 0
    ensures s.delivered <= |s.sizes| && (s.delivered < |s.sizes| ==> !Holds(s.sizes, s.got, s.delivered))
    ensures s.sizes[k] == Count(ps[k])
  {
    hide Holds, Win, Acceptable, Count;
  }

  lemma FoundPlain(queue: seq<Entry>, ks: seq<nat>, ps: seq<Packet>, got: set<nat>, c: nat, i: nat)
    requires Cuts(ps) && Sorted(queue, ks, ps, got, c) && i < |queue| && ks[i] < |ps| && !Fragmented(ps[ks[i]])
    ensures First(SizesOf(ps), ks[i]) in got
  {
    hide Wire, Acceptable;
    assert EntryAt(queue, ks, i, ps, got, c);
  }

  /** Entries of other packets are not touched by a new number. */
  lemma GrowSorted(queue: seq<Entry>, ks: seq<nat>, ps: seq<Packet>, got: set<nat>, c: nat, i: nat, k: nat, x: nat)
    requires Cuts(ps) && Sorted(queue, ks, ps, got, c) && Gap(ks, i, k) && InPacket(SizesOf(ps), k, x)
    ensures Sorted(queue, ks, ps, got + {x}, c)
  {
    hide EntryFor, Acceptable, First;
    forall j | 0 <= j < |queue|
      ensures EntryAt(queue, ks, j, ps, got + {x}, c)
    {
      assert EntryAt(queue, ks, j, ps, got, c);
      assert ks[j] != k;
      OtherEntry(queue[j], ps, ks[j], k, x, got);
    }
  }

  lemma DispatchMoved(queue: seq<Entry>, ks: seq<nat>, ps: seq<Packet>, got: set<nat>, from: nat, i: nat, d: nat,
        incoming: nat)
    requires Dispatching(queue, ks, ps, got, from, i, d, incoming)
    ensures Cuts(ps) && from <= d <= |ps| && i <= |queue| == |ks| && i == d - from
      && incoming == Wire(End(SizesOf(ps), d))
    ensures Sorted(queue[i..], ks[i..], ps, got, End(SizesOf(ps), d)) && Queued(ks[i..], SizesOf(ps), got, d)
    ensures Bodies(ps, from) + Packets(queue[..i]) == Bodies(ps, d)
    ensures i == 0 ==> queue[i..] == queue && ks[i..] == ks
  {
    hide Sorted, Queued, Wire, Advance;
    assert Bodies(ps, d)[..from] == Bodies(ps, from);
  }

  // ---- While the sender goes on ----

  /** A packet more changes no entry of the queue. */
  lemma SubmitSorted(queue: seq<Entry>, ks: seq<nat>, ps: seq<Packet>, got: set<nat>, c: nat, p: Packet)
    requires p.cut > 0 && Cuts(ps) && Cuts(ps + [p]) && Sorted(queue, ks, ps, got, c)
    ensures SizesOf(ps + [p]) == SizesOf(ps) + [Count(p)] && Sorted(queue, ks, ps + [p], got, c)
  {
    hide EntryFor, Acceptable, Count;
    assert SizesOf(ps + [p]) == SizesOf(ps) + [Count(p)];
    forall i | 0 <= i < |queue|
      ensures EntryAt(queue, ks, i, ps + [p], got, c)
    {
      assert EntryAt(queue, ks, i, ps, got, c);
      EndPrefix(SizesOf(ps), Count(p), ks[i]);
    }
  }

  /** Nothing of the new packet has been taken. */
  lemma SubmitQueued(ks: seq<nat>, sizes: seq<nat>, got: set<nat>, delivered: nat, n: nat)
    requires Queued(ks, sizes, got, delivered) && forall x :: x in got ==> x <= End(sizes, |sizes|)
    ensures Queued(ks, sizes + [n], got, delivered)
  {
    SubmitEnds(sizes, n);
    hide End;
    forall k: nat, x: nat | InPacket(sizes + [n], k, x) && x in got && k >= delivered
      ensures k in ks
    {
      assert k < |sizes| ==> InPacket(sizes, k, x);
    }
  }

  lemma TakenBySent(s: State)
    requires Safe(s)
    ensures forall x :: x in s.got ==> x <= End(s.sizes, |s.sizes|)
    ensures s.delivered <= |s.sizes|
  {
    hide Acceptable, Holds, End;
  }

  /** The channel stands for the state with one more packet submitted. */
  lemma SubmittedToo(channel: Channel, ps: seq<Packet>, s: State, p: Packet)
    requires channel.Represents(ps, s) && Safe(s) && p.cut > 0 && 1 <= Count(p) <= FRAGMENTS
    ensures channel.Represents(ps + [p], s.(sizes := s.sizes + [Count(p)]))
  {
    hide Count, Safe, Sorted, Queued, End, Wire;
    RepresentsMeans(channel, ps, s);
    TakenBySent(s);
    SubmitSorted(channel.queue, channel.ks, ps, s.got, Cumulative(s), p);
    SubmitQueued(channel.ks, s.sizes, s.got, s.delivered, Count(p));
    EndPrefix(s.sizes, Count(p), s.delivered);
    assert Bodies(ps + [p], s.delivered) == Bodies(ps, s.delivered);
    RepresentsWhen(channel, ps + [p], s.(sizes := s.sizes + [Count(p)]));
  }

  /** What the sender sends and what is acknowledged leaves the channel as it is. */
  lemma SenderLeavesChannel(channel: Channel, ps: seq<Packet>, s: State, s': State)
    requires channel.Represents(ps, s) && s' == s.(sent := s'.sent, unacked := s'.unacked)
    ensures channel.Represents(ps, s')
  {
    hide Cuts, Sorted, Queued, Wire, End;
  }

  // ---- How far behind a copy may be ----

  /**
   * The number of a packet from behind is taken for a new one exactly when the packet begins ten windows back or more
   * and nothing in the queue has that number.
   */
  lemma OldIsTakenForNew(channel: Channel, ps: seq<Packet>, s: State, start: nat)
    requires channel.Represents(ps, s) && s.delivered <= |s.sizes| && start < Cumulative(s) < start + WRAP
    ensures Takes(channel.queue, channel.incoming, Wire(start)) <==>
      && Win(Cumulative(s)) >= Win(start) + FREE_WINDOWS + 2
      && forall j :: 0 <= j < |channel.queue| ==> channel.queue[j].number != Wire(start)
  {
    hide Wire, WireAhead, Sorted, Queued, End;
    RepresentsMeans(channel, ps, s);
    WindowTest(start, Cumulative(s));
    OrderBehind(start, Cumulative(s));
  }

  /** 4094 packets of one number, one of two, and packets of one up to number 40960. */
  function Traffic(): (ps: seq<Packet>)
    ensures |ps| == 40959
    ensures forall i :: 0 <= i < |ps| ==> ps[i] == if i == 4094 then Packet([0, 0], 1) else Packet([0], 1)
  {
    seq(40959, i => if i == 4094 then Packet([0, 0], 1) else Packet([0], 1))
  }

  lemma {:induction false} TrafficEnd(sizes: seq<nat>, k: nat)
    requires k <= |sizes| && forall i :: 0 <= i < |sizes| ==> sizes[i] == if i == 4094 then 2 else 1
    ensures End(sizes, k) == if k <= 4094 then k else k + 1
  {
    if k > 0 {
      TrafficEnd(sizes, k - 1);
    }
  }

  lemma TrafficSizes(ps: seq<Packet>)
    requires ps == Traffic()
    ensures Cuts(ps) && Sizes(SizesOf(ps)) && |SizesOf(ps)| == 40959
    ensures forall k :: 0 <= k <= 40959 ==> End(SizesOf(ps), k) == if k <= 4094 then k else k + 1
  {
    hide Traffic;
    forall k | 0 <= k <= 40959
      ensures End(SizesOf(ps), k) == if k <= 4094 then k else k + 1
    {
      TrafficEnd(SizesOf(ps), k);
    }
  }

  lemma NothingQueued(ps: seq<Packet>, sizes: seq<nat>)
    requires Cuts(ps) && sizes == SizesOf(ps)
    ensures Sorted([], [], ps, Done(sizes, {}).got, End(sizes, |sizes|))
    ensures Queued([], sizes, Done(sizes, {}).got, |sizes|)
  {
    hide End, UpTo;
    UpToMeans(End(sizes, |sizes|));
  }

  lemma UpToMeans(n: nat)
    ensures forall x :: x in UpTo(n) <==> 1 <= x <= n
  {
    hide UpTo;
  }

  /** A run delivers all of the traffic. */
  lemma TrafficRun(ps: seq<Packet>) returns (states: seq<State>)
    requires ps == Traffic()
    ensures Cuts(ps) && Transport.Run(states) && states[|states| - 1] == Done(SizesOf(ps), {})
  {
    hide Traffic, Cuts, Sizes, Transport.Run, End;
    TrafficSizes(ps);
    forall k | 0 <= k < |SizesOf(ps)|
      ensures Deliverable(SizesOf(ps), k)
    {
      var c, e := End(SizesOf(ps), k), End(SizesOf(ps), k + 1);
      ShortFits(c, e);
    }
    states := Delivers(SizesOf(ps));
  }

  /** Where its fragmented packet stands at the end. */
  lemma TrafficFacts(ps: seq<Packet>, s: State)
    requires ps == Traffic() && Cuts(ps) && s == Done(SizesOf(ps), {})
    ensures s.sizes == SizesOf(ps) && |s.sizes| == |ps| == 40959 && s.delivered == 40959 && Cumulative(s) == 40960
    ensures First(s.sizes, 4094) == 4095 && InPacket(s.sizes, 4094, 4096)
    ensures Win(4096) + FREE_WINDOWS + 1 == Win(Cumulative(s)) && !Timely(s, 4094)
  {
    hide Traffic, Cuts, Sizes, UpTo, End;
    TrafficSizes(ps);
  }

  /** What a channel holds that has dispatched all of the traffic. */
  lemma TrafficChannel(channel: Channel, ps: seq<Packet>, s: State)
    requires ps == Traffic() && Cuts(ps) && s == Done(SizesOf(ps), {})
    requires channel.incoming == 40960 && channel.queue == [] && channel.ks == []
    requires channel.dispatched == TrafficBodies()
    ensures channel.Represents(ps, s) && channel.dispatched == Bodies(ps, |ps|)
  {
    hide *;
    TrafficFacts(ps, s);
    NothingQueued(ps, s.sizes);
    TrafficDispatched(ps);
    EndNumber(s, 40960);
    FarBack();
    RepresentsWhen(channel, ps, s);
  }

  lemma EndNumber(s: State, c: nat)
    requires s.delivered <= |s.sizes| && Cumulative(s) == c
    ensures End(s.sizes, s.delivered) == c
    ensures Done(s.sizes, {}).got == UpTo(End(s.sizes, |s.sizes|))
  {
    hide End, UpTo;
  }

  function TrafficBodies(): (bodies: seq<seq<Byte>>)
    ensures |bodies| == 40959
    ensures forall i :: 0 <= i < |bodies| ==> bodies[i] == if i == 4094 then [0, 0] else [0]
  {
    seq(40959, i => if i == 4094 then [0, 0] else [0])
  }

  lemma TrafficDispatched(ps: seq<Packet>)
    requires ps == Traffic()
    ensures TrafficBodies() == Bodies(ps, |ps|)
  {
    hide Traffic, TrafficBodies;
  }

  /** The old packet's number is one that the channel takes. */
  lemma TrafficTakes(channel: Channel, ps: seq<Packet>, s: State)
    requires ps == Traffic() && Cuts(ps) && s == Done(SizesOf(ps), {}) && channel.Represents(ps, s)
      && channel.queue == []
    ensures s.delivered <= |s.sizes| && Cumulative(s) <= 4095 + WRAP < Cumulative(s) + WRAP && Wire(4095 + WRAP) == 4095
    ensures Takes(channel.queue, channel.incoming, 4095)
  {
    hide *;
    TrafficFacts(ps, s);
    FarBack();
    OldIsTakenForNew(channel, ps, s, 4095);
  }

  lemma FarBack()
    ensures Win(40960) >= Win(4095) + FREE_WINDOWS + 2 && 4095 < 40960 <= 4095 + WRAP < 40960 + WRAP
    ensures 40960 < 4095 + WRAP && Wire(4095 + WRAP) == 4095 && Wire(4095) == 4095 && Wire(40960) == 40960
  {
  }

  /**
   * Nine windows counted from a fragment's own number are not enough, as its packet may begin one window earlier: after
   * a run that delivers all of `Traffic`, a late copy of number 4096 lies nine windows behind, and its packet, which
   * begins at 4095, is taken for a new one.
   */
  method OwnNumberIsNotEnough(e: Entry) returns (channel: Channel, ghost s: State, ghost states: seq<State>)
    ensures Transport.Run(states) && s == states[|states| - 1]
    ensures Cuts(Traffic()) && s == Done(SizesOf(Traffic()), {})
    ensures s.delivered <= |s.sizes| == 40959 && Cumulative(s) == 40960 == channel.incoming
    ensures First(s.sizes, 4094) == 4095 && InPacket(s.sizes, 4094, 4096) && 4094 < s.delivered
    ensures Win(4096) + FREE_WINDOWS + 1 == Win(Cumulative(s)) && !Timely(s, 4094)
    ensures channel.queue == [e] && channel.dispatched == Bodies(Traffic(), |Traffic()|)
  {
    hide *;
    ghost var ps := Traffic();
    states := TrafficRun(ps);
    s := Done(SizesOf(ps), {});
    TrafficFacts(ps, s);
    channel := new Channel();
    channel.incoming := 40960;
    channel.dispatched := TrafficBodies();
    TrafficChannel(channel, ps, s);
    TrafficTakes(channel, ps, s);
    var outcome, i := channel.QueueCommand(4095, e, false, ps, s, 4095 + WRAP);
    InsertedAlone(i, e);
  }

  lemma InsertedAlone(i: nat, e: Entry)
    requires i <= 0
    ensures Inserted([], i, e) == [e]
  {
  }
}
