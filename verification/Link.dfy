/**
 * Both ends of a channel with the network between them: one sender, one receiver, and whatever happens to their
 * commands.
 */
module Link {
  import opened Fragments
  import opened Incoming
  import opened Numbers
  import opened Outgoing
  import opened Sequence
  import opened Transport

  /**
   * What may happen next: a packet is submitted, the front command is sent or blocked, kept commands expire, a copy of
   * a command arrives, an acknowledgement arrives. `full` and `blank` are what the receiver finds in its memory.
   */
  datatype Action =
    | Submission(packet: Packet)
    | Sending
    | Expiry(expired: seq<bool>)
    | Copy(k: nat, x: nat, full: bool, blank: seq<Byte>)
    | Acknowledgement(i: nat)

  predicate Submittable(p: Packet, maximumPacketSize: nat) {
    p.cut > 0 && |p.data| <= maximumPacketSize && Count(p) <= FRAGMENTS
  }

  /** The packets that are accepted, in order. */
  function Submitted(actions: seq<Action>, maximumPacketSize: nat): seq<Packet> {
    if actions == [] then []
    else
      var n := |actions| - 1;
      Submitted(actions[..n], maximumPacketSize)
      + if actions[n].Submission? && Submittable(actions[n].packet, maximumPacketSize) then [actions[n].packet] else []
  }

  /** A packet's fragments, as the sender cuts it. */
  ghost predicate CutUp(p: Packet, fragments: seq<Fragment>) {
    p.cut > 0
      && (Fragmented(p) ==> |fragments| == Count(p) && forall j :: 0 <= j < Count(p) ==> IsFragment(fragments[j], p, j))
  }

  /** Every acknowledgement is of a number that has been acknowledged. */
  ghost predicate Answered(acknowledgements: seq<nat>, answered: seq<nat>, acks: set<nat>) {
    && |answered| == |acknowledgements|
    && forall i :: 0 <= i < |answered| ==> acknowledgements[i] == Wire(answered[i]) && answered[i] in acks
  }

  class Link {
    const sender: Sender
    const channel: Channel
    const maximumPacketSize: nat
    var packets: seq<Packet>
    var commands: seq<seq<Fragment>>
    /** How many numbers have been sent. */
    var sent: nat
    /** What the acknowledgements made so far stand for. */
    var answered: seq<nat>
    /** The states both ends have stood for, up to now. */
    ghost var trace: seq<State>
    ghost var now: State

    ghost predicate Valid()
      reads this, sender, sender.reliableWindows, channel
    {
      && Transport.Run(trace) && trace[|trace| - 1] == now && sender.Represents(now) && channel.Represents(packets, now)
      && sent == now.sent
      && Answered(channel.acknowledgements, answered, now.acks)
      && |commands| == |packets|
      && forall k :: 0 <= k < |packets| ==> |packets[k].data| <= maximumPacketSize && CutUp(packets[k], commands[k])
    }

    constructor (maximumPacketSize: nat)
      ensures Valid() && fresh(sender) && fresh(sender.reliableWindows) && fresh(channel)
      ensures this.maximumPacketSize == maximumPacketSize && packets == [] && trace == [START]
    {
      sender := new Sender();
      channel := new Channel();
      this.maximumPacketSize := maximumPacketSize;
      packets, commands, sent, answered, trace, now := [], [], 0, [], [START], START;
    }

    lemma Means()
      requires Valid()
      ensures trace != [] && trace[|trace| - 1] == now && Safe(now) && sender.Represents(now)
        && channel.Represents(packets, now) && sent == now.sent
      ensures Transport.Run(trace) && now.delivered <= |now.sizes|
        && Answered(channel.acknowledgements, answered, now.acks)
      ensures |commands| == |packets|
      ensures forall k :: 0 <= k < |packets| ==>
        |packets[k].data| <= maximumPacketSize && CutUp(packets[k], commands[k])
    {
      RunSafe(trace, |trace| - 1);
      hide *;
      SafeMeans(now);
    }

    method Submit(p: Packet)
      requires Valid()
      modifies this, sender
      ensures Valid() && old(trace) <= trace
      ensures packets == old(packets) + if Submittable(p, maximumPacketSize) then [p] else []
    {
      hide *;
      Means();
      if p.cut > 0 && |p.data| <= maximumPacketSize && Count(p) <= FRAGMENTS {
        SubmittableIs(p, maximumPacketSize);
        var fragments := [];
        if Fragmented(p) {
          var refused;
          refused, fragments := Split(p);
        }
        ghost var s, s' := now, now.(sizes := now.sizes + [Count(p)]);
        SubmitStep(s, p);
        sender.Submit(Count(p), s);
        SubmittedToo(channel, packets, s, p);
        CutUpWhen(p, fragments);
        trace := Extended(trace, s');
        now := s';
        packets, commands := packets + [p], commands + [fragments];
        ValidWhen(this);
      } else {
        SubmittableIs(p, maximumPacketSize);
      }
    }

    /** The front command is sent, for the first time or again, or the gate holds it back. */
    method Send()
      requires Valid()
      modifies this, sender, sender.reliableWindows
      ensures Valid() && old(trace) <= trace && packets == old(packets)
      ensures if old(sender.waiting) != [] && old(sender.waiting)[0].attempts < 1
        && GateOpen(old(now).sent + 1, old(now).unacked)
              then SendNew(old(now), now) else now == old(now)
    {
      hide *;
      Means();
      if sender.waiting != [] {
        var first := sender.waiting[0].attempts < 1;
        var blocked;
        ghost var s, s' := now, now;
        blocked, s' := sender.SendFront(s);
        if first && !blocked {
          SendStep(s, s');
          SenderLeavesChannel(channel, packets, s, s');
          sent := sent + 1;
          trace := Extended(trace, s');
          now := s';
        }
        ValidWhen(this);
      }
    }

    method Expire(expired: seq<bool>)
      requires Valid()
      modifies this, sender
      ensures Valid() && old(trace) <= trace && packets == old(packets) && now == old(now)
      ensures |expired| == |old(sender.kept)| ==>
        && sender.waiting == Picked(old(sender.kept), expired, true) + old(sender.waiting)
        && sender.kept == Picked(old(sender.kept), expired, false)
    {
      hide *;
      Means();
      if |expired| == |sender.kept| {
        sender.CheckTimeouts(expired, now);
        ValidWhen(this);
      }
    }

    /**
     * A copy of a command that has been sent arrives, if its packet begins at most nine windows behind the
     * receiver.
     */
    method Arrive(k: nat, x: nat, full: bool, blank: seq<Byte>)
      requires Valid()
      modifies this, channel
      ensures Valid() && old(trace) <= trace && packets == old(packets)
      ensures old(now).delivered <= |packets| == |old(now).sizes|
      ensures if Arrival(packets, old(now), k, x) && k < |packets| && |blank| == |packets[k].data|
              then now == Answer(Receive(old(now), k, x), x) || (full && now == old(now))
              else now == old(now)
    {
      hide *;
      Means();
      ChannelMeans(channel, packets, now);
      if k < |packets| && |blank| == |packets[k].data| {
        ArrivalIs(packets, now, k, x);
        var sizes := SizesOf(packets);
        var start := First(sizes, k);
        if x <= sent && start <= x < start + sizes[k]
          && Win(start) + FREE_WINDOWS + 1 >= Win(End(sizes, |channel.dispatched|)) {
          ghost var s, s' := now, Answer(Receive(now, k, x), x);
          ghost var before := channel.acknowledgements;
          var rc;
          if Fragmented(packets[k]) {
            FragmentFits(packets[k], commands[k], x - start);
            var f := commands[k][x - start];
            var piece := packets[k].data[f.offset..f.offset + f.length];
            rc := channel.ArriveFragment(Wire(x), Wire(start), f, piece, blank, maximumPacketSize, full, packets, s, k,
              x);
          } else {
            PlainAt(packets, s, k, x);
            rc := channel.ArriveReliable(Wire(start), packets[k].data, full, packets, s, k);
          }
          if rc == 0 {
            ArriveStep(packets, s, k, x);
            ReceiverLeavesSender(sender, s, s');
            AnsweredMore(before, channel.acknowledgements, answered, s, k, x);
            if |channel.acknowledgements| > |answered| {
              answered := answered + [x];
            }
            trace := Extended(trace, s');
            now := s';
          }
          ValidWhen(this);
        }
      }
    }

    /**
     * An acknowledgement arrives, at any time after it was made, unless its number names a later command by now. The
     * number of one that was sent in the last turn of the counter does not.
     */
    method HearBack(i: nat)
      requires Valid()
      modifies this, sender, sender.reliableWindows
      ensures Valid() && old(trace) <= trace && packets == old(packets)
      ensures if i < |old(answered)| && Named(old(now).unacked, Wire(old(answered)[i])) <= {old(answered)[i]}
              then now == Acknowledged(old(now), old(answered)[i]) else now == old(now)
    {
      hide *;
      Means();
      if i < |answered| {
        AnsweredAt(channel.acknowledgements, answered, now, i);
        var x, number := answered[i], channel.acknowledgements[i];
        var isKept, j, found := sender.FindSent(number);
        NamedOnly(sender, now, x, isKept, j, found);
        if sent < x + WRAP || !found {
          ghost var s, s' := now, Acknowledged(now, x);
          AcknowledgeStep(s, x);
          sender.HandleAcknowledge(number, s);
          SenderLeavesChannel(channel, packets, s, s');
          trace := Extended(trace, s');
          now := s';
          ValidWhen(this);
        }
      }
    }

    method Act(a: Action)
      requires Valid()
      modifies this, sender, sender.reliableWindows, channel
      ensures Valid() && old(trace) <= trace
      ensures packets == old(packets) + if a.Submission? && Submittable(a.packet, maximumPacketSize) then [a.packet]
        else []
    {
      hide *;
      match a {
        case Submission(p) => Submit(p);
        case Sending => Send();
        case Expiry(expired) => Expire(expired);
        case Copy(k, x, full, blank) => Arrive(k, x, full, blank);
        case Acknowledgement(i) => HearBack(i);
      }
    }

    /**
     * Whatever happens, in whatever order and however often: both ends together take a run of the abstract transport,
     * and what the receiver has dispatched is the first of the submitted packets, each once, in order and unharmed.
     * Nothing is acknowledged that has not been queued or dispatched.
     */
    method Drive(actions: seq<Action>)
      requires Valid() && packets == []
      modifies this, sender, sender.reliableWindows, channel
      ensures Valid() && old(trace) <= trace && packets == Submitted(actions, maximumPacketSize)
      ensures |channel.dispatched| <= |packets| && channel.dispatched == Bodies(packets, |channel.dispatched|)
      ensures Transport.Run(trace) && trace[|trace| - 1].delivered == |channel.dispatched|
      ensures Answered(channel.acknowledgements, answered, trace[|trace| - 1].acks)
      ensures forall i :: 0 <= i < |answered| ==> answered[i] in trace[|trace| - 1].got
    {
      hide *;
      SubmittedNothing(maximumPacketSize);
      for n := 0 to |actions|
        invariant Valid() && old(trace) <= trace && packets == Submitted(actions[..n], maximumPacketSize)
      {
        SubmittedNext(actions, n, maximumPacketSize);
        Act(actions[n]);
      }
      assert actions[..|actions|] == actions;
      Means();
      ChannelMeans(channel, packets, now);
      SafeMeans(now);
      AnsweredMeans(channel.acknowledgements, answered, now.acks);
    }
  }

  lemma SubmittedNothing(maximumPacketSize: nat)
    ensures Submitted([], maximumPacketSize) == []
  {
  }

  lemma SubmittedNext(actions: seq<Action>, n: nat, maximumPacketSize: nat)
    requires n < |actions|
    ensures var a := actions[n];
      Submitted(actions[..n + 1], maximumPacketSize) ==
      Submitted(actions[..n], maximumPacketSize)
      + if a.Submission? && Submittable(a.packet, maximumPacketSize) then [a.packet] else []
  {
    hide Submittable;
    assert actions[..n + 1][..n] == actions[..n];
  }

  lemma ChannelMeans(channel: Channel, ps: seq<Packet>, s: State)
    requires channel.Represents(ps, s)
    ensures Cuts(ps) && (forall k :: 0 <= k < |ps| ==> ps[k].cut > 0)
    ensures s.sizes == SizesOf(ps) && |s.sizes| == |ps| && s.delivered <= |ps|
    ensures |channel.dispatched| == s.delivered && channel.dispatched == Bodies(ps, s.delivered)
  {
    hide Sorted, Queued, Count, Wire;
  }

  lemma AnsweredMeans(acknowledgements: seq<nat>, answered: seq<nat>, acks: set<nat>)
    requires Answered(acknowledgements, answered, acks)
    ensures forall i :: 0 <= i < |answered| ==> answered[i] in acks
  {
  }

  lemma AnsweredAt(acknowledgements: seq<nat>, answered: seq<nat>, s: State, i: nat)
    requires Answered(acknowledgements, answered, s.acks) && i < |answered| && Safe(s)
    ensures i < |acknowledgements| && acknowledgements[i] == Wire(answered[i]) && answered[i] in s.acks
      && answered[i] <= s.sent
  {
    SafeMeans(s);
    hide Safe;
  }

  lemma AnsweredMore(before: seq<nat>, after: seq<nat>, answered: seq<nat>, s: State, k: nat, x: nat)
    requires Answered(before, answered, s.acks) && k < |s.sizes| && s.delivered <= |s.sizes|
    requires after == before + if Suppressed(x, Cumulative(Receive(s, k, x))) then [] else [Wire(x)]
    ensures Answered(after, if |after| > |answered| then answered + [x] else answered, Answer(Receive(s, k, x), x).acks)
  {
    hide Suppressed, Wire, Acceptable, Cumulative;
  }

  lemma SendStep(s: State, s': State)
    requires SendNew(s, s')
    ensures Step(s, s') && s'.sent == s.sent + 1 && s' == s.(sent := s'.sent, unacked := s'.unacked)
  {
    hide GateOpen, End;
  }

  /** What a copy has to meet. */
  lemma ArrivalIs(ps: seq<Packet>, s: State, k: nat, x: nat)
    requires Cuts(ps) && s.sizes == SizesOf(ps) && Safe(s) && k < |ps| && s.delivered <= |s.sizes|
    ensures Arrival(ps, s, k, x) <==>
      && x <= s.sent && First(s.sizes, k) <= x < First(s.sizes, k) + s.sizes[k]
      && Win(First(s.sizes, k)) + FREE_WINDOWS + 1 >= Win(End(s.sizes, s.delivered))
  {
    hide Safe, Win, Count;
    EndNext(s.sizes, k);
  }

  lemma ArriveStep(ps: seq<Packet>, s: State, k: nat, x: nat)
    requires Arrival(ps, s, k, x)
    ensures k < |s.sizes| && s.delivered <= |s.sizes|
    ensures Step(s, Answer(Receive(s, k, x), x))
    ensures var s' := Answer(Receive(s, k, x), x); s' == s.(delivered := s'.delivered, got := s'.got, acks := s'.acks)
  {
    hide ReceiverSound, SenderSound, Suppressed, Acceptable;
    assert Transport.Arrive(s, Answer(Receive(s, k, x), x));
  }

  lemma FragmentFits(p: Packet, fragments: seq<Fragment>, j: nat)
    requires p.cut > 0 && Fragmented(p) && CutUp(p, fragments) && j < Count(p)
    ensures j < |fragments| && IsFragment(fragments[j], p, j) && fragments[j].number == j
      && fragments[j].total == |p.data|
    ensures fragments[j].offset + fragments[j].length <= |p.data|
  {
    hide Count;
    assert IsFragment(fragments[j], p, j);
  }

  lemma PlainAt(ps: seq<Packet>, s: State, k: nat, x: nat)
    requires Arrival(ps, s, k, x) && k < |ps| && !Fragmented(ps[k])
    ensures k < |s.sizes| && x == First(s.sizes, k)
  {
    hide Safe, Timely;
    EndNext(s.sizes, k);
  }

  /** Whether the number of an acknowledgement names another command: the search and the counter decide it. */
  lemma NamedOnly(sender: Sender, s: State, x: nat, isKept: bool, j: nat, found: bool)
    requires sender.Represents(s) && Safe(s) && x <= s.sent
    requires found && isKept ==> j < |sender.kept| && sender.kept[j].number == Wire(x)
    requires found && !isKept ==>
      j < |sender.waiting| && sender.waiting[j].number == Wire(x) && sender.waiting[j].attempts >= 1
    requires !found ==> j <= |sender.waiting| && (j == |sender.waiting| || sender.waiting[j].attempts < 1)
    requires !found ==> forall n :: 0 <= n < |sender.kept| ==> sender.kept[n].number != Wire(x)
    requires !found ==> forall n :: 0 <= n < j ==> sender.waiting[n].number != Wire(x)
    ensures s.sent < x + WRAP || !found <==> Named(s.unacked, Wire(x)) <= {x}
  {
    hide *;
    SenderMeans(sender, s);
    if !found {
      NothingNamed(sender.waiting, sender.kept, sender.rs, sender.ss, s, Wire(x), j);
    } else if s.sent < x + WRAP {
      NamesNoOther(s, x);
    } else {
      var y := WhichOne(sender.waiting, sender.kept, sender.rs, sender.ss, s, Wire(x), isKept, j);
      SenderSide(s);
      OutstandingNear(s, y);
    }
  }

  lemma SenderSide(s: State)
    requires Safe(s)
    ensures SenderSound(s)
  {
    hide SenderSound, ReceiverSound;
  }

  lemma AcknowledgeStep(s: State, x: nat)
    requires x in s.acks && Named(s.unacked, Wire(x)) <= {x}
    ensures Step(s, Acknowledged(s, x)) && Acknowledged(s, x) == s.(unacked := s.unacked - Named(s.unacked, Wire(x)))
  {
    assert Acknowledge(s, Acknowledged(s, x));
  }

  lemma SafeMeans(s: State)
    requires Safe(s)
    ensures s.delivered <= |s.sizes| && Sizes(s.sizes) && forall x :: x in s.acks ==> x in s.got && 1 <= x <= s.sent
  {
    hide Acceptable, Holds, Win, End;
  }

  lemma SubmittableIs(p: Packet, maximumPacketSize: nat)
    ensures Submittable(p, maximumPacketSize) <==> p.cut > 0 && |p.data| <= maximumPacketSize && Count(p) <= FRAGMENTS
    ensures Submittable(p, maximumPacketSize) ==> 1 <= Count(p) <= MAXIMUM_FRAGMENT_COUNT
  {
    if p.cut > 0 && Fragmented(p) {
      CountCovers(p);
    }
  }

  lemma SubmitStep(s: State, p: Packet)
    requires p.cut > 0 && 1 <= Count(p) <= FRAGMENTS
    ensures Step(s, s.(sizes := s.sizes + [Count(p)]))
  {
    hide Count;
    var n := Count(p);
    assert Transport.Submit(s, s.(sizes := s.sizes + [n]));
  }

  lemma CutUpWhen(p: Packet, fragments: seq<Fragment>)
    requires p.cut > 0
    requires Fragmented(p) ==>
      |fragments| == Count(p) && forall j :: 0 <= j < |fragments| ==> IsFragment(fragments[j], p, j)
    ensures CutUp(p, fragments)
  {
    hide Count, IsFragment;
  }

  lemma ValidWhen(link: Link)
    requires link.trace != [] && Transport.Run(link.trace) && link.trace[|link.trace| - 1] == link.now
      && link.sender.Represents(link.now)
    requires link.channel.Represents(link.packets, link.now) && link.sent == link.now.sent
    requires Answered(link.channel.acknowledgements, link.answered, link.now.acks) && |link.commands| == |link.packets|
    requires forall k :: 0 <= k < |link.packets| ==>
      |link.packets[k].data| <= link.maximumPacketSize && CutUp(link.packets[k], link.commands[k])
    ensures link.Valid()
  {
    hide Transport.Run, Answered, CutUp;
  }
}
