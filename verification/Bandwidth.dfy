/** How many peers of a host are connected, and how its incoming bandwidth is shared among them. */
module Bandwidth {
  import opened Numbers

  datatype PeerState =
    | Disconnected | Connecting | AcknowledgingConnect | ConnectionPending | ConnectionSucceeded | Connected
    | DisconnectLater | Disconnecting
    | AcknowledgingDisconnect | Zombie

  /** `epoch` is the tick at which the peer's share was settled. */
  datatype Peer = Peer(state: PeerState, incomingBandwidth: nat, outgoingBandwidth: nat, epoch: nat)

  predicate IsConnected(p: Peer) { p.state.Connected? || p.state.DisconnectLater? }

  predicate IsSettled(p: Peer, now: nat) { IsConnected(p) && p.epoch == now }

  predicate IsOpen(p: Peer, now: nat) { IsConnected(p) && p.epoch != now }

  const RESET := Peer(Disconnected, 0, 0, 0)

  /**
   * What a request to disconnect makes of a peer: nothing if it is on its way out, a goodbye if it is connected, a
   * reset otherwise.
   */
  function Dismissed(p: Peer): Peer {
    match p.state
    case Disconnecting => p
    case Disconnected => p
    case AcknowledgingDisconnect => p
    case Zombie => p
    case Connected => p.(state := Disconnecting)
    case DisconnectLater => p.(state := Disconnecting)
    case _ => RESET
  }

  /** A peer found dead: reset at once before it was ever reported, or when the event can be told now. */
  function Lost(p: Peer, hasEvent: bool): Peer {
    if p.state.Disconnected? || p.state.AcknowledgingConnect? || p.state.ConnectionPending? || hasEvent then RESET
      else p.(state := Zombie)
  }

  /** The other side says goodbye. */
  function Left(p: Peer, acknowledge: bool): Peer {
    match p.state
    case Disconnected => p
    case Zombie => p
    case AcknowledgingDisconnect => p
    case ConnectionSucceeded => p.(state := Zombie)
    case Disconnecting => p.(state := Zombie)
    case Connecting => p.(state := Zombie)
    case Connected => p.(state := if acknowledge then AcknowledgingDisconnect else Zombie)
    case DisconnectLater => p.(state := if acknowledge then AcknowledgingDisconnect else Zombie)
    case _ => RESET
  }

  /**
   * Whatever the way out, such a peer is not counted any more, and one that is counted keeps its bandwidths until
   * it is reset.
   */
  lemma Leaving(p: Peer, hasEvent: bool, acknowledge: bool)
    ensures !IsConnected(Dismissed(p)) && !IsConnected(Lost(p, hasEvent)) && !IsConnected(Left(p, acknowledge))
    ensures IsConnected(p) ==>
      Dismissed(p) == p.(state := Disconnecting) && Left(p, acknowledge).outgoingBandwidth == p.outgoingBandwidth
  {
  }

  /** One of two states. */
  predicate Either(s: PeerState, a: PeerState, b: PeerState) { s == a || s == b }

  /** Nothing but the state changes unless the peer is reset, and a reset leaves nothing. */
  predicate OnlyState(p: Peer, q: Peer) { q == p.(state := q.state) || q == Peer(Disconnected, 0, 0, 0) }

  /**
   * A goodbye: the peer has to acknowledge exactly when it was counted and was asked to, or has to already; it is
   * reset exactly from the two states of a handshake it answered; a zombie otherwise, unless it was gone already.
   */
  lemma GoodbyeStates(p: Peer, acknowledge: bool)
    ensures var before, after := p.state, Left(p, acknowledge).state;
      && (after == AcknowledgingDisconnect <==>
            before == AcknowledgingDisconnect || (Either(before, Connected, DisconnectLater) && acknowledge))
      && (after == Disconnected <==>
            before == Disconnected || Either(before, AcknowledgingConnect, ConnectionPending))
      && (after == Zombie <==>
            || before == Zombie || Either(before, Connecting, ConnectionSucceeded) || before == Disconnecting
            || (Either(before, Connected, DisconnectLater) && !acknowledge))
      && (after == before <==>
            before == Disconnected || before == Zombie || before == AcknowledgingDisconnect)
    ensures OnlyState(p, Left(p, acknowledge))
  {
  }

  /** A request to disconnect: a counted peer says goodbye, one in a handshake is reset, all others stay. */
  lemma DismissalStates(p: Peer)
    ensures var before, after := p.state, Dismissed(p).state;
      && (after == Disconnecting <==>
            before == Disconnecting || Either(before, Connected, DisconnectLater))
      && (after == Disconnected <==>
            || before == Disconnected || before == Connecting || before == AcknowledgingConnect
            || Either(before, ConnectionPending, ConnectionSucceeded))
      && (after == before <==>
        Either(before, Disconnecting, Disconnected) || Either(before, AcknowledgingDisconnect, Zombie))
    ensures OnlyState(p, Dismissed(p))
  {
  }

  /** A peer found dead: a zombie to be reported later exactly when it was known and no event can be told now. */
  lemma LossStates(p: Peer, hasEvent: bool)
    ensures var before, after := p.state, Lost(p, hasEvent).state;
      && (after == Zombie <==>
            !hasEvent && before != Disconnected && !Either(before, AcknowledgingConnect, ConnectionPending))
      && (after != Zombie ==> Lost(p, hasEvent) == Peer(Disconnected, 0, 0, 0))
    ensures OnlyState(p, Lost(p, hasEvent))
  {
  }

  // ---- Sums over the peers ----

  datatype Weight = ConnectedCount | LimitedCount | OpenCount(now: nat) | SettledBandwidth(now: nat)

  function Of(p: Peer, w: Weight): nat {
    match w
    case ConnectedCount => if IsConnected(p) then 1 else 0
    case LimitedCount => if IsConnected(p) && p.incomingBandwidth != 0 then 1 else 0
    case OpenCount(now) => if IsOpen(p, now) then 1 else 0
    case SettledBandwidth(now) => if IsSettled(p, now) then p.outgoingBandwidth else 0
  }

  function Sum(ps: seq<Peer>, w: Weight): nat { if ps == [] then 0 else Sum(ps[..|ps| - 1], w) + Of(ps[|ps| - 1], w) }

  lemma {:induction false} SumUpdate(ps: seq<Peer>, i: nat, p: Peer, w: Weight)
    requires i < |ps|
    ensures Sum(ps[i := p], w) + Of(ps[i], w) == Sum(ps, w) + Of(p, w)
    ensures Sum(ps, w) >= Of(ps[i], w)
    decreases |ps|
  {
    hide Of;
    var n := |ps| - 1;
    if i == n {
      assert ps[i := p][..n] == ps[..n];
    } else {
      SumUpdate(ps[..n], i, p, w);
      assert ps[i := p][..n] == ps[..n][i := p];
    }
  }

  lemma {:induction false} SumZero(ps: seq<Peer>, w: Weight)
    ensures Sum(ps, w) == 0 <==> forall i :: 0 <= i < |ps| ==> Of(ps[i], w) == 0
  {
    hide Of;
    if ps != [] {
      var n := |ps| - 1;
      SumZero(ps[..n], w);
      assert forall i :: 0 <= i < n ==> ps[..n][i] == ps[i];
    }
  }

  /** On a fresh tick nobody is settled. */
  lemma {:induction false} SumFresh(ps: seq<Peer>, now: nat)
    requires forall i :: 0 <= i < |ps| && IsConnected(ps[i]) ==> ps[i].epoch != now
    ensures Sum(ps, OpenCount(now)) == Sum(ps, ConnectedCount) && Sum(ps, SettledBandwidth(now)) == 0
  {
    if ps != [] {
      SumFresh(ps[..|ps| - 1], now);
    }
  }

  // ---- The host ----

  class Host {
    const peers: array<Peer>
    var connectedPeers: nat
    var bandwidthLimitedPeers: nat
    var recalculateBandwidthLimits: bool

    /** The counters are the numbers of connected peers, and of those with a limited bandwidth. */
    ghost predicate Valid()
      reads this, peers
    {
      && connectedPeers == Sum(peers[..], ConnectedCount)
      && bandwidthLimitedPeers == Sum(peers[..], LimitedCount)
    }

    /** enet_host_create: all peers disconnected. */
    constructor (peerCount: nat)
      ensures Valid() && fresh(peers) && peers.Length == peerCount
      ensures forall i :: 0 <= i < peerCount ==> peers[i].state == Disconnected
    {
      peers := new Peer[peerCount](_ => Peer(Disconnected, 0, 0, 0));
      connectedPeers, bandwidthLimitedPeers, recalculateBandwidthLimits := 0, 0, false;
      new;
      SumZero(peers[..], ConnectedCount);
      SumZero(peers[..], LimitedCount);
    }

    /** A peer gets a new record; the counters follow it. */
    ghost predicate Became(before: seq<Peer>, i: nat, p: Peer)
      reads this, peers
    {
      i < |before| && peers[..] == before[i := p] && Valid()
    }

    lemma Replaced(before: seq<Peer>, i: nat, p: Peer)
      requires i < |before| && peers[..] == before[i := p]
      requires connectedPeers + Of(before[i], ConnectedCount) == Sum(before, ConnectedCount) + Of(p, ConnectedCount)
      requires bandwidthLimitedPeers + Of(before[i], LimitedCount) == Sum(before, LimitedCount) + Of(p, LimitedCount)
      ensures Became(before, i, p)
    {
      SumUpdate(before, i, p, ConnectedCount);
      SumUpdate(before, i, p, LimitedCount);
    }

    /** enet_peer_on_connect */
    method OnConnect(i: nat)
      requires i < peers.Length
      modifies this`connectedPeers, this`bandwidthLimitedPeers
      ensures var p := peers[i]; var q := p.(state := Connected);
        && connectedPeers == old(connectedPeers) + Of(q, ConnectedCount) - Of(p, ConnectedCount)
        && bandwidthLimitedPeers == old(bandwidthLimitedPeers) + Of(q, LimitedCount) - Of(p, LimitedCount)
    {
      if !peers[i].state.Connected? && !peers[i].state.DisconnectLater? {
        if peers[i].incomingBandwidth != 0 {
          bandwidthLimitedPeers := bandwidthLimitedPeers + 1;
        }
        connectedPeers := connectedPeers + 1;
      }
    }

    /** enet_peer_on_disconnect; neither counter can go below zero. */
    method OnDisconnect(i: nat)
      requires Valid() && i < peers.Length
      modifies this`connectedPeers, this`bandwidthLimitedPeers
      ensures connectedPeers + Of(peers[i], ConnectedCount) == old(connectedPeers)
      ensures bandwidthLimitedPeers + Of(peers[i], LimitedCount) == old(bandwidthLimitedPeers)
    {
      SumUpdate(peers[..], i, peers[i], ConnectedCount);
      SumUpdate(peers[..], i, peers[i], LimitedCount);
      if peers[i].state.Connected? || peers[i].state.DisconnectLater? {
        if peers[i].incomingBandwidth != 0 {
          bandwidthLimitedPeers := bandwidthLimitedPeers - 1;
        }
        connectedPeers := connectedPeers - 1;
      }
    }

    /** enet_protocol_change_state */
    method ChangeState(i: nat, state: PeerState)
      requires Valid() && i < peers.Length
      modifies this`connectedPeers, this`bandwidthLimitedPeers, peers
      ensures Became(old(peers[..]), i, old(peers[i]).(state := state))
    {
      ghost var before := peers[..];
      if state.Connected? || state.DisconnectLater? {
        OnConnect(i);
      } else {
        OnDisconnect(i);
      }
      peers[i] := peers[i].(state := state);
      Replaced(before, i, before[i].(state := state));
    }

    /** enet_peer_reset, as far as the peer's state and bandwidths go. */
    method Reset(i: nat)
      requires Valid() && i < peers.Length
      modifies this`connectedPeers, this`bandwidthLimitedPeers, peers
      ensures Became(old(peers[..]), i, RESET)
    {
      ghost var before := peers[..];
      OnDisconnect(i);
      peers[i] := peers[i].(state := Disconnected);
      peers[i] := peers[i].(incomingBandwidth := 0, outgoingBandwidth := 0, epoch := 0);
      Replaced(before, i, RESET);
    }

    /** A state set without the counters, which is only done between states that do not count or that both do. */
    method SetState(i: nat, state: PeerState)
      requires Valid() && i < peers.Length && IsConnected(peers[i]) == IsConnected(peers[i].(state := state))
      modifies peers
      ensures Became(old(peers[..]), i, old(peers[i]).(state := state))
    {
      ghost var before := peers[..];
      peers[i] := peers[i].(state := state);
      SumUpdate(before, i, before[i], ConnectedCount);
      SumUpdate(before, i, before[i], LimitedCount);
      Replaced(before, i, before[i].(state := state));
    }

    /** enet_host_connect and enet_protocol_handle_connect take the first free peer. */
    method TakeFree(state: PeerState) returns (i: nat)
      requires Valid() && (state.Connecting? || state.AcknowledgingConnect?)
      modifies peers
      ensures i <= peers.Length && forall k :: 0 <= k < i ==> old(peers[k]).state != Disconnected
      ensures i == peers.Length ==> peers[..] == old(peers[..]) && Valid()
      ensures i < peers.Length ==>
        old(peers[i]).state == Disconnected && Became(old(peers[..]), i, old(peers[i]).(state := state))
    {
      i := 0;
      while i < peers.Length && peers[i].state != Disconnected
        invariant i <= peers.Length && forall k :: 0 <= k < i ==> peers[k].state != Disconnected
      {
        i := i + 1;
      }
      if i < peers.Length {
        SetState(i, state);
      }
    }

    /** enet_peer_disconnect */
    method Disconnect(i: nat)
      requires Valid() && i < peers.Length
      modifies this`connectedPeers, this`bandwidthLimitedPeers, peers
      ensures Became(old(peers[..]), i, Dismissed(old(peers[i])))
      ensures var before, after := old(peers[i]).state, peers[i].state;
        && (Either(before, Connected, DisconnectLater) ==> after == Disconnecting)
        && (Either(before, Connecting, AcknowledgingConnect) || before == ConnectionPending
            || before == ConnectionSucceeded ==>
              peers[i] == Peer(Disconnected, 0, 0, 0))
        && (Either(before, Disconnecting, Disconnected) || Either(before, AcknowledgingDisconnect, Zombie) ==>
              peers[i] == old(peers[i]))
    {
      ghost var before := peers[..];
      var s := peers[i].state;
      if s.Disconnecting? || s.Disconnected? || s.AcknowledgingDisconnect? || s.Zombie? {
        assert before[i := before[i]] == before;
        return;
      }
      if s.Connected? || s.DisconnectLater? {
        OnDisconnect(i);
        peers[i] := peers[i].(state := Disconnecting);
        Replaced(before, i, before[i].(state := Disconnecting));
      } else {
        Reset(i);
      }
    }

    /** enet_peer_disconnect_later: at once when nothing is left to send. */
    method DisconnectAfter(i: nat, hasOutgoing: bool)
      requires Valid() && i < peers.Length
      modifies this`connectedPeers, this`bandwidthLimitedPeers, peers
      ensures var p := old(peers[i]);
        Became(old(peers[..]), i, if IsConnected(p) && hasOutgoing then p.(state := DisconnectLater) else Dismissed(p))
    {
      if (peers[i].state.Connected? || peers[i].state.DisconnectLater?) && hasOutgoing {
        SetState(i, DisconnectLater);
      } else {
        Disconnect(i);
      }
    }

    /** enet_protocol_notify_disconnect */
    method NotifyDisconnect(i: nat, hasEvent: bool)
      requires Valid() && i < peers.Length
      modifies this, peers
      ensures Became(old(peers[..]), i, Lost(old(peers[i]), hasEvent))
      ensures var before, after := old(peers[i]).state, peers[i].state;
        && (after == Zombie <==>
              !hasEvent && before != Disconnected && !Either(before, AcknowledgingConnect, ConnectionPending))
        && (after != Zombie ==> peers[i] == Peer(Disconnected, 0, 0, 0))
      ensures var s := old(peers[i]).state;
        recalculateBandwidthLimits ==
          (old(recalculateBandwidthLimits) || !(s.Disconnected? || s.Connecting? || s.AcknowledgingConnect?))
    {
      var s := peers[i].state;
      if !s.Disconnected? && !s.Connecting? && !s.AcknowledgingConnect? {
        recalculateBandwidthLimits := true;
      }
      if s.Disconnected? || s.AcknowledgingConnect? || s.ConnectionPending? {
        Reset(i);
      } else if hasEvent {
        Reset(i);
      } else {
        ChangeState(i, Zombie);
      }
    }

    /** enet_protocol_handle_disconnect */
    method HandleDisconnect(i: nat, acknowledge: bool)
      requires Valid() && i < peers.Length
      modifies this, peers
      ensures Became(old(peers[..]), i, Left(old(peers[i]), acknowledge))
      ensures var before, after := old(peers[i]).state, peers[i].state;
        && (after == AcknowledgingDisconnect <==>
              before == AcknowledgingDisconnect || (Either(before, Connected, DisconnectLater) && acknowledge))
        && (after == Disconnected <==>
              before == Disconnected || Either(before, AcknowledgingConnect, ConnectionPending))
        && (after == Zombie <==>
              || before == Zombie || Either(before, Connecting, ConnectionSucceeded) || before == Disconnecting
              || (Either(before, Connected, DisconnectLater) && !acknowledge))
        && OnlyState(old(peers[i]), peers[i])
      ensures recalculateBandwidthLimits == (old(recalculateBandwidthLimits) || old(peers[i]).state.ConnectionPending?)
    {
      ghost var before := peers[..];
      var s := peers[i].state;
      if s.Disconnected? || s.Zombie? || s.AcknowledgingDisconnect? {
        assert before[i := before[i]] == before;
        return;
      }
      if s.ConnectionSucceeded? || s.Disconnecting? || s.Connecting? {
        ChangeState(i, Zombie);
      } else if !s.Connected? && !s.DisconnectLater? {
        if s.ConnectionPending? {
          recalculateBandwidthLimits := true;
        }
        Reset(i);
      } else if acknowledge {
        ChangeState(i, AcknowledgingDisconnect);
      } else {
        ChangeState(i, Zombie);
      }
    }

    /** enet_protocol_handle_bandwidth_limit */
    method HandleBandwidthLimit(i: nat, incoming: nat, outgoing: nat) returns (ok: bool)
      requires Valid() && i < peers.Length
      modifies this`bandwidthLimitedPeers, peers
      ensures ok == old(IsConnected(peers[i]))
      ensures Became(old(peers[..]), i,
                     if ok then old(peers[i]).(incomingBandwidth := incoming, outgoingBandwidth := outgoing)
                       else old(peers[i]))
    {
      ghost var before := peers[..];
      if !peers[i].state.Connected? && !peers[i].state.DisconnectLater? {
        assert before[i := before[i]] == before;
        return false;
      }
      SumUpdate(before, i, before[i], LimitedCount);
      SumUpdate(before, i, before[i], ConnectedCount);
      if peers[i].incomingBandwidth != 0 {
        bandwidthLimitedPeers := bandwidthLimitedPeers - 1;
      }
      peers[i] := peers[i].(incomingBandwidth := incoming);
      peers[i] := peers[i].(outgoingBandwidth := outgoing);
      if peers[i].incomingBandwidth != 0 {
        bandwidthLimitedPeers := bandwidthLimitedPeers + 1;
      }
      Replaced(before, i, before[i].(incomingBandwidth := incoming, outgoingBandwidth := outgoing));
      ok := true;
    }

    /** What a handshake says about the other side's bandwidths, before the peer counts. */
    method LearnBandwidths(i: nat, incoming: nat, outgoing: nat)
      requires Valid() && i < peers.Length && !IsConnected(peers[i])
      modifies peers
      ensures Became(old(peers[..]), i, old(peers[i]).(incomingBandwidth := incoming, outgoingBandwidth := outgoing))
    {
      ghost var before := peers[..];
      SumUpdate(before, i, before[i], ConnectedCount);
      SumUpdate(before, i, before[i], LimitedCount);
      peers[i] := peers[i].(incomingBandwidth := incoming, outgoingBandwidth := outgoing);
      Replaced(before, i, before[i].(incomingBandwidth := incoming, outgoingBandwidth := outgoing));
    }

    /**
     * The state of the sharing: what is left belongs to the open peers, and everyone settled asked for less than
     * the limit.
     */
    ghost predicate Sharing(before: seq<Peer>, now: nat, total: nat, remaining: nat, bandwidth: nat, limit: nat)
      reads this, peers
    {
      && |before| == peers.Length && (forall i :: 0 <= i < |before| ==> Marked(before[i], peers[i], now))
      && remaining == Sum(peers[..], OpenCount(now)) && bandwidth + Sum(peers[..], SettledBandwidth(now)) == total
      && (forall i :: 0 <= i < |before| && IsSettled(peers[i], now) ==> Little(peers[i], limit))
      && Times(limit, remaining) <= bandwidth
    }

    /** One peer takes what it asks for, which is still there. */
    method Settle(ghost before: seq<Peer>, now: nat, ghost total: nat, i: nat, ghost remaining: nat, bandwidth: nat,
          limit: nat) returns (left: nat)
      requires Sharing(before, now, total, remaining, bandwidth, limit)
      requires i < peers.Length && IsOpen(peers[i], now) && Little(peers[i], limit)
      modifies peers
      ensures remaining > 0 && left + old(peers[i]).outgoingBandwidth == bandwidth
      ensures peers[..] == old(peers[..])[i := old(peers[i]).(epoch := now)]
      ensures Sharing(before, now, total, remaining - 1, left, limit)
    {
      hide Sum;
      ghost var ps := peers[..];
      var p := peers[i].(epoch := now);
      SumUpdate(ps, i, p, OpenCount(now));
      SumUpdate(ps, i, p, SettledBandwidth(now));
      TimesLess(limit, remaining);
      peers[i] := p;
      left := bandwidth - p.outgoingBandwidth;
    }

    /** One pass over the peers with a fixed limit. */
    method SettlePass(ghost before: seq<Peer>, now: nat, ghost total: nat, remaining: nat, bandwidth: nat, limit: nat)
      returns (remaining': nat, bandwidth': nat, again: bool)
      requires Sharing(before, now, total, remaining, bandwidth, limit)
      modifies peers
      ensures Sharing(before, now, total, remaining', bandwidth', limit)
      ensures again <==> remaining' < remaining
      ensures again || (remaining' == remaining && bandwidth' == bandwidth)
      ensures forall i :: 0 <= i < peers.Length && IsOpen(peers[i], now) ==> !Little(peers[i], limit)
    {
      hide Sharing;
      remaining', bandwidth', again := remaining, bandwidth, false;
      for i := 0 to peers.Length
        invariant Sharing(before, now, total, remaining', bandwidth', limit)
        invariant remaining' <= remaining && (again <==> remaining' < remaining) && (again || bandwidth' == bandwidth)
        invariant forall k :: 0 <= k < i && IsOpen(peers[k], now) ==> !Little(peers[k], limit)
      {
        if !(peers[i].state.Connected? || peers[i].state.DisconnectLater?) || peers[i].epoch == now {
          continue;
        }
        if peers[i].outgoingBandwidth > 0 && peers[i].outgoingBandwidth >= limit {
          continue;
        }
        bandwidth' := Settle(before, now, total, i, remaining', bandwidth', limit);
        again := true;
        remaining' := remaining' - 1;
      }
    }

    /**
     * The recalculation of enet_host_bandwidth_throttle, on a tick nobody was settled at before: everyone who asks for
     * less than the limit, or for no particular amount, is settled; the rest share what is left in equal parts.
     */
    method Recalculate(now: nat, incomingBandwidth: nat)
          returns (limit: nat, ghost limits: seq<nat>, commands: seq<Command>)
      requires Valid()
      requires forall i :: 0 <= i < peers.Length && IsConnected(peers[i]) ==> peers[i].epoch != now
      modifies this`recalculateBandwidthLimits, peers
      ensures Valid() && !recalculateBandwidthLimits
      ensures forall i :: 0 <= i < peers.Length ==> Marked(old(peers[..])[i], peers[i], now)
      ensures incomingBandwidth > 0 ==>
        forall i :: 0 <= i < peers.Length && (peers[i].state == Connected || peers[i].state == DisconnectLater) ==>
          (peers[i].epoch == now <==> peers[i].outgoingBandwidth == 0 || peers[i].outgoingBandwidth < limit)
      ensures Sum(peers[..], SettledBandwidth(now)) + Times(limit, Sum(peers[..], OpenCount(now))) <= incomingBandwidth
      ensures incomingBandwidth > 0 && Sum(peers[..], OpenCount(now)) > 0 ==>
        limit == (incomingBandwidth - Sum(peers[..], SettledBandwidth(now))) / Sum(peers[..], OpenCount(now))
      ensures incomingBandwidth == 0 ==> limit == 0 && peers[..] == old(peers[..])
      ensures Rising(limits) && (limits == [] ==> limit == 0) && (limits != [] ==> limit == limits[|limits| - 1])
      ensures commands == Commands(peers[..], now, limit) && Granted(commands) <= incomingBandwidth
    {
      hide Sum, Commands, Granted;
      ghost var before := peers[..];
      recalculateBandwidthLimits := false;
      assert peers[..] == before;
      var remaining, bandwidth, again := connectedPeers, incomingBandwidth, true;
      limit, limits := 0, [];
      SumFresh(peers[..], now);
      TimesZero(remaining);
      if bandwidth != 0 {
        while remaining > 0 && again
          invariant !recalculateBandwidthLimits && Sharing(before, now, incomingBandwidth, remaining, bandwidth, limit)
          invariant !again ==> remaining > 0 && limit == bandwidth / remaining
          invariant !again ==> forall i :: 0 <= i < peers.Length && IsOpen(peers[i], now) ==> !Little(peers[i], limit)
          invariant Rising(limits) && (limits == [] ==> limit == 0) && (limits != [] ==> limit == limits[|limits| - 1])
          decreases remaining, again
        {
          Divided(bandwidth, remaining, limit);
          limits := limits + [bandwidth / remaining];
          limit := bandwidth / remaining;
          remaining, bandwidth, again := SettlePass(before, now, incomingBandwidth, remaining, bandwidth, limit);
        }
      }
      MarkedSums(before, peers[..], now);
      if remaining == 0 {
        SumZero(peers[..], OpenCount(now));
      }
      commands := SendLimits(now, limit);
      GrantedTotal(peers[..], now, limit);
    }

    /** Telling every connected peer its share. */
    method SendLimits(now: nat, limit: nat) returns (commands: seq<Command>)
      ensures commands == Commands(peers[..], now, limit)
    {
      commands := [];
      for i := 0 to peers.Length
        invariant commands == Commands(peers[..i], now, limit)
      {
        assert peers[..i + 1][..i] == peers[..i];
        if !peers[i].state.Connected? && !peers[i].state.DisconnectLater? {
          continue;
        }
        var share := limit;
        if peers[i].epoch == now {
          share := peers[i].outgoingBandwidth;
        }
        commands := commands + [Command(i, share)];
      }
      assert peers[..peers.Length] == peers[..];
    }
  }

  /** A bandwidth limit command for one peer. */
  datatype Command = Command(peer: nat, incoming: nat)

  function Commands(ps: seq<Peer>, now: nat, limit: nat): seq<Command> {
    if ps == [] then []
    else
      var n := |ps| - 1;
      Commands(ps[..n], now, limit)
      + if IsConnected(ps[n]) then [Command(n, if ps[n].epoch == now then ps[n].outgoingBandwidth else limit)] else []
  }

  function Granted(cs: seq<Command>): nat { if cs == [] then 0 else Granted(cs[..|cs| - 1]) + cs[|cs| - 1].incoming }

  /** All shares together: what the settled peers asked for, and the limit for each of the others. */
  lemma {:induction false} GrantedTotal(ps: seq<Peer>, now: nat, limit: nat)
    ensures Granted(Commands(ps, now, limit)) == Sum(ps, SettledBandwidth(now)) + Times(limit, Sum(ps, OpenCount(now)))
  {
    if ps != [] {
      var n := |ps| - 1;
      GrantedTotal(ps[..n], now, limit);
      var cs := Commands(ps[..n], now, limit);
      TimesOne(limit, Sum(ps[..n], OpenCount(now)));
      if IsConnected(ps[n]) {
        var c := Command(n, if ps[n].epoch == now then ps[n].outgoingBandwidth else limit);
        assert (cs + [c])[..|cs|] == cs;
      } else {
        assert cs + [] == cs;
      }
    }
  }

  lemma TimesOne(a: nat, n: nat)
    ensures Times(a, n + 1) == Times(a, n) + a
  {
  }

  /** The limits of the passes never go down. */
  ghost predicate Rising(limits: seq<nat>) { forall i, j :: 0 <= i < j < |limits| ==> limits[i] <= limits[j] }

  /** Asks for less than the limit, or for no particular amount. */
  predicate Little(p: Peer, limit: nat) { p.outgoingBandwidth == 0 || p.outgoingBandwidth < limit }

  /** At most the tick was noted, and only for a connected peer. */
  predicate Marked(p: Peer, q: Peer, now: nat) { q == p || (q == p.(epoch := now) && IsConnected(p)) }

  lemma {:induction false} MarkedSums(ps: seq<Peer>, qs: seq<Peer>, now: nat)
    requires |ps| == |qs| && forall i :: 0 <= i < |ps| ==> Marked(ps[i], qs[i], now)
    ensures Sum(qs, ConnectedCount) == Sum(ps, ConnectedCount) && Sum(qs, LimitedCount) == Sum(ps, LimitedCount)
  {
    if ps != [] {
      var n := |ps| - 1;
      MarkedSums(ps[..n], qs[..n], now);
    }
  }

  lemma TimesLess(a: nat, b: nat)
    requires b > 0
    ensures Times(a, b) == Times(a, b - 1) + a
  {
  }

  lemma TimesZero(b: nat)
    ensures Times(0, b) == 0
  {
  }

  lemma TimesNext(a: nat, n: nat)
    ensures Times(a + 1, n) == Times(a, n) + n
  {
  }

  lemma {:induction false} TimesMore(a: nat, b: nat, n: nat)
    requires a < b
    ensures Times(a, n) + n <= Times(b, n)
  {
    hide Times;
    TimesNext(b - 1, n);
    if a < b - 1 {
      TimesMore(a, b - 1, n);
    }
  }

  lemma Quotient(v: nat, n: nat)
    requires n > 0
    ensures Times(v / n, n) <= v < Times(v / n, n) + n
  {
  }

  /** The share is the largest that fits. */
  lemma Divided(bandwidth: nat, n: nat, limit: nat)
    requires n > 0 && Times(limit, n) <= bandwidth
    ensures limit <= bandwidth / n && Times(bandwidth / n, n) <= bandwidth
  {
    hide Times;
    Quotient(bandwidth, n);
    if bandwidth / n < limit {
      TimesMore(bandwidth / n, limit, n);
    }
  }
}
