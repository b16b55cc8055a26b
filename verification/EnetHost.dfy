/** A host with its peers: the handlers that change a peer's state, and the sharing of the host's incoming bandwidth. */
module EnetHost {
  import opened EnetPeers
  import opened EnetBandwidth

  /** The number of a state. */
  function Order(s: PeerState): nat
  {
    match s
    case Disconnected => 0
    case Connecting => 1
    case AcknowledgingConnect => 2
    case ConnectionPending => 3
    case ConnectionSucceeded => 4
    case Connected => 5
    case DisconnectLater => 6
    case Disconnecting => 7
    case AcknowledgingDisconnect => 8
    case Zombie => 9
  }

  lemma {:induction false} NobodyYet(peers: seq<Peer>)
    requires forall i :: 0 <= i < |peers| ==> peers[i].state == Disconnected
    ensures Count(peers) == 0 && CountLimited(peers) == 0
    decreases |peers|
  {
    if peers != [] {
      assert peers[|peers| - 1].state == Disconnected;
      NobodyYet(peers[..|peers| - 1]);
    }
  }

  class Host {
    const peers: array<Peer>
    var connectedPeers: int
    var bandwidthLimitedPeers: int
    var recalculateBandwidthLimits: bool
    var incomingBandwidth: nat

    ghost function Contents(): Table
      reads this, peers
    {
      Table(peers[..], connectedPeers, bandwidthLimitedPeers, recalculateBandwidthLimits)
    }

    constructor (peerCount: nat, incomingBandwidth: nat)
      ensures fresh(peers) && peers.Length == peerCount && this.incomingBandwidth == incomingBandwidth
      ensures AccountsOk(Contents()) && forall i :: 0 <= i < peerCount ==> peers[i].state == Disconnected
    {
      peers := new Peer[peerCount](i => Peer(Disconnected, 0, 0, 0));
      connectedPeers, bandwidthLimitedPeers := 0, 0;
      recalculateBandwidthLimits := false;
      this.incomingBandwidth := incomingBandwidth;
      new;
      NobodyYet(peers[..]);
    }

    // ----- peer states

    method PeerOnConnect(i: nat)
      requires i < peers.Length
      modifies this
      ensures Contents() == OnConnect(old(Contents()), i) && incomingBandwidth == old(incomingBandwidth)
    {
      if peers[i].state != Connected && peers[i].state != DisconnectLater {
        if peers[i].incomingBandwidth != 0 {
          bandwidthLimitedPeers := bandwidthLimitedPeers + 1;
        }
        connectedPeers := connectedPeers + 1;
      }
    }

    method PeerOnDisconnect(i: nat)
      requires i < peers.Length
      modifies this
      ensures Contents() == OnDisconnect(old(Contents()), i) && incomingBandwidth == old(incomingBandwidth)
    {
      if peers[i].state == Connected || peers[i].state == DisconnectLater {
        if peers[i].incomingBandwidth != 0 {
          bandwidthLimitedPeers := bandwidthLimitedPeers - 1;
        }
        connectedPeers := connectedPeers - 1;
      }
    }

    method ChangePeerState(i: nat, state: PeerState)
      requires i < peers.Length
      modifies this, peers
      ensures old(AccountsOk(Contents())) ==> AccountsOk(Contents())
      ensures Contents() == ChangeState(old(Contents()), i, state) && incomingBandwidth == old(incomingBandwidth)
    {
      ghost var before := Contents();
      ChangeFollows(before, i, state);
      FollowsKeepsAccounts(before, i, ChangeState(before, i, state));
      if state == Connected || state == DisconnectLater {
        PeerOnConnect(i);
      } else {
        PeerOnDisconnect(i);
      }
      peers[i] := peers[i].(state := state);
    }

    method PeerReset(i: nat)
      requires i < peers.Length
      modifies this, peers
      ensures old(AccountsOk(Contents())) ==> AccountsOk(Contents())
      ensures Contents() == Reset(old(Contents()), i) && incomingBandwidth == old(incomingBandwidth)
    {
      ghost var before := Contents();
      ResetFollows(before, i);
      FollowsKeepsAccounts(before, i, Reset(before, i));
      PeerOnDisconnect(i);
      peers[i] := Peer(Disconnected, 0, 0, 0);
    }

    method NotifyConnect(i: nat, reported: bool)
      requires i < peers.Length
      modifies this, peers
      ensures old(AccountsOk(Contents())) ==> AccountsOk(Contents())
      ensures Contents() == NotifiedConnect(old(Contents()), i, reported) && incomingBandwidth == old(incomingBandwidth)
    {
      ghost var before := Contents();
      NotifiedFollows(before, i, reported);
      FollowsKeepsAccounts(before, i, NotifiedConnect(before, i, reported));
      recalculateBandwidthLimits := true;
      if reported {
        ChangePeerState(i, Connected);
      } else {
        ChangePeerState(i, if peers[i].state == Connecting then ConnectionSucceeded else ConnectionPending);
      }
    }

    method NotifyDisconnect(i: nat, reported: bool)
      requires i < peers.Length
      modifies this, peers
      ensures old(AccountsOk(Contents())) ==> AccountsOk(Contents())
      ensures Contents() == NotifiedDisconnect(old(Contents()), i, reported)
      ensures incomingBandwidth == old(incomingBandwidth)
    {
      hide AccountsOk, Follows;
      ghost var before := Contents();
      NotifiedFollows(before, i, reported);
      FollowsKeepsAccounts(before, i, NotifiedDisconnect(before, i, reported));
      if Order(peers[i].state) >= Order(ConnectionPending) {
        recalculateBandwidthLimits := true;
      }
      if peers[i].state != Connecting && Order(peers[i].state) < Order(ConnectionSucceeded) {
        PeerReset(i);
      } else if reported {
        PeerReset(i);
      } else {
        ChangePeerState(i, Zombie);
      }
    }

    method DispatchPeer(i: nat)
      requires i < peers.Length
      modifies this, peers
      ensures old(AccountsOk(Contents())) ==> AccountsOk(Contents())
      ensures Contents() == After(old(Contents()), i, Dispatch) && incomingBandwidth == old(incomingBandwidth)
    {
      ghost var before := Contents();
      if AccountsOk(before) {
        EventKeepsAccounts(before, i, Dispatch);
      }
      if peers[i].state == ConnectionPending || peers[i].state == ConnectionSucceeded {
        ChangePeerState(i, Connected);
      } else if peers[i].state == Zombie {
        recalculateBandwidthLimits := true;
        PeerReset(i);
      }
    }

    /** The peer announces new rates. */
    method HandleBandwidthLimit(i: nat, incoming: nat, outgoing: nat)
      requires i < peers.Length
      modifies this, peers
      ensures old(AccountsOk(Contents())) ==> AccountsOk(Contents())
      ensures Contents() == After(old(Contents()), i, BandwidthLimit(incoming, outgoing))
      ensures incomingBandwidth == old(incomingBandwidth)
    {
      ghost var before := Contents();
      if AccountsOk(before) {
        EventKeepsAccounts(before, i, BandwidthLimit(incoming, outgoing));
      }
      if peers[i].state != Connected && peers[i].state != DisconnectLater {
        return;
      }
      if peers[i].incomingBandwidth != 0 {
        bandwidthLimitedPeers := bandwidthLimitedPeers - 1;
      }
      peers[i] := peers[i].(incomingBandwidth := incoming, outgoingBandwidth := outgoing);
      if peers[i].incomingBandwidth != 0 {
        bandwidthLimitedPeers := bandwidthLimitedPeers + 1;
      }
    }

    /** The other side disconnects. */
    method HandlePeerDisconnect(i: nat, acknowledge: bool)
      requires i < peers.Length
      modifies this, peers
      ensures old(AccountsOk(Contents())) ==> AccountsOk(Contents())
      ensures Contents() == After(old(Contents()), i, HandleDisconnect(acknowledge))
      ensures incomingBandwidth == old(incomingBandwidth)
    {
      ghost var before := Contents();
      if AccountsOk(before) {
        EventKeepsAccounts(before, i, HandleDisconnect(acknowledge));
      }
      var s := peers[i].state;
      if s == Disconnected || s == Zombie || s == AcknowledgingDisconnect {
        return;
      }
      if s == ConnectionSucceeded || s == Disconnecting || s == Connecting {
        ChangePeerState(i, Zombie);
      } else if s != Connected && s != DisconnectLater {
        if s == ConnectionPending {
          recalculateBandwidthLimits := true;
        }
        PeerReset(i);
      } else if acknowledge {
        ChangePeerState(i, AcknowledgingDisconnect);
      } else {
        ChangePeerState(i, Zombie);
      }
    }

    method PeerDisconnect(i: nat)
      requires i < peers.Length
      modifies this, peers
      ensures old(AccountsOk(Contents())) ==> AccountsOk(Contents())
      ensures Contents() == After(old(Contents()), i, Disconnect) && incomingBandwidth == old(incomingBandwidth)
    {
      ghost var before := Contents();
      if AccountsOk(before) {
        EventKeepsAccounts(before, i, Disconnect);
      }
      var s := peers[i].state;
      if s == Disconnecting || s == Disconnected || s == AcknowledgingDisconnect || s == Zombie {
        return;
      }
      if s == Connected || s == DisconnectLater {
        PeerOnDisconnect(i);
        peers[i] := peers[i].(state := Disconnecting);
      } else {
        PeerReset(i);
      }
    }

    /** Disconnects once everything is sent; busy tells that something is not. */
    method PeerDisconnectLater(i: nat, busy: bool)
      requires i < peers.Length
      modifies this, peers
      ensures old(AccountsOk(Contents())) ==> AccountsOk(Contents())
      ensures Contents() == After(old(Contents()), i, DisconnectWhenSent(busy))
      ensures incomingBandwidth == old(incomingBandwidth)
    {
      ghost var before := Contents();
      if AccountsOk(before) {
        EventKeepsAccounts(before, i, DisconnectWhenSent(busy));
      }
      if (peers[i].state == Connected || peers[i].state == DisconnectLater) && busy {
        peers[i] := peers[i].(state := DisconnectLater);
      } else {
        PeerDisconnect(i);
      }
    }

    // ----- sharing the incoming bandwidth

    /** One pass over the peers with a given share; adjusted tells whether any peer was given its own rate. */
    method Pass(timeCurrent: nat, share: nat, remaining: nat, bandwidth: nat)
      returns (adjusted: bool, remaining': nat, bandwidth': nat)
      requires remaining == Waiting(peers[..], timeCurrent) > 0 && share == bandwidth / remaining
      modifies peers
      ensures SamePeers(old(peers[..]), peers[..], timeCurrent)
      ensures remaining' == Waiting(peers[..], timeCurrent)
      ensures bandwidth' + Given(peers[..], timeCurrent) == bandwidth + Given(old(peers[..]), timeCurrent)
      ensures bandwidth' >= share * remaining'
      ensures forall i {:trigger peers[i]} :: 0 <= i < peers.Length && Open(peers[i], timeCurrent) ==>
        !Modest(peers[i], share)
      ensures
        forall i {:trigger peers[i]} :: 0 <= i < peers.Length && peers[i] != old(peers[i]) ==> Modest(peers[i], share)
      ensures if adjusted then remaining' < remaining else remaining' == remaining && bandwidth' == bandwidth
    {
      hide Waiting, Given;
      adjusted, remaining', bandwidth' := false, remaining, bandwidth;
      ShareFits(bandwidth, remaining);
      for i := 0 to peers.Length
        invariant SamePeers(old(peers[..]), peers[..], timeCurrent)
        invariant remaining' == Waiting(peers[..], timeCurrent)
        invariant bandwidth' + Given(peers[..], timeCurrent) == bandwidth + Given(old(peers[..]), timeCurrent)
        invariant bandwidth' >= share * remaining'
        invariant forall j {:trigger peers[j]} :: 0 <= j < i && Open(peers[j], timeCurrent) ==> !Modest(peers[j], share)
        invariant forall j {:trigger peers[j]} :: 0 <= j < peers.Length && peers[j] != old(peers[j]) ==>
          Modest(peers[j], share)
        invariant forall j {:trigger peers[j]} :: i <= j < peers.Length ==> peers[j] == old(peers[j])
        invariant if adjusted then remaining' < remaining else remaining' == remaining && bandwidth' == bandwidth
      {
        var p := peers[i];
        if !Counted(p) || p.incomingBandwidthThrottleEpoch == timeCurrent {
          continue;
        }
        if p.outgoingBandwidth > 0 && p.outgoingBandwidth >= share {
          continue;
        }
        ghost var before := peers[..];
        Mark(before, i, timeCurrent);
        SomeWaiting(before, i, timeCurrent);
        OneLess(share, remaining', p.outgoingBandwidth);
        peers[i] := p.(incomingBandwidthThrottleEpoch := timeCurrent);
        assert peers[..] == before[i := peers[i]];
        adjusted := true;
        remaining' := remaining' - 1;
        bandwidth' := bandwidth' - p.outgoingBandwidth;
      }
    }

    /** Passes over the peers until one of them changes nothing, or every peer has its own rate. */
    method RedistributeIncoming(timeCurrent: nat) returns (bandwidthLimit: nat)
      requires AccountsOk(Contents())
      requires forall i :: 0 <= i < peers.Length ==> peers[i].incomingBandwidthThrottleEpoch != timeCurrent
      modifies this`recalculateBandwidthLimits, peers
      ensures !recalculateBandwidthLimits && SamePeers(old(peers[..]), peers[..], timeCurrent)
      ensures incomingBandwidth != 0 ==> Fair(peers[..], timeCurrent, bandwidthLimit, incomingBandwidth)
      ensures incomingBandwidth == 0 ==> bandwidthLimit == 0 && peers[..] == old(peers[..])
    {
      hide Waiting, Given;
      recalculateBandwidthLimits := false;
      bandwidthLimit := 0;
      var peersRemaining, bandwidth, needsAdjustment := connectedPeers, incomingBandwidth, true;
      Fresh(peers[..], timeCurrent);
      if incomingBandwidth != 0 {
        while peersRemaining > 0 && needsAdjustment
          invariant !recalculateBandwidthLimits && SamePeers(old(peers[..]), peers[..], timeCurrent)
          invariant peersRemaining == Waiting(peers[..], timeCurrent)
          invariant bandwidth + Given(peers[..], timeCurrent) == incomingBandwidth
          invariant bandwidth >= bandwidthLimit * peersRemaining
          invariant GivenToModest(peers[..], timeCurrent, bandwidthLimit)
          invariant !needsAdjustment ==> bandwidth < (bandwidthLimit + 1) * peersRemaining
          invariant !needsAdjustment ==> NoneLeft(peers[..], timeCurrent, bandwidthLimit)
          decreases peersRemaining, needsAdjustment
        {
          ghost var before, share := peers[..], bandwidthLimit;
          ShareGrows(bandwidthLimit, bandwidth, peersRemaining);
          bandwidthLimit := bandwidth / peersRemaining;
          ShareFits(bandwidth, peersRemaining);
          needsAdjustment, peersRemaining, bandwidth := Pass(timeCurrent, bandwidthLimit, peersRemaining, bandwidth);
          StillModest(before, peers[..], timeCurrent, share, bandwidthLimit);
        }
        IsFair(peers[..], timeCurrent, bandwidthLimit, incomingBandwidth);
      }
    }

    /** The limit that each connected peer is sent. */
    method TellPeers(timeCurrent: nat, bandwidthLimit: nat) returns (told: map<nat, nat>)
      ensures forall i :: i in told <==> 0 <= i < peers.Length && Counted(peers[i])
      ensures forall i :: i in told ==> told[i] == Advertised(peers[i], timeCurrent, bandwidthLimit)
    {
      told := map[];
      for i := 0 to peers.Length
        invariant forall j :: j in told <==> 0 <= j < i && Counted(peers[j])
        invariant forall j :: j in told ==> told[j] == Advertised(peers[j], timeCurrent, bandwidthLimit)
      {
        if Counted(peers[i]) {
          told := told[i := if peers[i].incomingBandwidthThrottleEpoch == timeCurrent then peers[i].outgoingBandwidth
            else bandwidthLimit];
        }
      }
    }
  }
}
