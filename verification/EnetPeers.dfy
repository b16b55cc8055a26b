/** The peers of a host, the states they go through, and the two counters the host keeps about them. */
module EnetPeers {
  /** The states, in the order in which the code compares them. */
  datatype PeerState =
    | Disconnected
    | Connecting
    | AcknowledgingConnect
    | ConnectionPending
    | ConnectionSucceeded
    | Connected
    | DisconnectLater
    | Disconnecting
    | AcknowledgingDisconnect
    | Zombie

  /** A rate of zero stands for no limit. */
  datatype Peer = Peer(state: PeerState, incomingBandwidth: nat, outgoingBandwidth: nat,
                       incomingBandwidthThrottleEpoch: nat)

  datatype Table = Table(peers: seq<Peer>, connectedPeers: int, bandwidthLimitedPeers: int,
                         recalculateBandwidthLimits: bool)

  predicate Counted(p: Peer)
  {
    p.state == Connected || p.state == DisconnectLater
  }

  predicate CountedLimited(p: Peer)
  {
    Counted(p) && p.incomingBandwidth != 0
  }

  function Count(peers: seq<Peer>): nat
    decreases |peers|
  {
    if peers == [] then 0 else Count(peers[..|peers| - 1]) + if Counted(peers[|peers| - 1]) then 1 else 0
  }

  function CountLimited(peers: seq<Peer>): nat
    decreases |peers|
  {
    if peers == [] then 0 else CountLimited(peers[..|peers| - 1]) + if CountedLimited(peers[|peers| - 1]) then 1 else 0
  }

  // ----- one step for one peer

  function OnConnect(t: Table, i: nat): Table
    requires i < |t.peers|
  {
    if Counted(t.peers[i]) then t
    else
      t.(bandwidthLimitedPeers := t.bandwidthLimitedPeers + if t.peers[i].incomingBandwidth != 0 then 1 else 0,
         connectedPeers := t.connectedPeers + 1)
  }

  function OnDisconnect(t: Table, i: nat): Table
    requires i < |t.peers|
  {
    if !Counted(t.peers[i]) then t
    else
      t.(bandwidthLimitedPeers := t.bandwidthLimitedPeers - if t.peers[i].incomingBandwidth != 0 then 1 else 0,
         connectedPeers := t.connectedPeers - 1)
  }

  function SetState(t: Table, i: nat, state: PeerState): Table
    requires i < |t.peers|
  {
    t.(peers := t.peers[i := t.peers[i].(state := state)])
  }

  function ChangeState(t: Table, i: nat, state: PeerState): Table
    requires i < |t.peers|
  {
    SetState(if state == Connected || state == DisconnectLater then OnConnect(t, i) else OnDisconnect(t, i), i, state)
  }

  function Reset(t: Table, i: nat): Table
    requires i < |t.peers|
  {
    OnDisconnect(t, i).(peers := t.peers[i := Peer(Disconnected, 0, 0, 0)])
  }

  function Recalculated(t: Table, needed: bool): Table
  {
    t.(recalculateBandwidthLimits := t.recalculateBandwidthLimits || needed)
  }

  /** What can happen to a peer. */
  datatype Event =
    | HostConnect
    | HandleConnect(incomingBandwidth: nat, outgoingBandwidth: nat)
    | ConnectAcknowledged(reported: bool)
    | VerifyConnect(incomingBandwidth: nat, outgoingBandwidth: nat, reported: bool)
    | NotifyDisconnect(reported: bool)
    | Dispatch
    | VerifyFailed
    | DisconnectAcknowledged
    | BandwidthLimit(incomingBandwidth: nat, outgoingBandwidth: nat)
    | HandleDisconnect(acknowledge: bool)
    | Disconnect
    | DisconnectWhenSent(busy: bool)
    | DisconnectNow

  predicate Possible(t: Table, i: nat, e: Event)
  {
    && i < |t.peers|
    && match e
       case HostConnect => t.peers[i].state == Disconnected
       case HandleConnect(_, _) => t.peers[i].state == Disconnected
       case ConnectAcknowledged(_) => t.peers[i].state == AcknowledgingConnect
       case VerifyConnect(_, _, _) => t.peers[i].state == Connecting
       case VerifyFailed => t.peers[i].state == Connecting
       case _ => true
  }

  /** The loss of a peer in this state is reported to the application. */
  predicate ReportsLoss(s: PeerState)
  {
    !(s.Disconnected? || s.AcknowledgingConnect? || s.ConnectionPending?)
  }

  function NotifiedConnect(t: Table, i: nat, reported: bool): Table
    requires i < |t.peers|
  {
    ChangeState(Recalculated(t, true), i,
                if reported then Connected
                else if t.peers[i].state == Connecting then ConnectionSucceeded else ConnectionPending)
  }

  function NotifiedDisconnect(t: Table, i: nat, reported: bool): Table
    requires i < |t.peers|
  {
    var s := t.peers[i].state;
    var u := Recalculated(t, !(s.Disconnected? || s.Connecting? || s.AcknowledgingConnect?));
    if !ReportsLoss(s) || reported then Reset(u, i) else ChangeState(u, i, Zombie)
  }

  function Parted(t: Table, i: nat): Table
    requires i < |t.peers|
  {
    match t.peers[i].state
    case Disconnecting => t
    case Disconnected => t
    case AcknowledgingDisconnect => t
    case Zombie => t
    case Connected => SetState(OnDisconnect(t, i), i, Disconnecting)
    case DisconnectLater => SetState(OnDisconnect(t, i), i, Disconnecting)
    case _ => Reset(t, i)
  }

  function Told(t: Table, i: nat, acknowledge: bool): Table
    requires i < |t.peers|
  {
    match t.peers[i].state
    case Disconnected => t
    case Zombie => t
    case AcknowledgingDisconnect => t
    case ConnectionSucceeded => ChangeState(t, i, Zombie)
    case Disconnecting => ChangeState(t, i, Zombie)
    case Connecting => ChangeState(t, i, Zombie)
    case Connected => ChangeState(t, i, if acknowledge then AcknowledgingDisconnect else Zombie)
    case DisconnectLater => ChangeState(t, i, if acknowledge then AcknowledgingDisconnect else Zombie)
    case AcknowledgingConnect => Reset(t, i)
    case ConnectionPending => Reset(Recalculated(t, true), i)
  }

  function After(t: Table, i: nat, e: Event): Table
    requires Possible(t, i, e)
  {
    var p := t.peers[i];
    match e
    case HostConnect => SetState(t, i, Connecting)
    case HandleConnect(incoming, outgoing) =>
      t.(peers := t.peers[i :=
        p.(state := AcknowledgingConnect, incomingBandwidth := incoming, outgoingBandwidth := outgoing)])
    case ConnectAcknowledged(reported) => NotifiedConnect(t, i, reported)
    case VerifyConnect(incoming, outgoing, reported) =>
      NotifiedConnect(t.(peers := t.peers[i := p.(incomingBandwidth := incoming, outgoingBandwidth := outgoing)]), i,
        reported)
    case NotifyDisconnect(reported) => NotifiedDisconnect(t, i, reported)
    case Dispatch =>
      if p.state == ConnectionPending || p.state == ConnectionSucceeded then ChangeState(t, i, Connected)
      else if p.state == Zombie then Reset(Recalculated(t, true), i)
      else t
    case VerifyFailed => ChangeState(t, i, Zombie)
    case DisconnectAcknowledged => ChangeState(t, i, Zombie)
    case BandwidthLimit(incoming, outgoing) =>
      if !Counted(p) then t
      else
        var change := (if incoming != 0 then 1 else 0) - (if p.incomingBandwidth != 0 then 1 else 0);
        t.(peers := t.peers[i := p.(incomingBandwidth := incoming, outgoingBandwidth := outgoing)],
           bandwidthLimitedPeers := t.bandwidthLimitedPeers + change)
    case HandleDisconnect(acknowledge) => Told(t, i, acknowledge)
    case Disconnect => Parted(t, i)
    case DisconnectWhenSent(busy) =>
      if Counted(p) && busy then SetState(t, i, DisconnectLater) else Parted(t, i)
    case DisconnectNow => if p.state == Disconnected then t else Reset(t, i)
  }

  // ----- the counters

  /** The counters are the true counts. */
  predicate AccountsOk(t: Table)
  {
    t.connectedPeers == Count(t.peers) && t.bandwidthLimitedPeers == CountLimited(t.peers)
  }

  lemma {:induction false} CountPut(peers: seq<Peer>, i: nat, p: Peer)
    requires i < |peers|
    ensures Count(peers[i := p]) == Count(peers) - (if Counted(peers[i]) then 1 else 0) + (if Counted(p) then 1 else 0)
    decreases |peers|
  {
    hide Counted;
    var n := |peers| - 1;
    var t := peers[i := p];
    if i == n {
      assert t[..n] == peers[..n];
    } else {
      assert t[..n] == peers[..n][i := p];
      CountPut(peers[..n], i, p);
    }
  }

  lemma {:induction false} CountLimitedPut(peers: seq<Peer>, i: nat, p: Peer)
    requires i < |peers|
    ensures
      CountLimited(peers[i := p])
      == CountLimited(peers) - (if CountedLimited(peers[i]) then 1 else 0) + (if CountedLimited(p) then 1 else 0)
    decreases |peers|
  {
    hide CountedLimited;
    var n := |peers| - 1;
    var t := peers[i := p];
    if i == n {
      assert t[..n] == peers[..n];
    } else {
      assert t[..n] == peers[..n][i := p];
      CountLimitedPut(peers[..n], i, p);
    }
  }

  /** One peer is replaced and the counters follow. */
  predicate Follows(t: Table, i: nat, u: Table)
    requires i < |t.peers|
  {
    && |u.peers| == |t.peers| && u.peers == t.peers[i := u.peers[i]]
    && u.connectedPeers == t.connectedPeers - (if Counted(t.peers[i]) then 1 else 0) +
      (if Counted(u.peers[i]) then 1 else 0)
    && u.bandwidthLimitedPeers
       == t.bandwidthLimitedPeers - (if CountedLimited(t.peers[i]) then 1 else 0) +
         (if CountedLimited(u.peers[i]) then 1 else 0)
  }

  lemma EventFollows(t: Table, i: nat, e: Event)
    requires Possible(t, i, e)
    ensures i < |t.peers| && Follows(t, i, After(t, i, e))
  {
    hide NotifiedConnect, NotifiedDisconnect, Parted, Told, ChangeState, Reset;
    ResetFollows(t, i);
    PartedFollows(t, i);
    match e
    case VerifyConnect(incoming, outgoing, reported) =>
      var u := t.(peers := t.peers[i := t.peers[i].(incomingBandwidth := incoming, outgoingBandwidth := outgoing)]);
      NotifiedFollows(u, i, reported);
      assert u.peers[i := After(t, i, e).peers[i]] == t.peers[i := After(t, i, e).peers[i]];
    case ConnectAcknowledged(reported) => NotifiedFollows(t, i, reported);
    case NotifyDisconnect(reported) => NotifiedFollows(t, i, reported);
    case HandleDisconnect(acknowledge) => ToldFollows(t, i, acknowledge);
    case VerifyFailed => ChangeFollows(t, i, Zombie);
    case DisconnectAcknowledged => ChangeFollows(t, i, Zombie);
    case Dispatch =>
      ChangeFollows(t, i, Connected);
      ResetFollows(Recalculated(t, true), i);
    case _ =>
  }

  lemma EventKeepsAccounts(t: Table, i: nat, e: Event)
    requires AccountsOk(t) && Possible(t, i, e)
    ensures AccountsOk(After(t, i, e)) && |After(t, i, e).peers| == |t.peers|
  {
    hide After, Possible, Counted, CountedLimited, AccountsOk;
    EventFollows(t, i, e);
    FollowsKeepsAccounts(t, i, After(t, i, e));
  }

  lemma FollowsKeepsAccounts(t: Table, i: nat, u: Table)
    requires i < |t.peers| && Follows(t, i, u)
    ensures AccountsOk(t) ==> AccountsOk(u)
    ensures |u.peers| == |t.peers|
  {
    hide Count, CountLimited, Counted, CountedLimited;
    CountPut(t.peers, i, u.peers[i]);
    CountLimitedPut(t.peers, i, u.peers[i]);
  }

  lemma ChangeFollows(t: Table, i: nat, state: PeerState)
    requires i < |t.peers|
    ensures Follows(t, i, ChangeState(t, i, state))
  {
  }

  lemma ResetFollows(t: Table, i: nat)
    requires i < |t.peers|
    ensures Follows(t, i, Reset(t, i))
  {
  }

  lemma NotifiedFollows(t: Table, i: nat, reported: bool)
    requires i < |t.peers|
    ensures Follows(t, i, NotifiedConnect(t, i, reported)) && Follows(t, i, NotifiedDisconnect(t, i, reported))
  {
  }

  lemma PartedFollows(t: Table, i: nat)
    requires i < |t.peers|
    ensures Follows(t, i, Parted(t, i))
  {
  }

  lemma ToldFollows(t: Table, i: nat, acknowledge: bool)
    requires i < |t.peers|
    ensures Follows(t, i, Told(t, i, acknowledge))
  {
  }

  predicate PossibleRun(t: Table, events: seq<(nat, Event)>)
    decreases |events|
  {
    events == [] || (Possible(t, events[0].0, events[0].1) &&
      PossibleRun(After(t, events[0].0, events[0].1), events[1..]))
  }

  function AfterRun(t: Table, events: seq<(nat, Event)>): Table
    requires PossibleRun(t, events)
    decreases |events|
  {
    if events == [] then t else AfterRun(After(t, events[0].0, events[0].1), events[1..])
  }

  /** In every run over the peers of a host the two counters are the true counts, and so never fall below zero. */
  lemma {:induction false} AccountsKept(t: Table, events: seq<(nat, Event)>)
    requires AccountsOk(t) && PossibleRun(t, events)
    ensures AccountsOk(AfterRun(t, events))
    ensures AfterRun(t, events).connectedPeers >= AfterRun(t, events).bandwidthLimitedPeers >= 0
    decreases |events|
  {
    hide After, Possible, AccountsOk;
    if events == [] {
      LimitedAmongCounted(t.peers);
      AccountsAre(t);
    } else {
      EventKeepsAccounts(t, events[0].0, events[0].1);
      AccountsKept(After(t, events[0].0, events[0].1), events[1..]);
    }
  }

  lemma AccountsAre(t: Table)
    requires AccountsOk(t)
    ensures t.connectedPeers == Count(t.peers) && t.bandwidthLimitedPeers == CountLimited(t.peers)
  {
  }

  lemma {:induction false} LimitedAmongCounted(peers: seq<Peer>)
    ensures CountLimited(peers) <= Count(peers)
    decreases |peers|
  {
    if peers != [] {
      LimitedAmongCounted(peers[..|peers| - 1]);
    }
  }
}
