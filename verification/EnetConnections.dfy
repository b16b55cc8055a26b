/**
 When a peer is connected, told from everything that has happened to it, and what the application hears of it.
 */
module EnetConnections {
  import opened EnetPeers

  // ----- one event

  /** After this event a peer that was connected no longer is. */
  predicate Parts(e: Event)
  {
    || e.NotifyDisconnect? || e.VerifyFailed? || e.DisconnectAcknowledged? || e.HandleDisconnect? || e.Disconnect?
    || e.DisconnectNow? || e == DisconnectWhenSent(false)
  }

  /** A connect that the application hears of at once. */
  predicate Joins(e: Event)
  {
    e == ConnectAcknowledged(true) || (e.VerifyConnect? && e.reported)
  }

  /** A connect that the application will hear of by a dispatch. */
  predicate Answers(e: Event)
  {
    e == ConnectAcknowledged(false) || (e.VerifyConnect? && !e.reported)
  }

  predicate Pending(p: Peer)
  {
    p.state == ConnectionPending || p.state == ConnectionSucceeded
  }

  /** An event for one peer leaves the others alone. */
  lemma OthersAlone(t: Table, j: nat, e: Event, i: nat)
    requires Possible(t, j, e) && i < |t.peers| && i != j
    ensures |After(t, j, e).peers| == |t.peers| && After(t, j, e).peers[i] == t.peers[i]
  {
    hide After, Counted, CountedLimited;
    EventFollows(t, j, e);
  }

  /** Which state follows an event, state by state: how each one is entered, and what does not leave it. */
  lemma StateAfter(t: Table, i: nat, e: Event)
    requires Possible(t, i, e)
    ensures i < |t.peers| == |After(t, i, e).peers|
    ensures var p, s := t.peers[i], After(t, i, e).peers[i].state;
      && (s == Connected <==>
        Joins(e) || (e == Dispatch && Pending(p)) ||
          (p.state == Connected && !Parts(e) && e != DisconnectWhenSent(true)))
      && (s == DisconnectLater <==>
        (Counted(p) && e == DisconnectWhenSent(true)) || (p.state == DisconnectLater && !Parts(e)))
      && (s == Disconnecting <==>
        || (Counted(p) && (e == Disconnect || e == DisconnectWhenSent(false)))
        || (p.state == Disconnecting && !(e.NotifyDisconnect? || e.HandleDisconnect? || e.DisconnectAcknowledged? ||
          e.DisconnectNow?)))
      && (s == AcknowledgingDisconnect <==>
        || (Counted(p) && e == HandleDisconnect(true))
        || (p.state == AcknowledgingDisconnect &&
          !(e.NotifyDisconnect? || e.DisconnectAcknowledged? || e.DisconnectNow?)))
  {
    PeerAfter(t, i, e);
  }

  lemma WaitingStateAfter(t: Table, i: nat, e: Event)
    requires Possible(t, i, e)
    ensures i < |t.peers| == |After(t, i, e).peers|
    ensures var p, s := t.peers[i], After(t, i, e).peers[i].state;
      && (s == Connecting <==> e == HostConnect || (p.state == Connecting && Stays(e)))
      && (s == AcknowledgingConnect <==> e.HandleConnect? || (p.state == AcknowledgingConnect && Stays(e)))
      && (s == ConnectionPending <==>
        e == ConnectAcknowledged(false) || (p.state == ConnectionPending && Stays(e) && e != Dispatch))
      && (s == ConnectionSucceeded <==>
        (e.VerifyConnect? && !e.reported) || (p.state == ConnectionSucceeded && Stays(e) && e != Dispatch))
      && (s == Zombie <==>
        || e.VerifyFailed? || e.DisconnectAcknowledged?
        || (e == NotifyDisconnect(false) &&
          !(p.state == Disconnected || p.state == AcknowledgingConnect || p.state == ConnectionPending))
        || (e.HandleDisconnect? &&
          (p.state == Connecting || p.state == ConnectionSucceeded || p.state == Disconnecting))
        || (e == HandleDisconnect(false) && Counted(p))
        || (p.state == Zombie && !(e.NotifyDisconnect? || e == Dispatch || e == DisconnectNow)))
  {
    PeerAfter(t, i, e);
  }

  /** What leaves a peer in a state in which it is not yet connected: a dispatch, or new rates. */
  predicate Stays(e: Event)
  {
    e == Dispatch || e.BandwidthLimit?
  }

  lemma PeerAfter(t: Table, i: nat, e: Event)
    requires Possible(t, i, e)
    ensures i < |t.peers| == |After(t, i, e).peers|
  {
    hide After, Counted, CountedLimited;
    EventFollows(t, i, e);
  }

  /** The rates of a peer are the last ones it has announced, as long as its place has not been given up. */
  lemma RatesAfter(t: Table, i: nat, e: Event)
    requires Possible(t, i, e)
    ensures i < |t.peers| == |After(t, i, e).peers|
    ensures var p, q := t.peers[i], After(t, i, e).peers[i];
      if e.HandleConnect? || e.VerifyConnect? || (e.BandwidthLimit? && Counted(p)) then
        q.incomingBandwidth == e.incomingBandwidth && q.outgoingBandwidth == e.outgoingBandwidth
      else if p.state != Disconnected && q.state == Disconnected then
        q.incomingBandwidth == 0 && q.outgoingBandwidth == 0
      else
        p.state == Disconnected ||
          (q.incomingBandwidth == p.incomingBandwidth && q.outgoingBandwidth == p.outgoingBandwidth)
  {
    PeerAfter(t, i, e);
  }

  /** The limits are to be worked out again after a connect, and once a lost peer that had got so far is given up. */
  lemma RecalculatedAfter(t: Table, i: nat, e: Event)
    requires Possible(t, i, e)
    ensures i < |t.peers|
    ensures var s := t.peers[i].state;
      After(t, i, e).recalculateBandwidthLimits <==>
        || t.recalculateBandwidthLimits || Joins(e) || Answers(e) || (e == Dispatch && s == Zombie)
        || (e.NotifyDisconnect? && s != Disconnected && s != Connecting && s != AcknowledgingConnect)
        || (e.HandleDisconnect? && s == ConnectionPending)
  {
  }

  /**
   The number of connected peers rises exactly when a peer that is not connected has its connect reported, at once or by
   a dispatch, and falls exactly when a connected one parts.
   */
  lemma ConnectedPeersMove(t: Table, i: nat, e: Event)
    requires Possible(t, i, e)
    ensures i < |t.peers|
    ensures var p, u := t.peers[i], After(t, i, e);
      && (u.connectedPeers == t.connectedPeers + 1 <==> Joins(e) || (e == Dispatch && Pending(p)))
      && (u.connectedPeers == t.connectedPeers - 1 <==> Counted(p) && Parts(e))
      && (u.connectedPeers == t.connectedPeers <==>
        !Joins(e) && !(e == Dispatch && Pending(p)) && !(Counted(p) && Parts(e)))
  {
    hide After, CountedLimited;
    EventFollows(t, i, e);
    StateAfter(t, i, e);
    JoinsFromOutside(t, i, e);
  }

  lemma JoinsFromOutside(t: Table, i: nat, e: Event)
    requires Possible(t, i, e)
    ensures i < |t.peers| && (Joins(e) || Answers(e) ==> !Counted(t.peers[i]))
  {
  }

  // ----- runs

  type History = seq<(nat, Event)>

  /** Peer i has answered a connect, which nothing has ended or reported up to event k. */
  ghost predicate PendingAt(h: History, k: nat, i: nat)
    requires k <= |h|
  {
    exists p :: 0 <= p < k && h[p].0 == i && Answers(h[p].1) && Unsettled(h, p, k, i)
  }

  ghost predicate Unsettled(h: History, p: nat, k: nat, i: nat)
    requires k <= |h|
  {
    forall q :: p < q < k && h[q].0 == i ==>
      !Parts(h[q].1) && !h[q].1.DisconnectWhenSent? && h[q].1 != Dispatch
  }

  /** The application hears by event k that peer i is connected. */
  ghost predicate ReportedAt(h: History, k: nat, i: nat)
    requires k < |h|
  {
    h[k].0 == i && (Joins(h[k].1) || (h[k].1 == Dispatch && PendingAt(h, k, i)))
  }

  ghost predicate NotParted(h: History, k: nat, i: nat)
  {
    forall q :: k < q < |h| && h[q].0 == i ==> !Parts(h[q].1)
  }

  /** Since the last event that parts it, peer i has been reported as connected. */
  ghost predicate ConnectedBy(h: History, i: nat)
  {
    exists k :: 0 <= k < |h| && ReportedAt(h, k, i) && NotParted(h, k, i)
  }

  /** And since then it has been asked to part once everything is sent, while something was not. */
  ghost predicate LeavingBy(h: History, i: nat)
  {
    exists k, q ::
      0 <= k < q < |h| && ReportedAt(h, k, i) && NotParted(h, k, i) && h[q] == (i, DisconnectWhenSent(true))
  }

  /** The state of peer i tells what has happened to it. */
  ghost predicate Tells(p: Peer, h: History, i: nat)
  {
    && (Counted(p) <==> ConnectedBy(h, i))
    && (Pending(p) <==> PendingAt(h, |h|, i))
    && (p.state == DisconnectLater <==> LeavingBy(h, i))
  }

  lemma {:induction false} RunLast(t: Table, h: History)
    requires PossibleRun(t, h) && h != []
    ensures var n := |h| - 1;
      && PossibleRun(t, h[..n]) && Possible(AfterRun(t, h[..n]), h[n].0, h[n].1)
      && AfterRun(t, h) == After(AfterRun(t, h[..n]), h[n].0, h[n].1)
    decreases |h|
  {
    hide After, Possible;
    var n := |h| - 1;
    if n > 0 {
      RunLast(After(t, h[0].0, h[0].1), h[1..]);
      assert h[1..][..n - 1] == h[..n][1..];
    } else {
      assert h[1..] == [];
    }
  }

  lemma PendingPrefix(h: History, more: History, k: nat, i: nat)
    requires k <= |h| && h <= more
    ensures PendingAt(more, k, i) <==> PendingAt(h, k, i)
  {
    forall p: nat | p < k ensures Unsettled(more, p, k, i) <==> Unsettled(h, p, k, i) {
    }
    if p :| 0 <= p < k && h[p].0 == i && Answers(h[p].1) && Unsettled(h, p, k, i) {
      assert more[p].0 == i && Answers(more[p].1) && Unsettled(more, p, k, i);
    }
    if p :| 0 <= p < k && more[p].0 == i && Answers(more[p].1) && Unsettled(more, p, k, i) {
      assert h[p].0 == i && Answers(h[p].1) && Unsettled(h, p, k, i);
    }
  }

  lemma ReportedPrefix(h: History, more: History, k: nat, i: nat)
    requires k < |h| && h <= more
    ensures ReportedAt(more, k, i) <==> ReportedAt(h, k, i)
  {
    hide PendingAt;
    PendingPrefix(h, more, k, i);
  }

  lemma PendingNext(h: History, j: nat, e: Event, i: nat)
    ensures PendingAt(h + [(j, e)], |h| + 1, i) <==>
      || (j == i && Answers(e))
      || (PendingAt(h, |h|, i) && (j == i ==> !Parts(e) && !e.DisconnectWhenSent? && e != Dispatch))
  {
    var more, n := h + [(j, e)], |h|;
    forall p: nat | p < n
      ensures Unsettled(more, p, n + 1, i) <==>
        Unsettled(h, p, n, i) && (j == i ==> !Parts(e) && !e.DisconnectWhenSent? && e != Dispatch)
    {
      assert more[n] == (j, e) && forall q :: 0 <= q < n ==> more[q] == h[q];
    }
    if j == i && Answers(e) {
      assert more[n].0 == i && Answers(more[n].1) && Unsettled(more, n, n + 1, i);
    }
    if p :| 0 <= p < n && h[p].0 == i && Answers(h[p].1) && Unsettled(h, p, n, i) {
      assert more[p] == h[p];
    }
    if p :| 0 <= p < n + 1 && more[p].0 == i && Answers(more[p].1) && Unsettled(more, p, n + 1, i) {
      assert p < n ==> h[p] == more[p];
    }
  }

  lemma NotPartedNext(h: History, j: nat, e: Event, k: nat, i: nat)
    requires k < |h|
    ensures NotParted(h + [(j, e)], k, i) <==> NotParted(h, k, i) && (j == i ==> !Parts(e))
  {
    var more, n := h + [(j, e)], |h|;
    assert more[n] == (j, e) && forall q :: 0 <= q < n ==> more[q] == h[q];
  }

  lemma ConnectedNext(h: History, j: nat, e: Event, i: nat)
    ensures ConnectedBy(h + [(j, e)], i) <==>
      || (j == i && (Joins(e) || (e == Dispatch && PendingAt(h, |h|, i))))
      || (ConnectedBy(h, i) && (j == i ==> !Parts(e)))
  {
    hide ReportedAt, NotParted, PendingAt;
    var more, n := h + [(j, e)], |h|;
    ReportedLast(h, j, e, i);
    forall k: nat | k < n
      ensures ReportedAt(more, k, i) <==> ReportedAt(h, k, i)
      ensures NotParted(more, k, i) <==> NotParted(h, k, i) && (j == i ==> !Parts(e))
    {
      ReportedPrefix(h, more, k, i);
      NotPartedNext(h, j, e, k, i);
    }
    if k :| 0 <= k < n && ReportedAt(h, k, i) && NotParted(h, k, i) {
      assert ReportedAt(more, k, i);
    }
    if k :| 0 <= k < n + 1 && ReportedAt(more, k, i) && NotParted(more, k, i) {
      assert k < n ==> ReportedAt(h, k, i);
    }
  }

  lemma ReportedLast(h: History, j: nat, e: Event, i: nat)
    ensures ReportedAt(h + [(j, e)], |h|, i) <==> j == i && (Joins(e) || (e == Dispatch && PendingAt(h, |h|, i)))
    ensures NotParted(h + [(j, e)], |h|, i)
  {
    hide PendingAt;
    PendingPrefix(h, h + [(j, e)], |h|, i);
  }

  lemma LeavingNext(h: History, j: nat, e: Event, i: nat)
    ensures LeavingBy(h + [(j, e)], i) <==>
      || (j == i && e == DisconnectWhenSent(true) && ConnectedBy(h, i))
      || (LeavingBy(h, i) && (j == i ==> !Parts(e)))
  {
    hide ReportedAt, NotParted, PendingAt;
    var more, n := h + [(j, e)], |h|;
    forall k: nat | k < n
      ensures ReportedAt(more, k, i) <==> ReportedAt(h, k, i)
      ensures NotParted(more, k, i) <==> NotParted(h, k, i) && (j == i ==> !Parts(e))
    {
      ReportedPrefix(h, more, k, i);
      NotPartedNext(h, j, e, k, i);
    }
    assert more[n] == (j, e) && forall q :: 0 <= q < n ==> more[q] == h[q];
    if j == i && e == DisconnectWhenSent(true) && ConnectedBy(h, i) {
      var k :| 0 <= k < n && ReportedAt(h, k, i) && NotParted(h, k, i);
      assert ReportedAt(more, k, i) && NotParted(more, k, i) && more[n] == (i, DisconnectWhenSent(true));
    }
    if LeavingBy(h, i) && (j == i ==> !Parts(e)) {
      var k, q :| 0 <= k < q < n && ReportedAt(h, k, i) && NotParted(h, k, i) && h[q] == (i, DisconnectWhenSent(true));
      assert ReportedAt(more, k, i) && NotParted(more, k, i) && more[q] == (i, DisconnectWhenSent(true));
    }
    if LeavingBy(more, i) {
      var k, q :|
        0 <= k < q < n + 1 && ReportedAt(more, k, i) && NotParted(more, k, i) &&
          more[q] == (i, DisconnectWhenSent(true));
      assert ReportedAt(h, k, i) && NotParted(h, k, i);
      assert q < n ==> h[q] == (i, DisconnectWhenSent(true));
    }
  }

  lemma EventTells(t: Table, h: History, j: nat, e: Event, i: nat)
    requires Possible(t, j, e) && i < |t.peers| && Tells(t.peers[i], h, i)
    ensures i < |After(t, j, e).peers| && Tells(After(t, j, e).peers[i], h + [(j, e)], i)
  {
    hide After, PendingAt, ConnectedBy, LeavingBy;
    PendingNext(h, j, e, i);
    ConnectedNext(h, j, e, i);
    LeavingNext(h, j, e, i);
    if i == j {
      StateAfter(t, i, e);
      WaitingStateAfter(t, i, e);
    } else {
      OthersAlone(t, j, e, i);
    }
  }

  ghost predicate NobodyYet(t: Table)
  {
    forall i :: 0 <= i < |t.peers| ==> t.peers[i].state == Disconnected
  }

  /**
   In every run of a new host a peer is connected exactly if, since the last event that parts it, it has been reported
   as connected: at once, or by the dispatch of a pending connect.  It takes nothing more to send exactly if since then
   it has been asked to part while something was unsent.
   */
  lemma {:induction false} ConnectedExactly(t: Table, h: History, i: nat)
    requires NobodyYet(t) && PossibleRun(t, h) && i < |t.peers|
    ensures |AfterRun(t, h).peers| == |t.peers|
    ensures var p := AfterRun(t, h).peers[i];
      && (p.state == Connected || p.state == DisconnectLater <==> ConnectedBy(h, i))
      && (p.state == DisconnectLater <==> LeavingBy(h, i))
      && (p.state == ConnectionPending || p.state == ConnectionSucceeded <==> PendingAt(h, |h|, i))
    decreases |h|
  {
    hide After, Possible, ConnectedBy, PendingAt, LeavingBy;
    RunTells(t, h, i);
  }

  lemma {:induction false} RunTells(t: Table, h: History, i: nat)
    requires NobodyYet(t) && PossibleRun(t, h) && i < |t.peers|
    ensures |AfterRun(t, h).peers| == |t.peers| && Tells(AfterRun(t, h).peers[i], h, i)
    decreases |h|
  {
    hide After, Possible;
    if h != [] {
      var n := |h| - 1;
      RunLast(t, h);
      RunTells(t, h[..n], i);
      hide Tells;
      var u := AfterRun(t, h[..n]);
      EventTells(u, h[..n], h[n].0, h[n].1, i);
      PeerAfter(u, h[n].0, h[n].1);
      assert h[..n] + [h[n]] == h;
    }
  }

  // ----- what the application hears

  /** What the application is told of a peer by one event. */
  datatype News = Nothing | Connect | Loss

  function Heard(p: Peer, e: Event): News
  {
    if Joins(e) || (e == Dispatch && Pending(p)) then Connect
    else if (e == Dispatch && p.state == Zombie) || (e == NotifyDisconnect(true) && ReportsLoss(p.state)) then Loss
    else Nothing
  }

  /** How the application stands to a peer: not in touch, asking for a connect, or connected as far as it knows. */
  datatype View = Out | Asking | In

  function Seen(v: View, e: Event, news: News): View
  {
    if news == Connect then In
    else if news == Loss || e == DisconnectNow then Out
    else if e == HostConnect then Asking
    else v
  }

  ghost function ViewAfter(t: Table, h: History, i: nat): View
    requires PossibleRun(t, h) && i < |t.peers|
    decreases |h|
  {
    if h == [] then Out
    else
      var n := |h| - 1;
      RunLast(t, h);
      PeersKept(t, h[..n]);
      var v := ViewAfter(t, h[..n], i);
      if h[n].0 == i then Seen(v, h[n].1, Heard(AfterRun(t, h[..n]).peers[i], h[n].1)) else v
  }

  lemma {:induction false} PeersKept(t: Table, h: History)
    requires PossibleRun(t, h)
    ensures |AfterRun(t, h).peers| == |t.peers|
    decreases |h|
  {
    hide After, Possible;
    if h != [] {
      PeerAfter(t, h[0].0, h[0].1);
      PeersKept(After(t, h[0].0, h[0].1), h[1..]);
    }
  }

  /** An acknowledged disconnect is only ever sent for a peer that is to be acknowledged. */
  ghost predicate AcknowledgesOwed(t: Table, h: History)
    requires PossibleRun(t, h)
    decreases |h|
  {
    h != [] ==>
      && (h[0].1 == DisconnectAcknowledged ==> t.peers[h[0].0].state == AcknowledgingDisconnect)
      && AcknowledgesOwed(After(t, h[0].0, h[0].1), h[1..])
  }

  lemma {:induction false} OwedLast(t: Table, h: History)
    requires PossibleRun(t, h) && h != [] && AcknowledgesOwed(t, h)
    ensures var n := |h| - 1;
      && PossibleRun(t, h[..n]) && AcknowledgesOwed(t, h[..n]) && h[n].0 < |AfterRun(t, h[..n]).peers|
      && (h[n].1 == DisconnectAcknowledged ==>
        AfterRun(t, h[..n]).peers[h[n].0].state == AcknowledgingDisconnect)
    decreases |h|
  {
    hide After;
    var n := |h| - 1;
    if n > 0 {
      OwedLast(After(t, h[0].0, h[0].1), h[1..]);
      assert h[1..][..n - 1] == h[..n][1..];
    } else {
      assert h[1..] == [];
    }
  }

  /** The state of a peer and the application's view of it fit together. */
  predicate Agrees(p: Peer, v: View)
  {
    match p.state
    case Connecting => v == Asking
    case ConnectionSucceeded => v == Asking
    case Connected => v == In
    case DisconnectLater => v == In
    case Disconnecting => v == In
    case AcknowledgingDisconnect => v == In
    case Zombie => v != Out
    case _ => v != In
  }

  lemma EventAgrees(t: Table, i: nat, e: Event, v: View)
    requires Possible(t, i, e) && Agrees(t.peers[i], v)
    requires e == DisconnectAcknowledged ==> t.peers[i].state == AcknowledgingDisconnect
    ensures i < |After(t, i, e).peers| && Agrees(After(t, i, e).peers[i], Seen(v, e, Heard(t.peers[i], e)))
    ensures Heard(t.peers[i], e) == Connect ==> v != In
    ensures Heard(t.peers[i], e) == Loss ==> v != Out
  {
    hide After;
    StateAfter(t, i, e);
    WaitingStateAfter(t, i, e);
    JoinsFromOutside(t, i, e);
    JoinsFrom(t, i, e);
  }

  lemma JoinsFrom(t: Table, i: nat, e: Event)
    requires Possible(t, i, e)
    ensures Joins(e) || Answers(e) ==> t.peers[i].state == Connecting || t.peers[i].state == AcknowledgingConnect
    ensures e == HostConnect || e.HandleConnect? ==> t.peers[i].state == Disconnected
    ensures e.VerifyFailed? || e.VerifyConnect? ==> t.peers[i].state == Connecting
  {
  }

  lemma {:induction false} RunAgrees(t: Table, h: History, i: nat)
    requires NobodyYet(t) && PossibleRun(t, h) && i < |t.peers| && AcknowledgesOwed(t, h)
    ensures |AfterRun(t, h).peers| == |t.peers| && Agrees(AfterRun(t, h).peers[i], ViewAfter(t, h, i))
    decreases |h|
  {
    hide After, Possible, Agrees, AcknowledgesOwed, Seen, Heard;
    if h == [] {
      OutAgrees(t.peers[i]);
    } else {
      var n := |h| - 1;
      RunLast(t, h);
      OwedLast(t, h);
      RunAgrees(t, h[..n], i);
      var u := AfterRun(t, h[..n]);
      PeerAfter(u, h[n].0, h[n].1);
      if h[n].0 == i {
        EventAgrees(u, i, h[n].1, ViewAfter(t, h[..n], i));
      } else {
        OthersAlone(u, h[n].0, h[n].1, i);
      }
    }
  }

  lemma OutAgrees(p: Peer)
    requires p.state == Disconnected
    ensures Agrees(p, Out)
  {
  }

  /**
   The application hears in turn: of a connect only of a peer it does not think connected; of a loss only of one that it
   was told of or has asked for.  And no peer that it thinks connected is given up silently: that takes a loss it hears
   of, or its own call.
   */
  lemma HeardInTurn(t: Table, h: History, i: nat, e: Event)
    requires NobodyYet(t) && PossibleRun(t, h) && i < |t.peers| && AcknowledgesOwed(t, h)
    requires Possible(AfterRun(t, h), i, e)
    requires e == DisconnectAcknowledged ==> AfterRun(t, h).peers[i].state == AcknowledgingDisconnect
    ensures var p, v := AfterRun(t, h).peers[i], ViewAfter(t, h, i);
      && (Heard(p, e) == Connect ==> v != In) && (Heard(p, e) == Loss ==> v != Out)
      && (p.state == Disconnected ==> v != In)
      && (v == In ==>
        || p.state == Connected || p.state == DisconnectLater || p.state == Disconnecting
        || p.state == AcknowledgingDisconnect || p.state == Zombie)
  {
    hide After, Possible, ViewAfter, PossibleRun, AfterRun, Heard, Seen, AcknowledgesOwed;
    RunAgrees(t, h, i);
    EventAgrees(AfterRun(t, h), i, e, ViewAfter(t, h, i));
  }
}
