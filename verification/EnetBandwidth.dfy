/**
 How a host divides its incoming bandwidth among its connected peers: the loop that runs again and again over the peers,
 giving those that send slowly their own rate, until all others get one equal share.
 */
module EnetBandwidth {
  import opened EnetPeers

  /** The number of connected peers not yet given their own rate. */
  function Waiting(peers: seq<Peer>, now: nat): nat
    decreases |peers|
  {
    if peers == [] then 0
    else Waiting(peers[..|peers| - 1], now) + if Open(peers[|peers| - 1], now) then 1 else 0
  }

  predicate Open(p: Peer, now: nat)
  {
    Counted(p) && p.incomingBandwidthThrottleEpoch != now
  }

  predicate Satisfied(p: Peer, now: nat)
  {
    Counted(p) && p.incomingBandwidthThrottleEpoch == now
  }

  /** The own rates of the peers that were given them. */
  function Given(peers: seq<Peer>, now: nat): nat
    decreases |peers|
  {
    if peers == [] then 0
    else Given(peers[..|peers| - 1], now) + if Satisfied(peers[|peers| - 1], now) then
      peers[|peers| - 1].outgoingBandwidth else 0
  }

  /** A peer that sends slowly, or has not said how fast it sends, asks for less than the share. */
  predicate Modest(p: Peer, share: nat)
  {
    p.outgoingBandwidth == 0 || p.outgoingBandwidth < share
  }

  /** The limit that a peer is told. */
  function Advertised(p: Peer, now: nat, share: nat): nat
  {
    if p.incomingBandwidthThrottleEpoch == now then p.outgoingBandwidth else share
  }

  function Sum(peers: seq<Peer>, now: nat, share: nat): nat
    decreases |peers|
  {
    if peers == [] then 0
    else Sum(peers[..|peers| - 1], now, share) + if Counted(peers[|peers| - 1]) then
      Advertised(peers[|peers| - 1], now, share) else 0
  }

  // ----- sums over the peers

  lemma {:induction false} SumIs(peers: seq<Peer>, now: nat, share: nat)
    ensures Sum(peers, now, share) == Given(peers, now) + share * Waiting(peers, now)
    decreases |peers|
  {
    if peers != [] {
      var w := Waiting(peers[..|peers| - 1], now);
      SumIs(peers[..|peers| - 1], now, share);
      assert share * (w + 1) == share * w + share;
    }
  }

  /** Marking one peer as satisfied moves it from the waiting to the given. */
  lemma {:induction false} Mark(peers: seq<Peer>, i: nat, now: nat)
    requires i < |peers| && Open(peers[i], now)
    ensures
      var t := peers[i := peers[i].(incomingBandwidthThrottleEpoch := now)];
      && Waiting(t, now) == Waiting(peers, now) - 1
      && Given(t, now) == Given(peers, now) + peers[i].outgoingBandwidth
    decreases |peers|
  {
    var n := |peers| - 1;
    var p := peers[i].(incomingBandwidthThrottleEpoch := now);
    var t := peers[i := p];
    if i == n {
      assert t[..n] == peers[..n];
    } else {
      assert t[..n] == peers[..n][i := p];
      Mark(peers[..n], i, now);
    }
  }

  lemma {:induction false} Fresh(peers: seq<Peer>, now: nat)
    requires forall i :: 0 <= i < |peers| ==> peers[i].incomingBandwidthThrottleEpoch != now
    ensures Waiting(peers, now) == Count(peers) && Given(peers, now) == 0
    decreases |peers|
  {
    if peers != [] {
      var n := |peers| - 1;
      assert peers[n].incomingBandwidthThrottleEpoch != now;
      Fresh(peers[..n], now);
    }
  }

  lemma {:induction false} SomeWaiting(peers: seq<Peer>, i: nat, now: nat)
    requires i < |peers| && Open(peers[i], now)
    ensures Waiting(peers, now) > 0
    decreases |peers|
  {
    if i < |peers| - 1 {
      SomeWaiting(peers[..|peers| - 1], i, now);
    }
  }

  // ----- the loop

  /** Only the marks change. */
  predicate SamePeers(a: seq<Peer>, b: seq<Peer>, now: nat)
  {
    && |a| == |b|
    && forall i :: 0 <= i < |a| ==> b[i] == a[i] || b[i] == a[i].(incomingBandwidthThrottleEpoch := now)
  }

  /**
   The division is fair: exactly the connected peers that ask for less than the share have their own rate, and the share
   uses up what they leave, to within the rounding of the division.
   */
  predicate Fair(peers: seq<Peer>, now: nat, share: nat, bandwidth: nat)
  {
    && (forall i :: 0 <= i < |peers| && Counted(peers[i]) ==> (Satisfied(peers[i], now) <==> Modest(peers[i], share)))
    && Given(peers, now) + share * Waiting(peers, now) <= bandwidth
    && (Waiting(peers, now) > 0 ==> bandwidth < Given(peers, now) + (share + 1) * Waiting(peers, now))
  }

  /** What is left when the loop ends: every peer still waiting asks for the share or more. */
  predicate NoneLeft(peers: seq<Peer>, now: nat, share: nat)
  {
    forall i :: 0 <= i < |peers| && Open(peers[i], now) ==> !Modest(peers[i], share)
  }

  lemma StillModest(before: seq<Peer>, after: seq<Peer>, now: nat, old_: nat, share: nat)
    requires GivenToModest(before, now, old_) && old_ <= share && |before| == |after|
    requires forall i :: 0 <= i < |after| && after[i] != before[i] ==> Modest(after[i], share)
    ensures GivenToModest(after, now, share)
  {
  }

  lemma IsFair(peers: seq<Peer>, now: nat, share: nat, bandwidth: nat)
    requires GivenToModest(peers, now, share)
    requires Given(peers, now) + share * Waiting(peers, now) <= bandwidth
    requires
      Waiting(peers, now) > 0 ==>
        NoneLeft(peers, now, share) && bandwidth < Given(peers, now) + (share + 1) * Waiting(peers, now)
    ensures Fair(peers, now, share, bandwidth)
  {
    hide Given;
    forall i | 0 <= i < |peers| && Counted(peers[i])
      ensures Satisfied(peers[i], now) <==> Modest(peers[i], share)
    {
      if Open(peers[i], now) {
        SomeWaiting(peers, i, now);
      }
    }
  }

  /** All peers with their own rate ask for less than the share. */
  predicate GivenToModest(peers: seq<Peer>, now: nat, share: nat)
  {
    forall i :: 0 <= i < |peers| && Satisfied(peers[i], now) ==> Modest(peers[i], share)
  }

  lemma ShareGrows(old_: nat, bandwidth: nat, remaining: nat)
    requires remaining > 0 && bandwidth >= old_ * remaining
    ensures bandwidth / remaining >= old_
  {
    if bandwidth / remaining < old_ {
      ShareFits(bandwidth, remaining);
      MulMono(bandwidth / remaining + 1, old_, remaining);
    }
  }

  lemma MulMono(a: nat, b: nat, c: nat)
    requires a <= b
    ensures a * c <= b * c
  {
  }

  lemma ShareFits(bandwidth: nat, remaining: nat)
    requires remaining > 0
    ensures bandwidth >= bandwidth / remaining * remaining
    ensures bandwidth < (bandwidth / remaining + 1) * remaining
  {
  }

  lemma OneLess(share: nat, remaining: nat, rate: nat)
    requires remaining > 0 && (rate == 0 || rate < share)
    ensures share * remaining >= rate
    ensures share * remaining - rate >= share * (remaining - 1)
  {
    assert share * remaining == share * (remaining - 1) + share;
  }

  // ----- what the peers are told

  /** What the peers are told adds up to no more than the host takes in. */
  lemma SumFits(peers: seq<Peer>, now: nat, share: nat, bandwidth: nat)
    requires Fair(peers, now, share, bandwidth)
    ensures Sum(peers, now, share) <= bandwidth
  {
    SumIs(peers, now, share);
  }

  /** The number of connected peers that have said how fast they send. */
  function Limited(peers: seq<Peer>): nat
    decreases |peers|
  {
    if peers == [] then 0
    else Limited(peers[..|peers| - 1]) + if Counted(peers[|peers| - 1]) &&
      peers[|peers| - 1].outgoingBandwidth > 0 then 1 else 0
  }

  lemma {:induction false} GivenAtLeast(peers: seq<Peer>, now: nat)
    ensures Given(peers, now) + Waiting(peers, now) >= Limited(peers)
    decreases |peers|
  {
    if peers != [] {
      GivenAtLeast(peers[..|peers| - 1], now);
    }
  }

  lemma {:induction false} NothingGiven(peers: seq<Peer>, now: nat)
    requires forall i :: 0 <= i < |peers| && Counted(peers[i]) ==> (Satisfied(peers[i], now) <==> Modest(peers[i], 0))
    ensures Given(peers, now) == 0 && Waiting(peers, now) == Limited(peers)
    decreases |peers|
  {
    if peers != [] {
      var n := |peers| - 1;
      var p := peers[n];
      assert Counted(p) ==> (Satisfied(p, now) <==> Modest(p, 0));
      assert forall i :: 0 <= i < n ==> peers[..n][i] == peers[i];
      NothingGiven(peers[..n], now);
    }
  }

  /**
   The share is zero, which a peer takes for no limit, exactly if the host takes in fewer bytes than there are limited
   peers.
   */
  lemma NoLimitTold(peers: seq<Peer>, now: nat, share: nat, bandwidth: nat)
    requires Fair(peers, now, share, bandwidth) && Waiting(peers, now) > 0
    ensures share == 0 <==> bandwidth < Limited(peers)
  {
    hide Given, Waiting, Limited;
    if share == 0 {
      NothingGiven(peers, now);
    } else {
      GivenAtLeast(peers, now);
      MulMono(1, share, Waiting(peers, now));
    }
  }

  /** A peer is told no limit exactly if it has given none itself, or the limited peers outnumber the bytes. */
  lemma WhoIsToldNoLimit(peers: seq<Peer>, i: nat, now: nat, share: nat, bandwidth: nat)
    requires Fair(peers, now, share, bandwidth) && i < |peers| && Counted(peers[i])
    ensures Advertised(peers[i], now, share) == 0 <==> peers[i].outgoingBandwidth == 0 || bandwidth < Limited(peers)
  {
    hide Given, Limited, Waiting, Sum;
    if Open(peers[i], now) {
      SomeWaiting(peers, i, now);
      NoLimitTold(peers, now, share, bandwidth);
    } else if peers[i].outgoingBandwidth > 0 {
      GivenAtLeast(peers, now);
      MulMono(1, share, Waiting(peers, now));
    }
  }

  /** Two peers that send, and a host that takes in one byte: the division is fair, and both peers are told no limit. */
  lemma TwoPeersOneByte()
    ensures
      var p := Peer(Connected, 0, 5, 0);
      Fair([p, p], 1, 0, 1) && Advertised(p, 1, 0) == 0
  {
    var p := Peer(Connected, 0, 5, 0);
    var none: seq<Peer> := [];
    assert [p, p][..1] == [p] && [p][..0] == none;
    assert Given(none, 1) == 0 && Waiting(none, 1) == 0;
    assert Given([p], 1) == 0 && Waiting([p], 1) == 1;
    assert Given([p, p], 1) == 0 && Waiting([p, p], 1) == 2;
  }
}
