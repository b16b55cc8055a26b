/**
 What goes out and what stays: how much data a sender lets be in transit, exactly when a command must wait for its
 window, and which commands a timeout brings back.
 */
module EnetTransit {
  import opened Basics
  import opened EnetWindows
  import opened EnetMessages
  import opened EnetSender
  import opened EnetReceiver
  import opened EnetDelivery
  import opened EnetCounters
  import opened EnetProgress

  // ----- the limit on data in transit

  /** Sending stopped for a reason. */
  ghost predicate Stopped(t: Sender, sent: nat, room: nat, limit: nat)
    requires |t.windows| == ENET_PEER_RELIABLE_WINDOWS
  {
    || sent == room || t.queue == [] || WindowWrap(t, t.queue[0]) || t.inTransit + t.queue[0].length > limit
  }

  lemma TotalFirst(l: seq<Outgoing>, n: nat)
    requires n < |l|
    ensures Total(l[..n + 1]) == l[0].length + Total(l[1..][..n])
  {
    assert l[..n + 1][0] == l[0] && l[..n + 1][1..] == l[1..][..n];
  }

  lemma SendIs(s: Sender)
    requires |s.windows| == ENET_PEER_RELIABLE_WINDOWS && s.queue != []
    ensures var t := Send(s); t.queue == s.queue[1..] && t.inTransit == s.inTransit + s.queue[0].length
    ensures Send(s).sent == s.sent + [s.queue[0].(sendAttempts := s.queue[0].sendAttempts + 1)]
  {
  }

  /**
   What is sent are the first commands of the queue, as many as fit: with each of them the data in transit stay within
   the limit, and the next one is only held back if the room is used up, its window must wait, or the limit would be
   passed.
   */
  lemma {:induction false} SentWithinLimit(s: Sender, room: nat, limit: nat)
    requires SenderOk(s)
    ensures var (t, out) := SendSome(s, room, limit); var n := |out|;
      && n <= room && n <= |s.queue| && out == s.queue[..n] && t.queue == s.queue[n..]
      && (forall m :: 0 < m <= n ==> s.inTransit + Total(s.queue[..m]) <= limit)
      && t.inTransit == s.inTransit + Total(s.queue[..n])
      && |t.windows| == ENET_PEER_RELIABLE_WINDOWS && Stopped(t, n, room, limit)
    decreases room
  {
    hide SenderOk, Send, WindowWrap;
    WindowsThere(s);
    var (t, out) := SendSome(s, room, limit);
    assert Total(s.queue[..0]) == 0;
    if room > 0 && CanSend(s, limit) {
      SendOk(s, limit);
      WindowsThere(Send(s));
      SendIs(s);
      SentWithinLimit(Send(s), room - 1, limit);
      var n := |out|;
      assert out == [s.queue[0]] + s.queue[1..][..n - 1] == s.queue[..n];
      assert s.queue[1..][n - 1..] == s.queue[n..];
      TotalFirst(s.queue, n - 1);
      forall m | 0 < m <= n ensures s.inTransit + Total(s.queue[..m]) <= limit {
        TotalFirst(s.queue, m - 1);
        if m == 1 {
          assert s.queue[1..][..0] == [];
        } else {
          assert Send(s).queue[..m - 1] == s.queue[1..][..m - 1];
        }
      }
    }
  }

  /** Every transmission of the run is given a limit of at most this. */
  ghost predicate Limited(events: seq<Event>, limit: nat)
  {
    forall i :: 0 <= i < |events| && events[i].Transmit? ==> events[i].limit <= limit
  }

  lemma EventTransit(w: World, e: Event, limit: nat)
    requires WorldOk(w) && Possible(w, e) && w.sender.inTransit <= limit && (e.Transmit? ==> e.limit <= limit)
    ensures After(w, e).sender.inTransit <= limit
  {
    hide WorldOk, SenderOk, SetUp, SendSome, Acknowledge, Handle, Take, CommandsOf, Recent, QueueWellFormed, Wire,
      Window, Unacknowledged, Arrived, Pick;
    WorldSenderOk(w);
    match e
    case Submit(m) => SetUpTransit(w.sender, CommandsOf(m, w.sender.last + 1));
    case Transmit(room, some) => SomeSent(w.sender, room, some);
    case AckArrives(k) => AcknowledgeTransit(w.sender, Wire(k));
    case Arrive(x, space, maximum, blank) => ArrivedSender(w, x, space, maximum, blank);
    case _ =>
  }

  lemma SetUpTransit(s: Sender, commands: seq<Command>)
    ensures SetUp(s, commands).inTransit == s.inTransit
  {
  }

  lemma ArrivedSender(w: World, x: Copy, space: bool, maximum: nat, blank: seq<Byte>)
    requires QueueWellFormed(w.receiver.queue) && (x.command.Fragment? ==> |blank| == x.command.totalLength)
    ensures Arrived(w, x, space, maximum, blank).sender == w.sender
  {
    hide Handle;
  }

  lemma SomeSent(s: Sender, room: nat, limit: nat)
    requires SenderOk(s)
    ensures |s.windows| == ENET_PEER_RELIABLE_WINDOWS
    ensures SendSome(s, room, limit).0.inTransit <= if limit < s.inTransit then s.inTransit else limit
  {
    hide SenderOk, SendSome, Total;
    WindowsThere(s);
    SentWithinLimit(s, room, limit);
    var n := |SendSome(s, room, limit).1|;
    if n == 0 {
      assert s.queue[..0] == [];
      NothingTotal();
    }
  }

  lemma NothingTotal()
    ensures Total([]) == 0
  {
  }

  lemma AcknowledgeTransit(s: Sender, number: Sequence)
    requires |s.windows| == ENET_PEER_RELIABLE_WINDOWS
    ensures Acknowledge(s, number).inTransit <= s.inTransit
  {
    hide FindNumber, FindTried, Uncounted, Without;
    FoundNumber(s.sent, number);
    FoundTried(s.queue, number);
    UncountedRest(s, number);
  }

  /**
   With the same limit for every transmission, the data in transit, which are those of the commands sent and not yet
   acknowledged, stay within it in every run.
   */
  lemma {:induction false} TransitBounded(w: World, events: seq<Event>, limit: nat)
    requires WorldOk(w) && PossibleRun(w, events) && Limited(events, limit) && w.sender.inTransit <= limit
    ensures AfterRun(w, events).sender.inTransit <= limit
    ensures AfterRun(w, events).sender.inTransit == Total(AfterRun(w, events).sender.sent)
    decreases |events|
  {
    hide WorldOk, After, Possible, Total;
    if events == [] {
      WorldSenderOk(w);
      TransitIs(w.sender);
    } else {
      EventTransit(w, events[0], limit);
      EventOk(w, events[0]);
      assert forall i :: 0 <= i < |events| - 1 ==> events[1..][i] == events[i + 1];
      TransitBounded(After(w, events[0]), events[1..], limit);
    }
  }

  lemma TransitIs(s: Sender)
    requires SenderOk(s)
    ensures s.inTransit == Total(s.sent)
  {
    hide Counted, Ordered, Total;
  }

  // ----- windows

  lemma {:induction false} AmongFull(m: multiset<nat>, lo: nat, n: nat)
    requires Among(m, lo, n) == n && forall k :: m[k] <= 1
    ensures forall k :: lo <= k < lo + n ==> m[k] == 1
    decreases n
  {
    if n > 0 {
      AmongOnce(m, lo, n - 1);
      AmongFull(m, lo, n - 1);
    }
  }

  lemma HeldIs(s: Sender, k: nat)
    requires Held(s)[k] > 0
    ensures Holds(s, k)
  {
    hide Ids;
    if Ids(s.sent)[k] > 0 {
      IdsAmong(s.sent, k);
    } else {
      IdsAmong(s.queue, k);
    }
  }

  /** What is counted in the last window, when that is complete, are commands of that window. */
  lemma LocatedLast(s: Sender, w: nat, lo: nat)
    requires Ordered(s) && w == Window(s.newest) % ENET_PEER_RELIABLE_WINDOWS
    requires lo + ENET_PEER_RELIABLE_WINDOW_SIZE == s.newest + 1
    requires (s.newest + 1) % ENET_PEER_RELIABLE_WINDOW_SIZE == 0
    ensures Located(s.sent, w, lo) && Located(s.queue, w, lo)
  {
    hide Window, Ordered;
    forall c | (c in s.sent || c in s.queue) && c.sendAttempts >= 1 && Window(c.number) == w
      ensures lo <= c.id < lo + ENET_PEER_RELIABLE_WINDOW_SIZE
    {
      TriedInOne(s, c, w, lo);
    }
  }

  /** A full counter means that all commands of the window are unacknowledged. */
  lemma CounterFull(s: Sender)
    requires SenderOk(s) && Once(s) && (s.newest + 1) % ENET_PEER_RELIABLE_WINDOW_SIZE == 0
    requires s.windows[Window(s.newest) % ENET_PEER_RELIABLE_WINDOWS] >= ENET_PEER_RELIABLE_WINDOW_SIZE
    ensures forall k: nat :: s.newest < k + ENET_PEER_RELIABLE_WINDOW_SIZE && k <= s.newest ==> Holds(s, k)
  {
    hide Window, Wire, Count, Ids, Among, Ordered, Located, Total, Holds;
    var w, lo := Window(s.newest) % ENET_PEER_RELIABLE_WINDOWS, s.newest + 1 - ENET_PEER_RELIABLE_WINDOW_SIZE;
    LocatedLast(s, w, lo);
    CountAmong(s.sent, w, lo);
    CountAmong(s.queue, w, lo);
    AmongSum(Ids(s.sent), Ids(s.queue), lo, ENET_PEER_RELIABLE_WINDOW_SIZE);
    AmongOnce(Held(s), lo, ENET_PEER_RELIABLE_WINDOW_SIZE);
    AmongFull(Held(s), lo, ENET_PEER_RELIABLE_WINDOW_SIZE);
    hide Held;
    forall k: nat | lo <= k <= s.newest ensures Holds(s, k) {
      HeldIs(s, k);
    }
  }

  lemma TriedInOne(s: Sender, c: Outgoing, w: nat, lo: nat)
    requires Ordered(s) && (c in s.sent || c in s.queue) && c.sendAttempts >= 1 && Window(c.number) == w
    requires w == Window(s.newest) % ENET_PEER_RELIABLE_WINDOWS && lo + ENET_PEER_RELIABLE_WINDOW_SIZE == s.newest + 1
    requires (s.newest + 1) % ENET_PEER_RELIABLE_WINDOW_SIZE == 0
    ensures lo <= c.id <= s.newest
  {
    hide Window, Wire, Ordered;
    TriedOne(s, c);
    WireParts(c.id);
    WindowMonotone(c.id, s.newest);
    SameOfSixteen(Window(c.id), Window(s.newest), c.id / NUMBERS, w);
    LastWindow(c.id, s.newest);
  }

  lemma SameOfSixteen(a: nat, b: nat, q: nat, w: nat)
    requires a == 16 * q + w && b % 16 == w && a <= b <= a + 6
    ensures a == b
  {
  }

  lemma LastWindow(k: nat, n: nat)
    requires Window(k) == Window(n) && k <= n && (n + 1) % ENET_PEER_RELIABLE_WINDOW_SIZE == 0
    ensures n < k + ENET_PEER_RELIABLE_WINDOW_SIZE
  {
  }

  lemma TriedOne(s: Sender, c: Outgoing)
    requires Ordered(s) && (c in s.sent || c in s.queue) && c.sendAttempts >= 1
    ensures Tried(c, s.newest)
  {
    hide Window, Wire;
    if c in s.sent {
      var i :| 0 <= i < |s.sent| && s.sent[i] == c;
    } else {
      var i :| 0 <= i < |s.queue| && s.queue[i] == c;
      var a := |s.queue| - (s.last - s.newest);
      assert forall q :: a <= q < |s.queue| ==> s.queue[q].sendAttempts == 0;
    }
  }

  /**
   The next command waits for its window exactly if it is new and the first of its window, and either some command of
   the seventh window before is unacknowledged, or all 4096 of the one before are.
   */
  lemma MustWaitExactly(s: Sender)
    requires SenderOk(s) && Once(s) && s.queue != []
    ensures |s.windows| == ENET_PEER_RELIABLE_WINDOWS
    ensures WindowWrap(s, s.queue[0]) <==>
      && s.queue[0].sendAttempts == 0 && (s.newest + 1) % 4096 == 0
      && ((exists c :: c in s.sent && c.id / 4096 + 7 == (s.newest + 1) / 4096)
          || forall k: nat :: s.newest < k + 4096 && k <= s.newest ==> Holds(s, k))
  {
    hide Count, Wire, Once, Holds;
    WindowsThere(s);
    if s.queue[0].sendAttempts == 0 {
      FreshFirst(s);
      PlaceInWindow(s.newest + 1);
      if (s.newest + 1) % ENET_PEER_RELIABLE_WINDOW_SIZE == 0 {
        SameWindow(s.newest);
        WindowEnd(s.newest);
        BlockedBySeventh(s);
        if s.windows[Window(s.newest) % ENET_PEER_RELIABLE_WINDOWS] >= ENET_PEER_RELIABLE_WINDOW_SIZE {
          CounterFull(s);
        }
        if forall k: nat :: s.newest < k + 4096 && k <= s.newest ==> Holds(s, k) {
          FullWindow(s, Window(s.newest));
        }
      }
    }
  }

  lemma BlockedBySeventh(s: Sender)
    requires SenderOk(s) && s.queue != [] && s.queue[0].sendAttempts == 0
    requires (s.newest + 1) % ENET_PEER_RELIABLE_WINDOW_SIZE == 0
    ensures s.used * Mask(Window(Wire(s.newest + 1))) != {} <==>
      exists c :: c in s.sent && Window(c.id) + 7 == Window(s.newest + 1)
  {
    hide Count, Wire, Window, Mask, Total;
    var mask := Mask(Window(Wire(s.newest + 1)));
    SameWindow(s.newest);
    FreshFirst(s);
    assert forall i :: 0 <= i < |s.queue| ==> Fresh(s.queue[i], s.newest + 1 + i);
    if v :| v in s.used && v in mask {
      CountNone(s.queue, v);
      var c := CountedOne(s.sent, v);
      SentTried(s, c);
      if Window(c.id) + 7 != Window(s.newest + 1) {
        OutOfMask(c.id, s.newest);
      }
    }
    if c :| c in s.sent && Window(c.id) + 7 == Window(s.newest + 1) {
      SentTried(s, c);
      var i :| 0 <= i < |s.sent| && s.sent[i] == c;
      CountPositive(s.sent, i);
      WindowSmall(c.number);
      MaskFull(c.id, s.newest);
      assert Window(c.number) in s.used * mask;
    }
  }

  // ----- timeouts

  /** The list of the commands at the given places. */
  function At(l: seq<Outgoing>, places: seq<nat>): seq<Outgoing>
    requires forall i :: 0 <= i < |places| ==> places[i] < |l|
  {
    seq(|places|, i requires 0 <= i < |places| => l[places[i]])
  }

  /** The places one further on. */
  lemma Further(l: seq<Outgoing>, rest: seq<nat>) returns (later: seq<nat>)
    requires l != [] && Ascending(rest) && forall i :: 0 <= i < |rest| ==> rest[i] < |l| - 1
    ensures Ascending(later) && forall i :: 0 <= i < |later| ==> 0 < later[i] < |l|
    ensures forall i :: 0 < i < |l| ==> (i in later <==> i - 1 in rest)
    ensures At(l, later) == At(l[1..], rest)
  {
    later := seq(|rest|, i requires 0 <= i < |rest| => rest[i] + 1);
    forall i | 0 < i < |l| ensures i in later <==> i - 1 in rest {
      if i - 1 in rest {
        var p :| 0 <= p < |rest| && rest[p] == i - 1;
        assert later[p] == i;
      }
    }
  }

  lemma {:induction false} PickedPlaces(l: seq<Outgoing>, expired: set<nat>, which: bool) returns (places: seq<nat>)
    ensures Ascending(places) && forall i :: 0 <= i < |places| ==> places[i] < |l|
    ensures forall i :: 0 <= i < |l| ==> (i in places <==> (l[i].id in expired) == which)
    ensures Pick(l, expired, which) == At(l, places)
    decreases |l|
  {
    if l == [] {
      places := [];
    } else {
      var rest := PickedPlaces(l[1..], expired, which);
      var later := Further(l, rest);
      if (l[0].id in expired) == which {
        places := [0] + later;
        assert At(l, places) == [l[0]] + At(l, later);
      } else {
        places := later;
      }
      hide At, Pick;
      forall i | 0 < i < |l| ensures i in places <==> (l[i].id in expired) == which {
        assert l[1..][i - 1] == l[i];
      }
    }
  }

  /**
   A timeout brings just the commands whose time is up back to the front of the queue, in the order in which they were
   sent, and leaves just the others, in their order; the data in transit are those of the commands that stay.
   */
  lemma ExpireMoves(s: Sender, expired: set<nat>) returns (gone: seq<nat>, stay: seq<nat>)
    requires SenderOk(s)
    ensures Ascending(gone) && forall i :: 0 <= i < |gone| ==> gone[i] < |s.sent|
    ensures Ascending(stay) && forall i :: 0 <= i < |stay| ==> stay[i] < |s.sent|
    ensures forall i :: 0 <= i < |s.sent| ==>
      (i in gone <==> s.sent[i].id in expired) && (i in stay <==> s.sent[i].id !in expired)
    ensures Expire(s, expired).queue == At(s.sent, gone) + s.queue && Expire(s, expired).sent == At(s.sent, stay)
    ensures Expire(s, expired).inTransit == Total(At(s.sent, stay))
  {
    hide Pick, Counted, Ordered, Total;
    gone := PickedPlaces(s.sent, expired, true);
    stay := PickedPlaces(s.sent, expired, false);
    CountPick(s.sent, expired, 0);
  }
}
