/**
 Which messages get through.  A message is never dispatched if its last command lies more than seven windows after the
 one before its first, and then it blocks the channel; every other message can be delivered.
 */
module EnetProgress {
  import opened Basics
  import opened EnetWindows
  import opened EnetMessages
  import opened EnetSender
  import opened EnetReceiver
  import opened EnetOrder
  import opened EnetDelivery
  import opened EnetCounters

  /** What the sender can check before it sends n commands on a channel whose last number is outgoing. */
  predicate Fits(outgoing: Sequence, n: nat)
  {
    outgoing % ENET_PEER_RELIABLE_WINDOW_SIZE + n < ENET_PEER_FREE_RELIABLE_WINDOWS * ENET_PEER_RELIABLE_WINDOW_SIZE
  }

  /** Message j can be delivered after the ones before it. */
  ghost predicate Deliverable(ms: seq<Message>, j: nat)
    requires AllSendable(ms) && j < |ms|
  {
    Fits(Wire(LastOf(ms, j)), Commands(ms[j]))
  }

  /** The number of messages dispatched. */
  function Done(w: World): nat
  {
    |w.receiver.taken| + |w.receiver.dispatched|
  }

  lemma DoneIs(w: World, done: nat, slots: seq<nat>)
    requires WorldAt(w, done, slots)
    ensures done == Done(w) <= |w.messages| && AllSendable(w.messages)
  {
    hide Start, SenderOk, Stands, Near, Genuine, Tracked, Honest, Paced, Copied, LastOf;
    assert |Payloads(w.messages[..done])| == done;
  }

  lemma FitsIs(last: nat, n: nat)
    ensures Fits(Wire(last), n) <==> Window(last + n) <= Window(last) + 7
  {
    var a, b := last / ENET_PEER_RELIABLE_WINDOW_SIZE, last % ENET_PEER_RELIABLE_WINDOW_SIZE;
    assert last == a * ENET_PEER_RELIABLE_WINDOW_SIZE + b;
    PlaceInWindow(last);
    assert Window(last + n) == a + (b + n) / ENET_PEER_RELIABLE_WINDOW_SIZE;
  }

  lemma PlaceInWindow(k: nat)
    ensures Wire(k) % ENET_PEER_RELIABLE_WINDOW_SIZE == k % ENET_PEER_RELIABLE_WINDOW_SIZE
  {
  }

  lemma DeliverableIs(ms: seq<Message>, j: nat)
    requires AllSendable(ms) && j < |ms|
    ensures Deliverable(ms, j) <==> Window(LastOf(ms, j + 1)) <= Window(LastOf(ms, j)) + 7
    ensures LastOf(ms, j + 1) == LastOf(ms, j) + Commands(ms[j])
  {
    hide Start, Window, Wire, Fits;
    StartNext(ms, j);
    StartLast(ms, j);
    StartLast(ms, j + 1);
    FitsIs(LastOf(ms, j), Commands(ms[j]));
  }

  // ----- what cannot be delivered

  /** Every message dispatched was deliverable. */
  ghost predicate DoneFit(w: World)
  {
    AllSendable(w.messages) && Done(w) <= |w.messages| && forall j :: 0 <= j < Done(w) ==> Deliverable(w.messages, j)
  }

  lemma SubmitFits(w: World, m: Message)
    requires DoneFit(w) && Sendable(m)
    ensures DoneFit(After(w, Submit(m)))
  {
    hide Start, Fits, Commands;
    MessagesKept(w.messages, m);
    forall j | 0 <= j < Done(w) ensures Deliverable(w.messages + [m], j) {
      assert Deliverable(w.messages, j);
    }
  }

  /** What has been dispatched lies within the reach of the newest command sent. */
  lemma ArriveFits(w: World, e: Event, done: nat, slots: seq<nat>)
    requires WorldAt(w, done, slots) && DoneFit(w) && e.Arrive? && Possible(w, e)
    ensures DoneFit(After(w, e))
  {
    hide WorldAt, Start, Window, Fits, After, Carries, Possible, Extends, Got, Near, Unacknowledged, Deliverable,
      Commands;
    ArrivingIs(w, e, done, slots);
    var j0: nat, i0: nat :| Carries(w.messages, j0, i0, e.copy.id, e.copy.command);
    var m', js', new_ := ArriveAt(w, e, done, slots, j0, i0);
    var t := After(w, e);
    DoneIs(w, done, slots);
    DoneIs(t, m', js');
    ArriveSame(w, e);
    WithinReach(w, done, slots);
    WithinReach(t, m', js');
    forall j | done <= j < m' ensures Deliverable(w.messages, j) {
      DeliverableIs(w.messages, j);
      LastGrows(w.messages, done, j);
      LastGrows(w.messages, j + 1, m');
      WindowMonotone(LastOf(w.messages, done), LastOf(w.messages, j));
      WindowMonotone(LastOf(w.messages, j + 1), w.sender.newest);
    }
  }

  lemma ArriveSame(w: World, e: Event)
    requires e.Arrive? && Possible(w, e)
    ensures After(w, e).messages == w.messages && After(w, e).sender == w.sender && After(w, e).net == w.net
  {
  }

  lemma EventFits(w: World, e: Event)
    requires WorldOk(w) && DoneFit(w) && Possible(w, e)
    ensures DoneFit(After(w, e))
  {
    hide WorldAt, Deliverable, SetUp, SendSome, Expire, Acknowledge, Handle, QueueWellFormed, Recent, Unacknowledged,
      CommandsOf;
    match e
    case Submit(m) => SubmitFits(w, m);
    case Arrive(_, _, _, _) =>
      var done: nat, slots: seq<nat> :| WorldAt(w, done, slots);
      ArriveFits(w, e, done, slots);
    case _ =>
  }

  /** In every run every message dispatched fits, so that one that does not blocks the channel for good. */
  lemma {:induction false} DispatchedFit(w: World, events: seq<Event>)
    requires WorldOk(w) && DoneFit(w) && PossibleRun(w, events)
    ensures WorldOk(AfterRun(w, events)) && DoneFit(AfterRun(w, events))
    decreases |events|
  {
    hide WorldOk, After, Possible, DoneFit;
    if events != [] {
      EventOk(w, events[0]);
      EventFits(w, events[0]);
      DispatchedFit(After(w, events[0]), events[1..]);
    }
  }

  lemma QuietFits()
    ensures DoneFit(Quiet())
  {
  }

  // ----- runs

  lemma RunOne(w: World, e: Event)
    requires Possible(w, e)
    ensures PossibleRun(w, [e]) && AfterRun(w, [e]) == After(w, e)
  {
    assert PossibleRun(After(w, e), []);
    RunStep(w, e, []);
    assert [e] + [] == [e];
  }

  lemma RunStep(w: World, e: Event, rest: seq<Event>)
    requires Possible(w, e) && PossibleRun(After(w, e), rest)
    ensures PossibleRun(w, [e] + rest) && AfterRun(w, [e] + rest) == AfterRun(After(w, e), rest)
  {
    hide After, Possible;
    assert ([e] + rest)[0] == e && ([e] + rest)[1..] == rest;
  }

  lemma {:induction false} RunThen(w: World, a: seq<Event>, b: seq<Event>)
    requires PossibleRun(w, a) && PossibleRun(AfterRun(w, a), b)
    ensures PossibleRun(w, a + b) && AfterRun(w, a + b) == AfterRun(AfterRun(w, a), b)
    decreases |a|
  {
    hide After, Possible;
    if a == [] {
      assert a + b == b;
    } else {
      RunThen(After(w, a[0]), a[1..], b);
      RunStep(w, a[0], a[1..] + b);
      assert [a[0]] + (a[1..] + b) == a + b;
    }
  }

  // ----- what can be sent again

  /** Everything unacknowledged, except for one command perhaps, could be sent again and still be recent. */
  ghost predicate Retriable(w: World, keep: nat)
  {
    forall c :: (c in w.sender.sent || (c in w.sender.queue && c.sendAttempts >= 1)) && c.id != keep ==>
      Recent(First(Copy(c.id, c.command)), w.sender.newest)
  }

  /** A state from which to go on while command keep, unless it is 0, stays unacknowledged. */
  ghost predicate Ready(w: World, keep: nat)
  {
    Retriable(w, keep) && Once(w.sender) && (keep == 0 || Holds(w.sender, keep))
  }

  /** Nothing else is sent and unacknowledged. */
  ghost predicate Cleared(s: Sender, keep: nat)
  {
    forall c :: c in s.sent ==> c.id == keep
  }

  /** The first command of the queue may be sent: it is a retry, or opens no window, or nothing is in its way. */
  ghost predicate MaySend(s: Sender, keep: nat)
    requires s.queue != []
  {
    || s.queue[0].sendAttempts >= 1
    || Window(s.newest + 1) == Window(s.newest)
    || (Cleared(s, keep) && (keep == 0 || Window(s.newest + 1) <= Window(keep) + 6))
  }

  /** The copy of a sent command is on the network. */
  lemma CopyThere(w: World, done: nat, slots: seq<nat>, j: nat, i: nat, k: nat, c: Command)
    requires WorldAt(w, done, slots) && 1 <= k <= w.sender.newest && Carries(w.messages, j, i, k, c)
    ensures Copy(k, c) in w.net
  {
    hide SenderOk, ReceiverOk, Tracked, Honest, Paced, IsNumbered;
    assert OnNet(w.net, k);
    var x :| x in w.net && x.id == k;
    assert IsCommand(w.messages, x.id, x.command);
    var j': nat, i': nat :| Carries(w.messages, j', i', x.id, x.command);
    NumberedOnce(w.messages, j, i, j', i', k);
    assert x == Copy(k, c);
  }

  /** An arrival with room for everything. */
  function Arrival(k: nat, c: Command, m: Message): Event
  {
    Arrive(Copy(k, c), true, |m.payload|, seq(if c.Fragment? then c.totalLength else 0, _ => 0))
  }

  lemma ArrivalPossible(w: World, done: nat, slots: seq<nat>, j: nat, i: nat, k: nat, c: Command)
    requires WorldAt(w, done, slots) && 1 <= k <= w.sender.newest && Carries(w.messages, j, i, k, c)
    requires Recent(First(Copy(k, c)), w.sender.newest)
    ensures Possible(w, Arrival(k, c, w.messages[j]))
  {
    CopyThere(w, done, slots, j, i, k, c);
    hide SenderOk, ReceiverOk, Genuine, Tracked, Honest, Paced, Copied, Recent, First, Carries;
    ReceiverSizes(w.messages, w.receiver, done, slots);
  }

  /** The number of commands of message m that the receiver does not have, among the first n. */
  ghost function Missing(ms: seq<Message>, s: Receiver, m: nat, js: seq<nat>, n: nat): nat
    decreases n
  {
    if n == 0 then 0 else Missing(ms, s, m, js, n - 1) + if Got(ms, s, m, js, m, n - 1) then 0 else 1
  }

  lemma {:induction false} MissingLess(ms: seq<Message>, s: Receiver, m: nat, js: seq<nat>, t: Receiver, js': seq<nat>,
                                       n: nat)
    requires forall i :: 0 <= i < n && Got(ms, s, m, js, m, i) ==> Got(ms, t, m, js', m, i)
    ensures Missing(ms, t, m, js', n) <= Missing(ms, s, m, js, n)
    ensures (exists i :: 0 <= i < n && !Got(ms, s, m, js, m, i) && Got(ms, t, m, js', m, i)) ==>
      Missing(ms, t, m, js', n) < Missing(ms, s, m, js, n)
    decreases n
  {
    hide Got;
    if n > 0 {
      MissingLess(ms, s, m, js, t, js', n - 1);
    }
  }

  // ----- the steps

  /** The message in turn is recent and within reach. */
  lemma NextIsNear(w: World, m: nat, slots: seq<nat>)
    requires WorldAt(w, m, slots) && m < |w.messages|
    ensures AllSendable(w.messages) && Near(w.messages, m, m) && Recent(Start(w.messages, m), w.sender.newest)
    ensures LastOf(w.messages, m) <= w.sender.newest && Start(w.messages, m) == LastOf(w.messages, m) + 1
    ensures Window(w.sender.newest) <= Window(LastOf(w.messages, m)) + 7
  {
    hide SenderOk, ReceiverOk, Genuine, Tracked, Honest, Paced, Copied, Start, Window;
    DoneIs(w, m, slots);
    WithinReach(w, m, slots);
    StartLast(w.messages, m);
    StartZero(w.messages);
    StartGrows(w.messages, 0, m);
    WindowMonotone(LastOf(w.messages, m), Start(w.messages, m));
    NextWindow(LastOf(w.messages, m));
  }

  lemma NextWindow(k: nat)
    ensures Window(k + 1) <= Window(k) + 1
  {
  }

  /** A missing command of the message in turn that has been sent arrives. */
  lemma Fetch(w: World, m: nat, slots: seq<nat>, i: nat) returns (e: Event, m': nat, js': seq<nat>)
    requires WorldAt(w, m, slots) && m < |w.messages| && AllSendable(w.messages) && i < Commands(w.messages[m])
    requires Start(w.messages, m) + i <= w.sender.newest && !Got(w.messages, w.receiver, m, slots, m, i)
    ensures e.Arrive? && Possible(w, e) && WorldAt(After(w, e), m', js') && m' >= m
    ensures m' == m ==>
      var n := Commands(w.messages[m]);
      Missing(w.messages, After(w, e).receiver, m, js', n) < Missing(w.messages, w.receiver, m, slots, n)
  {
    hide WorldAt, Start, Got, CommandOf, Near, After, Possible, Recent, First, Commands;
    var ms := w.messages;
    var k := Start(ms, m) + i;
    NextIsNear(w, m, slots);
    var c := CommandOf(ms[m], Start(ms, m), i);
    assert Carries(ms, m, i, k, c);
    FirstIs(ms, m, i, Copy(k, c));
    ArrivalPossible(w, m, slots, m, i, k, c);
    e := Arrival(k, c, ms[m]);
    var new_;
    m', js', new_ := ArriveAt(w, e, m, slots, m, i);
    if m' == m {
      MissingLess(ms, w.receiver, m, slots, After(w, e).receiver, js', Commands(ms[m]));
    }
  }

  /** An unacknowledged command arrives again and is acknowledged, if the sender is at most six windows ahead. */
  lemma Settle(w: World, m: nat, slots: seq<nat>, keep: nat, c: Outgoing) returns (e: Event, m': nat, js': seq<nat>)
    requires WorldAt(w, m, slots) && Ready(w, keep) && m < |w.messages| && AllSendable(w.messages)
    requires c in w.sender.sent && c.id != keep
    requires Window(w.sender.newest) <= Window(LastOf(w.messages, m)) + 6
    ensures e.Arrive? && Possible(w, e) && WorldAt(After(w, e), m', js') && m' >= m
    ensures var n := Commands(w.messages[m]);
      m' == m ==> Missing(w.messages, After(w, e).receiver, m, js', n) <= Missing(w.messages, w.receiver, m, slots, n)
    ensures m' == m ==> Possible(After(w, e), AckArrives(c.id))
  {
    hide WorldAt, Start, Got, CommandOf, Near, After, Possible, Recent, First, Commands, Window, Wire, Unacknowledged,
      Carries;
    var ms := w.messages;
    WorldSender(w, m, slots);
    SentTried(w.sender, c);
    var j, i := HeldCarries(w, m, slots, c);
    assert Recent(First(Copy(c.id, c.command)), w.sender.newest);
    ArrivalPossible(w, m, slots, j, i, c.id, c.command);
    e := Arrival(c.id, c.command, ms[j]);
    var new_;
    m', js', new_ := ArriveAt(w, e, m, slots, j, i);
    if m' == m {
      MissingLess(ms, w.receiver, m, slots, After(w, e).receiver, js', Commands(ms[m]));
      WithinReach(w, m, slots);
      CloseAcknowledged(c.id, LastOf(ms, m), w.sender.newest);
      ArriveSame(w, e);
      WorldSender(After(w, e), m', js');
      AckPossible(After(w, e), c.id);
    }
  }

  lemma SentTried(s: Sender, c: Outgoing)
    requires SenderOk(s) && c in s.sent
    ensures Tried(c, s.newest)
  {
    hide Counted, Total, Wire, Window;
    var i :| 0 <= i < |s.sent| && s.sent[i] == c;
  }

  lemma HeldCarries(w: World, done: nat, slots: seq<nat>, c: Outgoing) returns (j: nat, i: nat)
    requires WorldAt(w, done, slots) && (c in w.sender.sent || c in w.sender.queue)
    ensures Carries(w.messages, j, i, c.id, c.command) && j < |w.messages|
  {
    hide SenderOk, ReceiverOk, Tracked, Honest, Paced, Copied, Start;
    assert IsCommand(w.messages, c.id, c.command);
    j, i :| Carries(w.messages, j, i, c.id, c.command);
  }

  lemma CloseAcknowledged(k: nat, r: nat, newest: nat)
    requires k <= newest && Window(k) + 6 >= Window(newest) && r <= newest && Window(newest) <= Window(r) + 6
    ensures !Unacknowledged(Wire(k), Wire(r))
  {
    hide Wire, Accepts;
    WindowMonotone(k, newest);
    WindowMonotone(r, newest);
    if k < r {
      WindowMonotone(k, r);
      BehindDistance(k, r);
    } else {
      NewTurnedDown(k, r);
    }
  }

  lemma AckPossible(w: World, k: nat)
    requires k in w.acks && Window(k) + 6 >= Window(w.sender.newest) && SenderOk(w.sender)
    ensures Possible(w, AckArrives(k))
  {
    hide Counted, Ordered, Total, Window;
    WindowsThere(w.sender);
  }

  // ----- sending one command

  /** A limit that lets the first command of the queue through. */
  function Ample(s: Sender): nat
    requires s.queue != []
  {
    if s.inTransit + s.queue[0].length < 0 then 0 else s.inTransit + s.queue[0].length
  }

  lemma SendsOne(s: Sender)
    requires SenderOk(s) && s.queue != [] && !WindowWrap(s, s.queue[0])
    ensures CanSend(s, Ample(s)) && SendSome(s, 1, Ample(s)) == (Send(s), [s.queue[0]])
  {
    hide Counted, Ordered, WindowWrap, Send;
    WindowsThere(s);
    SendOk(s, Ample(s));
    WindowsThere(Send(s));
    assert SendSome(Send(s), 0, Ample(s)) == (Send(s), []);
    var none: seq<Outgoing> := [];
    assert [s.queue[0]] + none == [s.queue[0]];
  }

  /** A command sent before may always be sent again, and one that opens no window may always be sent. */
  lemma NoWrap(s: Sender, keep: nat)
    requires SenderOk(s) && s.queue != [] && Once(s) && MaySend(s, keep)
    ensures !WindowWrap(s, s.queue[0])
  {
    hide Total, Count, Window, Wire, Once, Cleared;
    if s.queue[0].sendAttempts < 1 {
      FreshFirst(s);
      PlaceInWindow(s.newest + 1);
      SameWindow(s.newest);
      if Window(s.newest + 1) != Window(s.newest) {
        NearlyClear(s, keep);
        NotInTheWay(s, keep);
      }
    }
  }

  /** With everything else acknowledged, the kept command is the only one counted. */
  lemma NearlyClear(s: Sender, keep: nat)
    requires SenderOk(s) && s.queue != [] && s.queue[0].sendAttempts < 1 && Once(s) && Cleared(s, keep)
    ensures forall w :: 0 <= w < ENET_PEER_RELIABLE_WINDOWS ==> s.windows[w] <= 1
    ensures forall w :: w in s.used ==> 1 <= keep <= s.newest && w == Window(Wire(keep))
  {
    hide Total, Window, Wire, Count;
    FreshFirst(s);
    assert forall i :: 0 <= i < |s.queue| ==> Fresh(s.queue[i], s.newest + 1 + i);
    forall w | 0 <= w < ENET_PEER_RELIABLE_WINDOWS
      ensures s.windows[w] <= 1
      ensures s.windows[w] > 0 ==> 1 <= keep <= s.newest && w == Window(Wire(keep))
    {
      CountNone(s.queue, w);
      CountOnly(s.sent, w, keep);
      HeldOnce(s, keep);
      if s.windows[w] > 0 {
        var c := CountedOne(s.sent, w);
        SentTried(s, c);
      }
    }
  }

  lemma HeldOnce(s: Sender, k: nat)
    requires Once(s)
    ensures Ids(s.sent)[k] <= 1
  {
    hide Ids;
    assert Held(s)[k] <= 1;
  }

  lemma {:induction false} CountOnly(l: seq<Outgoing>, w: nat, keep: nat)
    requires forall c :: c in l ==> c.id == keep
    ensures Count(l, w) <= Ids(l)[keep]
    decreases |l|
  {
    hide Window;
    if l != [] {
      assert l[0] in l && forall c :: c in l[1..] ==> c in l;
      CountOnly(l[1..], w, keep);
    }
  }

  lemma {:induction false} CountedOne(l: seq<Outgoing>, w: nat) returns (c: Outgoing)
    requires Count(l, w) > 0
    ensures c in l && Window(c.number) == w
    decreases |l|
  {
    hide Window;
    if l[0].sendAttempts >= 1 && Window(l[0].number) == w {
      c := l[0];
    } else {
      c := CountedOne(l[1..], w);
    }
  }

  lemma NotInTheWay(s: Sender, keep: nat)
    requires SenderOk(s) && s.queue != [] && Fresh(s.queue[0], s.newest + 1)
    requires Window(s.newest + 1) != Window(s.newest) && (keep == 0 || Window(s.newest + 1) <= Window(keep) + 6)
    requires forall w :: 0 <= w < ENET_PEER_RELIABLE_WINDOWS ==> s.windows[w] <= 1
    requires forall w :: w in s.used ==> 1 <= keep <= s.newest && w == Window(Wire(keep))
    ensures !WindowWrap(s, s.queue[0])
  {
    hide Total, Count, Window, Wire, Mask, Counted, Ordered;
    WindowsThere(s);
    var w := Window(Wire(s.newest + 1));
    WindowSmall(Wire(s.newest + 1));
    forall v | v in s.used ensures v !in Mask(w) {
      OutOfMask(keep, s.newest);
    }
  }

  lemma OutOfMask(k: nat, n: nat)
    requires k <= n && Window(n + 1) != Window(n) && Window(n + 1) <= Window(k) + 6
    ensures Window(Wire(k)) !in Mask(Window(Wire(n + 1)))
  {
    WireParts(k);
    WireParts(n + 1);
    SameWindow(n);
    WindowMonotone(k, n);
    hide Window, Wire, Mask, InMask;
    AheadOfMask(Window(Wire(k)), Window(Wire(n + 1)), k / NUMBERS, (n + 1) / NUMBERS);
  }

  lemma AheadOfMask(v: nat, w: nat, a: nat, b: nat)
    requires v < 16 && w < 16 && 16 * a + v < 16 * b + w <= 16 * a + v + 6
    ensures v !in Mask(w)
  {
  }

  lemma SentOne(w: World, m: nat, slots: seq<nat>, keep: nat) returns (e: Event)
    requires WorldAt(w, m, slots) && Ready(w, keep) && m < |w.messages| && AllSendable(w.messages)
    requires w.sender.queue != [] && !WindowWrap(w.sender, w.sender.queue[0])
    requires w.sender.newest < LastOf(w.messages, m + 1) && MaySend(w.sender, keep)
    ensures e.Transmit? && Possible(w, e) && WorldAt(After(w, e), m, slots) && After(w, e).sender == Send(w.sender)
    ensures After(w, e).messages == w.messages && After(w, e).receiver == w.receiver && Ready(After(w, e), keep)
  {
    hide WorldAt, Send, SendSome, WindowWrap, Retriable, Start, Window, Once, Holds, Held, MaySend;
    var s := w.sender;
    WorldSender(w, m, slots);
    WindowsThere(s);
    SendsOne(s);
    e := Transmit(1, Ample(s));
    TransmitOk(w, 1, Ample(s), m, slots);
    StillRetriable(w, After(w, e), m, slots, keep);
    SendOnce(s);
    HeldLess(s, Send(s));
    if keep != 0 {
      SendHolds(s, keep);
    }
  }

  lemma StillRetriable(w: World, t: World, m: nat, slots: seq<nat>, keep: nat)
    requires WorldAt(w, m, slots) && Retriable(w, keep) && m < |w.messages| && AllSendable(w.messages)
    requires w.sender.queue != [] && MaySend(w.sender, keep)
    requires w.sender.newest < LastOf(w.messages, m + 1)
    requires |w.sender.windows| == ENET_PEER_RELIABLE_WINDOWS && t.sender == Send(w.sender)
    requires WorldAt(t, m, slots) && t.messages == w.messages
    ensures Retriable(t, keep)
  {
    hide WorldAt, Start, Window, First;
    var s, front := w.sender, w.sender.queue[0];
    WorldSender(w, m, slots);
    SendNewest(s);
    forall c | (c in t.sender.sent || (c in t.sender.queue && c.sendAttempts >= 1)) && c.id != keep
      ensures Recent(First(Copy(c.id, c.command)), t.sender.newest)
    {
      if c == front.(sendAttempts := front.sendAttempts + 1) {
        if front.sendAttempts < 1 {
          NewRecent(w, t, m, slots, front);
        }
      } else {
        assert c in s.sent || (c in s.queue && c.sendAttempts >= 1);
        TriedEarly(s, c);
      }
    }
  }

  lemma SendNewest(s: Sender)
    requires SenderOk(s) && s.queue != []
    ensures Send(s).newest == (if s.queue[0].sendAttempts < 1 then s.newest + 1 else s.newest)
    ensures Send(s).sent == s.sent + [s.queue[0].(sendAttempts := s.queue[0].sendAttempts + 1)]
    ensures Send(s).queue == s.queue[1..]
    ensures Send(s).last == s.last
    ensures s.queue[0].sendAttempts < 1 ==> s.queue[0].id == s.newest + 1
  {
    hide Counted, Total, Window, Wire;
    WindowsThere(s);
    if s.queue[0].sendAttempts < 1 {
      FreshFirst(s);
    }
  }

  /** If the first command of the queue is a new one, nothing tried waits in the queue. */
  lemma TriedEarly(s: Sender, c: Outgoing)
    requires SenderOk(s) && s.queue != [] && (c in s.sent || (c in s.queue && c.sendAttempts >= 1))
    ensures s.queue[0].sendAttempts < 1 ==> c in s.sent
  {
    hide Counted, Total, Window, Wire;
    if s.queue[0].sendAttempts < 1 {
      FreshFirst(s);
      assert forall i :: 0 <= i < |s.queue| ==> Fresh(s.queue[i], s.newest + 1 + i);
    }
  }

  /** The command just sent for the first time belongs to the message in turn. */
  lemma NewRecent(w: World, t: World, m: nat, slots: seq<nat>, c: Outgoing)
    requires WorldAt(w, m, slots) && WorldAt(t, m, slots) && t.messages == w.messages && m < |w.messages|
    requires AllSendable(w.messages)
    requires c in w.sender.queue && c.id == w.sender.newest + 1 <= LastOf(w.messages, m + 1)
    ensures Recent(First(Copy(c.id, c.command)), t.sender.newest)
  {
    hide WorldAt, Start, Window, Commands, Recent, First;
    var j, i := HeldCarries(w, m, slots, c);
    FirstIs(w.messages, j, i, Copy(c.id, c.command));
    NextIsNear(w, m, slots);
    NextIsNear(t, m, slots);
    StartLast(w.messages, m + 1);
    if j < m {
      StartGrows(w.messages, j, m);
    } else if j > m {
      StartGrows(w.messages, m + 1, j);
    }
  }

  // ----- delivering the next message

  ghost predicate Reached(w: World, t: World, m: nat, keep: nat)
  {
    WorldOk(t) && Ready(t, keep) && t.messages == w.messages && Done(t) > m
  }

  /** How far the sender is from the last command of message m. */
  ghost function Unsent(w: World, m: nat): nat
    requires AllSendable(w.messages) && m < |w.messages|
  {
    if LastOf(w.messages, m + 1) <= w.sender.newest then 0 else LastOf(w.messages, m + 1) - w.sender.newest
  }

  ghost function TriedInQueue(s: Sender): nat
  {
    if |s.queue| + s.newest <= s.last then 0 else |s.queue| + s.newest - s.last
  }

  /** The acknowledgement of a sent command takes it away. */
  lemma Settled(w: World, m: nat, slots: seq<nat>, keep: nat, c: Outgoing) returns (t: World)
    requires WorldAt(w, m, slots) && Ready(w, keep) && c in w.sender.sent && c.id != keep
    requires Possible(w, AckArrives(c.id))
    ensures t == After(w, AckArrives(c.id)) && WorldAt(t, m, slots) && Ready(t, keep)
    ensures t.messages == w.messages && t.receiver == w.receiver && t.sender.newest == w.sender.newest
    ensures t.sender.last == w.sender.last
    ensures t.sender.queue == w.sender.queue && |t.sender.sent| < |w.sender.sent|
  {
    hide WorldAt, Recent, First, Possible, Once, Held, Holds, Uncounted, Without, Wire, Window;
    var s := w.sender;
    WorldSender(w, m, slots);
    WindowsThere(s);
    SentTried(s, c);
    t := After(w, AckArrives(c.id));
    AckArrivesOk(w, c.id, m, slots);
    FoundNumber(s.sent, c.number);
    FoundTried(s.queue, c.number);
    UncountedRest(s, c.number);
    var i := FindNumber(s.sent, c.number).value;
    WithoutIs(s.sent, i);
    WithoutAmong(s.sent, i);
    AcknowledgeOnce(s, c.number);
    HeldLess(s, t.sender);
    if keep != 0 {
      AcknowledgeHolds(s, c.id, keep);
    }
  }

  lemma WithoutAmong(l: seq<Outgoing>, i: nat)
    requires i < |l|
    ensures forall d :: d in Without(l, i) ==> d in l
  {
  }

  /** The last command of the message in turn is still to be sent, if everything sent so far of it is there. */
  lemma MoreToSend(w: World, m: nat, slots: seq<nat>)
    requires WorldAt(w, m, slots) && m < |w.messages| && AllSendable(w.messages)
    requires forall i: nat :: i < Commands(w.messages[m]) && Start(w.messages, m) + i <= w.sender.newest ==>
      Got(w.messages, w.receiver, m, slots, m, i)
    ensures w.sender.newest < LastOf(w.messages, m + 1) && w.sender.queue != []
    ensures |w.sender.queue| >= w.sender.last - w.sender.newest > 0
  {
    hide Start, Got, Genuine, Tracked, Honest, Paced, Copied, Commands, Counted, Total, Wire, Window;
    var ms := w.messages;
    var i := SomethingMissing(ms, w.receiver, m, slots);
    StartNext(ms, m);
    StartLast(ms, m + 1);
    StartLast(ms, |ms|);
    StartGrows(ms, m + 1, |ms|);
  }

  /** Less is left to do for message m. */
  ghost predicate Closer(t: World, js': seq<nat>, w: World, m: nat, slots: seq<nat>)
    requires AllSendable(w.messages) && m < |w.messages| && t.messages == w.messages
  {
    var n := Commands(w.messages[m]);
    var a, b := Missing(t.messages, t.receiver, m, js', n), Missing(w.messages, w.receiver, m, slots, n);
    || Unsent(t, m) < Unsent(w, m)
    || (Unsent(t, m) == Unsent(w, m) && a < b)
    || (Unsent(t, m) == Unsent(w, m) && a == b && TriedInQueue(t.sender) < TriedInQueue(w.sender))
    || (Unsent(t, m) == Unsent(w, m) && a == b && TriedInQueue(t.sender) == TriedInQueue(w.sender) &&
      |t.sender.sent| < |w.sender.sent|)
  }

  ghost predicate Stepped(w: World, m: nat, slots: seq<nat>, keep: nat, events: seq<Event>, t: World, m': nat,
                          js': seq<nat>)
    requires AllSendable(w.messages) && m < |w.messages|
  {
    && PossibleRun(w, events) && AfterRun(w, events) == t && WorldAt(t, m', js') && Ready(t, keep)
    && t.messages == w.messages
    && (m' > m || (m' == m && Closer(t, js', w, m, slots)))
  }

  lemma FetchStep(w: World, m: nat, slots: seq<nat>, keep: nat, i: nat)
    returns (events: seq<Event>, t: World, m': nat, js': seq<nat>)
    requires WorldAt(w, m, slots) && Ready(w, keep) && m < |w.messages| && AllSendable(w.messages)
    requires i < Commands(w.messages[m])
    requires Start(w.messages, m) + i <= w.sender.newest && !Got(w.messages, w.receiver, m, slots, m, i)
    ensures Stepped(w, m, slots, keep, events, t, m', js')
  {
    hide WorldAt, Start, Got, Possible, After, Missing, Commands, LastOf, Recent, First, PossibleRun, AfterRun;
    var e;
    e, m', js' := Fetch(w, m, slots, i);
    t := After(w, e);
    events := [e];
    ArriveSame(w, e);
    RunOne(w, e);
  }

  lemma SendStep(w: World, m: nat, slots: seq<nat>, keep: nat)
    returns (events: seq<Event>, t: World, m': nat, js': seq<nat>)
    requires WorldAt(w, m, slots) && Ready(w, keep) && m < |w.messages| && AllSendable(w.messages)
    requires w.sender.newest < LastOf(w.messages, m + 1) && w.sender.queue != []
    requires |w.sender.queue| >= w.sender.last - w.sender.newest > 0 && MaySend(w.sender, keep)
    ensures Stepped(w, m, slots, keep, events, t, m', js')
  {
    hide WorldAt, Start, Possible, After, Missing, Commands, Window, LastOf, WindowWrap, Send, Retriable, PossibleRun,
      AfterRun, Once, Holds, MaySend;
    var s := w.sender;
    WorldSender(w, m, slots);
    WindowsThere(s);
    NoWrap(s, keep);
    var e := SentOne(w, m, slots, keep);
    SendNewest(s);
    RetryQueued(s);
    events, t, m', js' := [e], After(w, e), m, slots;
    RunOne(w, e);
  }

  lemma RetryQueued(s: Sender)
    requires SenderOk(s) && s.queue != []
    ensures s.queue[0].sendAttempts >= 1 ==> |s.queue| > s.last - s.newest
  {
    hide Counted, Total, Window, Wire;
    if s.queue[0].sendAttempts >= 1 {
      RetryFirst(s);
    }
  }

  lemma SettleStep(w: World, m: nat, slots: seq<nat>, keep: nat)
    returns (events: seq<Event>, t: World, m': nat, js': seq<nat>)
    requires WorldAt(w, m, slots) && Ready(w, keep) && m < |w.messages| && AllSendable(w.messages)
    requires !Cleared(w.sender, keep)
    requires Window(w.sender.newest) <= Window(LastOf(w.messages, m)) + 6
    ensures Stepped(w, m, slots, keep, events, t, m', js')
  {
    hide WorldAt, Start, Possible, After, Missing, Commands, Window, LastOf, Recent, First, PossibleRun, AfterRun, Once,
      Holds;
    var c :| c in w.sender.sent && c.id != keep;
    var e;
    e, m', js' := Settle(w, m, slots, keep, c);
    var u := After(w, e);
    ArriveSame(w, e);
    RunOne(w, e);
    events, t := [e], u;
    if m' == m {
      t := Settled(u, m, js', keep, c);
      var ack := AckArrives(c.id);
      RunOne(u, ack);
      RunThen(w, [e], [ack]);
      events := [e] + [ack];
    }
  }

  /** Within a message that fits, the next command is at most seven windows ahead. */
  lemma RoomAhead(w: World, m: nat)
    requires AllSendable(w.messages) && m < |w.messages| && Deliverable(w.messages, m)
    requires w.sender.newest < LastOf(w.messages, m + 1) && Window(w.sender.newest + 1) != Window(w.sender.newest)
    ensures Window(w.sender.newest) <= Window(LastOf(w.messages, m)) + 6
  {
    hide Start, Fits, Wire, LastOf, Deliverable;
    DeliverableIs(w.messages, m);
    WindowMonotone(w.sender.newest + 1, LastOf(w.messages, m + 1));
    SameWindow(w.sender.newest);
  }

  /** From every state in which all retries are recent, a message that fits is delivered by some continuation. */
  lemma {:induction false} DeliverNext(w: World, m: nat, slots: seq<nat>, keep: nat) returns (events: seq<Event>)
    requires WorldAt(w, m, slots) && Ready(w, keep) && m < |w.messages| && AllSendable(w.messages)
    requires Deliverable(w.messages, m) && (keep == 0 || Window(LastOf(w.messages, m + 1)) <= Window(keep) + 6)
    ensures PossibleRun(w, events) && Reached(w, AfterRun(w, events), m, keep)
    decreases
      Unsent(w, m), Missing(w.messages, w.receiver, m, slots, Commands(w.messages[m])), TriedInQueue(w.sender),
        |w.sender.sent|
  {
    hide WorldAt, Ready, Start, Got, Deliverable, Possible, After, Missing, Commands, Window, LastOf, Done, Unsent,
      TriedInQueue, PossibleRun, AfterRun;
    var ms, s := w.messages, w.sender;
    var t, m', js';
    if i: nat :| i < Commands(ms[m]) && Start(ms, m) + i <= s.newest && !Got(ms, w.receiver, m, slots, m, i) {
      events, t, m', js' := FetchStep(w, m, slots, keep, i);
    } else {
      MoreToSend(w, m, slots);
      WindowMonotone(s.newest + 1, LastOf(ms, m + 1));
      if MaySend(s, keep) {
        events, t, m', js' := SendStep(w, m, slots, keep);
      } else {
        RoomAhead(w, m);
        events, t, m', js' := SettleStep(w, m, slots, keep);
      }
    }
    if m' == m {
      var rest := DeliverNext(t, m, js', keep);
      RunThen(w, events, rest);
      events := events + rest;
    } else {
      DoneIs(t, m', js');
    }
  }

  // ----- the exact condition

  lemma {:induction false} StartPrefix(ms: seq<Message>, ms': seq<Message>, j: nat)
    requires AllSendable(ms') && ms <= ms' && j <= |ms|
    ensures AllSendable(ms) && Start(ms, j) == Start(ms', j)
    decreases j
  {
    hide Commands, Sendable;
    SendablePrefix(ms, ms');
    if j > 0 {
      StartPrefix(ms, ms', j - 1);
    }
  }

  lemma SendablePrefix(ms: seq<Message>, ms': seq<Message>)
    requires AllSendable(ms') && ms <= ms'
    ensures AllSendable(ms)
  {
    assert forall j :: 0 <= j < |ms| ==> ms[j] == ms'[j];
  }

  lemma {:induction false} RunExtends(w: World, events: seq<Event>)
    requires PossibleRun(w, events)
    ensures w.messages <= AfterRun(w, events).messages
    decreases |events|
  {
    hide After, Possible;
    if events != [] {
      EventExtends(w, events[0]);
      RunExtends(After(w, events[0]), events[1..]);
    }
  }

  lemma EventExtends(w: World, e: Event)
    requires Possible(w, e)
    ensures w.messages <= After(w, e).messages
  {
    hide SetUp, SendSome, Expire, Handle, Acknowledge, Take, QueueWellFormed;
  }

  /** A run after which more messages have been dispatched. */
  ghost predicate Advances(w: World, events: seq<Event>)
  {
    PossibleRun(w, events) && Done(AfterRun(w, events)) > Done(w)
  }

  lemma ReachableOk(run: seq<Event>)
    requires PossibleRun(Quiet(), run)
    ensures var w := AfterRun(Quiet(), run); WorldOk(w) && DoneFit(w) && Once(w.sender)
  {
    hide WorldOk, DoneFit, Once, PossibleRun, AfterRun;
    QuietOk();
    QuietFits();
    NewSenderOnce();
    RunOnce(Quiet(), run);
    DispatchedFit(Quiet(), run);
  }

  /**
   In every reachable state whose retries are recent the next message can get through exactly if it fits; one that does
   not blocks the channel.
   */
  lemma NextGetsThrough(run: seq<Event>)
    requires PossibleRun(Quiet(), run)
    requires var w := AfterRun(Quiet(), run); Retriable(w, 0) && Done(w) < |w.messages|
    ensures var w := AfterRun(Quiet(), run);
      AllSendable(w.messages) && ((exists events :: Advances(w, events)) <==> Deliverable(w.messages, Done(w)))
  {
    hide WorldAt, DoneFit, Retriable, Done, PossibleRun, AfterRun, Deliverable, Once;
    ReachableOk(run);
    var w := AfterRun(Quiet(), run);
    var done: nat, slots: seq<nat> :| WorldAt(w, done, slots);
    DoneIs(w, done, slots);
    if Deliverable(w.messages, done) {
      var events := DeliverNext(w, done, slots, 0);
      assert Advances(w, events);
    }
    if events :| Advances(w, events) {
      DispatchedFit(w, events);
      RunExtends(w, events);
      DeliveredFits(w, AfterRun(w, events), done);
    }
  }

  lemma DeliveredFits(w: World, t: World, j: nat)
    requires AllSendable(w.messages) && DoneFit(t) && j < Done(t) && w.messages <= t.messages && j < |w.messages|
    ensures Deliverable(w.messages, j)
  {
    hide Start, Fits, Commands, Done;
    assert Deliverable(t.messages, j);
    StartPrefix(w.messages, t.messages, j);
  }

  // ----- from the beginning

  /** Everything submitted is delivered while one command, unless keep is 0, stays unacknowledged. */
  lemma {:induction false} DeliverRest(w: World, keep: nat) returns (events: seq<Event>)
    requires WorldOk(w) && Ready(w, keep) && AllSendable(w.messages)
    requires forall j: nat :: j < |w.messages| ==> Deliverable(w.messages, j)
    requires keep == 0 || Window(LastOf(w.messages, |w.messages|)) <= Window(keep) + 6
    ensures PossibleRun(w, events) && WorldOk(AfterRun(w, events)) && Ready(AfterRun(w, events), keep)
    ensures var t := AfterRun(w, events); t.messages == w.messages && Done(t) == |w.messages|
    decreases |w.messages| - Done(w)
  {
    hide WorldAt, Ready, Done, Deliverable, LastOf, Window;
    var done: nat, slots: seq<nat> :| WorldAt(w, done, slots);
    DoneIs(w, done, slots);
    if done == |w.messages| {
      events := [];
    } else {
      LastGrows(w.messages, done + 1, |w.messages|);
      WindowMonotone(LastOf(w.messages, done + 1), LastOf(w.messages, |w.messages|));
      var first := DeliverNext(w, done, slots, keep);
      var rest := DeliverRest(AfterRun(w, first), keep);
      RunThen(w, first, rest);
      events := first + rest;
    }
  }

  /** Nothing has been sent. */
  predicate Untouched(w: World)
  {
    w.sender.newest == 0 && w.sender.sent == [] && forall c :: c in w.sender.queue ==> c.sendAttempts == 0
  }

  lemma {:induction false} SubmitAll(ms: seq<Message>) returns (events: seq<Event>)
    requires AllSendable(ms)
    ensures PossibleRun(Quiet(), events)
    ensures var w := AfterRun(Quiet(), events); w.messages == ms && WorldOk(w) && Untouched(w)
    decreases |ms|
  {
    hide WorldOk, After, Possible, Untouched, Sendable;
    if ms == [] {
      events := [];
      QuietOk();
      QuietUntouched();
    } else {
      var n := |ms| - 1;
      var first := SubmitAll(ms[..n]);
      var w := AfterRun(Quiet(), first);
      SubmitOne(w, ms[n]);
      EventOk(w, Submit(ms[n]));
      RunOne(w, Submit(ms[n]));
      RunThen(Quiet(), first, [Submit(ms[n])]);
      events := first + [Submit(ms[n])];
      assert ms[..n] + [ms[n]] == ms;
    }
  }

  lemma QuietUntouched()
    ensures Untouched(Quiet())
  {
  }

  lemma SubmitOne(w: World, m: Message)
    requires Untouched(w) && Sendable(m)
    ensures Possible(w, Submit(m)) && Untouched(After(w, Submit(m))) && After(w, Submit(m)).messages == w.messages + [m]
  {
    hide CommandsOf, Queued, Wire;
    var commands := CommandsOf(m, w.sender.last + 1);
    QueuedAre(commands, w.sender.last);
    assert forall i :: 0 <= i < |commands| ==> Queued(commands, w.sender.last)[i].sendAttempts == 0;
  }

  ghost predicate Delivers(ms: seq<Message>, events: seq<Event>)
  {
    && PossibleRun(Quiet(), events) && AfterRun(Quiet(), events).messages == ms &&
      Done(AfterRun(Quiet(), events)) == |ms|
  }

  /**
   Some run submits just these messages and dispatches all of them, exactly if every one fits.  By the order of delivery
   they then arrive as they were submitted; from the first that does not fit on, nothing arrives in any run.
   */
  lemma AllGetThrough(ms: seq<Message>)
    requires AllSendable(ms)
    ensures (exists events :: Delivers(ms, events)) <==> forall j: nat :: j < |ms| ==> Deliverable(ms, j)
  {
    hide WorldOk, Deliverable, PossibleRun, AfterRun, DoneFit, Done, Retriable, Once;
    if forall j: nat :: j < |ms| ==> Deliverable(ms, j) {
      var first := SubmitAll(ms);
      var w := AfterRun(Quiet(), first);
      UntouchedRetriable(w, 0);
      ReachableOk(first);
      var rest := DeliverRest(w, 0);
      RunThen(Quiet(), first, rest);
      assert Delivers(ms, first + rest);
    }
    if events :| Delivers(ms, events) {
      ReachableOk(events);
      forall j: nat | j < |ms| ensures Deliverable(ms, j) {
        DeliveredFits(AfterRun(Quiet(), events), AfterRun(Quiet(), events), j);
      }
    }
  }

  lemma UntouchedRetriable(w: World, keep: nat)
    requires Untouched(w)
    ensures Retriable(w, keep)
  {
  }

  // ----- which messages always fit

  /** Seven windows' worth of commands always fits, eight never do. */
  lemma SurelyFits(outgoing: Sequence, n: nat)
    ensures n <= 7 * ENET_PEER_RELIABLE_WINDOW_SIZE ==> Fits(outgoing, n)
    ensures n >= 8 * ENET_PEER_RELIABLE_WINDOW_SIZE ==> !Fits(outgoing, n)
  {
  }

  /** What the sender can check to keep all commands of a message, n of them, within four windows. */
  predicate Compact(outgoing: Sequence, n: nat)
  {
    (outgoing + 1) % ENET_PEER_RELIABLE_WINDOW_SIZE + n <= 4 * ENET_PEER_RELIABLE_WINDOW_SIZE
  }

  /** The commands of message j lie within four windows. */
  ghost predicate CompactAt(ms: seq<Message>, j: nat)
    requires AllSendable(ms) && j < |ms|
  {
    Compact(Wire(LastOf(ms, j)), Commands(ms[j]))
  }

  ghost predicate AllCompact(ms: seq<Message>)
  {
    AllSendable(ms) && forall j: nat :: j < |ms| ==> CompactAt(ms, j)
  }

  lemma CompactRange(last: nat, n: nat)
    requires n > 0
    ensures Compact(Wire(last), n) <==> Window(last + n) <= Window(last + 1) + 3
  {
    WireNext(last);
    PlaceInWindow(last + 1);
    PlaceInWindow(Wire(last) + 1);
    var a, b := (last + 1) / ENET_PEER_RELIABLE_WINDOW_SIZE, (last + 1) % ENET_PEER_RELIABLE_WINDOW_SIZE;
    assert last + n == a * ENET_PEER_RELIABLE_WINDOW_SIZE + (b + n - 1);
    assert Window(last + n) == a + (b + n - 1) / ENET_PEER_RELIABLE_WINDOW_SIZE;
  }

  lemma CompactIs(ms: seq<Message>, j: nat)
    requires AllSendable(ms) && j < |ms|
    ensures LastOf(ms, j) + 1 == Start(ms, j) <= LastOf(ms, j + 1) == LastOf(ms, j) + Commands(ms[j])
    ensures CompactAt(ms, j) <==> Window(LastOf(ms, j + 1)) <= Window(Start(ms, j)) + 3
  {
    hide Start, Window, Wire, Compact, Commands;
    StartNext(ms, j);
    StartLast(ms, j);
    StartLast(ms, j + 1);
    CommandsPositive(ms[j]);
    CompactRange(LastOf(ms, j), Commands(ms[j]));
  }

  /** A copy of a compact message that the sender could still send is recent. */
  lemma CompactRecent(ms: seq<Message>, j: nat, i: nat, x: Copy, newest: nat)
    requires Carries(ms, j, i, x.id, x.command) && CompactAt(ms, j) && Window(x.id) + 6 >= Window(newest)
    ensures Recent(First(x), newest)
  {
    hide Start, Window, Commands, Recent, First, CompactAt, CommandOf;
    FirstIs(ms, j, i, x);
    CompactIs(ms, j);
    WindowMonotone(x.id, LastOf(ms, j + 1));
    RecentIs(Start(ms, j), newest);
  }

  /** If the messages are compact, every retry is recent. */
  lemma RetriesRecent(w: World)
    requires WorldOk(w) && AllCompact(w.messages)
    ensures Retriable(w, 0)
  {
    hide WorldAt, Recent, First, Start, Window, Commands, Carries, CompactAt;
    var done: nat, slots: seq<nat> :| WorldAt(w, done, slots);
    forall c | c in w.sender.sent || (c in w.sender.queue && c.sendAttempts >= 1)
      ensures Recent(First(Copy(c.id, c.command)), w.sender.newest)
    {
      TriedThere(w, c);
      var j, i := HeldCarries(w, done, slots, c);
      CompactRecent(w.messages, j, i, Copy(c.id, c.command), w.sender.newest);
    }
  }

  lemma RecentIs(first: nat, newest: nat)
    ensures Recent(first, newest) <==> Window(first) + 9 >= Window(newest)
  {
  }

  /** In every reachable state, if all messages are compact, all can still be delivered. */
  lemma NeverStuck(events: seq<Event>)
    requires PossibleRun(Quiet(), events) && AllCompact(AfterRun(Quiet(), events).messages)
    ensures exists more ::
      PossibleRun(Quiet(), events + more)
      && AfterRun(Quiet(), events + more).messages == AfterRun(Quiet(), events).messages
      && Done(AfterRun(Quiet(), events + more)) == |AfterRun(Quiet(), events).messages|
  {
    hide WorldOk, PossibleRun, AfterRun, Done, Retriable, Commands, Deliverable, Once, DoneFit, CompactAt;
    var w := AfterRun(Quiet(), events);
    ReachableOk(events);
    RetriesRecent(w);
    forall j: nat | j < |w.messages| ensures Deliverable(w.messages, j) {
      CompactFits(w.messages, j);
    }
    var more := DeliverRest(w, 0);
    RunThen(Quiet(), events, more);
  }

  lemma CompactFits(ms: seq<Message>, j: nat)
    requires AllSendable(ms) && j < |ms| && CompactAt(ms, j)
    ensures Deliverable(ms, j)
  {
    hide Fits, Wire, Start, Commands;
    SurelyFits(Wire(LastOf(ms, j)), Commands(ms[j]));
  }

  /** A packet of 28.6 megabytes, which makes 32768 fragments at the default MTU. */
  function BlockingPacket(): Message
  {
    Message(seq(8 * ENET_PEER_RELIABLE_WINDOW_SIZE * 872, _ => 0), 872)
  }

  lemma BlockingPacketIs()
    ensures BlockingPacket().fragmentLength == FragmentLength(ENET_HOST_DEFAULT_MTU, false)
    ensures Acceptable(BlockingPacket(), ENET_HOST_DEFAULT_MAXIMUM_PACKET_SIZE)
    ensures Commands(BlockingPacket()) == 8 * ENET_PEER_RELIABLE_WINDOW_SIZE
  {
  }

  /**
   A host with the default limits takes it, it is never delivered, in no run, and no packet of fewer fragments is as bad
   on a fresh channel.
   */
  lemma BlocksFreshChannel()
    ensures BlockingPacket().fragmentLength == FragmentLength(ENET_HOST_DEFAULT_MTU, false)
    ensures Acceptable(BlockingPacket(), ENET_HOST_DEFAULT_MAXIMUM_PACKET_SIZE)
    ensures !exists events :: Delivers([BlockingPacket()], events)
    ensures forall m :: Sendable(m) && Commands(m) < Commands(BlockingPacket()) ==>
      exists events :: Delivers([m], events)
  {
    hide Delivers, BlockingPacket;
    var b := BlockingPacket();
    BlockingPacketIs();
    OneMessage(b);
    forall m | Sendable(m) && Commands(m) < Commands(b) ensures exists events :: Delivers([m], events) {
      OneMessage(m);
    }
  }

  lemma OneMessage(m: Message)
    requires Sendable(m)
    ensures (exists events :: Delivers([m], events)) <==> Commands(m) < 8 * ENET_PEER_RELIABLE_WINDOW_SIZE
  {
    hide Commands, Delivers;
    AllGetThrough([m]);
    StartZero([m]);
    StartLast([m], 0);
    assert [m][0] == m;
    assert Deliverable([m], 0) <==> Commands(m) < 8 * ENET_PEER_RELIABLE_WINDOW_SIZE;
  }
}
