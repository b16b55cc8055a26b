/**
 What comes of a retry that is taken for a new message.  The message that bears its number a full turn later is
 acknowledged and dropped, and the channel is stuck; this happens to messages that are not compact, and to no others.
 */
module EnetLoss {
  import opened Basics
  import opened EnetWindows
  import opened EnetMessages
  import opened EnetSender
  import opened EnetReceiver
  import opened EnetOrder
  import opened EnetDelivery
  import opened EnetCounters
  import opened EnetProgress
  import opened EnetRetries
  import opened EnetOwnRuns
  import opened EnetStuck

  // ----- acknowledging the rest

  function Size(s: Sender): nat
  {
    |s.sent| + |s.queue|
  }

  ghost predicate HoldsOnly(s: Sender, keep: nat)
  {
    forall c :: c in s.sent || c in s.queue ==> c.id == keep
  }

  lemma AllTried(s: Sender, c: Outgoing)
    requires SenderOk(s) && s.newest == s.last && (c in s.sent || c in s.queue)
    ensures Tried(c, s.newest)
  {
    hide Counted, Total, Wire, Window;
    if c in s.sent {
      var i :| 0 <= i < |s.sent| && s.sent[i] == c;
    } else {
      var i :| 0 <= i < |s.queue| && s.queue[i] == c;
    }
  }

  lemma {:induction false} TriedFound(l: seq<Outgoing>, number: Sequence)
    requires forall c :: c in l ==> c.sendAttempts >= 1
    requires exists c :: c in l && c.number == number
    ensures FindTried(l, number).Some?
    decreases |l|
  {
    var c :| c in l && c.number == number;
    assert l[0] in l && forall d :: d in l[1..] ==> d in l;
    if l[0].number != number {
      assert c in l[1..];
      TriedFound(l[1..], number);
    }
  }

  /** An acknowledgement of a command that is held leaves one less. */
  lemma AcknowledgeShrinks(s: Sender, c: Outgoing)
    requires SenderOk(s) && s.newest == s.last && (c in s.sent || c in s.queue)
    ensures Size(Acknowledge(s, c.number)) == Size(s) - 1
    ensures forall d :: d in Acknowledge(s, c.number).sent ==> d in s.sent
    ensures forall d :: d in Acknowledge(s, c.number).queue ==> d in s.queue
  {
    hide Counted, Ordered, Total, Wire, Window, Uncounted, Without;
    WindowsThere(s);
    FoundNumber(s.sent, c.number);
    FoundTried(s.queue, c.number);
    UncountedRest(s, c.number);
    forall d | d in s.queue ensures d.sendAttempts >= 1 {
      AllTried(s, d);
    }
    match FindNumber(s.sent, c.number)
    case Some(i) =>
      WithoutIs(s.sent, i);
      WithoutAmong(s.sent, i);
    case None =>
      TriedFound(s.queue, c.number);
      var i := FindTried(s.queue, c.number).value;
      WithoutIs(s.queue, i);
      WithoutAmong(s.queue, i);
  }

  /** Everything sent and delivered, except for the kept command perhaps, can be acknowledged. */
  ghost predicate Delivered(w: World, keep: nat)
  {
    && WorldOk(w) && AllSendable(w.messages) && Done(w) == |w.messages| && Ready(w, keep) && keep > 0
    && w.sender.newest == w.sender.last == LastOf(w.messages, |w.messages|)
  }

  lemma AllSent(w: World, keep: nat)
    requires WorldOk(w) && AllSendable(w.messages) && Done(w) == |w.messages| && Ready(w, keep) && keep > 0
    ensures Delivered(w, keep)
  {
    hide SenderOk, ReceiverOk, Genuine, Honest, Paced, Copied, Start, Ready, Done, Commands, Holds;
    var done: nat, slots: seq<nat> :| WorldAt(w, done, slots);
    DoneIs(w, done, slots);
    NewestLast(w.sender);
    StartLast(w.messages, |w.messages|);
    if w.messages != [] {
      var j := |w.messages| - 1;
      CommandsPositive(w.messages[j]);
      StartNext(w.messages, j);
      assert Got(w.messages, w.receiver, done, slots, j, Commands(w.messages[j]) - 1);
    } else {
      StartZero(w.messages);
    }
  }

  lemma SettleOne(w: World, keep: nat, c: Outgoing) returns (events: seq<Event>, t: World)
    requires Delivered(w, keep) && (c in w.sender.sent || c in w.sender.queue) && c.id != keep
    ensures PossibleRun(w, events) && AfterRun(w, events) == t && Delivered(t, keep)
    ensures t.messages == w.messages && t.receiver == w.receiver && Size(t.sender) < Size(w.sender)
  {
    hide WorldAt, Ready, Done, LastOf, Possible, After, PossibleRun, AfterRun, Retriable, First, Recent, Window, Wire,
      Unacknowledged, Carries, Once, Holds, Near, Commands, Start, Handle;
    var done: nat, slots: seq<nat> :| WorldAt(w, done, slots);
    DoneIs(w, done, slots);
    var ms := w.messages;
    WorldSender(w, done, slots);
    AllTried(w.sender, c);
    var j, i := HeldCarries(w, done, slots, c);
    RetryRecent(w, keep, c);
    ArrivalPossible(w, done, slots, j, i, c.id, c.command);
    var e := Arrival(c.id, c.command, ms[j]);
    OldIsNotTakenForNew(w, done, slots, e, j, i);
    var m', js', new_ := ArriveAt(w, e, done, slots, j, i);
    var u := After(w, e);
    ArriveSame(w, e);
    DoneIs(u, m', js');
    CloseAcknowledged(c.id, LastOf(ms, done), w.sender.newest);
    AckPossible(u, c.id);
    SameDelivered(w, u, m', js', keep);
    t := Acknowledged(u, m', js', keep, c);
    var ack := AckArrives(c.id);
    RunOne(w, e);
    RunOne(u, ack);
    RunThen(w, [e], [ack]);
    events := [e] + [ack];
  }

  lemma SameDelivered(w: World, u: World, done: nat, slots: seq<nat>, keep: nat)
    requires Delivered(w, keep) && WorldAt(u, done, slots)
    requires u.messages == w.messages && u.sender == w.sender && u.receiver == w.receiver
    ensures Delivered(u, keep)
  {
    hide WorldAt, Recent, First, Once, Holds, LastOf;
  }

  lemma RetryRecent(w: World, keep: nat, c: Outgoing)
    requires Ready(w, keep) && (c in w.sender.sent || (c in w.sender.queue && c.sendAttempts >= 1)) && c.id != keep
    ensures Recent(First(Copy(c.id, c.command)), w.sender.newest)
  {
    hide Recent, First, Once, Holds;
  }

  lemma Acknowledged(w: World, done: nat, slots: seq<nat>, keep: nat, c: Outgoing) returns (t: World)
    requires WorldAt(w, done, slots) && Delivered(w, keep) && (c in w.sender.sent || c in w.sender.queue)
    requires c.id != keep && Possible(w, AckArrives(c.id))
    ensures t == After(w, AckArrives(c.id)) && Delivered(t, keep)
    ensures t.messages == w.messages && t.receiver == w.receiver && Size(t.sender) < Size(w.sender)
  {
    hide WorldAt, Recent, First, Possible, Held, Holds, Wire, Window, LastOf, Acknowledge;
    var s := w.sender;
    WorldSender(w, done, slots);
    WindowsThere(s);
    AllTried(s, c);
    t := After(w, AckArrives(c.id));
    AckArrivesOk(w, c.id, done, slots);
    AcknowledgeOk(s, c.number);
    AcknowledgeShrinks(s, c);
    AcknowledgeOnce(s, c.number);
    HeldLess(s, t.sender);
    AckRecent(w, c.id);
    AcknowledgeHolds(s, c.id, keep);
    assert WorldAt(t, done, slots);
  }

  lemma AckRecent(w: World, k: nat)
    requires Possible(w, AckArrives(k))
    ensures Window(k) + 9 >= Window(w.sender.newest)
  {
  }

  lemma {:induction false} SettleAll(w: World, keep: nat) returns (events: seq<Event>, t: World)
    requires Delivered(w, keep)
    ensures PossibleRun(w, events) && AfterRun(w, events) == t && Delivered(t, keep) && HoldsOnly(t.sender, keep)
    ensures t.messages == w.messages && t.receiver == w.receiver
    decreases Size(w.sender)
  {
    hide Delivered, PossibleRun, AfterRun, Size;
    if HoldsOnly(w.sender, keep) {
      events, t := [], w;
      RunNothing(w);
    } else {
      var c :| (c in w.sender.sent || c in w.sender.queue) && c.id != keep;
      var first, u := SettleOne(w, keep, c);
      var rest;
      rest, t := SettleAll(u, keep);
      RunThen(w, first, rest);
      events := first + rest;
    }
  }

  lemma RunNothing(w: World)
    ensures PossibleRun(w, []) && AfterRun(w, []) == w
  {
  }

  // ----- the retry arrives

  /** Everything is acknowledged, and the receiver waits for more of a message with the given start. */
  ghost predicate Idle(w: World, q: nat, start: nat)
  {
    && AllSendable(w.messages) && Done(w) == |w.messages|
    && w.sender.newest == w.sender.last == LastOf(w.messages, |w.messages|) == q
    && SenderOk(w.sender) && Size(w.sender) == 0 && Genuine(w) && (forall k :: k in w.acks ==> k <= q)
    && start < q < start + NUMBERS && Waits(w.receiver, q, start)
  }

  ghost predicate Waits(s: Receiver, q: nat, start: nat)
  {
    && s.incoming == Wire(q) && |s.queue| == 1 && EntryWellFormed(s.queue[0]) && InOrder(s.queue, s.incoming)
    && s.queue[0].number == Wire(start) && s.queue[0].fragmentsRemaining > 0
  }

  lemma {:induction false} IdsAll(l: seq<Outgoing>, k: nat)
    requires forall c :: c in l ==> c.id == k
    ensures Ids(l)[k] == |l|
    decreases |l|
  {
    if l != [] {
      assert l[0] in l && forall c :: c in l[1..] ==> c in l;
      IdsAll(l[1..], k);
    }
  }

  lemma OnlyOne(s: Sender, keep: nat)
    requires Once(s) && HoldsOnly(s, keep) && Holds(s, keep)
    ensures Size(s) == 1
  {
    hide Ids;
    IdsAll(s.sent, keep);
    IdsAll(s.queue, keep);
    assert Held(s)[keep] <= 1;
  }

  lemma KeptAlone(w: World, keep: nat) returns (c: Outgoing)
    requires Delivered(w, keep) && HoldsOnly(w.sender, keep)
    ensures (c in w.sender.sent || c in w.sender.queue) && c.id == keep && Size(w.sender) == 1
    ensures SenderOk(w.sender) && c.number == Wire(keep) && 1 <= keep <= w.sender.newest
    ensures Genuine(w) && forall k :: k in w.acks ==> k <= w.sender.newest
  {
    hide SenderOk, ReceiverOk, Tracked, Paced, Copied, Genuine, LastOf, Done, Once, Wire, Window;
    var done: nat, slots: seq<nat> :| WorldAt(w, done, slots);
    c :| (c in w.sender.sent || c in w.sender.queue) && c.id == keep;
    AllTried(w.sender, c);
    OnlyOne(w.sender, keep);
  }

  /** A retry of the long message arrives, and then its acknowledgement. */
  lemma RetryArrives(t: World, ms: seq<Message>) returns (events: seq<Event>)
    requires ms != [] && AllSendable(ms) && TenOn(t, ms) && Delivered(t, LastOf(ms, |ms|))
    requires Deliverable(ms, |ms| - 1) && !CompactAt(ms, |ms| - 1) && HoldsOnly(t.sender, LastOf(ms, |ms|))
    ensures PossibleOwnRun(t, events) && AfterOwnRun(t, events).messages == t.messages
    ensures Idle(AfterOwnRun(t, events), TenWindowsOn(ms), Start(ms, |ms| - 1))
  {
    hide TenOn, Delivered, Start, Commands, Holds, Window, Wire, LastOf, CommandOf, Done, TenWindowsOn, CompactAt,
      Deliverable, Handle, HoldsOnly, Genuine, SenderOk, Acknowledge, Unacknowledged, Recent, Size, EntryWellFormed,
      Possible, PossibleOwn, AfterOwn, PossibleOwnRun, AfterOwnRun, After, Arrived;
    var m, start, r, keep := ms[|ms| - 1], Start(ms, |ms| - 1), TenWindowsOn(ms), LastOf(ms, |ms|);
    var x := LastCopy(ms);
    var i := LastCopyThere(t, ms);
    TenWindowsIs(ms);
    var entry := PhantomEntry(t.receiver, m, start, r);
    var c := KeptAlone(t, keep);
    DeliveredIs(t, keep, ms);
    CloseAcknowledged(keep, r, r);
    FirstIs(t.messages, |ms| - 1, i, x);
    var e := Arrive(x, true, |m.payload|, seq(|m.payload|, _ => 0));
    RetryIs(t, e);
    var u := AfterOwn(t, e);
    ArrivedIs(t, e, entry);
    AckOwn(u, keep);
    var a := AckArrives(keep);
    var v := AfterOwn(u, a);
    AcknowledgeOk(t.sender, Wire(keep));
    AcknowledgeShrinks(t.sender, c);
    IdleGenuine(t, v);
    OwnOne(t, e);
    OwnOne(u, a);
    OwnThen(t, [e], [a]);
    events := [e] + [a];
    DoneSame(t, v);
    AloneInOrder(v.receiver.queue, r, start);
    assert Idle(v, r, start);
  }

  /** Less than a full turn after its start, a waiting command lies ahead of the receiver. */
  lemma AloneInOrder(queue: seq<Entry>, q: nat, start: nat)
    requires start < q < start + NUMBERS && |queue| == 1 && queue[0].number == Wire(start)
    ensures InOrder(queue, Wire(q))
  {
    assert Wire(start) == Wire(start + NUMBERS);
    WireOffset(start + NUMBERS, q);
  }

  lemma DeliveredIs(t: World, keep: nat, ms: seq<Message>)
    requires ms != [] && AllSendable(ms) && TenOn(t, ms) && Delivered(t, keep)
    ensures t.sender.newest == t.sender.last == TenWindowsOn(ms) && AllSendable(t.messages)
    ensures LastOf(t.messages, |t.messages|) == TenWindowsOn(ms) && Done(t) == |t.messages|
  {
    hide WorldOk, LastOf, Done, TenWindowsOn, Ready;
  }

  lemma RetryIs(t: World, e: Event)
    requires e.Arrive? && e.copy in t.net && Holds(t.sender, e.copy.id) && t.receiver.queue == []
    requires e.copy.command.Fragment? && |e.blank| == e.copy.command.totalLength
    ensures PossibleOwn(t, e) && AfterOwn(t, e) == Arrived(t, e.copy, e.space, e.maximumPacketSize, e.blank)
  {
    hide Holds, Arrived;
  }

  lemma ArrivedIs(t: World, e: Event, entry: Entry)
    requires PossibleOwn(t, e) && e.Arrive? && !Unacknowledged(e.copy.command.number, t.receiver.incoming)
    requires QueueWellFormed(t.receiver.queue)
    requires e.copy.command.Fragment? && |e.blank| == e.copy.command.totalLength
    requires Handle(t.receiver, e.copy.command, e.space, e.maximumPacketSize, e.blank) ==
      (t.receiver.(queue := [entry]), true)
    ensures AfterOwn(t, e) == t.(receiver := t.receiver.(queue := [entry]), acks := t.acks + {e.copy.id})
  {
    hide Handle, Unacknowledged, PossibleOwn;
  }

  lemma AckOwn(u: World, k: nat)
    requires k in u.acks && Window(k) + 6 >= Window(u.sender.newest) && SenderOk(u.sender)
    ensures PossibleOwn(u, AckArrives(k))
    ensures AfterOwn(u, AckArrives(k)) == u.(sender := Acknowledge(u.sender, Wire(k)))
  {
    hide Acknowledge, SenderOk, Wire, Window, Recent;
    AckPossible(u, k);
    WindowsThere(u.sender);
  }

  lemma IdleGenuine(t: World, v: World)
    requires Genuine(t) && v.messages == t.messages && v.net == t.net && v.sender.newest == t.sender.newest
    requires Size(v.sender) == 0
    ensures Genuine(v)
  {
    hide IsCommand;
  }

  lemma DoneSame(t: World, v: World)
    requires v.receiver.taken == t.receiver.taken && v.receiver.dispatched == t.receiver.dispatched
    ensures Done(v) == Done(t)
  {
  }

  // ----- short messages go round the circle of numbers

  function OneShort(): Message { Message([], 1) }

  lemma ShortCommand(q: nat)
    ensures Sendable(OneShort()) && Commands(OneShort()) == 1
    ensures CommandsOf(OneShort(), q + 1) == [Reliable(Wire(q + 1), [])]
  {
    hide Wire;
    ShortIs(OneShort(), q + 1);
  }

  function ShortQueued(q: nat): Outgoing
  {
    Outgoing(q + 1, Wire(q + 1), 0, 0, Reliable(Wire(q + 1), []))
  }

  lemma ShortSetUp(s: Sender, q: nat)
    requires s.last == q && s.queue == []
    ensures SetUp(s, CommandsOf(OneShort(), q + 1)) == s.(queue := [ShortQueued(q)], last := q + 1)
  {
    hide Wire, CommandsOf;
    ShortCommand(q);
    var commands := [Reliable(Wire(q + 1), [])];
    assert commands[1..] == [];
    assert Queued([], q + 1) == [];
    assert Queued(commands, q) == [ShortQueued(q)];
  }

  lemma NothingCounted(s: Sender)
    requires SenderOk(s) && s.sent == [] && forall c :: c in s.queue ==> c.sendAttempts == 0
    ensures s.used == {} && forall w :: 0 <= w < ENET_PEER_RELIABLE_WINDOWS ==> s.windows[w] == 0
  {
    hide Ordered, Total;
    forall w | 0 <= w < ENET_PEER_RELIABLE_WINDOWS ensures s.windows[w] == 0 {
      CountNone(s.sent, w);
      CountNone(s.queue, w);
    }
  }

  /** After a short message has been submitted and sent. */
  ghost predicate Flying(u: World, q: nat, start: nat)
  {
    && AllSendable(u.messages) && Done(u) + 1 == |u.messages| && u.messages[|u.messages| - 1] == OneShort()
    && u.sender.newest == u.sender.last == LastOf(u.messages, |u.messages|) == q + 1
    && SenderOk(u.sender) && Genuine(u) && (forall k :: k in u.acks ==> k <= q)
    && start < q < start + NUMBERS && Waits(u.receiver, q, start)
    && u.sender.queue == [] && u.sender.sent == [ShortQueued(q).(sendAttempts := 1)]
    && Copy(q + 1, Reliable(Wire(q + 1), [])) in u.net
  }

  lemma ShortSent(s: Sender, q: nat)
    requires SenderOk(s) && s.sent == [] && s.queue == [ShortQueued(q)] && s.newest == q && s.last == q + 1
    ensures |s.windows| == ENET_PEER_RELIABLE_WINDOWS
    ensures SendSome(s, 1, Ample(s)) == (Send(s), [ShortQueued(q)]) && SenderOk(Send(s))
    ensures Send(s).sent == [ShortQueued(q).(sendAttempts := 1)] && Send(s).queue == []
    ensures Send(s).newest == Send(s).last == q + 1
  {
    hide SenderOk, Wire, Window, Send, SendSome;
    WindowsThere(s);
    NothingCounted(s);
    hide Mask, ShortQueued;
    NoneWrap(s);
    SendsOne(s);
    SendOk(s, Ample(s));
    SendNewest(s);
    QueuedNew(q);
  }

  lemma NoneWrap(s: Sender)
    requires |s.windows| == ENET_PEER_RELIABLE_WINDOWS && s.queue != [] && s.used == {}
    requires forall w :: 0 <= w < ENET_PEER_RELIABLE_WINDOWS ==> s.windows[w] == 0
    ensures !WindowWrap(s, s.queue[0])
  {
    hide Mask, Window;
    WindowSmall(s.queue[0].number);
  }

  lemma QueuedNew(q: nat)
    ensures ShortQueued(q).sendAttempts == 0
  {
  }

  lemma ShortFlies(w: World, q: nat, start: nat) returns (events: seq<Event>)
    requires Idle(w, q, start)
    ensures PossibleOwnRun(w, events) && Flying(AfterOwnRun(w, events), q, start)
    ensures AfterOwnRun(w, events).messages == w.messages + [OneShort()]
  {
    hide Start, SenderOk, Genuine, Wire, Window, Commands, CommandsOf, SetUp, SendSome, Send, Waits, OneShort,
      ShortQueued, Copies, Done;
    var m := OneShort();
    ShortCommand(q);
    ShortSetUp(w.sender, q);
    MessagesKept(w.messages, m);
    SetUpOk(w.sender, CommandsOf(m, q + 1));
    var u := After(w, Submit(m));
    SubmitGenuine(w, m, u);
    ShortSent(u.sender, q);
    var limit := Ample(u.sender);
    var v := After(u, Transmit(1, limit));
    assert v.sender == Send(u.sender);
    QueuedCopy(q);
    SentGenuine(u, v, q);
    DoneSame(w, v);
    assert Flying(v, q, start);
    hide Flying, Idle, Possible, PossibleRun, AfterRun, After;
    RunOne(w, Submit(m));
    RunOne(u, Transmit(1, limit));
    RunThen(w, [Submit(m)], [Transmit(1, limit)]);
    events := [Submit(m)] + [Transmit(1, limit)];
    PossibleIsOwn(w, events);
  }

  lemma QueuedCopy(q: nat)
    ensures Copies([ShortQueued(q)]) == {Copy(q + 1, Reliable(Wire(q + 1), []))}
  {
  }

  lemma SentGenuine(u: World, v: World, q: nat)
    requires Genuine(u) && v.messages == u.messages && u.sender.queue == [ShortQueued(q)] && u.sender.sent == []
    requires v.net == u.net + {Copy(q + 1, Reliable(Wire(q + 1), []))} && v.sender.newest == q + 1 >= u.sender.newest
    requires v.sender.queue == [] && v.sender.sent == [ShortQueued(q).(sendAttempts := 1)]
    ensures Genuine(v)
  {
    hide IsCommand, Wire;
    assert ShortQueued(q) in u.sender.queue;
  }

  /** The short message arrives, and is acknowledged. */
  lemma ShortLands(u: World, q: nat, start: nat, t: Receiver) returns (events: seq<Event>)
    requires Flying(u, q, start) && t.incoming in {Wire(q), Wire(q + 1)}
    requires QueueWellFormed(u.receiver.queue) && HandleReliable(u.receiver, Wire(q + 1), [], true, 0) == (t, true)
    ensures PossibleOwnRun(u, events)
    ensures var v := AfterOwnRun(u, events);
      && v == u.(receiver := t, acks := u.acks + {q + 1}, sender := Acknowledge(u.sender, Wire(q + 1)))
      && SenderOk(v.sender) && Size(v.sender) == 0 && v.sender.newest == v.sender.last == q + 1 && Genuine(v)
  {
    hide SenderOk, Genuine, Wire, Window, HandleReliable, Waits, OneShort, Acknowledge, Unacknowledged, Done, LastOf;
    var x := Copy(q + 1, Reliable(Wire(q + 1), []));
    var e, a := Arrive(x, true, 0, []), AckArrives(q + 1);
    NextAcknowledged(q);
    RecentIs(q + 1, q + 1);
    var c := ShortQueued(q).(sendAttempts := 1);
    WindowsThere(u.sender);
    var v1 := u.(receiver := t, acks := u.acks + {q + 1});
    AcknowledgeOk(u.sender, Wire(q + 1));
    AcknowledgeShrinks(u.sender, c);
    var v := v1.(sender := Acknowledge(u.sender, Wire(q + 1)));
    IdleGenuine(u, v);
    ShortArrives(u, q, t);
    hide Flying, PossibleOwn, AfterOwn;
    AckOwn(v1, q + 1);
    OwnOne(u, e);
    OwnOne(v1, a);
    OwnThen(u, [e], [a]);
    events := [e] + [a];
  }

  lemma ShortArrives(u: World, q: nat, t: Receiver)
    requires Copy(q + 1, Reliable(Wire(q + 1), [])) in u.net && u.sender.newest == q + 1
    requires QueueWellFormed(u.receiver.queue) && HandleReliable(u.receiver, Wire(q + 1), [], true, 0) == (t, true)
    requires !Unacknowledged(Wire(q + 1), t.incoming)
    ensures var e := Arrive(Copy(q + 1, Reliable(Wire(q + 1), [])), true, 0, []);
      PossibleOwn(u, e) && AfterOwn(u, e) == u.(receiver := t, acks := u.acks + {q + 1})
  {
    hide HandleReliable, Wire, Window, Unacknowledged, QueueWellFormed;
    RecentIs(q + 1, q + 1);
  }

  lemma NextAcknowledged(q: nat)
    ensures !Unacknowledged(Wire(q + 1), Wire(q)) && !Unacknowledged(Wire(q + 1), Wire(q + 1))
    ensures Accepts(Wire(q + 1), Wire(q)) && Wire(q + 1) != Wire(q)
  {
    NextWindow(q);
    WindowMonotone(q, q + 1);
    NewTurnedDown(q + 1, q);
    NewTurnedDown(q + 1, q + 1);
    OffsetOne(0, q);
  }

  /** Before the full turn, a short message is dispatched past the waiting command. */
  lemma ShortDispatched(s: Receiver, q: nat, start: nat)
    requires Waits(s, q, start) && start < q && q + 1 < start + NUMBERS
    ensures HandleReliable(s, Wire(q + 1), [], true, 0) ==
      (Receiver(Wire(q + 1), s.queue, s.dispatched + [[]], s.taken), true)
  {
    hide Wire, Accepts, Offset;
    NextAcknowledged(q);
    OffsetOne(0, q);
    WaitingOffset(q, start);
    var e := Entry(Wire(q + 1), 0, 0, [], []);
    assert Place(s.queue, s.incoming, e.number) == 0;
    assert s.queue[0].number != e.number;
    assert Inserted(s.queue, 0, e) == [e] + s.queue;
    var t := s.(queue := [e] + s.queue);
    WireNext(q);
    assert t.queue[1..] == s.queue;
    var after := Receiver(Wire(q + 1), s.queue, s.dispatched + [[]], s.taken);
    assert Dispatch(t) == Dispatch(after);
  }

  lemma WaitingOffset(q: nat, start: nat)
    requires start < q && q + 1 < start + NUMBERS
    ensures Offset(Wire(start), Wire(q)) > 1 && Wire(start) != Wire(q + 1)
  {
    assert Wire(start) == Wire(start + NUMBERS);
    WireOffset(start + NUMBERS, q);
    WireOffset(q + 1, q);
  }

  /** After the full turn it is taken for the waiting command, acknowledged and dropped. */
  lemma ShortDropped(s: Receiver, q: nat, start: nat)
    requires Waits(s, q, start) && q + 1 == start + NUMBERS
    ensures HandleReliable(s, Wire(q + 1), [], true, 0) == (s, true)
  {
    assert Wire(start) == Wire(q + 1);
    hide Wire, Offset;
    OffsetOne(0, q);
  }

  lemma GoRound(w: World, q: nat, start: nat) returns (events: seq<Event>)
    requires Idle(w, q, start) && q + 1 < start + NUMBERS
    ensures PossibleOwnRun(w, events) && Idle(AfterOwnRun(w, events), q + 1, start)
    ensures AfterOwnRun(w, events).messages == w.messages + [OneShort()]
  {
    hide Idle, Wire, HandleReliable, Size, SenderOk, Genuine, PossibleOwnRun, AfterOwnRun, OneShort, LastOf, Done,
      Acknowledge, ShortQueued, Waits;
    var first := ShortFlies(w, q, start);
    var u := AfterOwnRun(w, first);
    WaitsFormed(u.receiver, q, start);
    ShortDispatched(u.receiver, q, start);
    var t := Receiver(Wire(q + 1), u.receiver.queue, u.receiver.dispatched + [[]], u.receiver.taken);
    var rest := ShortLands(u, q, start, t);
    OwnThen(w, first, rest);
    events := first + rest;
    WaitsNext(u.receiver, q, start);
    OneMoreDone(u, AfterOwnRun(u, rest));
    assert Idle(AfterOwnRun(u, rest), q + 1, start) by {
      IdleNow(AfterOwnRun(u, rest), q + 1, start);
    }
  }

  lemma IdleNow(w: World, q: nat, start: nat)
    requires AllSendable(w.messages) && Done(w) == |w.messages|
    requires w.sender.newest == w.sender.last == LastOf(w.messages, |w.messages|) == q
    requires SenderOk(w.sender) && Size(w.sender) == 0 && Genuine(w) && forall k :: k in w.acks ==> k <= q
    requires start < q < start + NUMBERS && Waits(w.receiver, q, start)
    ensures Idle(w, q, start)
  {
    hide Done, LastOf, SenderOk, Size, Genuine, Waits;
  }

  lemma WaitsFormed(s: Receiver, q: nat, start: nat)
    requires Waits(s, q, start)
    ensures QueueWellFormed(s.queue)
  {
  }

  lemma WaitsNext(s: Receiver, q: nat, start: nat)
    requires Waits(s, q, start) && start < q && q + 1 < start + NUMBERS
    ensures Waits(Receiver(Wire(q + 1), s.queue, s.dispatched + [[]], s.taken), q + 1, start)
  {
    hide Wire, EntryWellFormed, InOrder;
    AloneInOrder(s.queue, q + 1, start);
  }

  lemma OneMoreDone(u: World, v: World)
    requires v.receiver.taken == u.receiver.taken && v.receiver.dispatched == u.receiver.dispatched + [[]]
    ensures Done(v) == Done(u) + 1
  {
  }

  /** On to the last number before the full turn. */
  lemma {:induction false} GoAllRound(w: World, q: nat, start: nat, ms: seq<Message>, n: nat)
    returns (events: seq<Event>, n': nat)
    requires Idle(w, q, start) && w.messages == ms + Shorts(n)
    ensures PossibleOwnRun(w, events) && Idle(AfterOwnRun(w, events), start + NUMBERS - 1, start)
    ensures AfterOwnRun(w, events).messages == ms + Shorts(n')
    decreases start + NUMBERS - q
  {
    hide PossibleOwnRun, AfterOwnRun, Shorts, OneShort;
    IdleBefore(w, q, start);
    hide Idle;
    if q + 1 == start + NUMBERS {
      events, n' := [], n;
      OwnNothing(w);
    } else {
      var first := GoRound(w, q, start);
      OneMoreShort(ms, n);
      var rest;
      rest, n' := GoAllRound(AfterOwnRun(w, first), q + 1, start, ms, n + 1);
      OwnThen(w, first, rest);
      events := first + rest;
    }
  }

  lemma IdleBefore(w: World, q: nat, start: nat)
    requires Idle(w, q, start)
    ensures start < q < start + NUMBERS
  {
    hide SenderOk, Genuine, LastOf, Done, Waits;
  }

  lemma OwnNothing(w: World)
    ensures PossibleOwnRun(w, []) && AfterOwnRun(w, []) == w
  {
  }

  lemma OneMoreShort(ms: seq<Message>, n: nat)
    ensures ms + Shorts(n) + [OneShort()] == ms + Shorts(n + 1)
  {
  }

  // ----- the loss

  /** Message j is lost, and no continuation delivers it. */
  ghost predicate LostForGood(w: World, j: nat)
  {
    Lost(w, j) && forall more :: PossibleOwnRun(w, more) ==> Done(AfterOwnRun(w, more)) <= j
  }

  lemma LastDropped(w: World, start: nat) returns (events: seq<Event>)
    requires Idle(w, start + NUMBERS - 1, start)
    ensures PossibleOwnRun(w, events) && AfterOwnRun(w, events).messages == w.messages + [OneShort()]
    ensures Stuck(AfterOwnRun(w, events), start + NUMBERS - 1, |w.messages|)
    ensures |AfterOwnRun(w, events).receiver.queue| == 1
  {
    hide Idle, Wire, Window, HandleReliable, SenderOk, Genuine, PossibleOwnRun, AfterOwnRun, LastOf, Done,
      Acknowledge, ShortQueued, Waits, Holds, KeepsPace, Front, Start, OneShort;
    var q := start + NUMBERS - 1;
    var first := ShortFlies(w, q, start);
    var u := AfterOwnRun(w, first);
    WaitsFormed(u.receiver, q, start);
    ShortDropped(u.receiver, q, start);
    WaitsFormed(u.receiver, q, start);
    WaitsAt(u.receiver, q, start);
    var rest := ShortLands(u, q, start, u.receiver);
    OwnThen(w, first, rest);
    events := first + rest;
    var v := AfterOwnRun(u, rest);
    DoneSame(u, v);
    FrontWaits(v.receiver, start);
    NothingHeld(v.sender);
    NextWindow(q);
    PaceNow(v.sender, q);
    LastStart(v.messages);
    ShortNow();
    forall k | k in v.acks ensures k <= q + 1 && Window(k) <= Window(q) + 6 {
      WindowMonotone(k, q + 1);
    }
  }

  lemma ShortNow()
    ensures Short(OneShort()) && Sendable(OneShort()) && Commands(OneShort()) == 1
  {
  }

  lemma WaitsAt(s: Receiver, q: nat, start: nat)
    requires Waits(s, q, start)
    ensures s.incoming == Wire(q) && |s.queue| == 1
  {
  }

  lemma FrontWaits(s: Receiver, start: nat)
    requires Waits(s, start + NUMBERS - 1, start)
    ensures Front(s, start + NUMBERS - 1)
  {
    assert Wire(start) == Wire(start + NUMBERS);
  }

  lemma NothingHeld(s: Sender)
    requires Size(s) == 0
    ensures forall k :: !Holds(s, k)
  {
  }

  lemma PaceNow(s: Sender, q: nat)
    requires s.newest == q + 1 && Window(q + 1) <= Window(q) + 1
    ensures KeepsPace(s, q)
  {
    hide Window, Holds;
    forall k: nat | k <= q + 1 ensures Window(k) <= Window(q) + 6 {
      WindowMonotone(k, q + 1);
    }
  }

  lemma LastStart(ms: seq<Message>)
    requires AllSendable(ms) && ms != [] && ms[|ms| - 1] == OneShort()
    ensures Start(ms, |ms| - 1) == LastOf(ms, |ms|)
  {
    hide Start;
    StartNext(ms, |ms| - 1);
    StartLast(ms, |ms|);
    ShortNow();
  }

  lemma StuckLoses(w: World, r: nat, j: nat)
    requires Stuck(w, r, j) && |w.receiver.queue| == 1
    ensures LostForGood(w, j)
  {
    forall more | PossibleOwnRun(w, more) ensures Done(AfterOwnRun(w, more)) <= j {
      hide Stuck, Done, PossibleOwnRun, AfterOwnRun;
      StuckForever(w, r, j, more);
      StuckDone(AfterOwnRun(w, more), r, j);
    }
    StuckLost(w, r, j);
  }

  lemma StuckLost(w: World, r: nat, j: nat)
    requires Stuck(w, r, j) && |w.receiver.queue| == 1
    ensures Lost(w, j)
  {
    hide Start, Wire, SenderOk, Genuine, KeepsPace, Holds, HasPart, EntryWellFormed, Done;
    forall e | e in w.receiver.queue ensures !Stands(w.messages, j, e) {
      assert e == w.receiver.queue[0];
    }
  }

  /** A run that submits these messages and then only short ones, and loses one of them for good. */
  ghost predicate Loses(ms: seq<Message>, n: nat, run: seq<Event>, j: nat)
  {
    && PossibleOwnRun(Quiet(), run) && AfterOwnRun(Quiet(), run).messages == ms + Shorts(n)
    && LostForGood(AfterOwnRun(Quiet(), run), j)
  }

  lemma LongLoses(ms: seq<Message>) returns (n: nat, run: seq<Event>, j: nat)
    requires ms != [] && AllSendable(ms) && forall i: nat :: i < |ms| ==> Deliverable(ms, i)
    requires !CompactAt(ms, |ms| - 1)
    ensures Loses(ms, n, run, j)
  {
    hide Idle, Stuck, PossibleRun, AfterRun, PossibleOwnRun, AfterOwnRun, Shorts, OneShort, Deliverable, CompactAt,
      TenWindowsOn, LastOf, Start, LostForGood, HoldsOnly, Delivered, TenOn;
    var start, keep := Start(ms, |ms| - 1), LastOf(ms, |ms|);
    var first, later := GoTenOn(ms);
    var w := AfterRun(Quiet(), first);
    TenDelivered(w, ms);
    var more, t := SettleAll(w, keep);
    RunThen(Quiet(), first, more);
    TenStill(w, t, ms);
    var retry := RetryArrives(t, ms);
    var u := AfterOwnRun(t, retry);
    var round, n' := GoAllRound(u, TenWindowsOn(ms), start, ms, later);
    var v := AfterOwnRun(u, round);
    var last := LastDropped(v, start);
    OneMoreShort(ms, n');
    PossibleIsOwn(Quiet(), first + more);
    OwnThen(Quiet(), first + more, retry);
    OwnThen(Quiet(), first + more + retry, round);
    OwnThen(Quiet(), first + more + retry + round, last);
    run, n, j := first + more + retry + round + last, n' + 1, |v.messages|;
    StuckLoses(AfterOwnRun(v, last), start + NUMBERS - 1, j);
  }

  lemma TenDelivered(w: World, ms: seq<Message>)
    requires ms != [] && AllSendable(ms) && TenOn(w, ms)
    ensures Delivered(w, LastOf(ms, |ms|))
  {
    hide WorldOk, Start, Done, Ready, TenWindowsOn, CompactAt, Delivered;
    CompactIs(ms, |ms| - 1);
    StartGrows(ms, 0, |ms| - 1);
    AllSent(w, LastOf(ms, |ms|));
  }

  lemma TenStill(w: World, t: World, ms: seq<Message>)
    requires ms != [] && AllSendable(ms) && TenOn(w, ms) && Delivered(t, LastOf(ms, |ms|))
    requires t.messages == w.messages
    ensures TenOn(t, ms)
  {
    hide WorldOk, Done, Ready, TenWindowsOn, LastOf;
  }

  lemma {:induction false} ShortsCompact(ms: seq<Message>, n: nat)
    requires AllCompact(ms)
    ensures AllCompact(ms + Shorts(n))
  {
    hide Start, Commands, Wire, Shorts;
    var all := ms + Shorts(n);
    ShortOnes(ms, n);
    forall j: nat | j < |all| ensures CompactAt(all, j) {
      if j < |ms| {
        assert CompactAt(ms, j) && all[j] == ms[j];
        StartPrefix(ms, all, j);
      }
    }
  }

  lemma CompactKeeps(ms: seq<Message>, n: nat, run: seq<Event>, j: nat)
    requires AllCompact(ms)
    ensures !Loses(ms, n, run, j)
  {
    hide AllCompact, PossibleRun, AfterRun, PossibleOwnRun, AfterOwnRun, Shorts, WorldOk, Lost;
    if PossibleOwnRun(Quiet(), run) && AfterOwnRun(Quiet(), run).messages == ms + Shorts(n) {
      ShortsCompact(ms, n);
      QuietOk();
      OwnIsPossible(Quiet(), run);
      RunOk(Quiet(), run);
      NothingLost(AfterRun(Quiet(), run), j);
    }
  }

  /**
   A message that can be delivered, after compact ones: in some run in which only short messages follow, one of them is
   acknowledged and never delivered, exactly if the message is not compact.
   */
  lemma LosesAnother(ms: seq<Message>)
    requires ms != [] && AllSendable(ms) && AllCompact(ms[..|ms| - 1]) && Deliverable(ms, |ms| - 1)
    ensures (exists n, run, j :: Loses(ms, n, run, j)) <==> !CompactAt(ms, |ms| - 1)
  {
    hide Loses, CompactAt, Deliverable, Start;
    var k := |ms| - 1;
    forall i: nat | i < k
      ensures CompactAt(ms, i) && Deliverable(ms, i)
    {
      assert CompactAt(ms[..k], i);
      CompactLonger(ms[..k], ms, i);
      CompactFits(ms, i);
    }
    if CompactAt(ms, k) {
      forall n, run, j ensures !Loses(ms, n, run, j) {
        CompactKeeps(ms, n, run, j);
      }
    } else {
      var n, run, j := LongLoses(ms);
    }
  }

  lemma CompactLonger(ms: seq<Message>, ms': seq<Message>, j: nat)
    requires AllSendable(ms') && ms <= ms' && j < |ms| && AllSendable(ms) && CompactAt(ms, j)
    ensures CompactAt(ms', j)
  {
    hide Compact, Start, Commands, Wire;
    assert ms[j] == ms'[j];
    StartPrefix(ms, ms', j);
  }
}
