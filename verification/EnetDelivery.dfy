/**
 A channel between two peers over a network that loses, repeats and reorders: every run of it delivers the
 reliable messages exactly once and in order.
 */
module EnetDelivery {
  import opened Basics
  import opened EnetWindows
  import opened EnetMessages
  import opened EnetSender
  import opened EnetReceiver
  import opened EnetOrder

  /** A copy of a command on the network; the id tells which command it is a copy of. */
  datatype Copy = Copy(id: nat, command: Command)

  /**
   The messages submitted so far, the two ends of the channel, all copies ever sent, any of which may still
   arrive, and all acknowledgements ever given, likewise.
   */
  datatype World = World(messages: seq<Message>, sender: Sender, net: set<Copy>, acks: set<nat>, receiver: Receiver)

  datatype Event =
    | Submit(message: Message)
    | Transmit(room: nat, limit: nat)
    | TimeOut(expired: set<nat>)
    | Arrive(copy: Copy, space: bool, maximumPacketSize: nat, blank: seq<Byte>)
    | AckArrives(id: nat)
    | TakeOne

  function Quiet(): World
  {
    World([], NewSender(), {}, {}, NewReceiver())
  }

  /** The number of the first command of the message that a copy belongs to. */
  function First(x: Copy): int
  {
    if x.command.Fragment? then x.id - x.command.fragmentNumber else x.id
  }

  /** Nothing arrives that is more than nine windows older than the newest command sent. */
  predicate Recent(first: int, newest: nat)
  {
    first >= 0 && Window(first) + 9 >= Window(newest)
  }

  predicate Possible(w: World, e: Event)
  {
    match e
    case Submit(m) => Sendable(m)
    case Transmit(room, limit) => |w.sender.windows| == ENET_PEER_RELIABLE_WINDOWS
    case TimeOut(expired) => true
    case Arrive(x, space, maximum, blank) =>
      && x in w.net && Recent(First(x), w.sender.newest) && QueueWellFormed(w.receiver.queue)
      && (x.command.Fragment? ==> |blank| == x.command.totalLength)
    case AckArrives(k) =>
      k in w.acks && Recent(k, w.sender.newest) && |w.sender.windows| == ENET_PEER_RELIABLE_WINDOWS
    case TakeOne => true
  }

  function Handle(s: Receiver, c: Command, space: bool, maximumPacketSize: nat, blank: seq<Byte>): (Receiver, bool)
    requires QueueWellFormed(s.queue) && (c.Fragment? ==> |blank| == c.totalLength)
  {
    match c
    case Reliable(number, data) => HandleReliable(s, number, data, space, maximumPacketSize)
    case Fragment(_, _, _, _, _, _, _) => HandleFragment(s, c, space, maximumPacketSize, blank)
  }

  function Arrived(w: World, x: Copy, space: bool, maximumPacketSize: nat, blank: seq<Byte>): World
    requires QueueWellFormed(w.receiver.queue) && (x.command.Fragment? ==> |blank| == x.command.totalLength)
  {
    var (t, ok) := Handle(w.receiver, x.command, space, maximumPacketSize, blank);
    w.(receiver := t, acks := if ok && !Unacknowledged(x.command.number, t.incoming) then w.acks + {x.id} else w.acks)
  }

  function After(w: World, e: Event): World
    requires Possible(w, e)
  {
    match e
    case Submit(m) =>
      w.(messages := w.messages + [m], sender := SetUp(w.sender, CommandsOf(m, w.sender.last + 1)))
    case Transmit(room, limit) =>
      var (t, out) := SendSome(w.sender, room, limit);
      w.(sender := t, net := w.net + Copies(out))
    case TimeOut(expired) => w.(sender := Expire(w.sender, expired))
    case Arrive(x, space, maximum, blank) => Arrived(w, x, space, maximum, blank)
    case AckArrives(k) => w.(sender := Acknowledge(w.sender, Wire(k)))
    case TakeOne => w.(receiver := Take(w.receiver))
  }

  function Copies(out: seq<Outgoing>): set<Copy>
  {
    set c | c in out :: Copy(c.id, c.command)
  }

  // ----- the invariant

  /** Every command queued or on the network is the one with its number. */
  ghost predicate Genuine(w: World)
  {
    && (forall c :: c in w.sender.sent || c in w.sender.queue ==> IsCommand(w.messages, c.id, c.command))
    && (forall x :: x in w.net ==> IsCommand(w.messages, x.id, x.command) && x.id <= w.sender.newest)
  }

  /** What the receiver does not have, the sender still holds. */
  ghost predicate Tracked(w: World, done: nat, slots: seq<nat>)
    requires AllSendable(w.messages)
  {
    forall j: nat, i: nat :: j < |w.messages| && i < Commands(w.messages[j]) ==>
      if Got(w.messages, w.receiver, done, slots, j, i) then Start(w.messages, j) + i <= w.sender.newest
      else Holds(w.sender, Start(w.messages, j) + i)
  }

  /** The receiver has everything it has acknowledged. */
  ghost predicate Honest(w: World, done: nat, slots: seq<nat>)
    requires AllSendable(w.messages)
  {
    forall k :: k in w.acks ==>
      && k <= w.sender.newest
      && forall j: nat, i: nat :: IsNumbered(w.messages, j, i, k) ==> Got(w.messages, w.receiver, done, slots, j, i)
  }

  /** The sender keeps pace with the receiver, and nothing further ahead than six windows has been acknowledged. */
  ghost predicate Paced(w: World, done: nat)
    requires AllSendable(w.messages) && done <= |w.messages|
  {
    && KeepsPace(w.sender, LastOf(w.messages, done))
    && forall k :: k in w.acks ==> Window(k) <= Window(LastOf(w.messages, done)) + 6
  }

  ghost predicate OnNet(net: set<Copy>, k: nat)
  {
    exists x :: x in net && x.id == k
  }

  /** Every command sent so far has a copy on the network. */
  ghost predicate Copied(w: World)
  {
    forall k: nat :: 1 <= k <= w.sender.newest ==> OnNet(w.net, k)
  }

  ghost predicate WorldAt(w: World, done: nat, slots: seq<nat>)
  {
    && AllSendable(w.messages) && w.sender.last == LastOf(w.messages, |w.messages|)
    && SenderOk(w.sender) && ReceiverOk(w.messages, w.receiver, done, slots)
    && Genuine(w) && Tracked(w, done, slots) && Honest(w, done, slots) && Paced(w, done) && Copied(w)
  }

  ghost predicate WorldOk(w: World)
  {
    exists done: nat, slots: seq<nat> :: WorldAt(w, done, slots)
  }

  lemma NewReceiverOk()
    ensures ReceiverOk([], NewReceiver(), 0, [])
  {
    hide Start, Wire, Stands, Near, Window, Payloads, LastOf;
    var none: seq<Message> := [];
    StartZero(none);
    StartLast(none, 0);
    WireZero();
    NoPayloads(none[..0]);
  }

  lemma WireZero()
    ensures Wire(0) == 0
  {
  }

  lemma NoPayloads(ms: seq<Message>)
    ensures ms == [] ==> Payloads(ms) == []
  {
  }

  lemma QuietOk()
    ensures WorldOk(Quiet())
  {
    hide SenderOk, ReceiverOk, Genuine, Tracked, Honest, Paced, Copied, NewSender, NewReceiver, Start;
    NewSenderOk();
    NewReceiverOk();
    NothingSent();
    StartLast([], 0);
    StartZero([]);
    assert WorldAt(Quiet(), 0, []);
  }

  lemma NothingSent()
    ensures NewSender().last == 0 && AllSendable(Quiet().messages)
    ensures Genuine(Quiet()) && Tracked(Quiet(), 0, []) && Honest(Quiet(), 0, []) && Paced(Quiet(), 0)
    ensures Copied(Quiet())
  {
    hide IsCommand, Got, Holds, OnNet;
    StartZero([]);
  }

  // ----- how far apart the two ends are

  /** As long as the next message is not complete, one of its parts is missing. */
  lemma SomethingMissing(ms: seq<Message>, s: Receiver, m: nat, js: seq<nat>) returns (i: nat)
    requires ReceiverOk(ms, s, m, js) && m < |ms|
    ensures i < Commands(ms[m]) && !Got(ms, s, m, js, m, i)
  {
    hide Start, Wire, Near, Payloads, HasPart;
    CommandsPositive(ms[m]);
    i := 0;
    if js != [] && js[0] == m {
      NextIs(ms, s, m, js);
      assert Stands(ms, js[0], s.queue[0]);
      var e := s.queue[0];
      SetBitsAll(e.fragments);
      i :| 0 <= i < |e.fragments| && !e.fragments[i];
      forall p | 0 <= p < |js| ensures !InList(ms, s, js, p, m, i) {
        assert 0 < p ==> js[0] < js[p];
      }
    } else {
      forall p | 0 <= p < |js| ensures !InList(ms, s, js, p, m, i) {
        NotFirst(ms, s, m, js, p);
      }
    }
  }

  lemma NotFirst(ms: seq<Message>, s: Receiver, m: nat, js: seq<nat>, p: int)
    requires Listed(ms, s, m, js) && 0 <= p < |js| && js[0] != m
    ensures js[p] != m
  {
    hide Start, Wire, Payloads, Stands;
    assert Near(ms, m, js[0]);
    assert p > 0 ==> js[0] < js[p];
  }

  /** The newest command sent is at most seven windows ahead of the receiver, and not behind it. */
  lemma WithinReach(w: World, done: nat, slots: seq<nat>)
    requires WorldAt(w, done, slots)
    ensures done <= |w.messages| && LastOf(w.messages, done) <= w.sender.newest
    ensures Window(w.sender.newest) <= Window(LastOf(w.messages, done)) + 7
  {
    hide Start, Window, Genuine, Honest, SenderOk, ReceiverOk, Holds, Copied;
    var ms := w.messages;
    ReceiverSizes(ms, w.receiver, done, slots);
    StartLast(ms, done);
    StartZero(ms);
    if done > 0 {
      StartNext(ms, done - 1);
      CommandsPositive(ms[done - 1]);
      assert Got(ms, w.receiver, done, slots, done - 1, Commands(ms[done - 1]) - 1);
    }
  }

  lemma StartZero(ms: seq<Message>)
    requires AllSendable(ms)
    ensures Start(ms, 0) == 1
  {
  }

  lemma ReceiverSizes(ms: seq<Message>, s: Receiver, m: nat, js: seq<nat>)
    requires ReceiverOk(ms, s, m, js)
    ensures AllSendable(ms) && m <= |ms| && QueueWellFormed(s.queue)
  {
    IncomingIs(ms, s, m, js);
  }

  lemma NewestLast(s: Sender)
    requires SenderOk(s)
    ensures s.newest <= s.last && |s.windows| == ENET_PEER_RELIABLE_WINDOWS
  {
    hide Wire, Window, Count, Total;
  }

  lemma StartReachable(w: World, done: nat, slots: seq<nat>, j: nat, i: nat)
    requires WorldAt(w, done, slots) && j < |w.messages| && Start(w.messages, j) + i <= w.sender.newest
    requires Recent(Start(w.messages, j), w.sender.newest)
    ensures done <= |w.messages| && Reachable(w.messages, done, j, i)
  {
    hide Start, Window, Genuine, Honest, SenderOk, ReceiverOk, Tracked, Paced, Copied;
    WithinReach(w, done, slots);
    WindowMonotone(LastOf(w.messages, done), w.sender.newest);
    WindowMonotone(Start(w.messages, j) + i, w.sender.newest);
  }

  // ----- submitting

  lemma QueuedCommands(commands: seq<Command>, last: nat, c: Outgoing)
    requires c in Queued(commands, last)
    ensures last < c.id <= last + |commands| && c.command == commands[c.id - last - 1]
  {
    QueuedAre(commands, last);
    var i :| 0 <= i < |Queued(commands, last)| && Queued(commands, last)[i] == c;
    assert Fresh(c, last + 1 + i);
  }

  lemma MessagesKept(ms: seq<Message>, m: Message)
    requires AllSendable(ms) && Sendable(m)
    ensures AllSendable(ms + [m])
    ensures forall j :: 0 <= j <= |ms| ==> Start(ms + [m], j) == Start(ms, j)
    ensures LastOf(ms + [m], |ms| + 1) == LastOf(ms, |ms|) + Commands(m)
  {
    hide Commands;
    forall j | 0 <= j <= |ms| ensures Start(ms + [m], j) == Start(ms, j) {
      StartKept(ms, m, j);
    }
    StartNext(ms + [m], |ms|);
    StartLast(ms + [m], |ms| + 1);
    StartLast(ms, |ms|);
  }

  lemma ReceiverKept(ms: seq<Message>, x: Message, s: Receiver, m: nat, js: seq<nat>)
    requires ReceiverOk(ms, s, m, js) && Sendable(x)
    ensures ReceiverOk(ms + [x], s, m, js)
  {
    hide Start, Wire, Window, HasPart, FragmentCount, Payloads;
    var ms' := ms + [x];
    MessagesKept(ms, x);
    StartLast(ms, m);
    StartLast(ms', m);
    assert ms'[..m] == ms[..m];
    forall p | 0 <= p < |js| ensures js[p] < |ms'| && Near(ms', m, js[p]) && Stands(ms', js[p], s.queue[p]) {
      assert Near(ms, m, js[p]) && Stands(ms, js[p], s.queue[p]);
    }
  }

  lemma GotKept(ms: seq<Message>, x: Message, s: Receiver, m: nat, js: seq<nat>, j: nat, i: nat)
    requires ReceiverOk(ms, s, m, js) && j <= |ms|
    ensures Got(ms + [x], s, m, js, j, i) <==> j < |ms| && Got(ms, s, m, js, j, i)
  {
    hide Start, Wire, Window, HasPart, FragmentCount, Payloads, Stands, Near;
    var ms' := ms + [x];
    if Got(ms, s, m, js, j, i) && j >= m && j < |ms| {
      var p :| InList(ms, s, js, p, j, i);
      assert InList(ms', s, js, p, j, i);
    }
    if Got(ms', s, m, js, j, i) && j >= m {
      var p :| InList(ms', s, js, p, j, i);
      assert InList(ms, s, js, p, j, i);
    }
  }

  lemma SubmitOk(w: World, m: Message, done: nat, slots: seq<nat>)
    requires WorldAt(w, done, slots) && Sendable(m)
    ensures WorldAt(After(w, Submit(m)), done, slots)
  {
    hide Start, Window, SenderOk, ReceiverOk, Holds, Got, IsNumbered, IsCommand, SetUp, CommandOf, Commands, KeepsPace,
      OnNet;
    var w' := After(w, Submit(m));
    var ms, ms', start := w.messages, w'.messages, w.sender.last + 1;
    var commands := CommandsOf(m, start);
    MessagesKept(ms, m);
    StartLast(ms, |ms|);
    SetUpOk(w.sender, commands);
    SetUpIs(w.sender, commands);
    ReceiverSizes(ms, w.receiver, done, slots);
    ReceiverKept(ms, m, w.receiver, done, slots);
    StartLast(ms, done);
    StartLast(ms', done);
    PaceKept(w.sender, w'.sender, LastOf(ms, done));
    NewestLast(w.sender);
    SubmitGenuine(w, m, w');
    forall j: nat, i: nat | j < |ms'| && i < Commands(ms'[j])
      ensures if Got(ms', w'.receiver, done, slots, j, i) then Start(ms', j) + i <= w'.sender.newest
              else Holds(w'.sender, Start(ms', j) + i)
    {
      GotKept(ms, m, w.receiver, done, slots, j, i);
    }
    forall k, j: nat, i: nat | k in w'.acks && IsNumbered(ms', j, i, k)
      ensures Got(ms', w'.receiver, done, slots, j, i)
    {
      assert k <= w.sender.newest;
      NumberedBefore(ms, m, j, i, k);
      GotKept(ms, m, w.receiver, done, slots, j, i);
    }
  }

  lemma SetUpIs(s: Sender, commands: seq<Command>)
    ensures SetUp(s, commands).last == s.last + |commands| && SetUp(s, commands).newest == s.newest
  {
  }

  lemma NumberedBefore(ms: seq<Message>, m: Message, j: nat, i: nat, k: nat)
    requires AllSendable(ms) && Sendable(m) && IsNumbered(ms + [m], j, i, k) && k <= LastOf(ms, |ms|)
    ensures IsNumbered(ms, j, i, k) && j < |ms|
  {
    hide Start, Commands;
    MessagesKept(ms, m);
    StartLast(ms, |ms|);
  }

  lemma SubmitGenuine(w: World, m: Message, w': World)
    requires AllSendable(w.messages) && Sendable(m) && Genuine(w) && w.sender.last == LastOf(w.messages, |w.messages|)
    requires w' == After(w, Submit(m))
    ensures Genuine(w')
  {
    hide Start, CommandOf, IsCommand, Queued, Commands;
    var ms, ms', start := w.messages, w'.messages, w.sender.last + 1;
    MessagesKept(ms, m);
    StartLast(ms, |ms|);
    forall c | c in w'.sender.sent || c in w'.sender.queue ensures IsCommand(ms', c.id, c.command) {
      if c in w.sender.sent || c in w.sender.queue {
        CommandKept(ms, m, c.id, c.command);
      } else {
        assert c in Queued(CommandsOf(m, start), w.sender.last);
        QueuedCommands(CommandsOf(m, start), w.sender.last, c);
        NewCarries(ms, m, c.id - start, c.id);
      }
    }
    forall x | x in w'.net ensures IsCommand(ms', x.id, x.command) {
      CommandKept(ms, m, x.id, x.command);
    }
  }

  lemma NewCarries(ms: seq<Message>, m: Message, i: nat, k: nat)
    requires AllSendable(ms) && Sendable(m) && i < Commands(m) && k == LastOf(ms, |ms|) + 1 + i
    ensures IsCommand(ms + [m], k, CommandOf(m, LastOf(ms, |ms|) + 1, i))
  {
    hide Start, CommandOf, Commands;
    MessagesKept(ms, m);
    StartLast(ms, |ms|);
    assert Carries(ms + [m], |ms|, i, k, CommandOf(m, LastOf(ms, |ms|) + 1, i));
  }

  // ----- sending, timing out, acknowledging

  /** Every command that t holds, s holds too, up to the number of times it has been sent. */
  ghost predicate Within(t: Sender, s: Sender)
  {
    forall c :: c in t.sent || c in t.queue ==>
      exists d :: (d in s.sent || d in s.queue) && d.id == c.id && d.command == c.command
  }

  lemma WithinGenuine(ms: seq<Message>, s: Sender, t: Sender)
    requires Within(t, s) && forall c :: c in s.sent || c in s.queue ==> IsCommand(ms, c.id, c.command)
    ensures forall c :: c in t.sent || c in t.queue ==> IsCommand(ms, c.id, c.command)
  {
    hide IsCommand;
    forall c | c in t.sent || c in t.queue ensures IsCommand(ms, c.id, c.command) {
      var d :| (d in s.sent || d in s.queue) && d.id == c.id && d.command == c.command;
    }
  }

  lemma SendWithin(s: Sender)
    requires |s.windows| == ENET_PEER_RELIABLE_WINDOWS && s.queue != []
    ensures Within(Send(s), s)
  {
    var t := Send(s);
    forall c | c in t.sent || c in t.queue
      ensures exists d :: (d in s.sent || d in s.queue) && d.id == c.id && d.command == c.command
    {
      if c in s.sent || c in s.queue {
        assert c.id == c.id;
      } else {
        assert c == s.queue[0].(sendAttempts := s.queue[0].sendAttempts + 1);
        assert s.queue[0] in s.queue;
      }
    }
  }

  lemma WithinTwice(r: Sender, t: Sender, s: Sender)
    requires Within(r, t) && Within(t, s)
    ensures Within(r, s)
  {
    forall c | c in r.sent || c in r.queue
      ensures exists d :: (d in s.sent || d in s.queue) && d.id == c.id && d.command == c.command
    {
      var b :| (b in t.sent || b in t.queue) && b.id == c.id && b.command == c.command;
      var d :| (d in s.sent || d in s.queue) && d.id == b.id && d.command == b.command;
      assert d.id == c.id && d.command == c.command;
    }
  }

  lemma WithinSelf(s: Sender)
    ensures Within(s, s)
  {
    forall c | c in s.sent || c in s.queue
      ensures exists d :: (d in s.sent || d in s.queue) && d.id == c.id && d.command == c.command
    {
      assert c.id == c.id;
    }
  }

  lemma {:induction false} SendSomeWithin(s: Sender, room: nat, limit: nat)
    requires SenderOk(s)
    ensures Within(SendSome(s, room, limit).0, s)
    decreases room
  {
    hide SenderOk, Within, Send, CanSend;
    WindowsThere(s);
    if room == 0 || !CanSend(s, limit) {
      WithinSelf(s);
    } else {
      SendOk(s, limit);
      QueueThere(s, limit);
      SendWithin(s);
      SendSomeWithin(Send(s), room - 1, limit);
      WindowsThere(Send(s));
      WithinTwice(SendSome(Send(s), room - 1, limit).0, Send(s), s);
    }
  }

  lemma SubsetWithin(t: Sender, s: Sender)
    requires forall c :: c in t.sent || c in t.queue ==> c in s.sent || c in s.queue
    ensures Within(t, s)
  {
    forall c | c in t.sent || c in t.queue
      ensures exists d :: (d in s.sent || d in s.queue) && d.id == c.id && d.command == c.command
    {
      assert c.id == c.id;
    }
  }

  lemma ExpireWithin(s: Sender, expired: set<nat>)
    ensures Within(Expire(s, expired), s)
  {
    hide Pick, Within;
    PickFrom(s.sent, expired, true);
    PickFrom(s.sent, expired, false);
    SubsetWithin(Expire(s, expired), s);
  }

  lemma AcknowledgeWithin(s: Sender, number: Sequence)
    requires |s.windows| == ENET_PEER_RELIABLE_WINDOWS
    ensures Within(Acknowledge(s, number), s)
  {
    hide Within, FindNumber, FindTried, Uncounted;
    FoundNumber(s.sent, number);
    FoundTried(s.queue, number);
    UncountedRest(s, number);
    SubsetWithin(Acknowledge(s, number), s);
  }

  /** A step of the sender alone that forgets nothing. */
  lemma SenderStep(w: World, t: Sender, net: set<Copy>, done: nat, slots: seq<nat>)
    requires WorldAt(w, done, slots) && SenderOk(t) && Within(t, w.sender)
    requires t.last == w.sender.last && t.newest >= w.sender.newest
    requires forall k :: Holds(w.sender, k) ==> Holds(t, k)
    requires forall r: nat :: KeepsPace(w.sender, r) ==> KeepsPace(t, r)
    requires w.net <= net && forall k: nat :: w.sender.newest < k <= t.newest ==> OnNet(net, k)
    requires forall x :: x in net && x !in w.net ==>
      x.id <= t.newest && exists c :: c in w.sender.queue && c.id == x.id && c.command == x.command
    ensures WorldAt(w.(sender := t, net := net), done, slots)
  {
    hide Start, SenderOk, ReceiverOk, Holds, Got, IsCommand, Within, IsNumbered, Commands, KeepsPace, Window;
    ReceiverSizes(w.messages, w.receiver, done, slots);
    WithinGenuine(w.messages, w.sender, t);
    forall k: nat | 1 <= k <= t.newest ensures OnNet(net, k) {
      if k <= w.sender.newest {
        assert OnNet(w.net, k);
        var x :| x in w.net && x.id == k;
        assert x in net;
      }
    }
    hide OnNet;
    forall x | x in net ensures IsCommand(w.messages, x.id, x.command) && x.id <= t.newest {
      if x !in w.net {
        var c :| c in w.sender.queue && c.id == x.id && c.command == x.command;
      }
    }
  }

  lemma TransmitOk(w: World, room: nat, limit: nat, done: nat, slots: seq<nat>)
    requires WorldAt(w, done, slots) && Possible(w, Transmit(room, limit))
    ensures WorldAt(After(w, Transmit(room, limit)), done, slots)
  {
    hide WorldAt, SenderOk, Holds, Within, SendSome, KeepsPace;
    WorldSender(w, done, slots);
    var (t, out) := SendSome(w.sender, room, limit);
    SendSomeOk(w.sender, room, limit);
    SendSomeWithin(w.sender, room, limit);
    var net := w.net + Copies(out);
    forall r: nat | KeepsPace(w.sender, r) ensures KeepsPace(t, r) {
      SendSomeKeepsPace(w.sender, r, room, limit);
    }
    SendSomeCopied(w.sender, room, limit);
    forall k: nat | w.sender.newest < k <= t.newest ensures OnNet(net, k) {
      assert OnNet(Copies(out), k);
      var x :| x in Copies(out) && x.id == k;
      assert x in net;
    }
    forall x | x in net && x !in w.net
      ensures x.id <= t.newest && exists c :: c in w.sender.queue && c.id == x.id && c.command == x.command
    {
      var c :| c in out && x == Copy(c.id, c.command);
      assert c in w.sender.queue && c.id == x.id && c.command == x.command;
    }
    SenderStep(w, t, net, done, slots);
  }

  /** What is sent for the first time goes out. */
  lemma {:induction false} SendSomeCopied(s: Sender, room: nat, limit: nat)
    requires SenderOk(s)
    ensures forall k: nat :: s.newest < k <= SendSome(s, room, limit).0.newest ==>
      OnNet(Copies(SendSome(s, room, limit).1), k)
    decreases room
  {
    hide SenderOk, Send, CanSend;
    WindowsThere(s);
    if room > 0 && CanSend(s, limit) {
      SendOk(s, limit);
      QueueThere(s, limit);
      WindowsThere(Send(s));
      SendSomeCopied(Send(s), room - 1, limit);
      SentIs(s, limit);
      var (t, out) := SendSome(s, room, limit);
      var (t', more) := SendSome(Send(s), room - 1, limit);
      assert t' == t && forall k: nat :: Send(s).newest < k <= t'.newest ==> OnNet(Copies(more), k);
      assert out == [s.queue[0]] + more;
      forall k: nat | s.newest < k <= t.newest ensures OnNet(Copies(out), k) {
        if k > Send(s).newest {
          assert OnNet(Copies(more), k);
          var x :| x in Copies(more) && x.id == k;
          assert x in Copies(out);
        } else {
          assert s.queue[0] in out;
          assert Copy(s.queue[0].id, s.queue[0].command) in Copies(out);
        }
      }
    }
  }

  lemma SentIs(s: Sender, limit: nat)
    requires SenderOk(s) && CanSend(s, limit)
    ensures s.queue != [] && Send(s).newest == (if s.queue[0].sendAttempts < 1 then s.newest + 1 else s.newest)
    ensures s.queue[0].sendAttempts < 1 ==> s.queue[0].id == s.newest + 1
  {
    hide Window, Wire, WindowWrap, Counted, Total;
    if s.queue[0].sendAttempts < 1 {
      FreshFirst(s);
    }
  }

  lemma WorldSender(w: World, done: nat, slots: seq<nat>)
    requires WorldAt(w, done, slots)
    ensures SenderOk(w.sender)
  {
    hide SenderOk, ReceiverOk, Genuine, Tracked, Honest, Paced, Copied;
  }

  lemma TimeOutOk(w: World, expired: set<nat>, done: nat, slots: seq<nat>)
    requires WorldAt(w, done, slots)
    ensures WorldAt(After(w, TimeOut(expired)), done, slots)
  {
    hide WorldAt, SenderOk, Holds, Within, Expire, KeepsPace;
    WorldSender(w, done, slots);
    ExpireOk(w.sender, expired);
    ExpireWithin(w.sender, expired);
    forall r: nat | KeepsPace(w.sender, r) ensures KeepsPace(Expire(w.sender, expired), r) {
      PaceKept(w.sender, Expire(w.sender, expired), r);
    }
    SenderStep(w, Expire(w.sender, expired), w.net, done, slots);
  }

  lemma AckArrivesOk(w: World, k: nat, done: nat, slots: seq<nat>)
    requires WorldAt(w, done, slots) && Possible(w, AckArrives(k))
    ensures WorldAt(After(w, AckArrives(k)), done, slots)
  {
    hide Start, SenderOk, ReceiverOk, Holds, Got, IsCommand, Within, Acknowledge, Commands, Window, Wire, KeepsPace,
      OnNet;
    ReceiverSizes(w.messages, w.receiver, done, slots);
    var s, t := w.sender, Acknowledge(w.sender, Wire(k));
    AcknowledgeOk(s, Wire(k));
    AcknowledgeWithin(s, Wire(k));
    WithinGenuine(w.messages, s, t);
    forall j: nat, i: nat | j < |w.messages| && i < Commands(w.messages[j])
      ensures if Got(w.messages, w.receiver, done, slots, j, i) then Start(w.messages, j) + i <= t.newest
              else Holds(t, Start(w.messages, j) + i)
    {
      if !Got(w.messages, w.receiver, done, slots, j, i) {
        assert !IsNumbered(w.messages, j, i, k);
        AcknowledgeHolds(s, k, Start(w.messages, j) + i);
      }
    }
    forall j: nat | Holds(s, j) && Window(j) > Window(LastOf(w.messages, done)) + 6 ensures Holds(t, j) {
      AcknowledgeHolds(s, k, j);
    }
    PaceKept(s, t, LastOf(w.messages, done));
  }

  // ----- arrivals

  /** Every number is given once. */
  lemma NumberedOnce(ms: seq<Message>, j: nat, i: nat, j': nat, i': nat, k: nat)
    requires IsNumbered(ms, j, i, k) && IsNumbered(ms, j', i', k)
    ensures j == j' && i == i'
  {
    hide Start, Commands;
    if j < j' {
      StartGrows(ms, j, j');
    } else if j' < j {
      StartGrows(ms, j', j);
    }
  }

  lemma FirstIs(ms: seq<Message>, j: nat, i: nat, x: Copy)
    requires Carries(ms, j, i, x.id, x.command)
    ensures First(x) == Start(ms, j) && x.command.number == Wire(x.id)
    ensures Short(ms[j]) ==> i == 0 && x.command == Reliable(Wire(Start(ms, j)), ms[j].payload)
    ensures !Short(ms[j]) ==>
      x.command.Fragment? && x.command.totalLength == |ms[j].payload| && i < FragmentCount(ms[j])
    ensures !Short(ms[j]) ==> x.command.startNumber == Wire(Start(ms, j))
  {
    hide Start, Wire;
    if !Short(ms[j]) {
      FragmentIs(ms[j], Start(ms, j), i);
    }
  }

  /** The receiver's part of an arrival. */
  lemma ArriveReceiver(w: World, e: Event, done: nat, slots: seq<nat>, j: nat, i: nat)
    returns (m': nat, js': seq<nat>, new_: bool)
    requires WorldAt(w, done, slots) && e.Arrive? && Possible(w, e)
    requires Carries(w.messages, j, i, e.copy.id, e.copy.command)
    requires e.copy.id <= w.sender.newest
    ensures var (t, ok) := Handle(w.receiver, e.copy.command, e.space, e.maximumPacketSize, e.blank);
      && AllSendable(w.messages)
      && ReceiverOk(w.messages, t, m', js') && m' >= done
      && Extends(w.messages, w.receiver, done, slots, t, m', js', j, i, new_)
      && (ok && !Unacknowledged(e.copy.command.number, t.incoming) ==> Got(w.messages, t, m', js', j, i))
      && (e.space && |w.messages[j].payload| <= e.maximumPacketSize ==>
        ok && (Near(w.messages, done, j) ==> Got(w.messages, t, m', js', j, i)))
  {
    hide Start, Wire, Window, SenderOk, ReceiverOk, Got, IsCommand, Commands, CommandOf, Extends, HandleReliable,
      HandleFragment, FragmentCount, Reachable, Near, Genuine, Tracked, Honest, Paced, Copied, Unacknowledged;
    var ms, x := w.messages, e.copy;
    FirstIs(ms, j, i, x);
    StartReachable(w, done, slots, j, i);
    if Short(ms[j]) {
      m', js', new_ := ArriveReliable(ms, w.receiver, done, slots, j, e.space, e.maximumPacketSize);
    } else {
      m', js', new_ := ArriveFragment(ms, w.receiver, done, slots, j, i, e.space, e.maximumPacketSize, e.blank);
    }
  }

  lemma ArriveOk(w: World, e: Event, done: nat, slots: seq<nat>)
    requires WorldAt(w, done, slots) && e.Arrive? && Possible(w, e)
    ensures WorldOk(After(w, e))
  {
    hide WorldAt, After, Possible, Carries, IsCommand;
    ArrivingIs(w, e, done, slots);
    var j: nat, i: nat :| Carries(w.messages, j, i, e.copy.id, e.copy.command);
    var m', js', new_ := ArriveAt(w, e, done, slots, j, i);
    assert WorldAt(After(w, e), m', js');
  }

  lemma ArrivingIs(w: World, e: Event, done: nat, slots: seq<nat>)
    requires WorldAt(w, done, slots) && e.Arrive? && Possible(w, e)
    ensures exists j: nat, i: nat :: Carries(w.messages, j, i, e.copy.id, e.copy.command)
  {
    hide SenderOk, ReceiverOk, Tracked, Honest, Paced, Copied, Carries;
    assert IsCommand(w.messages, e.copy.id, e.copy.command);
  }

  /** A copy arrives: what the receiver has afterwards, and what it says. */
  lemma ArriveAt(w: World, e: Event, done: nat, slots: seq<nat>, j: nat, i: nat)
    returns (m': nat, js': seq<nat>, new_: bool)
    requires WorldAt(w, done, slots) && e.Arrive? && Possible(w, e)
    requires Carries(w.messages, j, i, e.copy.id, e.copy.command)
    ensures WorldAt(After(w, e), m', js') && AllSendable(w.messages) && m' >= done && done <= |w.messages|
    ensures j < |w.messages|
    ensures Extends(w.messages, w.receiver, done, slots, After(w, e).receiver, m', js', j, i, new_)
    ensures e.space && |w.messages[j].payload| <= e.maximumPacketSize && Near(w.messages, done, j) ==>
      Got(w.messages, After(w, e).receiver, m', js', j, i)
    ensures e.space && |w.messages[j].payload| <= e.maximumPacketSize && m' <= |w.messages| ==>
      e.copy.id in After(w, e).acks || Unacknowledged(Wire(e.copy.id), Wire(LastOf(w.messages, m')))
  {
    hide Start, Wire, SenderOk, ReceiverOk, Got, Commands, CommandOf, Handle, Holds, Unacknowledged, First, Recent,
      KeepsPace, OnNet, Window;
    var ms, x, w' := w.messages, e.copy, After(w, e);
    assert IsCommand(ms, x.id, x.command);
    m', js', new_ := ArriveReceiver(w, e, done, slots, j, i);
    var t := w'.receiver;
    forall a: nat, b: nat | a < |ms| && b < Commands(ms[a])
      ensures if Got(ms, t, m', js', a, b) then Start(ms, a) + b <= w.sender.newest
        else Holds(w.sender, Start(ms, a) + b)
    {
    }
    forall k | k in w'.acks
      ensures k <= w.sender.newest && forall a: nat, b: nat :: IsNumbered(ms, a, b, k) ==> Got(ms, t, m', js', a, b)
    {
      forall a: nat, b: nat | IsNumbered(ms, a, b, k) ensures Got(ms, t, m', js', a, b) {
        if k !in w.acks {
          NumberedOnce(ms, a, b, j, i, k);
        }
      }
    }
    ReceiverSizes(ms, w.receiver, done, slots);
    ReceiverSizes(ms, t, m', js');
    FirstIs(ms, j, i, x);
    NumberIs(ms, t, m', js');
    LastGrows(ms, done, m');
    PaceLater(w.sender, LastOf(ms, done), LastOf(ms, m'));
    forall k | k in w'.acks ensures Window(k) <= Window(LastOf(ms, m')) + 6 {
      WindowMonotone(LastOf(ms, done), LastOf(ms, m'));
      if k !in w.acks {
        PaceWindow(w.sender, LastOf(ms, m'));
        NearEnough(k, LastOf(ms, m'), w.sender.newest);
      }
    }
    assert WorldAt(w', m', js');
  }

  lemma LastGrows(ms: seq<Message>, m: nat, m': nat)
    requires AllSendable(ms) && m <= m' <= |ms|
    ensures LastOf(ms, m) <= LastOf(ms, m')
  {
    hide Start;
    StartGrows(ms, m, m');
  }

  lemma NumberIs(ms: seq<Message>, s: Receiver, m: nat, js: seq<nat>)
    requires ReceiverOk(ms, s, m, js)
    ensures AllSendable(ms) && m <= |ms| && s.incoming == Wire(LastOf(ms, m))
  {
    IncomingIs(ms, s, m, js);
  }

  lemma PaceWindow(s: Sender, r: nat)
    requires KeepsPace(s, r)
    ensures Window(s.newest) <= Window(r) + 7
  {
    hide Holds, Window;
  }

  /** An acknowledged number is at most six windows ahead. */
  lemma NearEnough(k: nat, r: nat, newest: nat)
    requires k <= newest && Window(newest) <= Window(r) + 7 && !Unacknowledged(Wire(k), Wire(r))
    ensures Window(k) <= Window(r) + 6
  {
    hide Wire, Unacknowledged, Accepts;
    WindowMonotone(k, newest);
    if k >= r {
      NewTurnedDown(k, r);
    } else {
      WindowMonotone(k, r);
    }
  }

  lemma TakeOneOk(w: World, done: nat, slots: seq<nat>)
    requires WorldAt(w, done, slots)
    ensures WorldAt(After(w, TakeOne), done, slots)
  {
    hide Start, SenderOk, Holds, IsCommand, Commands, Payloads, Stands, Near, IsNumbered, KeepsPace, OnNet;
    var s, t := w.receiver, Take(w.receiver);
    assert t.taken + t.dispatched == s.taken + s.dispatched;
    forall j: nat, i: nat
      ensures Got(w.messages, t, done, slots, j, i) <==> Got(w.messages, s, done, slots, j, i)
    {
      SameList(w.messages, s, t, done, slots, j, i);
    }
    hide Got;
  }

  lemma SameList(ms: seq<Message>, s: Receiver, t: Receiver, m: nat, js: seq<nat>, j: nat, i: nat)
    requires t.queue == s.queue
    ensures Got(ms, t, m, js, j, i) <==> Got(ms, s, m, js, j, i)
  {
    if Got(ms, s, m, js, j, i) && j >= m {
      var p :| InList(ms, s, js, p, j, i);
      assert InList(ms, t, js, p, j, i);
    }
    if Got(ms, t, m, js, j, i) && j >= m {
      var p :| InList(ms, t, js, p, j, i);
      assert InList(ms, s, js, p, j, i);
    }
  }

  // ----- runs

  /** Every event keeps the invariant. */
  lemma EventOk(w: World, e: Event)
    requires WorldOk(w) && Possible(w, e)
    ensures WorldOk(After(w, e))
  {
    hide WorldAt, After;
    var done: nat, slots: seq<nat> :| WorldAt(w, done, slots);
    match e
    case Submit(m) => SubmitOk(w, m, done, slots); assert WorldAt(After(w, e), done, slots);
    case Transmit(room, limit) => TransmitOk(w, room, limit, done, slots); assert WorldAt(After(w, e), done, slots);
    case TimeOut(expired) => TimeOutOk(w, expired, done, slots); assert WorldAt(After(w, e), done, slots);
    case Arrive(_, _, _, _) => ArriveOk(w, e, done, slots);
    case AckArrives(k) => AckArrivesOk(w, k, done, slots); assert WorldAt(After(w, e), done, slots);
    case TakeOne => TakeOneOk(w, done, slots); assert WorldAt(After(w, e), done, slots);
  }

  predicate PossibleRun(w: World, events: seq<Event>)
    decreases |events|
  {
    events == [] || (Possible(w, events[0]) && PossibleRun(After(w, events[0]), events[1..]))
  }

  function AfterRun(w: World, events: seq<Event>): World
    requires PossibleRun(w, events)
    decreases |events|
  {
    if events == [] then w else AfterRun(After(w, events[0]), events[1..])
  }

  /** The payloads submitted in a run. */
  function Submitted(events: seq<Event>): seq<seq<Byte>>
    decreases |events|
  {
    if events == [] then []
    else (if events[0].Submit? then [events[0].message.payload] else []) + Submitted(events[1..])
  }

  lemma {:induction false} RunOk(w: World, events: seq<Event>)
    requires WorldOk(w) && PossibleRun(w, events)
    ensures WorldOk(AfterRun(w, events))
    ensures Payloads(AfterRun(w, events).messages) == Payloads(w.messages) + Submitted(events)
    decreases |events|
  {
    hide WorldOk, After, Possible;
    if events != [] {
      EventOk(w, events[0]);
      MessagesAfter(w, events[0]);
      RunOk(After(w, events[0]), events[1..]);
    }
  }

  lemma MessagesAfter(w: World, e: Event)
    requires Possible(w, e)
    ensures Payloads(After(w, e).messages) == Payloads(w.messages) + if e.Submit? then [e.message.payload] else []
  {
    hide SetUp, SendSome, Expire, Handle, Acknowledge, Take, QueueWellFormed;
  }

  /** What an invariant-keeping world has delivered is the start of what was submitted. */
  lemma DeliveredPrefix(w: World)
    requires WorldOk(w)
    ensures w.receiver.taken + w.receiver.dispatched <= Payloads(w.messages)
  {
    hide Start, SenderOk, Genuine, Tracked, Honest, Stands, Near, Paced, Copied;
    var done: nat, slots: seq<nat> :| WorldAt(w, done, slots);
    assert Payloads(w.messages[..done]) == Payloads(w.messages)[..done];
  }

  /**
   Reliable delivery: whatever the network loses, repeats, delays or reorders, the packets that reach the
   application are, at every moment, the first ones of those submitted, each once and in order.
   */
  lemma ExactlyOnceInOrder(events: seq<Event>)
    requires PossibleRun(Quiet(), events)
    ensures var s := AfterRun(Quiet(), events).receiver; s.taken + s.dispatched <= Submitted(events)
  {
    hide WorldOk, AfterRun;
    QuietOk();
    RunOk(Quiet(), events);
    DeliveredPrefix(AfterRun(Quiet(), events));
    assert Payloads(Quiet().messages) + Submitted(events) == Submitted(events);
  }

  // ----- the windows

  /** In every reachable state the unacknowledged commands lie in the seven windows that end with the newest. */
  lemma SevenWindows(events: seq<Event>, c: Outgoing)
    requires PossibleRun(Quiet(), events)
    requires var s := AfterRun(Quiet(), events).sender;
      c in s.sent || (c in s.queue && c.sendAttempts >= 1)
    ensures var s := AfterRun(Quiet(), events).sender;
      c.id <= s.newest && Window(s.newest) - 6 <= Window(c.id) <= Window(s.newest)
  {
    hide WorldOk, AfterRun, Window;
    QuietOk();
    RunOk(Quiet(), events);
    TriedThere(AfterRun(Quiet(), events), c);
    WindowMonotone(c.id, AfterRun(Quiet(), events).sender.newest);
  }

  lemma TriedThere(w: World, c: Outgoing)
    requires WorldOk(w) && (c in w.sender.sent || (c in w.sender.queue && c.sendAttempts >= 1))
    ensures Tried(c, w.sender.newest)
  {
    hide ReceiverOk, Genuine, Tracked, Honest, Paced, Copied, Counted, Total, Wire, Window;
    var done: nat, slots: seq<nat> :| WorldAt(w, done, slots);
    var s := w.sender;
    if c in s.sent {
      var i :| 0 <= i < |s.sent| && s.sent[i] == c;
    } else {
      var i :| 0 <= i < |s.queue| && s.queue[i] == c;
      assert forall q :: |s.queue| - (s.last - s.newest) <= q < |s.queue| ==> s.queue[q].sendAttempts == 0;
    }
  }

  /** A copy of a command that has been dispatched changes nothing at the receiver. */
  lemma OldIsNotTakenForNew(w: World, done: nat, slots: seq<nat>, e: Event, j: nat, i: nat)
    requires WorldAt(w, done, slots) && e.Arrive? && Possible(w, e)
    requires Carries(w.messages, j, i, e.copy.id, e.copy.command) && j < done
    ensures After(w, e).receiver == w.receiver
  {
    hide Start, Wire, Window, SenderOk, IsCommand, Commands, CommandOf, FragmentCount, Tracked, Honest, Stands,
      Dispatch, Place, Accepts, Paced, Copied;
    var ms, x := w.messages, e.copy;
    assert IsCommand(ms, x.id, x.command);
    FirstIs(ms, j, i, x);
    StartReachable(w, done, slots, j, i);
    AcceptsIs(ms, done, j, i);
    StartLast(ms, done);
  }

  /** A command that the receiver has acknowledged is one that it has, not one that it dropped as too far ahead. */
  lemma AcknowledgedIsThere(w: World, done: nat, slots: seq<nat>, j: nat, i: nat, k: nat)
    requires WorldAt(w, done, slots) && k in w.acks && IsNumbered(w.messages, j, i, k)
    ensures Got(w.messages, w.receiver, done, slots, j, i)
  {
    hide SenderOk, ReceiverOk, Genuine, Tracked, IsNumbered, Got, Paced, Copied;
  }
}
