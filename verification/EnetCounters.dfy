/**
 The window counters of the sender have 16 bits.  They never come near the end of that range, because no command is held
 twice: a counter is at most the size of a window.
 */
module EnetCounters {
  import opened Basics
  import opened EnetWindows
  import opened EnetMessages
  import opened EnetSender
  import opened EnetReceiver
  import opened EnetOrder
  import opened EnetDelivery

  function Ids(l: seq<Outgoing>): multiset<nat>
    decreases |l|
  {
    if l == [] then multiset{} else multiset{l[0].id} + Ids(l[1..])
  }

  function Held(s: Sender): multiset<nat>
  {
    Ids(s.sent) + Ids(s.queue)
  }

  /** No command is held twice. */
  ghost predicate Once(s: Sender)
  {
    forall k :: Held(s)[k] <= 1
  }

  lemma {:induction false} IdsSum(a: seq<Outgoing>, b: seq<Outgoing>)
    ensures Ids(a + b) == Ids(a) + Ids(b)
    decreases |a|
  {
    if a == [] {
      assert a + b == b;
    } else {
      assert (a + b)[0] == a[0] && (a + b)[1..] == a[1..] + b;
      IdsSum(a[1..], b);
    }
  }

  lemma NoIds()
    ensures Ids([]) == multiset{}
  {
  }

  lemma IdsOne(c: Outgoing)
    ensures Ids([c]) == multiset{c.id}
  {
    assert [c][1..] == [];
  }

  lemma {:induction false} IdsPick(l: seq<Outgoing>, expired: set<nat>)
    ensures Ids(l) == Ids(Pick(l, expired, true)) + Ids(Pick(l, expired, false))
    decreases |l|
  {
    hide Ids;
    NoIds();
    if l != [] {
      IdsPick(l[1..], expired);
      var here := l[0].id in expired;
      assert Pick(l, expired, here) == [l[0]] + Pick(l[1..], expired, here);
      assert Pick(l, expired, !here) == Pick(l[1..], expired, !here);
      assert l == [l[0]] + l[1..];
      IdsSum([l[0]], l[1..]);
      IdsSum([l[0]], Pick(l[1..], expired, here));
    }
  }

  lemma IdsWithout(l: seq<Outgoing>, i: nat)
    requires i < |l|
    ensures Ids(l) == Ids(Without(l, i)) + multiset{l[i].id}
  {
    hide Ids;
    assert l == l[..i] + ([l[i]] + l[i + 1..]);
    IdsSum(l[..i], [l[i]] + l[i + 1..]);
    IdsSum([l[i]], l[i + 1..]);
    IdsSum(l[..i], l[i + 1..]);
    IdsOne(l[i]);
  }

  lemma {:induction false} IdsAmong(l: seq<Outgoing>, k: nat)
    requires Ids(l)[k] > 0
    ensures exists c :: c in l && c.id == k
    decreases |l|
  {
    if l[0].id != k {
      IdsAmong(l[1..], k);
      var c :| c in l[1..] && c.id == k;
      assert c in l;
    }
  }

  // ----- every step keeps it

  lemma SendOnce(s: Sender)
    requires |s.windows| == ENET_PEER_RELIABLE_WINDOWS && s.queue != []
    ensures Held(Send(s)) == Held(s)
  {
    var c := s.queue[0];
    var c' := c.(sendAttempts := c.sendAttempts + 1);
    IdsSum(s.sent, [c']);
    IdsOne(c');
    hide Window;
  }

  lemma {:induction false} SendSomeOnce(s: Sender, room: nat, limit: nat)
    requires SenderOk(s)
    ensures SenderOk(SendSome(s, room, limit).0) && Held(SendSome(s, room, limit).0) == Held(s)
    decreases room
  {
    hide SenderOk, Held, CanSend, Send;
    WindowsThere(s);
    if room > 0 && CanSend(s, limit) {
      QueueThere(s, limit);
      SendOk(s, limit);
      SendOnce(s);
      SendSomeOnce(Send(s), room - 1, limit);
    }
  }

  lemma ExpireOnce(s: Sender, expired: set<nat>)
    ensures Held(Expire(s, expired)) == Held(s)
  {
    hide Ids, Pick;
    IdsPick(s.sent, expired);
    IdsSum(Pick(s.sent, expired, true), s.queue);
  }

  lemma AcknowledgeOnce(s: Sender, number: Sequence)
    requires |s.windows| == ENET_PEER_RELIABLE_WINDOWS
    ensures Held(Acknowledge(s, number)) <= Held(s)
  {
    hide Ids, Without, Window;
    FoundNumber(s.sent, number);
    FoundTried(s.queue, number);
    match FindNumber(s.sent, number)
    case Some(i) => IdsWithout(s.sent, i);
    case None =>
      match FindTried(s.queue, number)
      case Some(i) => IdsWithout(s.queue, i);
      case None =>
  }

  lemma HeldSmall(s: Sender, k: nat)
    requires SenderOk(s) && Held(s)[k] > 0
    ensures k <= s.last
  {
    hide Counted, Wire, Window;
    if Ids(s.sent)[k] > 0 {
      IdsAmong(s.sent, k);
    } else {
      IdsAmong(s.queue, k);
    }
  }

  lemma {:induction false} QueuedIds(commands: seq<Command>, last: nat, k: nat)
    ensures Ids(Queued(commands, last))[k] == if last < k <= last + |commands| then 1 else 0
    decreases |commands|
  {
    if commands != [] {
      QueuedIds(commands[1..], last + 1, k);
    }
  }

  lemma SetUpOnce(s: Sender, commands: seq<Command>)
    requires SenderOk(s) && Once(s)
    ensures Once(SetUp(s, commands))
  {
    hide Ids, SenderOk;
    var t := SetUp(s, commands);
    forall k ensures Held(t)[k] <= 1 {
      IdsSum(s.queue, Queued(commands, s.last));
      if k >= 0 {
        QueuedIds(commands, s.last, k);
        if Held(s)[k] > 0 {
          HeldSmall(s, k);
        }
      }
    }
  }

  // ----- the bound

  /** The elements of a multiset among the n numbers from lo on. */
  function Among(m: multiset<nat>, lo: nat, n: nat): nat
    decreases n
  {
    if n == 0 then 0 else Among(m, lo, n - 1) + m[lo + n - 1]
  }

  lemma {:induction false} AmongSum(a: multiset<nat>, b: multiset<nat>, lo: nat, n: nat)
    ensures Among(a + b, lo, n) == Among(a, lo, n) + Among(b, lo, n)
    decreases n
  {
    if n > 0 {
      AmongSum(a, b, lo, n - 1);
    }
  }

  lemma {:induction false} AmongOne(k: nat, lo: nat, n: nat)
    ensures Among(multiset{k}, lo, n) == if lo <= k < lo + n then 1 else 0
    decreases n
  {
    if n > 0 {
      AmongOne(k, lo, n - 1);
    }
  }

  lemma {:induction false} AmongOnce(m: multiset<nat>, lo: nat, n: nat)
    requires forall k :: m[k] <= 1
    ensures Among(m, lo, n) <= n
    decreases n
  {
    if n > 0 {
      AmongOnce(m, lo, n - 1);
    }
  }

  /** The sent commands of a window all have ids from lo on, within one window's worth. */
  predicate Located(l: seq<Outgoing>, w: nat, lo: nat)
  {
    forall c :: c in l && c.sendAttempts >= 1 && Window(c.number) == w ==>
      lo <= c.id < lo + ENET_PEER_RELIABLE_WINDOW_SIZE
  }

  lemma {:induction false} CountAmong(l: seq<Outgoing>, w: nat, lo: nat)
    requires Located(l, w, lo)
    ensures Count(l, w) <= Among(Ids(l), lo, ENET_PEER_RELIABLE_WINDOW_SIZE)
    decreases |l|
  {
    hide Among, Window;
    if l != [] {
      assert l[0] in l && forall c :: c in l[1..] ==> c in l;
      CountAmong(l[1..], w, lo);
      AmongSum(multiset{l[0].id}, Ids(l[1..]), lo, ENET_PEER_RELIABLE_WINDOW_SIZE);
      AmongOne(l[0].id, lo, ENET_PEER_RELIABLE_WINDOW_SIZE);
    }
  }

  /** Seven consecutive windows contain a given one of the sixteen at most once. */
  lemma WindowPlace(newest: nat, w: nat) returns (lo: nat)
    requires w < ENET_PEER_RELIABLE_WINDOWS
    ensures forall k: nat :: k <= newest && Window(k) + 6 >= Window(newest) && Window(Wire(k)) == w ==>
      lo <= k < lo + ENET_PEER_RELIABLE_WINDOW_SIZE
  {
    var n := Window(newest);
    var v := n - (n - w) % ENET_PEER_RELIABLE_WINDOWS;
    lo := if v < 0 then 0 else v * ENET_PEER_RELIABLE_WINDOW_SIZE;
    forall k: nat | k <= newest && Window(k) + 6 >= Window(newest) && Window(Wire(k)) == w
      ensures lo <= k < lo + ENET_PEER_RELIABLE_WINDOW_SIZE
    {
      WireParts(k);
    }
  }

  lemma CounterBounded(s: Sender, w: nat)
    requires SenderOk(s) && Once(s) && w < ENET_PEER_RELIABLE_WINDOWS
    ensures s.windows[w] <= ENET_PEER_RELIABLE_WINDOW_SIZE
  {
    var lo := WindowPlace(s.newest, w);
    hide Window, Wire, Count, Ids, Among;
    assert Located(s.sent, w, lo);
    assert Located(s.queue, w, lo);
    CountAmong(s.sent, w, lo);
    CountAmong(s.queue, w, lo);
    AmongSum(Ids(s.sent), Ids(s.queue), lo, ENET_PEER_RELIABLE_WINDOW_SIZE);
    AmongOnce(Held(s), lo, ENET_PEER_RELIABLE_WINDOW_SIZE);
  }

  // ----- every run

  lemma EventOnce(w: World, e: Event)
    requires WorldOk(w) && Possible(w, e) && Once(w.sender)
    ensures Once(After(w, e).sender)
  {
    hide WorldOk, Held, SenderOk, SetUp, SendSome, Expire, Acknowledge, Handle, Take, CommandsOf, EnetDelivery.Copies,
      Once, Recent, QueueWellFormed, Wire, Window, Unacknowledged;
    WorldSenderOk(w);
    HeldLess(w.sender, After(w, e).sender);
    hide After;
    SenderAfter(w, e);
    match e
    case Submit(m) => SetUpOnce(w.sender, CommandsOf(m, w.sender.last + 1));
    case Transmit(room, limit) => SendSomeOnce(w.sender, room, limit);
    case TimeOut(expired) => ExpireOnce(w.sender, expired);
    case AckArrives(k) => AcknowledgeOnce(w.sender, Wire(k));
    case _ =>
  }

  lemma SenderAfter(w: World, e: Event)
    requires Possible(w, e)
    ensures var s := w.sender;
      After(w, e).sender ==
        match e
        case Submit(m) => SetUp(s, CommandsOf(m, s.last + 1))
        case Transmit(room, limit) => SendSome(s, room, limit).0
        case TimeOut(expired) => Expire(s, expired)
        case AckArrives(k) => Acknowledge(s, Wire(k))
        case _ => s
  {
    hide SetUp, SendSome, Expire, Acknowledge, Handle, Take, CommandsOf, EnetDelivery.Copies, QueueWellFormed, Wire,
      Recent;
  }

  lemma HeldLess(s: Sender, t: Sender)
    ensures Once(s) && Held(t) <= Held(s) ==> Once(t)
  {
    hide Held;
  }

  lemma WorldSenderOk(w: World)
    requires WorldOk(w)
    ensures SenderOk(w.sender)
  {
    hide SenderOk, ReceiverOk, Genuine, Tracked, Honest;
  }

  lemma {:induction false} RunOnce(w: World, events: seq<Event>)
    requires WorldOk(w) && Once(w.sender) && PossibleRun(w, events)
    ensures WorldOk(AfterRun(w, events)) && Once(AfterRun(w, events).sender)
    decreases |events|
  {
    hide WorldOk, After, Possible, Once;
    if events != [] {
      EventOk(w, events[0]);
      EventOnce(w, events[0]);
      RunOnce(After(w, events[0]), events[1..]);
    }
  }

  /** In every run over the network no window counter exceeds the size of a window, so sixteen bits are enough. */
  lemma CountersFit(events: seq<Event>, w: nat)
    requires PossibleRun(Quiet(), events) && w < ENET_PEER_RELIABLE_WINDOWS
    ensures var s := AfterRun(Quiet(), events).sender; w < |s.windows| && s.windows[w] <= ENET_PEER_RELIABLE_WINDOW_SIZE
  {
    QuietOk();
    NewSenderOnce();
    hide WorldOk, AfterRun, Once, SenderOk;
    RunOnce(Quiet(), events);
    WorldSenderOk(AfterRun(Quiet(), events));
    WindowsThere(AfterRun(Quiet(), events).sender);
    CounterBounded(AfterRun(Quiet(), events).sender, w);
  }

  lemma NewSenderOnce()
    ensures Once(Quiet().sender)
  {
    NoIds();
  }
}
