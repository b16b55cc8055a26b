/** The sending side of a channel: queueing, first sending and resending, timeouts, and acknowledgements. */
module EnetSender {
  import opened Basics
  import opened EnetWindows
  import opened EnetMessages

  /** A queued command.  Its id stands for its identity: it is the number it would have without wrap-around. */
  datatype Outgoing = Outgoing(id: nat, number: Sequence, sendAttempts: nat, length: nat, command: Command)

  /**
   The commands waiting in the send queue, those sent and not yet acknowledged, the window counters with their
   bit set, the data in transit, the number of the last command queued, and that of the last one sent for the
   first time.
   */
  datatype Sender = Sender(windows: seq<nat>, used: set<nat>, queue: seq<Outgoing>, sent: seq<Outgoing>,
                           inTransit: int, last: nat, newest: nat)

  function NewSender(): Sender
  {
    Sender(seq(ENET_PEER_RELIABLE_WINDOWS, _ => 0), {}, [], [], 0, 0, 0)
  }

  // ----- queueing

  function Queued(commands: seq<Command>, last: nat): seq<Outgoing>
    decreases |commands|
  {
    if commands == [] then []
    else [Outgoing(last + 1, Wire(last + 1), 0, |commands[0].data|, commands[0])] + Queued(commands[1..], last + 1)
  }

  /** Commands put at the end of the queue. */
  function SetUp(s: Sender, commands: seq<Command>): Sender
  {
    s.(queue := s.queue + Queued(commands, s.last), last := s.last + |commands|)
  }

  // ----- sending

  /** The ten windows from w on, around the circle, as the bits of a mask. */
  function Mask(w: nat): set<nat>
  {
    set v | 0 <= v < ENET_PEER_RELIABLE_WINDOWS && InMask(v, w)
  }

  predicate InMask(v: nat, w: nat)
  {
    || w <= v < w + ENET_PEER_FREE_RELIABLE_WINDOWS + 2
    || v + ENET_PEER_RELIABLE_WINDOWS < w + ENET_PEER_FREE_RELIABLE_WINDOWS + 2
  }

  /** A command that would open a new window must wait until the windows around it are free. */
  predicate WindowWrap(s: Sender, c: Outgoing)
    requires |s.windows| == ENET_PEER_RELIABLE_WINDOWS
  {
    var w := Window(c.number);
    c.sendAttempts < 1 && c.number % ENET_PEER_RELIABLE_WINDOW_SIZE == 0 &&
    (s.windows[(w + ENET_PEER_RELIABLE_WINDOWS - 1) % ENET_PEER_RELIABLE_WINDOWS] >= ENET_PEER_RELIABLE_WINDOW_SIZE
     || s.used * Mask(w) != {})
  }

  predicate CanSend(s: Sender, limit: nat)
    requires |s.windows| == ENET_PEER_RELIABLE_WINDOWS
  {
    s.queue != [] && !WindowWrap(s, s.queue[0]) && s.inTransit + s.queue[0].length <= limit
  }

  lemma WindowSmall(number: Sequence)
    ensures Window(number) < ENET_PEER_RELIABLE_WINDOWS
  {
  }

  /** Sends the first command of the queue. */
  function Send(s: Sender): Sender
    requires |s.windows| == ENET_PEER_RELIABLE_WINDOWS && s.queue != []
  {
    var c := s.queue[0];
    var w := Window(c.number);
    WindowSmall(c.number);
    var moved := s.(queue := s.queue[1..], sent := s.sent + [c.(sendAttempts := c.sendAttempts + 1)],
                    inTransit := s.inTransit + c.length);
    if c.sendAttempts < 1 then
      moved.(windows := s.windows[w := s.windows[w] + 1], used := s.used + {w}, newest := s.newest + 1)
    else moved
  }

  /** Sends from the front of the queue until the datagram is full or something must wait. */
  function SendSome(s: Sender, room: nat, limit: nat): (Sender, seq<Outgoing>)
    requires |s.windows| == ENET_PEER_RELIABLE_WINDOWS
    decreases room
  {
    if room == 0 || !CanSend(s, limit) then (s, [])
    else
      var (t, more) := SendSome(Send(s), room - 1, limit);
      (t, [s.queue[0]] + more)
  }

  // ----- timeouts

  function Pick(l: seq<Outgoing>, expired: set<nat>, which: bool): seq<Outgoing>
    decreases |l|
  {
    if l == [] then [] else (if (l[0].id in expired) == which then [l[0]] else []) + Pick(l[1..], expired, which)
  }

  function Total(l: seq<Outgoing>): nat
    decreases |l|
  {
    if l == [] then 0 else l[0].length + Total(l[1..])
  }

  /** Puts the commands whose time is up back to the front of the queue. */
  function Expire(s: Sender, expired: set<nat>): Sender
  {
    var back := Pick(s.sent, expired, true);
    s.(sent := Pick(s.sent, expired, false), queue := back + s.queue, inTransit := s.inTransit - Total(back))
  }

  // ----- acknowledgements

  function FindNumber(l: seq<Outgoing>, number: Sequence): Option<nat>
    decreases |l|
  {
    if l == [] then None
    else if l[0].number == number then Some(0)
    else match FindNumber(l[1..], number)
      case None => None
      case Some(i) => Some(i + 1)
  }

  /** Only commands that have been sent before can be found in the queue. */
  function FindTried(l: seq<Outgoing>, number: Sequence): Option<nat>
    decreases |l|
  {
    if l == [] || l[0].sendAttempts < 1 then None
    else if l[0].number == number then Some(0)
    else match FindTried(l[1..], number)
      case None => None
      case Some(i) => Some(i + 1)
  }

  lemma {:induction false} FoundNumber(l: seq<Outgoing>, number: Sequence)
    ensures FindNumber(l, number).Some? ==>
      var i := FindNumber(l, number).value; i < |l| && l[i].number == number
    ensures FindNumber(l, number).None? ==> forall i :: 0 <= i < |l| ==> l[i].number != number
    decreases |l|
  {
    if l != [] && l[0].number != number {
      FoundNumber(l[1..], number);
      forall i | 0 <= i < |l| && FindNumber(l, number).None? ensures l[i].number != number {
        assert i == 0 || l[i] == l[1..][i - 1];
      }
    }
  }

  lemma {:induction false} FoundTried(l: seq<Outgoing>, number: Sequence)
    ensures FindTried(l, number).Some? ==>
      var i := FindTried(l, number).value; i < |l| && l[i].number == number && l[i].sendAttempts >= 1
    decreases |l|
  {
    if l != [] && l[0].number != number && l[0].sendAttempts >= 1 {
      FoundTried(l[1..], number);
    }
  }

  function Without<T>(l: seq<T>, i: nat): seq<T>
    requires i < |l|
  {
    l[..i] + l[i + 1..]
  }

  function Uncounted(s: Sender, number: Sequence): Sender
    requires |s.windows| == ENET_PEER_RELIABLE_WINDOWS
  {
    WindowSmall(number);
    var w := Window(number);
    if s.windows[w] > 0 then
      s.(windows := s.windows[w := s.windows[w] - 1], used := if s.windows[w] == 1 then s.used - {w} else s.used)
    else s
  }

  /** Forgets the command that the acknowledged number stands for, if there is one. */
  function Acknowledge(s: Sender, number: Sequence): Sender
    requires |s.windows| == ENET_PEER_RELIABLE_WINDOWS
  {
    FoundNumber(s.sent, number);
    FoundTried(s.queue, number);
    var t := Uncounted(s, number);
    match FindNumber(s.sent, number)
    case Some(i) => t.(sent := Without(s.sent, i), inTransit := s.inTransit - s.sent[i].length)
    case None =>
      match FindTried(s.queue, number)
      case Some(i) => t.(queue := Without(s.queue, i))
      case None => s
  }

  // ----- what always holds

  /** The number of commands in the list that have been sent and belong to the window. */
  function Count(l: seq<Outgoing>, w: nat): nat
    decreases |l|
  {
    if l == [] then 0 else (if l[0].sendAttempts >= 1 && Window(l[0].number) == w then 1 else 0) + Count(l[1..], w)
  }

  /** A command sent before: it lies in one of the seven windows that end with the newest. */
  ghost predicate Tried(c: Outgoing, newest: nat)
  {
    && c.sendAttempts >= 1 && 1 <= c.id <= newest && c.number == Wire(c.id)
    && Window(c.id) + 6 >= Window(newest)
  }

  ghost predicate Fresh(c: Outgoing, id: nat)
  {
    c.sendAttempts == 0 && c.id == id && c.number == Wire(id)
  }

  /** The counters tell how many sent commands of each window are unacknowledged. */
  ghost predicate Counted(s: Sender)
  {
    && |s.windows| == ENET_PEER_RELIABLE_WINDOWS
    && (forall w :: 0 <= w < ENET_PEER_RELIABLE_WINDOWS ==> s.windows[w] == Count(s.sent, w) + Count(s.queue, w))
    && (forall w :: w in s.used <==> 0 <= w < ENET_PEER_RELIABLE_WINDOWS && s.windows[w] > 0)
  }

  /** Commands waiting to be sent again come first in the queue, then the new ones in order. */
  ghost predicate Ordered(s: Sender)
  {
    && s.newest <= s.last && s.last - s.newest <= |s.queue|
    && (forall i :: 0 <= i < |s.sent| ==> Tried(s.sent[i], s.newest))
    && var a := |s.queue| - (s.last - s.newest);
       && (forall i :: 0 <= i < a ==> Tried(s.queue[i], s.newest))
       && (forall i :: a <= i < |s.queue| ==> Fresh(s.queue[i], s.newest + 1 + i - a))
  }

  ghost predicate SenderOk(s: Sender)
  {
    Counted(s) && Ordered(s) && s.inTransit == Total(s.sent)
  }

  ghost predicate Holds(s: Sender, k: nat)
  {
    exists c :: (c in s.sent || c in s.queue) && c.id == k
  }

  // ----- counting

  lemma {:induction false} CountSum(a: seq<Outgoing>, b: seq<Outgoing>, w: nat)
    ensures Count(a + b, w) == Count(a, w) + Count(b, w)
    ensures Total(a + b) == Total(a) + Total(b)
    decreases |a|
  {
    if a == [] {
      assert a + b == b;
    } else {
      assert (a + b)[0] == a[0] && (a + b)[1..] == a[1..] + b;
      CountSum(a[1..], b, w);
    }
  }

  lemma CountOne(c: Outgoing, w: nat)
    ensures Count([c], w) == if c.sendAttempts >= 1 && Window(c.number) == w then 1 else 0
    ensures Total([c]) == c.length
  {
    assert [c][1..] == [];
    assert Count([], w) == 0 && Total([]) == 0;
  }

  lemma CountWithout(l: seq<Outgoing>, i: nat, w: nat)
    requires i < |l|
    ensures Count(l, w) == Count(Without(l, i), w) + if l[i].sendAttempts >= 1 && Window(l[i].number) == w then 1 else 0
    ensures Total(l) == Total(Without(l, i)) + l[i].length
  {
    hide Count, Total;
    assert l == l[..i] + ([l[i]] + l[i + 1..]);
    CountSum(l[..i], [l[i]] + l[i + 1..], w);
    CountSum([l[i]], l[i + 1..], w);
    CountSum(l[..i], l[i + 1..], w);
    CountOne(l[i], w);
  }

  lemma CountFirst(l: seq<Outgoing>, w: nat)
    requires l != []
    ensures Count(l, w) == Count(l[1..], w) + if l[0].sendAttempts >= 1 && Window(l[0].number) == w then 1 else 0
  {
  }

  lemma CountPositive(l: seq<Outgoing>, i: nat)
    requires i < |l| && l[i].sendAttempts >= 1
    ensures Count(l, Window(l[i].number)) > 0
  {
    CountWithout(l, i, Window(l[i].number));
  }

  lemma {:induction false} CountPick(l: seq<Outgoing>, expired: set<nat>, w: nat)
    ensures Count(l, w) == Count(Pick(l, expired, true), w) + Count(Pick(l, expired, false), w)
    ensures Total(l) == Total(Pick(l, expired, true)) + Total(Pick(l, expired, false))
    decreases |l|
  {
    if l != [] {
      CountPick(l[1..], expired, w);
      var here := l[0].id in expired;
      assert Pick(l, expired, here) == [l[0]] + Pick(l[1..], expired, here);
      assert Pick(l, expired, !here) == Pick(l[1..], expired, !here);
      CountSum([l[0]], Pick(l[1..], expired, here), w);
      CountOne(l[0], w);
    }
  }

  lemma {:induction false} PickFrom(l: seq<Outgoing>, expired: set<nat>, which: bool)
    ensures forall c :: c in Pick(l, expired, which) <==> c in l && (c.id in expired) == which
    decreases |l|
  {
    if l != [] {
      PickFrom(l[1..], expired, which);
      assert forall c :: c in l <==> c == l[0] || c in l[1..];
    }
  }

  lemma {:induction false} CountNone(l: seq<Outgoing>, w: nat)
    requires forall i :: 0 <= i < |l| ==> l[i].sendAttempts == 0
    ensures Count(l, w) == 0
    decreases |l|
  {
    if l != [] {
      CountNone(l[1..], w);
    }
  }

  // ----- every step keeps it

  lemma NewSenderOk()
    ensures SenderOk(NewSender())
  {
  }

  lemma {:induction false} QueuedAre(commands: seq<Command>, last: nat)
    ensures |Queued(commands, last)| == |commands|
    ensures forall i :: 0 <= i < |commands| ==> Fresh(Queued(commands, last)[i], last + 1 + i)
    ensures forall i :: 0 <= i < |commands| ==> Queued(commands, last)[i].command == commands[i]
    decreases |commands|
  {
    hide Wire;
    if commands != [] {
      QueuedAre(commands[1..], last + 1);
      forall i | 0 < i < |commands| ensures Queued(commands, last)[i] == Queued(commands[1..], last + 1)[i - 1] {
      }
    }
  }

  lemma SetUpOk(s: Sender, commands: seq<Command>)
    requires SenderOk(s)
    ensures SenderOk(SetUp(s, commands))
    ensures forall k :: Holds(s, k) ==> Holds(SetUp(s, commands), k)
    ensures forall k :: s.last < k <= s.last + |commands| ==> Holds(SetUp(s, commands), k)
  {
    hide Wire, Window, Count, Total;
    var t, q := SetUp(s, commands), Queued(commands, s.last);
    QueuedAre(commands, s.last);
    forall w | 0 <= w < ENET_PEER_RELIABLE_WINDOWS ensures Count(t.queue, w) == Count(s.queue, w) {
      CountSum(s.queue, q, w);
      CountNone(q, w);
    }
    forall k | s.last < k <= s.last + |commands| ensures Holds(t, k) {
      var c := q[k - s.last - 1];
      assert t.queue[|s.queue| + (k - s.last - 1)] == c;
    }
    forall k | Holds(s, k) ensures Holds(t, k) {
      var c :| (c in s.sent || c in s.queue) && c.id == k;
      assert c in t.sent || c in t.queue;
    }
  }

  /** Opening a window leaves the unacknowledged commands within seven windows. */
  lemma WindowOpens(s: Sender, c: Outgoing)
    requires SenderOk(s) && s.queue != [] && s.queue[0].sendAttempts < 1 && !WindowWrap(s, s.queue[0])
    requires Tried(c, s.newest) && c in s.sent
    ensures Window(c.id) + 6 >= Window(s.newest + 1)
  {
    hide Count, Total;
    var w := Window(c.number);
    var i :| 0 <= i < |s.sent| && s.sent[i] == c;
    CountPositive(s.sent, i);
    WindowSmall(c.number);
    assert w in s.used;
    FreshFirst(s);
    SameWindow(s.newest);
    MaskFull(c.id, s.newest);
    var mask := Mask(Window(Wire(s.newest + 1)));
    assert s.used * mask == {} ==> !(w in s.used * mask);
  }

  lemma SameWindow(n: nat)
    ensures Window(n + 1) == if (n + 1) % ENET_PEER_RELIABLE_WINDOW_SIZE == 0 then Window(n) + 1 else Window(n)
  {
  }

  lemma MaskFull(k: nat, n: nat)
    ensures Wire(n + 1) % ENET_PEER_RELIABLE_WINDOW_SIZE == (n + 1) % ENET_PEER_RELIABLE_WINDOW_SIZE
    ensures (n + 1) % ENET_PEER_RELIABLE_WINDOW_SIZE == 0 && Window(k) + 6 == Window(n) ==>
      Window(Wire(k)) in Mask(Window(Wire(n + 1)))
  {
    WireParts(k);
    WireParts(n + 1);
    SameWindow(n);
    hide Mask, InMask;
    if (n + 1) % ENET_PEER_RELIABLE_WINDOW_SIZE == 0 && Window(k) + 6 == Window(n) {
      InMaskBehind(Window(Wire(k)), Window(Wire(n + 1)), k / NUMBERS, (n + 1) / NUMBERS);
    }
  }

  lemma InMaskBehind(v: nat, w: nat, a: nat, b: nat)
    requires v < 16 && w < 16 && 16 * a + v + 7 == 16 * b + w
    ensures v in Mask(w)
  {
  }

  lemma FreshFirst(s: Sender)
    requires Ordered(s) && s.queue != [] && s.queue[0].sendAttempts < 1
    ensures |s.queue| == s.last - s.newest && Fresh(s.queue[0], s.newest + 1)
  {
    hide Wire, Window;
    var a := |s.queue| - (s.last - s.newest);
    assert a > 0 ==> Tried(s.queue[0], s.newest);
  }

  lemma SendOk(s: Sender, limit: nat)
    requires SenderOk(s) && CanSend(s, limit)
    ensures SenderOk(Send(s)) && Send(s).last == s.last
    ensures Send(s).newest == s.newest || Send(s).newest == s.newest + 1
    ensures s.queue[0].id <= Send(s).newest
  {
    SendCounted(s);
    SendOrdered(s, limit);
    hide Count, Window, Wire, WindowWrap;
    CountSum(s.sent, [s.queue[0].(sendAttempts := s.queue[0].sendAttempts + 1)], 0);
    CountOne(s.queue[0].(sendAttempts := s.queue[0].sendAttempts + 1), 0);
    hide Counted, Ordered, Total;
  }

  lemma SendCounted(s: Sender)
    requires Counted(s) && s.queue != []
    ensures Counted(Send(s))
  {
    var c, t := s.queue[0], Send(s);
    var c' := c.(sendAttempts := c.sendAttempts + 1);
    WindowSmall(c.number);
    hide Count, Window;
    forall w | 0 <= w < ENET_PEER_RELIABLE_WINDOWS ensures t.windows[w] == Count(t.sent, w) + Count(t.queue, w) {
      CountSum(s.sent, [c'], w);
      CountOne(c', w);
      CountFirst(s.queue, w);
    }
  }

  lemma SendOrdered(s: Sender, limit: nat)
    requires SenderOk(s) && CanSend(s, limit)
    ensures Ordered(Send(s))
    ensures Send(s).newest == s.newest || Send(s).newest == s.newest + 1
    ensures s.queue[0].id <= Send(s).newest
  {
    hide Window, Wire, WindowWrap, Counted;
    WindowsThere(s);
    var c, t := s.queue[0], Send(s);
    if c.sendAttempts < 1 {
      FreshFirst(s);
      forall i | 0 <= i < |s.sent| ensures Tried(s.sent[i], t.newest) {
        WindowOpens(s, s.sent[i]);
      }
    } else {
      RetryFirst(s);
    }
  }

  lemma RetryFirst(s: Sender)
    requires Ordered(s) && s.queue != [] && s.queue[0].sendAttempts >= 1
    ensures |s.queue| > s.last - s.newest && Tried(s.queue[0], s.newest)
  {
    hide Wire, Window;
    var a := |s.queue| - (s.last - s.newest);
    assert forall i :: a <= i < |s.queue| ==> s.queue[i].sendAttempts == 0;
  }

  lemma SendHolds(s: Sender, k: nat)
    requires |s.windows| == ENET_PEER_RELIABLE_WINDOWS && s.queue != [] && Holds(s, k)
    ensures Holds(Send(s), k)
  {
    var c :| (c in s.sent || c in s.queue) && c.id == k;
    var t := Send(s);
    if c in s.queue {
      if c == s.queue[0] {
        assert t.sent[|s.sent|].id == k;
      } else {
        assert c in s.queue[1..];
      }
    }
  }

  lemma {:induction false} SendSomeOk(s: Sender, room: nat, limit: nat)
    requires SenderOk(s)
    ensures SenderOk(SendSome(s, room, limit).0) && SendSome(s, room, limit).0.last == s.last
    ensures SendSome(s, room, limit).0.newest >= s.newest
    ensures forall k :: Holds(s, k) ==> Holds(SendSome(s, room, limit).0, k)
    ensures forall c :: c in SendSome(s, room, limit).1 ==> c in s.queue && c.id <= SendSome(s, room, limit).0.newest
    decreases room
  {
    hide SenderOk, Holds, Send, CanSend;
    WindowsThere(s);
    if room > 0 && CanSend(s, limit) {
      SendOk(s, limit);
      QueueThere(s, limit);
      SendSomeOk(Send(s), room - 1, limit);
      forall k | Holds(s, k) ensures Holds(Send(s), k) {
        SendHolds(s, k);
      }
    }
  }

  lemma WindowsThere(s: Sender)
    requires SenderOk(s)
    ensures |s.windows| == ENET_PEER_RELIABLE_WINDOWS
  {
  }

  lemma QueueThere(s: Sender, limit: nat)
    requires |s.windows| == ENET_PEER_RELIABLE_WINDOWS && CanSend(s, limit)
    ensures s.queue != [] && forall c :: c in Send(s).queue ==> c in s.queue
  {
  }

  lemma ExpireOk(s: Sender, expired: set<nat>)
    requires SenderOk(s)
    ensures SenderOk(Expire(s, expired)) && Expire(s, expired).last == s.last && Expire(s, expired).newest == s.newest
    ensures forall k :: Holds(s, k) ==> Holds(Expire(s, expired), k)
  {
    hide Count, Total, Window, Wire;
    var t, back, kept := Expire(s, expired), Pick(s.sent, expired, true), Pick(s.sent, expired, false);
    forall w | 0 <= w < ENET_PEER_RELIABLE_WINDOWS ensures t.windows[w] == Count(t.sent, w) + Count(t.queue, w) {
      CountPick(s.sent, expired, w);
      CountSum(back, s.queue, w);
    }
    CountPick(s.sent, expired, 0);
    PickFrom(s.sent, expired, true);
    PickFrom(s.sent, expired, false);
    hide Pick;
    forall i | 0 <= i < |t.sent| ensures Tried(t.sent[i], t.newest) {
      assert kept[i] in kept;
    }
    forall i | 0 <= i < |back| ensures Tried(t.queue[i], t.newest) {
      assert back[i] in back;
    }
    forall k | Holds(s, k) ensures Holds(t, k) {
      var c :| (c in s.sent || c in s.queue) && c.id == k;
      assert c in kept || c in back || c in s.queue;
      assert c in t.sent || c in t.queue;
    }
  }

  lemma FindTriedEarly(s: Sender, number: Sequence)
    requires Ordered(s) && FindTried(s.queue, number).Some?
    ensures FindTried(s.queue, number).value < |s.queue| - (s.last - s.newest)
  {
    hide Wire, Window;
    FoundTried(s.queue, number);
    var a := |s.queue| - (s.last - s.newest);
    assert forall i :: a <= i < |s.queue| ==> s.queue[i].sendAttempts == 0;
  }

  lemma WithoutIs<T>(l: seq<T>, i: nat)
    requires i < |l|
    ensures |Without(l, i)| == |l| - 1
    ensures forall j :: 0 <= j < i ==> Without(l, i)[j] == l[j]
    ensures forall j :: i <= j < |l| - 1 ==> Without(l, i)[j] == l[j + 1]
    ensures forall c :: c in l && c != l[i] ==> c in Without(l, i)
  {
    forall c | c in l && c != l[i] ensures c in Without(l, i) {
      var j :| 0 <= j < |l| && l[j] == c;
      if j < i {
        assert Without(l, i)[j] == c;
      } else {
        assert Without(l, i)[j - 1] == c;
      }
    }
  }

  /** One command less in the window it belongs to. */
  lemma UncountedIs(s: Sender, t: Sender, c: Outgoing)
    requires Counted(s) && c.sendAttempts >= 1
    requires t.windows == Uncounted(s, c.number).windows && t.used == Uncounted(s, c.number).used
    requires forall w :: 0 <= w < ENET_PEER_RELIABLE_WINDOWS ==>
      Count(s.sent, w) + Count(s.queue, w) == Count(t.sent, w) + Count(t.queue, w) + if Window(c.number) == w then 1
        else 0
    ensures Counted(t)
  {
    hide Count, Window;
    WindowSmall(c.number);
  }

  lemma AcknowledgeOk(s: Sender, number: Sequence)
    requires SenderOk(s)
    ensures SenderOk(Acknowledge(s, number))
    ensures Acknowledge(s, number).last == s.last && Acknowledge(s, number).newest == s.newest
  {
    hide Count, Total, Window, Wire, Uncounted, Without;
    FoundNumber(s.sent, number);
    FoundTried(s.queue, number);
    var t := Acknowledge(s, number);
    UncountedRest(s, number);
    match FindNumber(s.sent, number)
    case Some(i) =>
      WithoutIs(s.sent, i);
      forall w | 0 <= w < ENET_PEER_RELIABLE_WINDOWS
        ensures Count(s.sent, w) == Count(t.sent, w) + if Window(number) == w then 1 else 0
      {
        CountWithout(s.sent, i, w);
      }
      CountWithout(s.sent, i, 0);
      UncountedIs(s, t, s.sent[i]);
      OrderedUnsent(s, t, i);
    case None =>
      match FindTried(s.queue, number)
      case Some(i) =>
        FindTriedEarly(s, number);
        WithoutIs(s.queue, i);
        forall w | 0 <= w < ENET_PEER_RELIABLE_WINDOWS
          ensures Count(s.queue, w) == Count(t.queue, w) + if Window(number) == w then 1 else 0
        {
          CountWithout(s.queue, i, w);
        }
        UncountedIs(s, t, s.queue[i]);
        OrderedWithout(s, t, i);
      case None =>
  }

  lemma OrderedWithout(s: Sender, t: Sender, i: nat)
    requires Ordered(s) && i < |s.queue| - (s.last - s.newest)
    requires t.queue == Without(s.queue, i) && t.sent == s.sent && t.last == s.last && t.newest == s.newest
    ensures Ordered(t)
  {
    hide Wire, Window, Without;
    WithoutIs(s.queue, i);
    var a := |s.queue| - (s.last - s.newest);
    forall j | 0 <= j < a - 1 ensures Tried(t.queue[j], t.newest) {
      assert t.queue[j] == if j < i then s.queue[j] else s.queue[j + 1];
    }
    forall j | a - 1 <= j < |t.queue| ensures Fresh(t.queue[j], t.newest + 1 + j - (a - 1)) {
      assert Fresh(s.queue[j + 1], s.newest + 1 + (j + 1) - a);
    }
  }

  lemma OrderedUnsent(s: Sender, t: Sender, i: nat)
    requires Ordered(s) && i < |s.sent|
    requires t.sent == Without(s.sent, i) && t.queue == s.queue && t.last == s.last && t.newest == s.newest
    ensures Ordered(t)
  {
    hide Wire, Window, Without;
    WithoutIs(s.sent, i);
    forall j | 0 <= j < |t.sent| ensures Tried(t.sent[j], t.newest) {
      assert t.sent[j] == if j < i then s.sent[j] else s.sent[j + 1];
    }
  }

  lemma UncountedRest(s: Sender, number: Sequence)
    requires |s.windows| == ENET_PEER_RELIABLE_WINDOWS
    ensures Uncounted(s, number).queue == s.queue && Uncounted(s, number).sent == s.sent
    ensures Uncounted(s, number).inTransit == s.inTransit
    ensures Uncounted(s, number).last == s.last && Uncounted(s, number).newest == s.newest
  {
  }

  /** An acknowledged number that is not too old means just the command it was given to. */
  lemma SameCommand(c: Outgoing, k: nat, newest: nat)
    requires Tried(c, newest) && c.number == Wire(k) && k <= newest && Window(k) + 9 >= Window(newest)
    ensures c.id == k
  {
    CloseWindows(c.id, newest);
    CloseWindows(k, newest);
    WireApart(c.id, k);
  }

  lemma CloseWindows(k: nat, n: nat)
    requires k <= n && Window(k) + 9 >= Window(n)
    ensures n - k < NUMBERS
  {
  }

  /** An acknowledgement takes away the acknowledged command and nothing else. */
  lemma AcknowledgeHolds(s: Sender, k: nat, j: nat)
    requires SenderOk(s) && Holds(s, j) && j != k && k <= s.newest && Window(k) + 9 >= Window(s.newest)
    ensures Holds(Acknowledge(s, Wire(k)), j)
  {
    hide Count, Total, Window, Wire, Uncounted, Without, Tried;
    var number := Wire(k);
    WindowsThere(s);
    FoundNumber(s.sent, number);
    FoundTried(s.queue, number);
    UncountedRest(s, number);
    var c :| (c in s.sent || c in s.queue) && c.id == j;
    var t := Acknowledge(s, number);
    match FindNumber(s.sent, number)
    case Some(i) =>
      SameCommand(s.sent[i], k, s.newest);
      WithoutIs(s.sent, i);
      assert c in t.sent || c in t.queue;
    case None =>
      match FindTried(s.queue, number)
      case Some(i) =>
        FindTriedEarly(s, number);
        SameCommand(s.queue[i], k, s.newest);
        WithoutIs(s.queue, i);
        assert c in t.sent || c in t.queue;
      case None =>
  }

  // ----- keeping pace with the receiver

  /**
   The sender stays close to a receiver at r: the newest command sent is at most seven windows ahead of it, and every
   command the sender has forgotten at most six.
   */
  ghost predicate KeepsPace(s: Sender, r: nat)
  {
    && Window(s.newest) <= Window(r) + 7
    && forall k: nat :: 1 <= k <= s.newest && !Holds(s, k) ==> Window(k) <= Window(r) + 6
  }

  /** Command k is in the list and counted in the window. */
  ghost predicate CountedThere(l: seq<Outgoing>, k: nat, w: nat)
  {
    exists c :: c in l && c.id == k && c.sendAttempts >= 1 && Window(c.number) == w
  }

  /** As many commands of a window as are held have been counted in it. */
  lemma {:induction false} CountAtLeast(l: seq<Outgoing>, w: nat, lo: nat, n: nat)
    requires forall k: nat :: lo <= k < lo + n ==> CountedThere(l, k, w)
    ensures Count(l, w) >= n
    decreases n
  {
    hide Count, Window, Without;
    if n > 0 {
      assert CountedThere(l, lo + n - 1, w);
      var d :| d in l && d.id == lo + n - 1 && d.sendAttempts >= 1 && Window(d.number) == w;
      var i :| 0 <= i < |l| && l[i] == d;
      WithoutIs(l, i);
      CountWithout(l, i, w);
      forall k: nat | lo <= k < lo + n - 1 ensures CountedThere(Without(l, i), k, w) {
        assert CountedThere(l, k, w);
        var c :| c in l && c.id == k && c.sendAttempts >= 1 && Window(c.number) == w;
        assert c in Without(l, i);
      }
      CountAtLeast(Without(l, i), w, lo, n - 1);
    }
  }

  lemma HeldTried(s: Sender, k: nat) returns (c: Outgoing)
    requires Ordered(s) && Holds(s, k) && k <= s.newest
    ensures (c in s.sent || c in s.queue) && c.id == k && Tried(c, s.newest)
  {
    hide Wire, Window;
    c :| (c in s.sent || c in s.queue) && c.id == k;
    if c in s.sent {
      var i :| 0 <= i < |s.sent| && s.sent[i] == c;
    } else {
      var i :| 0 <= i < |s.queue| && s.queue[i] == c;
      var a := |s.queue| - (s.last - s.newest);
      assert forall q :: a <= q < |s.queue| ==> s.queue[q].id > s.newest;
    }
  }

  /** A window whose commands are all unacknowledged has a full counter. */
  lemma FullWindow(s: Sender, w: nat)
    requires SenderOk(s) && (w + 1) * ENET_PEER_RELIABLE_WINDOW_SIZE <= s.newest + 1
    requires forall k: nat :: Window(k) == w ==> Holds(s, k)
    ensures w % ENET_PEER_RELIABLE_WINDOWS < |s.windows|
    ensures s.windows[w % ENET_PEER_RELIABLE_WINDOWS] >= ENET_PEER_RELIABLE_WINDOW_SIZE
  {
    hide Count, Window, Wire, Total, Holds, Ordered;
    var lo, v := w * ENET_PEER_RELIABLE_WINDOW_SIZE, w % ENET_PEER_RELIABLE_WINDOWS;
    var l := s.sent + s.queue;
    forall k: nat | lo <= k < lo + ENET_PEER_RELIABLE_WINDOW_SIZE ensures CountedThere(l, k, v) {
      WindowOf(k, w);
      var c := HeldTried(s, k);
      assert c in l;
    }
    CountAtLeast(l, v, lo, ENET_PEER_RELIABLE_WINDOW_SIZE);
    CountSum(s.sent, s.queue, v);
  }

  lemma WindowOf(k: nat, w: nat)
    requires w * ENET_PEER_RELIABLE_WINDOW_SIZE <= k < (w + 1) * ENET_PEER_RELIABLE_WINDOW_SIZE
    ensures Window(k) == w && Window(Wire(k)) == w % ENET_PEER_RELIABLE_WINDOWS
  {
    WireParts(k);
  }

  /** A new window is opened only when some command of the one before has been acknowledged. */
  lemma OpensLater(s: Sender, r: nat, limit: nat)
    requires SenderOk(s) && CanSend(s, limit) && s.queue[0].sendAttempts < 1 && KeepsPace(s, r)
    ensures Window(s.newest + 1) <= Window(r) + 7
  {
    hide Count, Total, Wire, Holds, Ordered;
    var n, w := s.newest, Window(s.newest);
    assert s.queue[0].number == Wire(n + 1) by {
      FreshFirst(s);
    }
    SameWindow(n);
    if Window(n + 1) != w && w == Window(r) + 7 {
      WindowEnd(n);
      forall k: nat | Window(k) == w ensures Holds(s, k) {
        WindowsBelow(k, n + 1);
        assert k == 0 ==> w == 0;
      }
      FullWindow(s, w);
    }
  }

  lemma WindowEnd(n: nat)
    requires Window(n + 1) != Window(n)
    ensures (Window(n) + 1) * ENET_PEER_RELIABLE_WINDOW_SIZE == n + 1
    ensures Wire(n + 1) % ENET_PEER_RELIABLE_WINDOW_SIZE == 0
    ensures (Window(Wire(n + 1)) + ENET_PEER_RELIABLE_WINDOWS - 1) % ENET_PEER_RELIABLE_WINDOWS ==
      Window(n) % ENET_PEER_RELIABLE_WINDOWS
  {
    SameWindow(n);
    WireParts(n + 1);
  }

  lemma WindowsBelow(a: nat, b: nat)
    requires Window(a) < Window(b)
    ensures a < b
  {
  }

  lemma SendKeepsPace(s: Sender, r: nat, limit: nat)
    requires SenderOk(s) && CanSend(s, limit) && KeepsPace(s, r)
    ensures KeepsPace(Send(s), r)
  {
    hide Counted, Total, Wire, Window, WindowWrap;
    WindowsThere(s);
    var t := Send(s);
    if s.queue[0].sendAttempts < 1 {
      OpensLater(s, r, limit);
      FreshFirst(s);
    }
    hide Ordered, Holds;
    forall k: nat | 1 <= k <= t.newest && !Holds(t, k) ensures Window(k) <= Window(r) + 6 {
      if Holds(s, k) {
        SendHolds(s, k);
      } else if k > s.newest {
        FrontHeld(s);
        SendHolds(s, k);
      }
    }
  }

  lemma FrontHeld(s: Sender)
    requires s.queue != []
    ensures Holds(s, s.queue[0].id)
  {
    assert s.queue[0] in s.queue;
  }

  lemma {:induction false} SendSomeKeepsPace(s: Sender, r: nat, room: nat, limit: nat)
    requires SenderOk(s) && KeepsPace(s, r)
    ensures KeepsPace(SendSome(s, room, limit).0, r)
    decreases room
  {
    hide SenderOk, KeepsPace, Send, CanSend;
    WindowsThere(s);
    if room > 0 && CanSend(s, limit) {
      SendOk(s, limit);
      QueueThere(s, limit);
      SendKeepsPace(s, r, limit);
      SendSomeKeepsPace(Send(s), r, room - 1, limit);
    }
  }

  /** What forgets nothing, or only what has been acknowledged, keeps pace. */
  lemma PaceKept(s: Sender, t: Sender, r: nat)
    requires KeepsPace(s, r) && t.newest == s.newest
    requires forall k: nat :: Holds(s, k) && Window(k) > Window(r) + 6 ==> Holds(t, k)
    ensures KeepsPace(t, r)
  {
    hide Holds, Window;
  }

  lemma PaceLater(s: Sender, r: nat, r': nat)
    requires KeepsPace(s, r) && r <= r'
    ensures KeepsPace(s, r')
  {
    WindowMonotone(r, r');
    hide Holds, Window;
  }
}
