/**
 A channel that is stuck: the receiver waits for the rest of a message that nobody sends any more, under the number of
 the message that is next, and the sender has been told that this one arrived.
 */
module EnetStuck {
  import opened Basics
  import opened EnetWindows
  import opened EnetMessages
  import opened EnetSender
  import opened EnetReceiver
  import opened EnetOrder
  import opened EnetDelivery
  import opened EnetProgress
  import opened EnetRetries
  import opened EnetOwnRuns

  /** The list starts with an incomplete command that bears the next number. */
  ghost predicate Front(s: Receiver, r: nat)
  {
    && s.incoming == Wire(r) && QueueWellFormed(s.queue) && InOrder(s.queue, s.incoming) && s.queue != []
    && s.queue[0].number == Wire(r + 1) && s.queue[0].fragmentsRemaining > 0
  }

  /** Message j, of one command, is next, and the sender thinks that it arrived. */
  ghost predicate Stuck(w: World, r: nat, j: nat)
  {
    && AllSendable(w.messages) && j < |w.messages| && Short(w.messages[j]) && Start(w.messages, j) == r + 1
    && w.sender.last == LastOf(w.messages, |w.messages|)
    && SenderOk(w.sender) && Genuine(w) && r < w.sender.newest && KeepsPace(w.sender, r)
    && (forall k :: k in w.acks ==> k <= w.sender.newest && Window(k) <= Window(r) + 6)
    && (forall k: nat :: Holds(w.sender, k) ==> r + 1 < k)
    && Front(w.receiver, r) && Done(w) == j
  }

  // ----- the receiver

  lemma OffsetOne(number: Sequence, r: nat)
    ensures Offset(Wire(r + 1), Wire(r)) == 1
    ensures number != Wire(r) && number != Wire(r + 1) ==> Offset(number, Wire(r)) > 1
    ensures Offset(Wire(r), Wire(r)) == 0 && Wire(r) != Wire(r + 1)
  {
    WireOffset(r + 1, r);
    WireNext(r);
  }

  /** Whatever bears another number comes behind. */
  lemma PlaceBehind(s: Receiver, r: nat, number: Sequence)
    requires Front(s, r)
    ensures number != Wire(r) && number != Wire(r + 1) ==> Place(s.queue, s.incoming, number) > 0
    ensures number == Wire(r + 1) ==> Place(s.queue, s.incoming, number) == 0 && IsThere(s.queue, s.incoming, number)
    ensures number == Wire(r) ==> !IsThere(s.queue, s.incoming, number)
  {
    hide Wire, Offset;
    OffsetOne(number, r);
  }

  lemma FrontStays(s: Receiver, r: nat)
    requires Front(s, r)
    ensures Dispatch(s) == s
  {
    hide Wire;
  }

  /** A command put in its place leaves the list in order. */
  lemma InsertOrder(queue: seq<Entry>, incoming: Sequence, e: Entry)
    requires InOrder(queue, incoming) && e.number != incoming && !IsThere(queue, incoming, e.number)
    ensures InOrder(Inserted(queue, Place(queue, incoming, e.number), e), incoming)
  {
    hide Offset, Place;
    var p := Place(queue, incoming, e.number);
    PlaceAscending(queue, incoming, e.number);
    InsertedIs(queue, p, e);
    OffsetApart(e.number, incoming, incoming);
    if p < |queue| {
      OffsetApart(e.number, queue[p].number, incoming);
    }
  }

  lemma OffsetApart(a: Sequence, b: Sequence, incoming: Sequence)
    requires a != b
    ensures Offset(a, incoming) != Offset(b, incoming) && Offset(incoming, incoming) == 0
  {
  }

  lemma FrontInserted(s: Receiver, r: nat, p: nat, e: Entry)
    requires Front(s, r) && 0 < p == Place(s.queue, s.incoming, e.number) && EntryWellFormed(e)
    requires e.number != s.incoming && !IsThere(s.queue, s.incoming, e.number)
    ensures Front(s.(queue := Inserted(s.queue, p, e)), r)
    ensures |Inserted(s.queue, p, e)| == |s.queue| + 1 && Inserted(s.queue, p, e)[p] == e
  {
    hide Wire, EntryWellFormed, InOrder, Place, IsThere;
    InsertedIs(s.queue, p, e);
    InsertOrder(s.queue, s.incoming, e);
    forall i | 0 <= i <= |s.queue| ensures EntryWellFormed(Inserted(s.queue, p, e)[i]) {
    }
  }

  lemma WithFragmentFormed(e: Entry, c: Command)
    requires c.Fragment? && EntryWellFormed(e) && Matches(e, c) && c.fragmentNumber < c.fragmentCount
    requires c.fragmentOffset + |c.data| <= c.totalLength
    ensures EntryWellFormed(WithFragment(e, c)) && WithFragment(e, c).number == e.number
  {
    if !e.fragments[c.fragmentNumber] {
      SetBitsOne(e.fragments, c.fragmentNumber);
    }
  }

  lemma FrontPatched(s: Receiver, r: nat, p: nat, c: Command)
    requires Front(s, r) && 0 < p < |s.queue|
    requires c.Fragment? && Matches(s.queue[p], c) && c.fragmentNumber < c.fragmentCount
    requires c.fragmentOffset + |c.data| <= c.totalLength
    ensures Front(AddFragment(s, p, c), r)
    ensures AddFragment(s, p, c).taken == s.taken && AddFragment(s, p, c).dispatched == s.dispatched
  {
    hide Wire, WithFragment, EntryWellFormed, Dispatch, InOrder;
    WithFragmentFormed(s.queue[p], c);
    var t := s.(queue := s.queue[p := WithFragment(s.queue[p], c)]);
    SameOrder(s.queue, t.queue, s.incoming);
    assert Front(t, r);
    FrontStays(t, r);
  }

  lemma SameOrder(a: seq<Entry>, b: seq<Entry>, incoming: Sequence)
    requires InOrder(a, incoming) && |a| == |b| && forall i :: 0 <= i < |a| ==> a[i].number == b[i].number
    ensures InOrder(b, incoming)
  {
    hide Offset;
  }

  /** Commands that do not continue the waiting message change nothing at the front, and nothing is dispatched. */
  lemma FrontKept(s: Receiver, r: nat, c: Command, space: bool, maximum: nat, blank: seq<Byte>)
    requires Front(s, r) && (c.Fragment? ==> |blank| == c.totalLength && c.startNumber != Wire(r + 1))
    ensures var t := Handle(s, c, space, maximum, blank).0;
      Front(t, r) && t.taken == s.taken && t.dispatched == s.dispatched
  {
    match c
    case Reliable(number, data) => FrontReliable(s, r, number, data, space, maximum);
    case Fragment(_, _, _, _, _, _, _) => FrontFragment(s, r, c, space, maximum, blank);
  }

  lemma FrontReliable(s: Receiver, r: nat, number: Sequence, data: seq<Byte>, space: bool, maximum: nat)
    requires Front(s, r)
    ensures var t := HandleReliable(s, number, data, space, maximum).0;
      Front(t, r) && t.taken == s.taken && t.dispatched == s.dispatched
  {
    hide Wire, Accepts, Inserted, Dispatch, Place, IsThere, Front;
    FrontIncoming(s, r);
    PlaceBehind(s, r, number);
    var e, p := Entry(number, 0, 0, [], data), Place(s.queue, s.incoming, number);
    if p > 0 && number != s.incoming && !IsThere(s.queue, s.incoming, number) {
      FrontInserted(s, r, p, e);
      FrontStays(s.(queue := Inserted(s.queue, p, e)), r);
    }
  }

  lemma FrontIncoming(s: Receiver, r: nat)
    requires Front(s, r)
    ensures s.incoming == Wire(r) && QueueWellFormed(s.queue) && s.queue != []
  {
  }

  lemma FrontFragment(s: Receiver, r: nat, c: Command, space: bool, maximum: nat, blank: seq<Byte>)
    requires Front(s, r) && c.Fragment? && |blank| == c.totalLength && c.startNumber != Wire(r + 1)
    ensures var t := HandleFragment(s, c, space, maximum, blank).0;
      Front(t, r) && t.taken == s.taken && t.dispatched == s.dispatched
  {
    hide Wire, Accepts, Inserted, AddFragment, Place, Front, Blank;
    FrontIncoming(s, r);
    PlaceBehind(s, r, c.startNumber);
    var p := Place(s.queue, s.incoming, c.startNumber);
    if |c.data| != 0 && |c.data| <= maximum && Accepts(c.startNumber, s.incoming) && WellFormed(c, maximum) && p > 0 {
      if IsThere(s.queue, s.incoming, c.startNumber) {
        if Matches(s.queue[p], c) {
          FrontPatched(s, r, p, c);
        }
      } else if space && c.startNumber != s.incoming {
        SetBitsNone(c.fragmentCount);
        BlankFormed(c, blank);
        FrontInserted(s, r, p, Blank(c, blank));
        FrontPatched(s.(queue := Inserted(s.queue, p, Blank(c, blank))), r, p, c);
      }
    }
  }

  lemma BlankFormed(c: Command, blank: seq<Byte>)
    requires c.Fragment? && c.fragmentCount > 0 && |blank| == c.totalLength
    ensures EntryWellFormed(Blank(c, blank)) && Matches(Blank(c, blank), c) && Blank(c, blank).number == c.startNumber
  {
    SetBitsNone(c.fragmentCount);
  }

  // ----- what can still arrive

  /** No fragment that could still arrive continues the waiting message. */
  lemma NotContinued(w: World, r: nat, j: nat, e: Event)
    requires Stuck(w, r, j) && e.Arrive? && PossibleOwn(w, e)
    ensures e.copy.command.Fragment? ==> e.copy.command.startNumber != Wire(r + 1)
    ensures e.copy.command.number == Wire(e.copy.id) && e.copy.id <= w.sender.newest
  {
    hide Start, Wire, Window, SenderOk, Front, Done, Holds, First, Recent, Commands, KeepsPace, LastOf, Carries;
    var ms, x := w.messages, e.copy;
    assert x in w.net;
    assert IsCommand(ms, x.id, x.command);
    var a: nat, i: nat :| Carries(ms, a, i, x.id, x.command);
    CarriedThere(ms, a, i, x);
    FirstIs(ms, a, i, x);
    FirstBefore(ms, a, i, x);
    PaceWindow(w.sender, r);
    if x.command.Fragment? {
      var f := Start(ms, a);
      StillNear(r, f, w.sender.newest);
      if f == r + 1 {
        StartOrder(ms, a, j);
      } else if Possible(w, e) {
        RecentIs(f, w.sender.newest);
        if Wire(f) == Wire(r + 1) {
          WireApart(f, r + 1);
        }
      } else {
        assert Holds(w.sender, x.id);
        NotAcross(ms, a, i, j, r, x);
        if Wire(f) == Wire(r + 1) {
          WireApart(f, r + 1);
        }
      }
    }
  }

  lemma FirstBefore(ms: seq<Message>, a: nat, i: nat, x: Copy)
    requires Carries(ms, a, i, x.id, x.command)
    ensures x.id == Start(ms, a) + i
  {
    hide Start, Commands;
  }

  lemma StillNear(r: nat, f: nat, newest: nat)
    requires f <= newest && Window(newest) <= Window(r) + 7 && r < newest
    ensures f < r + 1 + NUMBERS
    ensures Window(f) + 9 >= Window(newest) ==> r + 1 < f + NUMBERS
  {
  }

  /** No message lies across message j, which has one command. */
  lemma NotAcross(ms: seq<Message>, a: nat, i: nat, j: nat, r: nat, x: Copy)
    requires AllSendable(ms) && j < |ms| && Short(ms[j]) && Start(ms, j) == r + 1
    requires Carries(ms, a, i, x.id, x.command) && r + 1 < x.id
    ensures r + 1 < Start(ms, a)
  {
    hide Start;
    if Start(ms, a) <= r + 1 {
      var b := r + 1 - Start(ms, a);
      assert IsNumbered(ms, a, b, r + 1) && IsNumbered(ms, j, 0, r + 1);
      NumberedOnce(ms, a, b, j, 0, r + 1);
    }
  }

  // ----- every event

  lemma ArriveStuck(w: World, r: nat, j: nat, e: Event)
    requires Stuck(w, r, j) && e.Arrive? && PossibleOwn(w, e)
    ensures Stuck(AfterOwn(w, e), r, j)
  {
    hide SenderOk, Genuine, KeepsPace, Holds, Start, Handle, Front, Window, Wire, Recent, First, LastOf, Unacknowledged;
    NotContinued(w, r, j, e);
    FrontIncoming(w.receiver, r);
    FrontKept(w.receiver, r, e.copy.command, e.space, e.maximumPacketSize, e.blank);
    var t := AfterOwn(w, e);
    FrontIncoming(t.receiver, r);
    PaceWindow(w.sender, r);
    forall k | k in t.acks ensures k <= t.sender.newest && Window(k) <= Window(r) + 6 {
      if k !in w.acks {
        NearEnough(k, r, w.sender.newest);
      }
    }
    SameGenuine(w, t);
  }

  lemma SameGenuine(w: World, t: World)
    requires Genuine(w) && t.messages == w.messages && t.sender == w.sender && t.net == w.net
    ensures Genuine(t)
  {
    hide IsCommand;
  }

  lemma SubmitStuck(w: World, r: nat, j: nat, m: Message)
    requires Stuck(w, r, j) && Sendable(m)
    ensures Stuck(After(w, Submit(m)), r, j)
  {
    hide Start, SenderOk, Genuine, KeepsPace, Holds, SetUp, Front, Window, Wire, Commands, CommandsOf;
    var t := After(w, Submit(m));
    var commands := CommandsOf(m, w.sender.last + 1);
    MessagesKept(w.messages, m);
    StartLast(w.messages, |w.messages|);
    StartLast(t.messages, |t.messages|);
    SetUpOk(w.sender, commands);
    SetUpIs(w.sender, commands);
    CommandsCount(m, w.sender.last + 1);
    PaceKept(w.sender, t.sender, r);
    NewestLast(w.sender);
    SubmitGenuine(w, m, t);
    forall k: nat | Holds(t.sender, k) ensures r + 1 < k {
      SetUpHolds(w.sender, commands, k);
    }
  }

  lemma CommandsCount(m: Message, start: nat)
    requires m.fragmentLength > 0
    ensures |CommandsOf(m, start)| == Commands(m)
  {
    hide Commands, CommandOf;
  }

  lemma SetUpHolds(s: Sender, commands: seq<Command>, k: nat)
    requires Holds(SetUp(s, commands), k)
    ensures Holds(s, k) || s.last < k
  {
    hide Queued;
    var c :| (c in SetUp(s, commands).sent || c in SetUp(s, commands).queue) && c.id == k;
    if c in Queued(commands, s.last) {
      QueuedCommands(commands, s.last, c);
    }
  }

  lemma WithinHolds(t: Sender, s: Sender, k: nat)
    requires Within(t, s) && Holds(t, k)
    ensures Holds(s, k)
  {
    var c :| (c in t.sent || c in t.queue) && c.id == k;
    var d :| (d in s.sent || d in s.queue) && d.id == c.id && d.command == c.command;
  }

  /** A step of the sender alone. */
  lemma SenderStuck(w: World, r: nat, j: nat, t: Sender, net: set<Copy>)
    requires Stuck(w, r, j) && SenderOk(t) && Within(t, w.sender) && KeepsPace(t, r)
    requires t.last == w.sender.last && t.newest >= w.sender.newest
    requires forall x :: x in net && x !in w.net ==>
      x.id <= t.newest && exists c :: c in w.sender.queue && c.id == x.id && c.command == x.command
    ensures Stuck(w.(sender := t, net := net), r, j)
  {
    hide Start, SenderOk, KeepsPace, Holds, Front, Window, Within, IsCommand;
    WithinGenuine(w.messages, w.sender, t);
    forall x | x in net ensures IsCommand(w.messages, x.id, x.command) && x.id <= t.newest {
      if x !in w.net {
        var c :| c in w.sender.queue && c.id == x.id && c.command == x.command;
      }
    }
    forall k: nat | Holds(t, k) ensures r + 1 < k {
      WithinHolds(t, w.sender, k);
    }
  }

  lemma StuckSender(w: World, r: nat, j: nat)
    requires Stuck(w, r, j)
    ensures SenderOk(w.sender) && KeepsPace(w.sender, r)
  {
    hide SenderOk, KeepsPace;
  }

  lemma TransmitStuck(w: World, r: nat, j: nat, room: nat, limit: nat)
    requires Stuck(w, r, j) && Possible(w, Transmit(room, limit))
    ensures Stuck(After(w, Transmit(room, limit)), r, j)
  {
    hide Stuck, SenderOk, Holds, Within, SendSome, KeepsPace;
    StuckSender(w, r, j);
    var (t, out) := SendSome(w.sender, room, limit);
    SendSomeOk(w.sender, room, limit);
    SendSomeWithin(w.sender, room, limit);
    SendSomeKeepsPace(w.sender, r, room, limit);
    var net := w.net + Copies(out);
    forall x | x in net && x !in w.net
      ensures x.id <= t.newest && exists c :: c in w.sender.queue && c.id == x.id && c.command == x.command
    {
      var c :| c in out && x == Copy(c.id, c.command);
      assert c in w.sender.queue && c.id == x.id && c.command == x.command;
    }
    SenderStuck(w, r, j, t, net);
  }

  lemma TimeOutStuck(w: World, r: nat, j: nat, expired: set<nat>)
    requires Stuck(w, r, j)
    ensures Stuck(After(w, TimeOut(expired)), r, j)
  {
    hide Stuck, SenderOk, Holds, Within, Expire, KeepsPace;
    StuckSender(w, r, j);
    ExpireOk(w.sender, expired);
    ExpireWithin(w.sender, expired);
    PaceKept(w.sender, Expire(w.sender, expired), r);
    SenderStuck(w, r, j, Expire(w.sender, expired), w.net);
    assert After(w, TimeOut(expired)) == w.(sender := Expire(w.sender, expired), net := w.net);
  }

  lemma AckStuck(w: World, r: nat, j: nat, k: nat)
    requires Stuck(w, r, j) && Possible(w, AckArrives(k))
    ensures Stuck(After(w, AckArrives(k)), r, j)
  {
    hide Stuck, SenderOk, Holds, Within, Acknowledge, KeepsPace, Window, Wire;
    StuckSender(w, r, j);
    var s, t := w.sender, Acknowledge(w.sender, Wire(k));
    AcknowledgeOk(s, Wire(k));
    AcknowledgeWithin(s, Wire(k));
    StuckAck(w, r, j, k);
    forall i: nat | Holds(s, i) && Window(i) > Window(r) + 6 ensures Holds(t, i) {
      AcknowledgeHolds(s, k, i);
    }
    PaceKept(s, t, r);
    SenderStuck(w, r, j, t, w.net);
    assert After(w, AckArrives(k)) == w.(sender := t, net := w.net);
  }

  lemma StuckAck(w: World, r: nat, j: nat, k: nat)
    requires Stuck(w, r, j) && k in w.acks
    ensures k <= w.sender.newest && Window(k) <= Window(r) + 6
  {
    hide SenderOk, KeepsPace, Genuine, Front, Holds, Start, Window;
  }

  lemma TakeStuck(w: World, r: nat, j: nat)
    requires Stuck(w, r, j)
    ensures Stuck(After(w, TakeOne), r, j)
  {
    hide Start, SenderOk, KeepsPace, Holds, Window, Wire, IsCommand;
  }

  lemma EventStuck(w: World, r: nat, j: nat, e: Event)
    requires Stuck(w, r, j) && PossibleOwn(w, e)
    ensures Stuck(AfterOwn(w, e), r, j)
  {
    hide Stuck, Arrived;
    match e
    case Submit(m) => SubmitStuck(w, r, j, m);
    case Transmit(room, limit) => TransmitStuck(w, r, j, room, limit);
    case TimeOut(expired) => TimeOutStuck(w, r, j, expired);
    case Arrive(_, _, _, _) => ArriveStuck(w, r, j, e);
    case AckArrives(k) => AckStuck(w, r, j, k);
    case TakeOne => TakeStuck(w, r, j);
  }

  /** A channel that is stuck stays stuck, whatever happens. */
  lemma {:induction false} StuckForever(w: World, r: nat, j: nat, events: seq<Event>)
    requires Stuck(w, r, j) && PossibleOwnRun(w, events)
    ensures Stuck(AfterOwnRun(w, events), r, j)
    decreases |events|
  {
    hide Stuck, PossibleOwn, AfterOwn;
    if events != [] {
      EventStuck(w, r, j, events[0]);
      StuckForever(AfterOwn(w, events[0]), r, j, events[1..]);
    }
  }

  lemma StuckDone(w: World, r: nat, j: nat)
    requires Stuck(w, r, j)
    ensures Done(w) == j
  {
    hide SenderOk, KeepsPace, Genuine, Front, Holds, Start, Window;
  }
}
