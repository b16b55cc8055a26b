/**
 Runs in which what the sender itself may send again arrives however old its message is.  If all messages are compact,
 this allows nothing new, and delivery is as reliable as before.
 */
module EnetOwnRuns {
  import opened Basics
  import opened EnetWindows
  import opened EnetMessages
  import opened EnetSender
  import opened EnetReceiver
  import opened EnetOrder
  import opened EnetDelivery
  import opened EnetCounters
  import opened EnetProgress
  import opened EnetRetries

  /** A copy arrives of a command that is not yet acknowledged: the sender may just have sent it again. */
  ghost predicate Retried(w: World, e: Event)
  {
    && e.Arrive? && e.copy in w.net && Holds(w.sender, e.copy.id) && QueueWellFormed(w.receiver.queue)
    && (e.copy.command.Fragment? ==> |e.blank| == e.copy.command.totalLength)
  }

  ghost predicate PossibleOwn(w: World, e: Event)
  {
    Possible(w, e) || Retried(w, e)
  }

  ghost function AfterOwn(w: World, e: Event): World
    requires PossibleOwn(w, e)
  {
    if e.Arrive? then Arrived(w, e.copy, e.space, e.maximumPacketSize, e.blank) else After(w, e)
  }

  ghost predicate PossibleOwnRun(w: World, events: seq<Event>)
    decreases |events|
  {
    events == [] || (PossibleOwn(w, events[0]) && PossibleOwnRun(AfterOwn(w, events[0]), events[1..]))
  }

  ghost function AfterOwnRun(w: World, events: seq<Event>): World
    requires PossibleOwnRun(w, events)
    decreases |events|
  {
    if events == [] then w else AfterOwnRun(AfterOwn(w, events[0]), events[1..])
  }

  lemma AfterIsOwn(w: World, e: Event)
    requires Possible(w, e)
    ensures AfterOwn(w, e) == After(w, e)
  {
    hide Arrived;
  }

  lemma {:induction false} PossibleIsOwn(w: World, events: seq<Event>)
    requires PossibleRun(w, events)
    ensures PossibleOwnRun(w, events) && AfterOwnRun(w, events) == AfterRun(w, events)
    decreases |events|
  {
    hide Possible, After, AfterOwn;
    if events != [] {
      AfterIsOwn(w, events[0]);
      PossibleIsOwn(After(w, events[0]), events[1..]);
    }
  }

  lemma OwnOne(w: World, e: Event)
    requires PossibleOwn(w, e)
    ensures PossibleOwnRun(w, [e]) && AfterOwnRun(w, [e]) == AfterOwn(w, e)
  {
    hide PossibleOwn, AfterOwn;
    var t := AfterOwn(w, e);
    assert PossibleOwnRun(t, []) && AfterOwnRun(t, []) == t;
    assert [e][0] == e && [e][1..] == [];
  }

  lemma {:induction false} OwnThen(w: World, a: seq<Event>, b: seq<Event>)
    requires PossibleOwnRun(w, a) && PossibleOwnRun(AfterOwnRun(w, a), b)
    ensures PossibleOwnRun(w, a + b) && AfterOwnRun(w, a + b) == AfterOwnRun(AfterOwnRun(w, a), b)
    decreases |a|
  {
    hide AfterOwn, PossibleOwn;
    if a == [] {
      assert a + b == b;
    } else {
      OwnThen(AfterOwn(w, a[0]), a[1..], b);
      assert (a + b)[0] == a[0] && (a + b)[1..] == a[1..] + b;
    }
  }

  lemma OwnExtendsOne(w: World, e: Event)
    requires PossibleOwn(w, e)
    ensures w.messages <= AfterOwn(w, e).messages
  {
    hide SetUp, SendSome, Expire, Handle, Acknowledge, Take, QueueWellFormed, Holds;
  }

  lemma {:induction false} OwnExtends(w: World, events: seq<Event>)
    requires PossibleOwnRun(w, events)
    ensures w.messages <= AfterOwnRun(w, events).messages
    decreases |events|
  {
    hide AfterOwn, PossibleOwn;
    if events != [] {
      OwnExtendsOne(w, events[0]);
      OwnExtends(AfterOwn(w, events[0]), events[1..]);
    }
  }

  // ----- compact messages

  lemma CompactPrefix(ms: seq<Message>, ms': seq<Message>)
    requires AllCompact(ms') && ms <= ms'
    ensures AllCompact(ms)
  {
    hide Compact, Start, Commands, Wire;
    SendablePrefix(ms, ms');
    forall j: nat | j < |ms| ensures CompactAt(ms, j) {
      assert CompactAt(ms', j) && ms[j] == ms'[j];
      StartPrefix(ms, ms', j);
    }
  }

  /** Of compact messages the sender sends nothing again that would not arrive in time. */
  lemma RetriedPossible(w: World, e: Event)
    requires WorldOk(w) && Retried(w, e) && AllCompact(w.messages)
    ensures Possible(w, e)
  {
    hide WorldAt, Recent, First, Window, CompactAt, Carries, Holds, QueueWellFormed;
    var done: nat, slots: seq<nat> :| WorldAt(w, done, slots);
    WorldSender(w, done, slots);
    NetSent(w, done, slots, e.copy);
    var c := HeldTriedIs(w.sender, e.copy.id);
    NetCarries(w, done, slots, e.copy);
    var j: nat, i: nat :| Carries(w.messages, j, i, e.copy.id, e.copy.command);
    CarriedThere(w.messages, j, i, e.copy);
    CompactRecent(w.messages, j, i, e.copy, w.sender.newest);
  }

  lemma NetCarries(w: World, done: nat, slots: seq<nat>, x: Copy)
    requires WorldAt(w, done, slots) && x in w.net
    ensures IsCommand(w.messages, x.id, x.command)
  {
    hide SenderOk, ReceiverOk, Tracked, Honest, Paced, Copied, IsCommand;
  }

  lemma CarriedThere(ms: seq<Message>, j: nat, i: nat, x: Copy)
    requires Carries(ms, j, i, x.id, x.command)
    ensures j < |ms| && i < Commands(ms[j])
  {
    hide Start, Commands;
  }

  lemma {:induction false} OwnIsPossible(w: World, events: seq<Event>)
    requires WorldOk(w) && PossibleOwnRun(w, events) && AllCompact(AfterOwnRun(w, events).messages)
    ensures PossibleRun(w, events) && AfterRun(w, events) == AfterOwnRun(w, events)
    decreases |events|
  {
    hide WorldOk, Possible, After, AfterOwn, Retried, AllCompact;
    if events != [] {
      var e := events[0];
      var t := AfterOwn(w, e);
      OwnExtendsOne(w, e);
      OwnExtends(t, events[1..]);
      CompactPrefix(w.messages, AfterOwnRun(w, events).messages);
      if !Possible(w, e) {
        RetriedPossible(w, e);
      }
      AfterIsOwn(w, e);
      EventOk(w, e);
      OwnIsPossible(t, events[1..]);
    }
  }

  /** Compact messages are delivered exactly once and in order, also if every retry arrives. */
  lemma CompactExactlyOnce(events: seq<Event>)
    requires PossibleOwnRun(Quiet(), events) && AllCompact(AfterOwnRun(Quiet(), events).messages)
    ensures var s := AfterOwnRun(Quiet(), events).receiver; s.taken + s.dispatched <= Submitted(events)
  {
    hide WorldOk, AfterRun, AfterOwnRun, AllCompact;
    QuietOk();
    OwnIsPossible(Quiet(), events);
    ExactlyOnceInOrder(events);
  }

  // ----- lost messages

  /** The receiver has dispatched message j, or some of it waits in the list. */
  ghost predicate Had(w: World, j: nat)
    requires AllSendable(w.messages) && j < |w.messages|
  {
    j < Done(w) || exists e :: e in w.receiver.queue && Stands(w.messages, j, e)
  }

  /** The sender has been told that message j arrived, and has forgotten it, but the receiver does not have it. */
  ghost predicate Lost(w: World, j: nat)
  {
    && AllSendable(w.messages) && j < |w.messages|
    && Start(w.messages, j) <= w.sender.newest && !Holds(w.sender, Start(w.messages, j)) && !Had(w, j)
  }

  lemma GotHad(w: World, done: nat, slots: seq<nat>, j: nat)
    requires WorldAt(w, done, slots) && j < |w.messages| && Got(w.messages, w.receiver, done, slots, j, 0)
    ensures AllSendable(w.messages) && Had(w, j)
  {
    hide SenderOk, Genuine, Honest, Paced, Copied, Tracked, Stands, Near, Start, Payloads, LastOf, Commands, Done;
    DoneIs(w, done, slots);
    if j >= done {
      var p :| InList(w.messages, w.receiver, slots, p, j, 0);
      assert Stands(w.messages, slots[p], w.receiver.queue[p]);
    }
  }

  lemma StillHeld(w: World, done: nat, slots: seq<nat>, j: nat)
    requires WorldAt(w, done, slots) && j < |w.messages| && !Got(w.messages, w.receiver, done, slots, j, 0)
    ensures AllSendable(w.messages) && Holds(w.sender, Start(w.messages, j))
  {
    hide SenderOk, ReceiverOk, Genuine, Honest, Paced, Copied, Got, Start, Commands, Holds;
    CommandsPositive(w.messages[j]);
    assert Start(w.messages, j) + 0 == Start(w.messages, j);
  }

  /** As long as nothing arrives too late, nothing is lost. */
  lemma NothingLost(w: World, j: nat)
    requires WorldOk(w)
    ensures !Lost(w, j)
  {
    hide WorldAt, Start, Holds, Got, Had;
    var done: nat, slots: seq<nat> :| WorldAt(w, done, slots);
    if j < |w.messages| {
      if Got(w.messages, w.receiver, done, slots, j, 0) {
        GotHad(w, done, slots, j);
      } else {
        StillHeld(w, done, slots, j);
      }
    }
  }
}
