/**
 Why old copies must not arrive: of a long message the sender itself may send a fragment again when the receiver has
 gone so far that it takes the message, which it has dispatched, for a new one.
 */
module EnetRetries {
  import opened Basics
  import opened EnetWindows
  import opened EnetMessages
  import opened EnetSender
  import opened EnetReceiver
  import opened EnetOrder
  import opened EnetDelivery
  import opened EnetCounters
  import opened EnetProgress

  /** An arrival of the copy changes the receiver. */
  ghost predicate ChangesReceiver(w: World, x: Copy)
  {
    exists space, maximum: nat, blank: seq<Byte> :: ArrivalChanges(w, x, space, maximum, blank)
  }

  ghost predicate ArrivalChanges(w: World, x: Copy, space: bool, maximum: nat, blank: seq<Byte>)
  {
    && QueueWellFormed(w.receiver.queue) && (x.command.Fragment? ==> |blank| == x.command.totalLength)
    && Handle(w.receiver, x.command, space, maximum, blank).0 != w.receiver
  }

  /** The copy is one of an unacknowledged command of message j, which has been dispatched, and yet is taken for new. */
  ghost predicate TakenAgain(w: World, j: nat, x: Copy)
  {
    && x in w.net && Holds(w.sender, x.id) && j < Done(w)
    && (exists i: nat :: Carries(w.messages, j, i, x.id, x.command))
    && ChangesReceiver(w, x)
  }

  /** A run that starts with these messages, and ends with a copy of the last of them being taken again. */
  ghost predicate Reaches(ms: seq<Message>, run: seq<Event>, x: Copy)
    requires ms != []
  {
    && PossibleRun(Quiet(), run) && ms <= AfterRun(Quiet(), run).messages
    && TakenAgain(AfterRun(Quiet(), run), |ms| - 1, x)
  }

  // ----- compact messages

  /** All retries of a compact message are told from new ones. */
  lemma NotTakenAgain(ms: seq<Message>, run: seq<Event>, x: Copy)
    requires ms != [] && AllSendable(ms) && CompactAt(ms, |ms| - 1)
    ensures !Reaches(ms, run, x)
  {
    hide PossibleRun, AfterRun, DoneFit, Once, Done, Commands, ChangesReceiver, WorldAt, Compact, Start;
    if Reaches(ms, run, x) {
      ReachableOk(run);
      var w, j := AfterRun(Quiet(), run), |ms| - 1;
      var done: nat, slots: seq<nat> :| WorldAt(w, done, slots);
      DoneIs(w, done, slots);
      assert w.messages[j] == ms[j];
      StartPrefix(ms, w.messages, j);
      var i: nat :| Carries(w.messages, j, i, x.id, x.command);
      OldUnchanged(w, done, slots, j, i, x);
    }
  }

  lemma OldUnchanged(w: World, done: nat, slots: seq<nat>, j: nat, i: nat, x: Copy)
    requires WorldAt(w, done, slots) && x in w.net && Holds(w.sender, x.id) && j < done
    requires Carries(w.messages, j, i, x.id, x.command) && CompactAt(w.messages, j)
    ensures !ChangesReceiver(w, x)
  {
    hide WorldAt, Handle, Recent, Window, Start, Commands, After, CompactAt, Carries;
    WorldSender(w, done, slots);
    NetSent(w, done, slots, x);
    var c := HeldTriedIs(w.sender, x.id);
    CompactRecent(w.messages, j, i, x, w.sender.newest);
    forall space, maximum: nat, blank: seq<Byte>
      | QueueWellFormed(w.receiver.queue) && (x.command.Fragment? ==> |blank| == x.command.totalLength)
      ensures Handle(w.receiver, x.command, space, maximum, blank).0 == w.receiver
    {
      var e := Arrive(x, space, maximum, blank);
      OldIsNotTakenForNew(w, done, slots, e, j, i);
      AfterArrival(w, e);
    }
  }

  lemma NetSent(w: World, done: nat, slots: seq<nat>, x: Copy)
    requires WorldAt(w, done, slots) && x in w.net
    ensures x.id <= w.sender.newest
  {
    hide SenderOk, ReceiverOk, Tracked, Honest, Paced, Copied;
  }

  lemma HeldTriedIs(s: Sender, k: nat) returns (c: Outgoing)
    requires SenderOk(s) && Holds(s, k) && k <= s.newest
    ensures c.id == k && Window(k) + 6 >= Window(s.newest)
  {
    hide Window, Wire, Counted, Total;
    c := HeldTried(s, k);
  }

  lemma AfterArrival(w: World, e: Event)
    requires e.Arrive? && Possible(w, e)
    ensures After(w, e).receiver == Handle(w.receiver, e.copy.command, e.space, e.maximumPacketSize, e.blank).0
  {
    hide Handle;
  }

  // ----- other messages

  /** Messages of one command each. */
  function Shorts(n: nat): seq<Message>
  {
    seq(n, _ => Message([], 1))
  }

  lemma {:induction false} StartShorts(ms: seq<Message>, n: nat, i: nat)
    requires AllSendable(ms) && i <= n
    ensures AllSendable(ms + Shorts(n)) && Start(ms + Shorts(n), |ms| + i) == Start(ms, |ms|) + i
    decreases i
  {
    hide Commands;
    ShortOnes(ms, n);
    var all := ms + Shorts(n);
    if i == 0 {
      StartPrefix(ms, all, |ms|);
    } else {
      StartShorts(ms, n, i - 1);
      StartNext(all, |ms| + i - 1);
    }
  }

  lemma ShortOnes(ms: seq<Message>, n: nat)
    requires AllSendable(ms)
    ensures AllSendable(ms + Shorts(n)) && |Shorts(n)| == n
    ensures forall j :: |ms| <= j < |ms| + n ==> Commands((ms + Shorts(n))[j]) == 1
  {
    var all := ms + Shorts(n);
    assert forall j :: |ms| <= j < |ms| + n ==> all[j] == Message([], 1);
  }

  lemma ShortsFit(ms: seq<Message>, n: nat)
    requires AllSendable(ms) && forall j: nat :: j < |ms| ==> Deliverable(ms, j)
    ensures AllSendable(ms + Shorts(n)) && |Shorts(n)| == n
    ensures forall j: nat :: j < |ms| + n ==> Deliverable(ms + Shorts(n), j)
  {
    hide Commands, Start, Shorts, Fits, Wire;
    var all := ms + Shorts(n);
    ShortOnes(ms, n);
    forall j: nat | j < |ms| + n ensures Deliverable(all, j) {
      if j < |ms| {
        assert Deliverable(ms, j) && all[j] == ms[j];
        StartPrefix(ms, all, j);
      } else {
        SurelyFits(Wire(LastOf(all, j)), 1);
      }
    }
  }

  /** The first number of the tenth window after the one in which the last of the messages begins. */
  ghost function TenWindowsOn(ms: seq<Message>): nat
    requires ms != [] && AllSendable(ms)
  {
    (Window(Start(ms, |ms| - 1)) + 10) * ENET_PEER_RELIABLE_WINDOW_SIZE
  }

  lemma TenWindowsIs(ms: seq<Message>)
    requires ms != [] && AllSendable(ms)
    requires Deliverable(ms, |ms| - 1) && !CompactAt(ms, |ms| - 1)
    ensures var r, first, last := TenWindowsOn(ms), Start(ms, |ms| - 1), LastOf(ms, |ms|);
      && first <= last < r < first + NUMBERS && Window(r) == Window(first) + 10 && Window(r) <= Window(last) + 6
      && Commands(ms[|ms| - 1]) == last + 1 - first > 1
  {
    hide Start, Deliverable, CompactAt, Commands;
    var first, last := Start(ms, |ms| - 1), LastOf(ms, |ms|);
    CompactIs(ms, |ms| - 1);
    DeliverableIs(ms, |ms| - 1);
    WindowMonotone(first - 1, first);
  }

  /** The receiver is ten windows on, and the last command of the last of the messages is still unacknowledged. */
  ghost predicate TenOn(t: World, ms: seq<Message>)
    requires ms != [] && AllSendable(ms)
  {
    && WorldOk(t) && AllSendable(t.messages) && ms <= t.messages && Done(t) == |t.messages|
    && LastOf(t.messages, |t.messages|) == TenWindowsOn(ms) && Ready(t, LastOf(ms, |ms|))
  }

  /** The last of the messages spans more than four windows, and short ones follow up to the tenth window. */
  lemma GoTenOn(ms: seq<Message>) returns (run: seq<Event>, later: nat)
    requires ms != [] && AllSendable(ms) && forall j: nat :: j < |ms| ==> Deliverable(ms, j)
    requires !CompactAt(ms, |ms| - 1)
    ensures PossibleRun(Quiet(), run) && TenOn(AfterRun(Quiet(), run), ms)
    ensures AfterRun(Quiet(), run).messages == ms + Shorts(later)
  {
    hide WorldOk, PossibleRun, AfterRun, DoneFit, Once, Done, Commands, Window, Start, Deliverable, CompactAt,
      Ready, Retriable, Holds, Untouched, Shorts, LastOf, TenWindowsOn;
    TenWindowsIs(ms);
    var keep := LastOf(ms, |ms|);
    later := TenWindowsOn(ms) - keep;
    var all := ms + Shorts(later);
    ShortsFit(ms, later);
    StartShorts(ms, later, later);
    StartLast(ms, |ms|);
    StartLast(all, |all|);
    var first := SubmitAll(all);
    var w := AfterRun(Quiet(), first);
    ReachableOk(first);
    UntouchedRetriable(w, keep);
    LastHeld(w, ms);
    ReadyIs(w, keep);
    var rest := DeliverRest(w, keep);
    run := first + rest;
    RunThen(Quiet(), first, rest);
  }

  lemma ReadyIs(w: World, keep: nat)
    requires Retriable(w, keep) && Once(w.sender) && Holds(w.sender, keep)
    ensures Ready(w, keep)
  {
    hide Retriable, Once, Holds;
  }

  lemma ReadyHolds(w: World, keep: nat)
    requires Ready(w, keep) && keep > 0
    ensures Holds(w.sender, keep) && Retriable(w, keep)
  {
    hide Retriable, Once, Holds;
  }

  /** The last command of every message is held before anything is sent. */
  lemma LastHeld(w: World, ms: seq<Message>)
    requires WorldOk(w) && Untouched(w) && AllSendable(ms) && ms != [] && ms <= w.messages
    ensures Holds(w.sender, LastOf(ms, |ms|))
  {
    hide WorldAt, Start, Commands, Holds, LastOf, CompactAt;
    var done: nat, slots: seq<nat> :| WorldAt(w, done, slots);
    DoneIs(w, done, slots);
    var j := |ms| - 1;
    assert w.messages[j] == ms[j];
    StartPrefix(ms, w.messages, j);
    CompactIs(ms, j);
    Untracked(w, done, slots, j, Commands(ms[j]) - 1);
  }

  lemma Untracked(w: World, done: nat, slots: seq<nat>, j: nat, i: nat)
    requires WorldAt(w, done, slots) && w.sender.newest == 0 && j < |w.messages| && AllSendable(w.messages)
    requires i < Commands(w.messages[j])
    ensures Holds(w.sender, Start(w.messages, j) + i)
  {
    hide SenderOk, ReceiverOk, Genuine, Honest, Paced, Copied, Got, Holds, Commands, Start;
    StartGrows(w.messages, 0, j);
    var got := Got(w.messages, w.receiver, done, slots, j, i);
  }

  /** With everything delivered, the receiver's list is empty. */
  lemma NothingWaits(w: World, done: nat, slots: seq<nat>)
    requires WorldAt(w, done, slots) && done == |w.messages|
    ensures w.receiver.queue == [] && AllSendable(w.messages) && w.receiver.incoming == Wire(LastOf(w.messages, done))
  {
    hide SenderOk, Genuine, Tracked, Honest, Paced, Copied, ReceiverOk, LastOf;
    NumberIs(w.messages, w.receiver, done, slots);
    ReceiverSizes(w.messages, w.receiver, done, slots);
    ListStands(w.messages, w.receiver, done, slots);
  }

  lemma ListStands(ms: seq<Message>, s: Receiver, m: nat, js: seq<nat>)
    requires ReceiverOk(ms, s, m, js)
    ensures m <= |ms| && |js| == |s.queue| && (m == |ms| ==> js == [])
  {
    hide Start, Wire, Stands, Payloads;
    assert js != [] ==> js[0] < |ms| && Near(ms, m, js[0]);
  }

  /** The copy of the last command of the last of the messages. */
  ghost function LastCopy(ms: seq<Message>): Copy
    requires ms != [] && AllSendable(ms)
  {
    var m := ms[|ms| - 1];
    CommandsPositive(m);
    Copy(LastOf(ms, |ms|), CommandOf(m, Start(ms, |ms| - 1), Commands(m) - 1))
  }

  lemma LastCopyThere(t: World, ms: seq<Message>) returns (i: nat)
    requires ms != [] && AllSendable(ms) && TenOn(t, ms)
    ensures LastCopy(ms) in t.net && Holds(t.sender, LastCopy(ms).id)
    ensures Carries(t.messages, |ms| - 1, i, LastCopy(ms).id, LastCopy(ms).command)
    ensures t.receiver.queue == [] && t.receiver.incoming == Wire(TenWindowsOn(ms))
  {
    hide WorldAt, Start, Commands, Holds, Window, Wire, LastOf, CommandOf, Done, TenWindowsOn, Ready, CompactAt;
    var done: nat, slots: seq<nat> :| WorldAt(t, done, slots);
    DoneIs(t, done, slots);
    var all, j, x := t.messages, |ms| - 1, LastCopy(ms);
    assert all[j] == ms[j];
    StartPrefix(ms, all, j);
    StartPrefix(ms, all, j + 1);
    StartLast(ms, |ms|);
    StartLast(all, |ms|);
    CompactIs(ms, j);
    i := Commands(ms[j]) - 1;
    assert Carries(all, j, i, x.id, x.command);
    WithinReach(t, done, slots);
    LastGrows(all, |ms|, |all|);
    StartGrows(ms, 0, j);
    CopyThere(t, done, slots, j, i, x.id, x.command);
    NothingWaits(t, done, slots);
    ReadyHolds(t, x.id);
  }

  lemma ChangesIs(w: World, x: Copy, space: bool, maximum: nat, blank: seq<Byte>)
    requires ArrivalChanges(w, x, space, maximum, blank)
    ensures ChangesReceiver(w, x)
  {
    hide ArrivalChanges;
  }

  lemma NotShort(m: Message)
    requires Sendable(m) && Commands(m) > 1
    ensures !Short(m) && FragmentCount(m) == Commands(m)
  {
  }

  /** Ten windows on, a fragment of a message makes the receiver wait for that message once more. */
  lemma PhantomEntry(s: Receiver, m: Message, start: nat, r: nat) returns (e: Entry)
    requires s.queue == [] && s.incoming == Wire(r) && start < r < start + NUMBERS && Window(r) == Window(start) + 10
    requires Sendable(m) && Commands(m) > 1
    ensures var c := CommandOf(m, start, Commands(m) - 1);
      && c.Fragment? && c.totalLength == |m.payload|
      && Handle(s, c, true, |m.payload|, seq(|m.payload|, _ => 0)) == (s.(queue := [e]), true)
    ensures EntryWellFormed(e) && e.number == Wire(start) && e.fragmentCount == Commands(m) > e.fragmentsRemaining > 0
  {
    hide FragmentCount, Commands, Low, High, WellFormed, Dispatch, Window, Wire, Accepts;
    var n := Commands(m);
    NotShort(m);
    FragmentIs(m, start, n - 1);
    FragmentFits(m, start, n - 1, |m.payload|);
    var c := CommandOf(m, start, n - 1);
    hide CommandOf;
    OldTakenForNew(start, r);
    if Wire(start) == Wire(r) {
      WireApart(r, start);
    }
    var blank := seq(|m.payload|, _ => 0);
    var b := Blank(c, blank);
    SetBitsNone(c.fragmentCount);
    SetBitsOne(b.fragments, c.fragmentNumber);
    e := WithFragment(b, c);
    assert Inserted([], 0, b) == [b] && [b][0 := e] == [e];
  }

  /** Ten windows on, the held last command of a long message is taken for new. */
  lemma TenOnTakenAgain(t: World, ms: seq<Message>)
    requires ms != [] && AllSendable(ms) && TenOn(t, ms)
    requires Deliverable(ms, |ms| - 1) && !CompactAt(ms, |ms| - 1)
    ensures TakenAgain(t, |ms| - 1, LastCopy(ms))
  {
    hide WorldOk, Start, Commands, Holds, Window, Wire, LastOf, CommandOf, Done, FragmentCount, ChangesReceiver, Ready,
      TenWindowsOn, Carries, CompactAt, Deliverable, Handle;
    var j, x := |ms| - 1, LastCopy(ms);
    var m := ms[j];
    var i := LastCopyThere(t, ms);
    TenWindowsIs(ms);
    var e := PhantomEntry(t.receiver, m, Start(ms, j), TenWindowsOn(ms));
    var blank := seq(|m.payload|, _ => 0);
    assert ArrivalChanges(t, x, true, |m.payload|, blank);
    ChangesIs(t, x, true, |m.payload|, blank);
  }

  /**
   For messages that can be delivered: in some run one of the fragments of the last of them, though it could still be
   sent again, is taken for a new one after the message has been dispatched, exactly if the message is not compact.
   */
  lemma RetriesTakenAgain(ms: seq<Message>)
    requires ms != [] && AllSendable(ms) && forall j: nat :: j < |ms| ==> Deliverable(ms, j)
    ensures (exists run, x :: Reaches(ms, run, x)) <==> !CompactAt(ms, |ms| - 1)
  {
    hide Reaches, CompactAt, Deliverable;
    if CompactAt(ms, |ms| - 1) {
      forall run, x ensures !Reaches(ms, run, x) {
        NotTakenAgain(ms, run, x);
      }
    } else {
      var run, later := GoTenOn(ms);
      LongReaches(ms, run);
    }
  }

  lemma LongReaches(ms: seq<Message>, run: seq<Event>)
    requires ms != [] && AllSendable(ms) && Deliverable(ms, |ms| - 1) && !CompactAt(ms, |ms| - 1)
    requires PossibleRun(Quiet(), run) && TenOn(AfterRun(Quiet(), run), ms)
    ensures Reaches(ms, run, LastCopy(ms))
  {
    hide WorldOk, Start, Done, Ready, TakenAgain, PossibleRun, AfterRun, CompactAt, Deliverable, LastCopy, LastOf;
    TenOnTakenAgain(AfterRun(Quiet(), run), ms);
  }
}
