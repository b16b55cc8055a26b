/**
 Motion submitted by any threads while the input thread takes packet holders out of the queue and sends.  Every step
 is what one thread does while it holds the batching lock, the queue lock, or the network.
 */
module MouseRuns {
  import opened BlockingQueue
  import opened MouseMotion

  /** A queued holder is known by the magic number of its packet. */
  const RelativeMove: Item := 0x07

  const MaxQueued := 150

  /** What the input thread is doing; a thread that fails to send ends, as does one that is told to stop. */
  datatype Phase = Waiting | Holding | Sending | OtherPacket | Ended(failed: bool)

  /**
   The queue of holders, the shared motion state, the input thread, all motion submitted, all motion packets made,
   the number of them that went out, and whether the latest attempt to queue a motion holder was turned down.
   */
  datatype World = World(
    q: Lbq, delta: Move, dirty: bool, phase: Phase,
    submitted: Move, packets: seq<Packet>, sent: nat, refused: bool)

  datatype Event =
    | Submit(m: Move, memory: bool)
    | OfferOther(magic: Item)
    | Drain
    | Receive
    | Merge
    | Take
    | Sent(ok: bool)

  const Start := World(Lbq([], MaxQueued, false, false, false), Still, false, Waiting, Still, [], 0, false)

  predicate Possible(w: World, e: Event)
  {
    match e
    case Submit(_, _) => true
    case OfferOther(magic) => magic != RelativeMove
    case Drain => true
    case Receive => w.phase == Waiting && Waited(w.q).1 != Blocked
    case Merge => w.phase == OtherPacket && w.q.items != [] && w.q.items[0] != RelativeMove
    case Take => w.phase == Holding
    case Sent(_) => w.phase == Sending || w.phase == OtherPacket
  }

  /** What a caller is told about a submitted move; running out of memory counts as a refusal. */
  function SubmitResult(w: World, m: Move, memory: bool): Status
  {
    if m == Still || w.dirty then Success
    else if !memory then NoElement
    else Offered(w.q, RelativeMove).1
  }

  function After(w: World, e: Event): World
    requires Possible(w, e)
  {
    match e
    case Submit(m, memory) => Submitted(w, m, memory)
    case OfferOther(magic) => w.(q := Offered(w.q, magic).0)
    case Drain => w.(q := w.q.(draining := true))
    case Receive => Received(w)
    case Merge => w.(q := Polled(w.q).0)
    case Take => Taken(w)
    case Sent(ok) =>
      if !ok then w.(phase := Ended(w.phase == Sending))
      else if w.phase == Sending then w.(phase := Holding, sent := w.sent + 1)
      else w.(phase := Waiting)
  }

  function Submitted(w: World, m: Move, memory: bool): World
  {
    if m == Still then w else
      var t := w.(delta := Sum(w.delta, m), submitted := Sum(w.submitted, m));
      if w.dirty then t
      else if !memory then t.(refused := true)
      else
        var (q, err) := Offered(w.q, RelativeMove);
        t.(q := q, dirty := err == Success, refused := err != Success)
  }

  function Received(w: World): World
  {
    var (q, err) := Waited(w.q);
    w.(q := q, phase := if err != Success || w.q.items == [] then Ended(false)
                        else if w.q.items[0] == RelativeMove then Holding else OtherPacket)
  }

  function Taken(w: World): World
  {
    if w.delta == Still then w.(dirty := false, phase := Waiting)
    else w.(delta := Rest(w.delta), packets := w.packets + [Next(w.delta)], phase := Sending)
  }

  predicate PossibleRun(w: World, events: seq<Event>)
    decreases |events|
  {
    events == [] || (Possible(w, events[0]) && PossibleRun(After(w, events[0]), events[1..]))
  }

  function AfterRun(w: World, events: seq<Event>): World
    requires PossibleRun(w, events)
    decreases |events|
  {
    if events == [] then w else AfterRun(After(w, events[0]), events[1..])
  }

  // ----- what every run keeps

  function Queued(items: seq<Item>): nat
    decreases |items|
  {
    if items == [] then 0 else (if items[0] == RelativeMove then 1 else 0) + Queued(items[1..])
  }

  lemma {:induction false} QueuedAppend(items: seq<Item>, x: Item)
    ensures Queued(items + [x]) == Queued(items) + if x == RelativeMove then 1 else 0
    decreases |items|
  {
    if items != [] {
      QueuedAppend(items[1..], x);
      assert (items + [x])[1..] == items[1..] + [x];
    }
  }

  /** The motion holders: those in the queue, the one in the hands of the thread, the one a failed send used up. */
  function Holders(w: World): nat
  {
    Queued(w.q.items) + if w.phase == Holding || w.phase == Sending || w.phase == Ended(true) then 1 else 0
  }

  predicate WorldOk(w: World)
  {
    && Sum(Carried(w.packets), w.delta) == w.submitted
    && (forall i :: 0 <= i < |w.packets| ==> PacketFits(w.packets[i]))
    && |w.packets| == w.sent + (if w.phase == Sending || w.phase == Ended(true) then 1 else 0)
    && Holders(w) == (if w.dirty then 1 else 0)
    && (w.delta != Still && !w.dirty ==> w.refused)
    && (w.refused ==> !w.dirty)
    && !w.q.shutdown && !w.q.pendingUserWake
  }

  lemma SubmitOk(w: World, m: Move, memory: bool)
    requires WorldOk(w)
    ensures WorldOk(Submitted(w, m, memory))
  {
    QueuedAppend(w.q.items, RelativeMove);
  }

  lemma TakeOk(w: World)
    requires WorldOk(w) && w.phase == Holding
    ensures WorldOk(Taken(w))
  {
    hide Clamp, Fits, Carried, Sum, Rest, Next, PacketFits, Size;
    var p := Next(w.delta);
    CarriedAppend(w.packets, p);
    SumAssociates(Carried(w.packets), p.move, Rest(w.delta));
  }

  lemma SumAssociates(a: Move, b: Move, c: Move)
    ensures Sum(Sum(a, b), c) == Sum(a, Sum(b, c))
  {
  }

  lemma EventOk(w: World, e: Event)
    requires WorldOk(w) && Possible(w, e)
    ensures WorldOk(After(w, e))
  {
    hide Carried, PacketFits, Taken, Sum;
    match e
    case Submit(m, memory) => SubmitOk(w, m, memory);
    case OfferOther(magic) => QueuedAppend(w.q.items, magic);
    case Take => TakeOk(w);
    case _ =>
  }

  /**
   In every run, however the threads interleave: the motion submitted is the motion put in packets plus the motion
   pending; every packet value has 16 bits; there is one motion holder if the state is dirty and none if it is not; and
   motion is pending without a holder only if the latest attempt to queue one was turned down.
   */
  lemma {:induction false} MotionConserved(w: World, events: seq<Event>)
    requires WorldOk(w) && PossibleRun(w, events)
    ensures WorldOk(AfterRun(w, events))
    decreases |events|
  {
    hide WorldOk, After;
    if events != [] {
      EventOk(w, events[0]);
      MotionConserved(After(w, events[0]), events[1..]);
    }
  }

  lemma StartOk()
    ensures WorldOk(Start)
  {
    hide Carried, Sum, PacketFits;
    NothingYet(Still, []);
  }

  // ----- what the input thread gets done by itself

  predicate Running(w: World)
  {
    !w.phase.Ended? && !w.q.shutdown && !w.q.pendingUserWake
  }

  /** What is left to do before the thread waits for more. */
  function Rank(w: World): nat
  {
    match w.phase
    case Holding => 2 * Size(w.delta) + 1
    case Sending => 2 * Size(w.delta) + 2
    case OtherPacket => 1
    case _ => 0
  }

  /** The thread's next step, if sending succeeds. */
  function ThreadStep(w: World): (e: Event)
    requires Running(w) && !Quiet(w)
    ensures Possible(w, e)
  {
    match w.phase
    case Holding => Take
    case Waiting => Receive
    case _ => Sent(true)
  }

  predicate Quiet(w: World)
  {
    w.phase == Waiting && w.q.items == []
  }

  lemma ThreadStepWorks(w: World)
    requires Running(w) && !Quiet(w)
    ensures
      var t := After(w, ThreadStep(w));
      && Running(t) && t.submitted == w.submitted
      && (|t.q.items| < |w.q.items| || (|t.q.items| == |w.q.items| && Rank(t) < Rank(w)))
  {
    hide Clamp, Size, Next;
  }

  /** The thread alone, sending without failure, until the queue is empty. */
  ghost function Settled(w: World): World
    requires Running(w)
    decreases |w.q.items|, Rank(w)
  {
    if Quiet(w) then w
    else
      ThreadStepWorks(w);
      Settled(After(w, ThreadStep(w)))
  }

  lemma SettledPending(w: World)
    requires Running(w) && WorldOk(w) && !Quiet(w)
    ensures
      var t := After(w, ThreadStep(w));
      (t.dirty || t.delta == Still) <==> (w.dirty || w.delta == Still)
  {
    hide Clamp, Size, Next, Rest, Carried;
  }

  /**
   Left alone with a working network, also when it has been told to drain, the thread empties the queue, and then all
   motion ever submitted has gone out, unless a motion was turned down and no later one took it along.
   */
  lemma {:induction false} AllMotionGoesOut(w: World)
    requires Running(w) && WorldOk(w)
    ensures
      var t := Settled(w);
      && WorldOk(t) && Quiet(t) && !t.dirty && t.submitted == w.submitted && t.sent == |t.packets|
      && (Carried(t.packets) == w.submitted <==> w.dirty || w.delta == Still)
    decreases |w.q.items|, Rank(w)
  {
    if Quiet(w) {
      QuietPending(w);
    } else {
      hide After, WorldOk, Carried, Quiet, Running, Rank;
      ThreadStepWorks(w);
      SettledPending(w);
      EventOk(w, ThreadStep(w));
      SettledStep(w);
      AllMotionGoesOut(After(w, ThreadStep(w)));
    }
  }

  lemma SettledStep(w: World)
    requires Running(w) && !Quiet(w)
    ensures Settled(w) == Settled(After(w, ThreadStep(w)))
  {
  }

  lemma QuietPending(w: World)
    requires WorldOk(w) && Quiet(w)
    ensures !w.dirty && w.sent == |w.packets|
    ensures Carried(w.packets) == w.submitted <==> w.delta == Still
  {
  }

  // ----- what the caller is told

  /** A caller is told success exactly if, afterwards, a holder stands for its motion. */
  lemma SuccessMeansHolder(w: World, m: Move, memory: bool)
    requires WorldOk(w) && m != Still
    ensures SubmitResult(w, m, memory) == Success <==> Submitted(w, m, memory).dirty
    ensures SubmitResult(w, m, memory) == Success <==> Holders(Submitted(w, m, memory)) == 1
  {
    hide Carried, Sum;
    SubmitOk(w, m, memory);
  }

  /** A motion that was turned down is not lost: the next accepted one takes it along. */
  lemma RefusedYetSent(w: World, a: Move, b: Move)
    requires WorldOk(w) && Running(w) && !w.q.draining && |w.q.items| < w.q.sizeBound && !w.dirty && a != Still
    requires b != Still
    ensures
      var t := Submitted(Submitted(w, a, false), b, true);
      && SubmitResult(w, a, false) != Success
      && Running(t) && Carried(Settled(t).packets) == Sum(Sum(w.submitted, a), b)
  {
    var u := Submitted(w, a, false);
    var t := Submitted(u, b, true);
    hide WorldOk, Carried, Settled, Sum;
    SubmitOk(w, a, false);
    SubmitOk(u, b, true);
    AllMotionGoesOut(t);
  }

  /** In the end all motion submitted has gone out, and no holder is left. */
  ghost predicate Serves(w: World, events: seq<Event>)
  {
    && PossibleRun(w, events)
    && var t := AfterRun(w, events); !t.dirty && t.sent == |t.packets| && Carried(t.packets) == t.submitted
  }

  lemma RunStep(w: World, e: Event, rest: seq<Event>)
    requires Possible(w, e) && PossibleRun(After(w, e), rest)
    ensures PossibleRun(w, [e] + rest) && AfterRun(w, [e] + rest) == AfterRun(After(w, e), rest)
  {
    hide After, Possible;
    assert ([e] + rest)[0] == e && ([e] + rest)[1..] == rest;
  }

  /** What the thread does by itself is a run. */
  lemma {:induction false} SettledRun(w: World) returns (events: seq<Event>)
    requires Running(w)
    ensures PossibleRun(w, events) && AfterRun(w, events) == Settled(w)
    decreases |w.q.items|, Rank(w)
  {
    if Quiet(w) {
      events := [];
    } else {
      hide After, Possible, Running, Rank, Quiet;
      ThreadStepWorks(w);
      SettledStep(w);
      var rest := SettledRun(After(w, ThreadStep(w)));
      RunStep(w, ThreadStep(w), rest);
      events := [ThreadStep(w)] + rest;
    }
  }

  /** A thread that has ended sends nothing more, and a state that is dirty stays dirty. */
  lemma {:induction false} EndedForever(w: World, events: seq<Event>)
    requires w.phase.Ended? && PossibleRun(w, events)
    ensures
      var t := AfterRun(w, events);
      t.phase == w.phase && t.packets == w.packets && t.sent == w.sent && (w.dirty ==> t.dirty)
    decreases |events|
  {
    if events != [] {
      EndedStays(w, events[0]);
      hide After;
      EndedForever(After(w, events[0]), events[1..]);
    }
  }

  lemma EndedStays(w: World, e: Event)
    requires w.phase.Ended? && Possible(w, e)
    ensures
      var t := After(w, e);
      t.phase == w.phase && t.packets == w.packets && t.sent == w.sent && (w.dirty ==> t.dirty)
  {
  }

  /**
   In every reachable state, a motion that is reported as accepted can still go out, with all others, exactly if the
   input thread has not ended.
   */
  lemma AcceptedGoesOut(run: seq<Event>, m: Move, memory: bool)
    requires PossibleRun(Start, run) && m != Still && SubmitResult(AfterRun(Start, run), m, memory) == Success
    ensures
      var w := AfterRun(Start, run);
      (exists events :: Serves(Submitted(w, m, memory), events)) <==> !w.phase.Ended?
  {
    hide WorldOk, Carried, PossibleRun, AfterRun, SubmitResult, Submitted, Settled;
    StartOk();
    MotionConserved(Start, run);
    var w := AfterRun(Start, run);
    var t := Submitted(w, m, memory);
    SubmitOk(w, m, memory);
    SuccessMeansHolder(w, m, memory);
    SubmitPhase(w, m, memory);
    if w.phase.Ended? {
      forall events | PossibleRun(t, events) ensures !Serves(t, events) {
        EndedForever(t, events);
      }
    } else {
      RunningIs(t);
      var events := SettledRun(t);
      AllMotionGoesOut(t);
      assert Serves(t, events);
    }
  }

  lemma SubmitPhase(w: World, m: Move, memory: bool)
    ensures Submitted(w, m, memory).phase == w.phase
  {
  }

  lemma RunningIs(w: World)
    requires WorldOk(w)
    ensures Running(w) <==> !w.phase.Ended?
  {
    hide Carried, Sum, PacketFits;
  }

  /** A failed send of some other packet ends the thread; motion is still reported as accepted, and never goes out. */
  lemma AcceptedYetNeverSent(m: Move)
    requires m != Still
    ensures
      var run := [OfferOther(1), Receive, Sent(false)];
      && PossibleRun(Start, run) && AfterRun(Start, run).phase == Ended(false)
      && SubmitResult(AfterRun(Start, run), m, true) == Success
      && !exists events :: Serves(Submitted(AfterRun(Start, run), m, true), events)
  {
    var run := [OfferOther(1), Receive, Sent(false)];
    var w1 := After(Start, OfferOther(1));
    var w2 := After(w1, Receive);
    var w3 := After(w2, Sent(false));
    assert w1.q.items == [1];
    assert PossibleRun(w3, []) && AfterRun(w3, []) == w3;
    RunStep(w2, Sent(false), []);
    RunStep(w1, Receive, [Sent(false)]);
    RunStep(Start, OfferOther(1), [Receive, Sent(false)]);
    assert [Sent(false)] + [] == [Sent(false)] && [Receive] + [Sent(false)] == [Receive, Sent(false)];
    assert [OfferOther(1)] + [Receive, Sent(false)] == run;
    AcceptedGoesOut(run, m, true);
  }

  // ----- the entry point for the application

  function Code(st: Status): int
  {
    match st
    case Success => 0
    case Interrupted => 1
    case BoundExceeded => 2
    case NoElement => -1
    case UserWake => 4
    case Blocked => -1
  }

  class InputStream {
    const packetQueue: LinkedBlockingQueue
    const mouse: RelativeMouseState
    var initialized: bool

    constructor ()
      ensures fresh(packetQueue) && fresh(mouse) && packetQueue.Valid() && fresh(packetQueue.chain) && !initialized
      ensures packetQueue.State() == Start.q && mouse.Pending() == Start.delta && !mouse.dirty
    {
      packetQueue := new LinkedBlockingQueue(MaxQueued);
      mouse := new RelativeMouseState();
      initialized := false;
    }

    /** What the threads share, as part of a world. */
    ghost function View(w: World): World
      reads this, packetQueue, packetQueue.chain, mouse
    {
      w.(q := packetQueue.State(), delta := mouse.Pending(), dirty := mouse.dirty)
    }

    /** Queues a packet holder for the pending motion. */
    method QueueHolder(memory: bool) returns (err: int, wakeup: bool)
      requires packetQueue.Valid() && !mouse.dirty
      modifies packetQueue, packetQueue.chain, mouse`dirty
      ensures packetQueue.Valid()
      ensures err == Code(if memory then Offered(old(packetQueue.State()), RelativeMove).1 else NoElement)
      ensures packetQueue.State() == if memory then Offered(old(packetQueue.State()), RelativeMove).0
        else old(packetQueue.State())
      ensures mouse.dirty <==> err == 0
      ensures wakeup <==> old(packetQueue.chain) == [] && packetQueue.chain != []
    {
      if !memory {
        return -1, false;
      }
      var holder := new Entry();
      var st;
      st, wakeup := packetQueue.OfferQueueItem(RelativeMove, holder);
      if st == Success {
        mouse.dirty := true;
      }
      err := Code(st);
    }

    method LiSendMouseMoveEvent(deltaX: int, deltaY: int, memory: bool, ghost w: World) returns (err: int, wakeup: bool)
      requires packetQueue.Valid()
      modifies packetQueue, packetQueue.chain, mouse
      ensures packetQueue.Valid()
      ensures !initialized ==> err == -2 && View(w) == old(View(w))
      ensures initialized ==> err == Code(SubmitResult(old(View(w)), Move(deltaX, deltaY), memory))
      ensures
        initialized ==>
          var t := Submitted(old(View(w)), Move(deltaX, deltaY), memory);
          View(w) == w.(q := t.q, delta := t.delta, dirty := t.dirty)
      ensures wakeup <==> old(packetQueue.chain) == [] && packetQueue.chain != []
    {
      hide Offered;
      ghost var before := View(w);
      err, wakeup := 0, false;
      if !initialized {
        return -2, false;
      }
      if deltaX == 0 && deltaY == 0 {
        return;
      }
      mouse.deltaX := mouse.deltaX + deltaX;
      mouse.deltaY := mouse.deltaY + deltaY;
      assert packetQueue.State() == before.q;
      if !mouse.dirty {
        err, wakeup := QueueHolder(memory);
      }
    }
  }
}
