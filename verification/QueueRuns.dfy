/**
 Threads sharing a blocking queue.  Each operation holds the lock for one step; the signal that may follow it is
 a step of its own.
 */
module QueueRuns {
  import opened BlockingQueue

  /**
   The queue, the items accepted and the items taken out so far, the signals still to be given, the threads asleep
   in the wait loop, and the number of threads that wait at all.
   */
  datatype World = World(q: Lbq, accepted: seq<Item>, removed: seq<Item>, signals: nat, sleeping: nat, waiters: nat)

  datatype Event =
    | Offer(x: Item)
    | Poll
    | Wait
    | Flush
    | Shutdown
    | Drain
    | Wake
    | Signal
    | SpuriousWakeup

  function Start(sizeBound: int, waiters: nat): World
  {
    World(Lbq([], sizeBound, false, false, false), [], [], 0, 0, waiters)
  }

  predicate Possible(w: World, e: Event)
  {
    match e
    case Wait => w.sleeping < w.waiters
    case Signal => w.signals > 0
    case SpuriousWakeup => w.sleeping > 0
    case _ => true
  }

  /** An operation that may have taken the first item. */
  function Taken(w: World, q: Lbq, st: Status): World
  {
    w.(q := q, removed := w.removed + if st == Success && w.q.items != [] then [w.q.items[0]] else [])
  }

  function After(w: World, e: Event): World
    requires Possible(w, e)
  {
    match e
    case Offer(x) =>
      var (q, st) := Offered(w.q, x);
      if st == Success then
        w.(q := q, accepted := w.accepted + [x], signals := w.signals + if w.q.items == [] then 1 else 0)
      else w
    case Poll => var (q, st) := Polled(w.q); Taken(w, q, st)
    case Wait =>
      var (q, st) := Waited(w.q);
      if st == Blocked then w.(sleeping := w.sleeping + 1) else Taken(w, q, st)
    case Flush => w.(q := w.q.(items := []), removed := w.removed + w.q.items)
    case Shutdown => w.(q := w.q.(shutdown := true), signals := w.signals + 1)
    case Drain => w.(q := w.q.(draining := true), signals := w.signals + 1)
    case Wake => w.(q := w.q.(pendingUserWake := true), signals := w.signals + 1)
    case Signal => w.(signals := w.signals - 1, sleeping := if w.sleeping > 0 then w.sleeping - 1 else 0)
    case SpuriousWakeup => w.(sleeping := w.sleeping - 1)
  }

  predicate PossibleRun(w: World, events: seq<Event>)
    decreases |events|
  {
    events == [] || (Possible(w, events[0]) && PossibleRun(After(w, events[0]), events[1..]))
  }

  function AfterRun(w: World, events: seq<Event>): World
    requires PossibleRun(w, events)
    decreases |events|
  {
    if events == [] then w else AfterRun(After(w, events[0]), events[1..])
  }

  // ----- items

  /** What has been accepted is what has been taken out, followed by what is in the queue. */
  predicate Conserved(w: World)
  {
    w.accepted == w.removed + w.q.items && (w.q.sizeBound >= 0 ==> |w.q.items| <= w.q.sizeBound)
  }

  lemma EventConserves(w: World, e: Event)
    requires Conserved(w) && Possible(w, e)
    ensures Conserved(After(w, e))
  {
    var t := After(w, e);
    match e
    case Offer(x) =>
      assert w.removed + (w.q.items + [x]) == w.removed + w.q.items + [x];
    case Flush =>
      assert t.removed + [] == t.removed;
    case _ =>
      if w.q.items != [] {
        assert w.q.items == [w.q.items[0]] + w.q.items[1..];
        assert w.removed + ([w.q.items[0]] + w.q.items[1..]) == w.removed + [w.q.items[0]] + w.q.items[1..];
      }
      assert w.removed + [] == w.removed;
  }

  /** In every run items come out, by polling, waiting or flushing, in the order they were accepted, each once. */
  lemma {:induction false} FirstInFirstOut(w: World, events: seq<Event>)
    requires Conserved(w) && PossibleRun(w, events)
    ensures Conserved(AfterRun(w, events))
    decreases |events|
  {
    hide Conserved, After;
    if events != [] {
      EventConserves(w, events[0]);
      FirstInFirstOut(After(w, events[0]), events[1..]);
    }
  }

  // ----- draining

  /** What a thread gets that waits again and again until it is told to stop. */
  function Drained(q: Lbq): seq<Item>
    decreases |q.items|
  {
    if Waited(q).1 == Success && q.items != [] then [q.items[0]] + Drained(Waited(q).0) else []
  }

  /** A draining queue hands out all it has before it says stop; one that is shut down says stop at once. */
  lemma {:induction false} DrainDeliversAll(q: Lbq)
    requires q.draining && !q.pendingUserWake
    ensures Drained(q) == if q.shutdown then [] else q.items
    ensures !q.shutdown ==> Waited(q.(items := [])).1 == Interrupted
    decreases |q.items|
  {
    if !q.shutdown && q.items != [] {
      DrainDeliversAll(Waited(q).0);
      assert [q.items[0]] + q.items[1..] == q.items;
    }
  }

  /** A draining queue that is not shut down tells a thread to stop exactly if every accepted item is out. */
  lemma StopMeansEmpty(w: World)
    requires Conserved(w) && w.q.draining && !w.q.shutdown && !w.q.pendingUserWake
    ensures Waited(w.q).1 == Interrupted <==> w.accepted == w.removed
    ensures Polled(w.q).1 == Interrupted <==> w.accepted == w.removed
  {
    assert |w.accepted| == |w.removed| + |w.q.items|;
    assert w.q.items == [] ==> w.removed + w.q.items == w.removed;
  }

  // ----- wake-ups

  /** No thread sleeps past a reason to go on, unless a signal is still on its way. */
  predicate NobodyForgotten(w: World)
  {
    w.sleeping > 0 && Awaited(w.q) ==> w.signals > 0
  }

  lemma EventWakes(w: World, e: Event)
    requires NobodyForgotten(w) && w.sleeping <= w.waiters <= 1 && Possible(w, e)
    ensures NobodyForgotten(After(w, e)) && After(w, e).sleeping <= w.waiters
    ensures After(w, e).waiters == w.waiters
  {
  }

  /** With one waiting thread no wake-up is lost, although offers to a queue that is not empty give no signal. */
  lemma {:induction false} NoLostWakeup(w: World, events: seq<Event>)
    requires NobodyForgotten(w) && w.sleeping <= w.waiters <= 1 && PossibleRun(w, events)
    ensures NobodyForgotten(AfterRun(w, events))
    decreases |events|
  {
    hide NobodyForgotten, After;
    if events != [] {
      EventWakes(w, events[0]);
      NoLostWakeup(After(w, events[0]), events[1..]);
    }
  }

  /** Two threads fall asleep, two items arrive, and the one signal wakes one thread. */
  function Forgetful(): seq<Event>
  {
    [Wait, Wait, Offer(1), Offer(2), Signal]
  }

  lemma RunStep(w: World, e: Event, rest: seq<Event>)
    requires Possible(w, e) && PossibleRun(After(w, e), rest)
    ensures PossibleRun(w, [e] + rest) && AfterRun(w, [e] + rest) == AfterRun(After(w, e), rest)
  {
    assert ([e] + rest)[0] == e && ([e] + rest)[1..] == rest;
  }

  lemma SecondWaiterForgotten(sizeBound: int, waiters: nat)
    requires waiters >= 2 && (sizeBound < 0 || sizeBound >= 2)
    ensures PossibleRun(Start(sizeBound, waiters), Forgetful())
    ensures !NobodyForgotten(AfterRun(Start(sizeBound, waiters), Forgetful()))
  {
    var w0 := Start(sizeBound, waiters);
    var w1 := After(w0, Wait);
    var w2 := After(w1, Wait);
    var w3 := After(w2, Offer(1));
    var w4 := After(w3, Offer(2));
    var w5 := After(w4, Signal);
    assert w5.sleeping == 1 && w5.signals == 0 && w5.q.items == [1, 2];
    hide After, Possible, NobodyForgotten;
    assert PossibleRun(w5, []) && AfterRun(w5, []) == w5;
    RunStep(w4, Signal, []);
    RunStep(w3, Offer(2), [Signal]);
    RunStep(w2, Offer(1), [Offer(2), Signal]);
    RunStep(w1, Wait, [Offer(1), Offer(2), Signal]);
    RunStep(w0, Wait, [Wait, Offer(1), Offer(2), Signal]);
    assert [Signal] + [] == [Signal] && [Offer(2)] + [Signal] == [Offer(2), Signal];
    assert [Offer(1)] + [Offer(2), Signal] == [Offer(1), Offer(2), Signal];
    assert [Wait] + [Offer(1), Offer(2), Signal] == [Wait, Offer(1), Offer(2), Signal];
    assert [Wait] + [Wait, Offer(1), Offer(2), Signal] == Forgetful();
    assert !NobodyForgotten(w5) by {
      Forgotten(w5);
    }
  }

  lemma Forgotten(w: World)
    requires w.sleeping > 0 && w.q.items != [] && w.signals == 0
    ensures !NobodyForgotten(w)
  {
  }

  /** Two threads fall asleep, the queue is told to drain or shut down, and the one signal wakes one thread. */
  lemma StopForgotten(sizeBound: int, waiters: nat, stop: Event)
    requires waiters >= 2 && (stop == Drain || stop == Shutdown)
    ensures
      var w, run := Start(sizeBound, waiters), [Wait, Wait, stop, Signal];
      && PossibleRun(w, run) && !NobodyForgotten(AfterRun(w, run))
      && AfterRun(w, run).sleeping == 1 && Waited(AfterRun(w, run).q).1 == Interrupted
  {
    var w0 := Start(sizeBound, waiters);
    var w1 := After(w0, Wait);
    var w2 := After(w1, Wait);
    var w3 := After(w2, stop);
    var w4 := After(w3, Signal);
    assert w4.sleeping == 1 && w4.signals == 0 && (w4.q.draining || w4.q.shutdown) && w4.q.items == [];
    assert PossibleRun(w4, []) && AfterRun(w4, []) == w4;
    hide After, Possible;
    RunStep(w3, Signal, []);
    RunStep(w2, stop, [Signal]);
    RunStep(w1, Wait, [stop, Signal]);
    RunStep(w0, Wait, [Wait, stop, Signal]);
    assert [Signal] + [] == [Signal] && [stop] + [Signal] == [stop, Signal];
    assert [Wait] + [stop, Signal] == [Wait, stop, Signal] &&
      [Wait] + [Wait, stop, Signal] == [Wait, Wait, stop, Signal];
  }

  /** Wake-ups are safe in every run exactly if at most one thread waits. */
  lemma WakeupsSafe(sizeBound: int, waiters: nat)
    ensures waiters <= 1 <==>
      forall events :: PossibleRun(Start(sizeBound, waiters), events) ==>
        NobodyForgotten(AfterRun(Start(sizeBound, waiters), events))
  {
    var w := Start(sizeBound, waiters);
    if waiters <= 1 {
      forall events | PossibleRun(w, events) ensures NobodyForgotten(AfterRun(w, events)) {
        NoLostWakeup(w, events);
      }
    } else {
      StopForgotten(sizeBound, waiters, Drain);
    }
  }
}
