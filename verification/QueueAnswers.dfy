/**
 What each operation of a blocking queue answers after any run, told from what has been accepted, what has been taken
 out, and what the threads have done.
 */
module QueueAnswers {
  import opened BlockingQueue
  import opened QueueRuns

  /** A wake-up by the user that no thread has been told of: until the shutdown the next one to wait is. */
  ghost predicate WakeOutstanding(events: seq<Event>)
  {
    exists i :: 0 <= i < |events| && events[i] == Wake && Untold(events, i)
  }

  ghost predicate Untold(events: seq<Event>, i: nat)
  {
    forall j :: i < j < |events| && events[j] == Wait ==> Shutdown in events[..j]
  }

  /** The flags of the queue tell what has happened, and everything accepted is out or waits in order. */
  ghost predicate Reflects(w: World, sizeBound: int, events: seq<Event>)
  {
    && Conserved(w) && w.q.sizeBound == sizeBound
    && (w.q.shutdown <==> Shutdown in events) && (w.q.draining <==> Drain in events)
    && (w.q.pendingUserWake <==> WakeOutstanding(events))
  }

  lemma {:induction false} RunLast(w: World, events: seq<Event>)
    requires PossibleRun(w, events) && events != []
    ensures var n := |events| - 1;
      && PossibleRun(w, events[..n]) && Possible(AfterRun(w, events[..n]), events[n])
      && AfterRun(w, events) == After(AfterRun(w, events[..n]), events[n])
    decreases |events|
  {
    hide After, Possible;
    var n := |events| - 1;
    if n > 0 {
      RunLast(After(w, events[0]), events[1..]);
      assert events[1..][..n - 1] == events[..n][1..];
    } else {
      assert events[1..] == [];
    }
  }

  lemma WakeNext(events: seq<Event>, e: Event)
    ensures e == Wake ==> WakeOutstanding(events + [e])
    ensures e == Wait ==> (WakeOutstanding(events + [e]) <==> WakeOutstanding(events) && Shutdown in events)
    ensures e != Wait && e != Wake ==> (WakeOutstanding(events + [e]) <==> WakeOutstanding(events))
  {
    var more, n := events + [e], |events|;
    assert more[n] == e && more[..n] == events;
    assert forall j :: 0 <= j <= n ==> more[..j] == events[..j];
    if e == Wake {
      assert Untold(more, n);
    }
    forall i | 0 <= i < n ensures Untold(more, i) <==> Untold(events, i) && (e == Wait ==> Shutdown in events) {
      if Untold(more, i) {
        forall j | i < j < n && events[j] == Wait ensures Shutdown in events[..j] {
          assert more[j] == Wait;
        }
      }
    }
  }

  lemma EventReflects(w: World, sizeBound: int, events: seq<Event>, e: Event)
    requires Reflects(w, sizeBound, events) && Possible(w, e)
    ensures Reflects(After(w, e), sizeBound, events + [e])
  {
    hide Conserved, WakeOutstanding;
    EventConserves(w, e);
    WakeNext(events, e);
  }

  lemma {:induction false} RunReflects(sizeBound: int, waiters: nat, events: seq<Event>)
    requires PossibleRun(Start(sizeBound, waiters), events)
    ensures Reflects(AfterRun(Start(sizeBound, waiters), events), sizeBound, events)
    decreases |events|
  {
    hide After, Possible;
    if events != [] {
      var n := |events| - 1;
      RunLast(Start(sizeBound, waiters), events);
      RunReflects(sizeBound, waiters, events[..n]);
      hide Reflects;
      EventReflects(AfterRun(Start(sizeBound, waiters), events[..n]), sizeBound, events[..n], events[n]);
      assert events[..n] + [events[n]] == events;
    }
  }

  lemma ItemsLeft(w: World)
    requires Conserved(w)
    ensures |w.q.items| == |w.accepted| - |w.removed|
    ensures w.q.items == [] <==> w.accepted == w.removed
    ensures w.q.items != [] ==> w.q.items[0] == w.accepted[|w.removed|]
  {
    assert |w.accepted| == |w.removed| + |w.q.items|;
    if w.q.items == [] {
      assert w.removed + w.q.items == w.removed;
    }
  }

  /**
   Polling and peeking: an item exactly if one accepted is not yet out and the queue is not shut down, and then the
   earliest; nothing exactly if there is none, and nobody has said stop.
   */
  lemma PollAnswers(sizeBound: int, waiters: nat, events: seq<Event>)
    requires PossibleRun(Start(sizeBound, waiters), events)
    ensures var w := AfterRun(Start(sizeBound, waiters), events);
      var (q, st) := Polled(w.q);
      && (st == Success <==> Shutdown !in events && w.accepted != w.removed)
      && (st == NoElement <==> Shutdown !in events && Drain !in events && w.accepted == w.removed)
      && (st == Interrupted <==> Shutdown in events || (Drain in events && w.accepted == w.removed))
      && (st == Success ==>
        && |w.removed| < |w.accepted| && w.q.items != [] && w.q.items[0] == w.accepted[|w.removed|]
        && After(w, Poll).removed == w.accepted[..|w.removed| + 1])
      && (st != Success ==> q == w.q)
  {
    hide PossibleRun, AfterRun, WakeOutstanding;
    RunReflects(sizeBound, waiters, events);
    var w := AfterRun(Start(sizeBound, waiters), events);
    ItemsLeft(w);
    OneMoreOut(w);
  }

  lemma OneMoreOut(w: World)
    requires Conserved(w)
    ensures w.q.items != [] ==>
      |w.removed| < |w.accepted| && w.removed + [w.q.items[0]] == w.accepted[..|w.removed| + 1]
  {
    assert |w.accepted| == |w.removed| + |w.q.items|;
  }

  /**
   Waiting: stop at once after a shutdown; otherwise a wake-up by the user first, and then the earliest item; stop when
   a draining queue has none left; and sleep exactly if there is no reason to go on.
   */
  lemma WaitAnswers(sizeBound: int, waiters: nat, events: seq<Event>)
    requires PossibleRun(Start(sizeBound, waiters), events)
    ensures var w := AfterRun(Start(sizeBound, waiters), events);
      var (q, st) := Waited(w.q);
      && (st == UserWake <==> Shutdown !in events && WakeOutstanding(events))
      && (st == Success <==> Shutdown !in events && !WakeOutstanding(events) && w.accepted != w.removed)
      && (st == Interrupted <==>
        || Shutdown in events
        || (Drain in events && !WakeOutstanding(events) && w.accepted == w.removed))
      && (st == Blocked <==>
        Shutdown !in events && Drain !in events && !WakeOutstanding(events) && w.accepted == w.removed)
      && (st == Success ==>
        && |w.removed| < |w.accepted| && w.q.items != [] && w.q.items[0] == w.accepted[|w.removed|]
        && q.items == w.q.items[1..])
      && (st != Success ==> q.items == w.q.items)
  {
    hide PossibleRun, AfterRun, WakeOutstanding;
    RunReflects(sizeBound, waiters, events);
    var w := AfterRun(Start(sizeBound, waiters), events);
    ItemsLeft(w);
    OneMoreOut(w);
  }

  /** Offering: an item is taken exactly if nobody has said stop and the bound is not reached. */
  lemma OfferAnswers(sizeBound: int, waiters: nat, events: seq<Event>, x: Item)
    requires PossibleRun(Start(sizeBound, waiters), events)
    ensures var w := AfterRun(Start(sizeBound, waiters), events);
      var st := Offered(w.q, x).1;
      && (st == Interrupted <==> Shutdown in events || Drain in events)
      && (st == BoundExceeded <==>
        Shutdown !in events && Drain !in events && |w.accepted| - |w.removed| == sizeBound)
      && (st == Success <==>
        Shutdown !in events && Drain !in events && |w.accepted| - |w.removed| != sizeBound)
      && After(w, Offer(x)).accepted == w.accepted + (if st == Success then [x] else [])
      && After(w, Offer(x)).removed == w.removed
  {
    hide PossibleRun, AfterRun, WakeOutstanding;
    RunReflects(sizeBound, waiters, events);
    ItemsLeft(AfterRun(Start(sizeBound, waiters), events));
  }

  /** Every wake-up by the user is told to at most one thread: a second wait in a row is not told of it again. */
  lemma WakeToldOnce(events: seq<Event>)
    requires Shutdown !in events
    ensures !WakeOutstanding(events + [Wait])
    ensures forall more :: Wake !in more ==> !WakeOutstanding(events + [Wait] + more)
  {
    WakeNext(events, Wait);
    hide WakeOutstanding;
    forall more | Wake !in more ensures !WakeOutstanding(events + [Wait] + more) {
      NoWakeNext(events + [Wait], more);
    }
  }

  lemma {:induction false} NoWakeNext(events: seq<Event>, more: seq<Event>)
    requires Wake !in more && !WakeOutstanding(events)
    ensures !WakeOutstanding(events + more)
    decreases |more|
  {
    hide WakeOutstanding;
    if more == [] {
      assert events + more == events;
    } else {
      var n := |more| - 1;
      NoWakeNext(events, more[..n]);
      WakeNext(events + more[..n], more[n]);
      assert events + more[..n] + [more[n]] == events + more;
    }
  }
}
