/** The linked blocking queue: a doubly linked chain of caller-owned entries, and what each operation does to it. */
module BlockingQueue {
  datatype Status = Success | Interrupted | BoundExceeded | NoElement | UserWake | Blocked

  type Item = int

  /** The queue as the callers see it. */
  datatype Lbq = Lbq(items: seq<Item>, sizeBound: int, shutdown: bool, draining: bool, pendingUserWake: bool)

  /** The result of offering an item. */
  function Offered(q: Lbq, x: Item): (Lbq, Status)
  {
    if q.shutdown || q.draining then (q, Interrupted)
    else if |q.items| == q.sizeBound then (q, BoundExceeded)
    else (q.(items := q.items + [x]), Success)
  }

  /** The result of asking for the first item without waiting. */
  function Polled(q: Lbq): (Lbq, Status)
  {
    if q.shutdown then (q, Interrupted)
    else if q.items == [] then (q, if q.draining then Interrupted else NoElement)
    else (q.(items := q.items[1..]), Success)
  }

  /** There is a reason for a waiting thread to go on. */
  predicate Awaited(q: Lbq)
  {
    q.items != [] || q.draining || q.shutdown || q.pendingUserWake
  }

  /** The result of waiting for an item, once the lock is held; blocked means that the thread goes to sleep. */
  function Waited(q: Lbq): (Lbq, Status)
  {
    if !Awaited(q) then (q, Blocked)
    else if q.shutdown then (q, Interrupted)
    else if q.pendingUserWake then (q.(pendingUserWake := false), UserWake)
    else if q.draining && q.items == [] then (q, Interrupted)
    else (q.(items := q.items[1..]), Success)
  }

  class Entry {
    var flink: Entry?
    var blink: Entry?
    var data: Item
    ghost var place: nat

    constructor ()
    {
      flink, blink, data, place := null, null, 0, 0;
    }
  }

  class LinkedBlockingQueue {
    var head: Entry?
    var tail: Entry?
    const sizeBound: int
    var currentSize: nat
    var lifetimeSize: nat
    var shutdown: bool
    var draining: bool
    var pendingUserWake: bool
    ghost var chain: seq<Entry>
    ghost var base: nat

    /** The links run along the chain in both directions, and the counters fit. */
    ghost predicate Valid()
      reads this, chain
    {
      && (forall i {:trigger chain[i]} :: 0 <= i < |chain| ==> chain[i].place == base + i)
      && (forall i, j {:trigger chain[i], chain[j]} :: 0 <= i < j < |chain| && j == i + 1 ==>
            chain[i].flink == chain[j] && chain[j].blink == chain[i])
      && (chain != [] ==> chain[0].blink == null && chain[|chain| - 1].flink == null)
      && head == (if chain == [] then null else chain[0])
      && tail == (if chain == [] then null else chain[|chain| - 1])
      && currentSize == |chain| && (sizeBound >= 0 ==> currentSize <= sizeBound)
    }

    ghost function State(): (q: Lbq)
      reads this, chain
      ensures |q.items| == |chain|
    {
      Lbq(seq(|chain|, i requires 0 <= i < |chain| reads this, chain => chain[i].data), sizeBound, shutdown, draining,
        pendingUserWake)
    }

    constructor (sizeBound: int)
      ensures Valid() && chain == [] && State() == Lbq([], sizeBound, false, false, false)
    {
      this.sizeBound := sizeBound;
      head, tail, currentSize, lifetimeSize := null, null, 0, 0;
      shutdown, draining, pendingUserWake, chain, base := false, false, false, [], 0;
    }

    /** Links a prepared entry behind the last one. */
    method LinkLast(entry: Entry)
      requires Valid() && entry !in chain && entry.flink == null && currentSize != sizeBound && chain != []
      modifies this, entry, chain
      ensures Valid() && chain == old(chain) + [entry] && entry.data == old(entry.data)
      ensures forall i :: 0 <= i < |old(chain)| ==> old(chain)[i].data == old(chain[i].data)
      ensures shutdown == old(shutdown) && draining == old(draining) && pendingUserWake == old(pendingUserWake)
    {
      ghost var c, n := chain, |chain|;
      assert tail == c[n - 1];
      tail.flink := entry;
      entry.blink := tail;
      tail := entry;
      entry.place := base + n;
      chain := c + [entry];
      currentSize := currentSize + 1;
      lifetimeSize := lifetimeSize + 1;
      assert forall i :: 0 <= i < n ==> c[i] != entry;
    }

    /** Makes a prepared entry the only one. */
    method LinkOnly(entry: Entry)
      requires Valid() && entry.flink == null && currentSize != sizeBound && chain == []
      modifies this, entry
      ensures Valid() && chain == [entry] && entry.data == old(entry.data)
      ensures shutdown == old(shutdown) && draining == old(draining) && pendingUserWake == old(pendingUserWake)
    {
      head := entry;
      tail := entry;
      entry.blink := null;
      entry.place := base;
      chain := [entry];
      currentSize := currentSize + 1;
      lifetimeSize := lifetimeSize + 1;
    }

    /** Puts the entry at the end of the chain; wakeup tells whether a waiting thread is to be signalled. */
    method OfferQueueItem(x: Item, entry: Entry) returns (err: Status, wakeup: bool)
      requires Valid() && entry !in chain
      modifies this, entry, chain
      ensures Valid() && (State(), err) == Offered(old(State()), x)
      ensures chain == if err == Success then old(chain) + [entry] else old(chain)
      ensures wakeup <==> err == Success && old(chain) == []
    {
      ghost var before := State();
      entry.flink := null;
      entry.data := x;
      assert State() == before;
      if shutdown || draining {
        return Interrupted, false;
      }
      if currentSize == sizeBound {
        return BoundExceeded, false;
      }
      wakeup := head == null;
      if wakeup {
        LinkOnly(entry);
      } else {
        LinkLast(entry);
      }
      assert State().items == before.items + [x];
      err := Success;
    }

    method PeekQueueElement() returns (err: Status, x: Item)
      requires Valid()
      ensures err == Polled(State()).1
      ensures err == Success ==> x == State().items[0]
    {
      x := 0;
      if shutdown {
        return Interrupted, x;
      }
      if head == null {
        return if draining then Interrupted else NoElement, x;
      }
      return Success, head.data;
    }

    /** Unlinks the first entry. */
    method TakeFirst() returns (x: Item, ghost entry: Entry)
      requires Valid() && chain != []
      modifies this, chain
      ensures Valid() && entry == old(chain[0]) && chain == old(chain)[1..]
      ensures x == old(State()).items[0] && State() == old(State()).(items := old(State()).items[1..])
    {
      ghost var before, c, n := State(), chain, |chain|;
      entry := c[0];
      assert n > 1 ==> c[0].flink == c[1] && c[1] != c[0];
      var first: Entry := head;
      head := first.flink;
      currentSize := currentSize - 1;
      chain, base := c[1..], base + 1;
      if head == null {
        tail := null;
      } else {
        head.blink := null;
      }
      x := first.data;
      assert State().items == before.items[1..];
    }

    method PollQueueElement() returns (err: Status, x: Item)
      requires Valid()
      modifies this, chain
      ensures Valid() && (State(), err) == Polled(old(State()))
      ensures err == Success ==> x == old(State()).items[0] && chain == old(chain)[1..]
      ensures err != Success ==> chain == old(chain)
    {
      x := 0;
      if shutdown {
        return Interrupted, x;
      }
      if head == null {
        return if draining then Interrupted else NoElement, x;
      }
      ghost var e;
      x, e := TakeFirst();
      err := Success;
    }

    /** One pass through the wait loop with the lock held. */
    method WaitForQueueElement() returns (err: Status, x: Item)
      requires Valid()
      modifies this, chain
      ensures Valid() && (State(), err) == Waited(old(State()))
      ensures err == Success ==> x == old(State()).items[0] && chain == old(chain)[1..]
      ensures err != Success ==> chain == old(chain)
    {
      x := 0;
      if head == null && !draining && !shutdown && !pendingUserWake {
        return Blocked, x;
      }
      if shutdown {
        return Interrupted, x;
      }
      if pendingUserWake {
        ghost var before := State();
        pendingUserWake := false;
        assert State().items == before.items;
        return UserWake, x;
      }
      if draining && head == null {
        return Interrupted, x;
      }
      ghost var e;
      x, e := TakeFirst();
      err := Success;
    }

    /** Empties the queue and hands out the whole chain, still linked. */
    method FlushQueueItems() returns (first: Entry?, ghost flushed: seq<Entry>)
      requires Valid()
      modifies this
      ensures Valid() && State() == old(State()).(items := []) && chain == []
      ensures flushed == old(chain) && first == (if flushed == [] then null else flushed[0])
      ensures forall i :: 0 <= i < |flushed| ==>
        flushed[i].data == old(State()).items[i] &&
          flushed[i].flink == if i + 1 < |flushed| then flushed[i + 1] else null
    {
      first, flushed := head, chain;
      if first != null {
        head := null;
        tail := null;
        currentSize := 0;
      }
      chain := [];
    }

    method SignalQueueShutdown()
      requires Valid()
      modifies this
      ensures Valid() && State() == old(State()).(shutdown := true) && chain == old(chain)
    {
      shutdown := true;
    }

    method SignalQueueDrain()
      requires Valid()
      modifies this
      ensures Valid() && State() == old(State()).(draining := true) && chain == old(chain)
    {
      draining := true;
    }

    method SignalQueueUserWake()
      requires Valid()
      modifies this
      ensures Valid() && State() == old(State()).(pendingUserWake := true) && chain == old(chain)
    {
      pendingUserWake := true;
    }
  }
}
