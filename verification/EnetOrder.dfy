/** What the receiver's list means in terms of the stream of messages, and that every arrival keeps that meaning. */
module EnetOrder {
  import opened Basics
  import opened EnetWindows
  import opened EnetMessages
  import opened EnetReceiver

  function Payloads(ms: seq<Message>): seq<seq<Byte>>
  {
    seq(|ms|, i requires 0 <= i < |ms| => ms[i].payload)
  }

  /** The number of the last command of the first m messages. */
  ghost function LastOf(ms: seq<Message>, m: nat): nat
    requires AllSendable(ms) && m <= |ms|
  {
    StartGrows(ms, 0, m);
    Start(ms, m) - 1
  }

  ghost predicate Near(ms: seq<Message>, m: nat, j: nat)
    requires AllSendable(ms) && m <= |ms| && j <= |ms|
  {
    m <= j && Window(Start(ms, j)) <= Window(LastOf(ms, m)) + 6
  }

  /** The first m messages have been dispatched; the waiting commands stand for the messages js, all within reach. */
  ghost predicate Listed(ms: seq<Message>, s: Receiver, m: nat, js: seq<nat>)
  {
    && AllSendable(ms) && m <= |ms| && s.incoming == Wire(LastOf(ms, m))
    && s.taken + s.dispatched == Payloads(ms[..m])
    && |js| == |s.queue| && Ascending(js)
    && (forall p :: 0 <= p < |js| ==> js[p] < |ms| && Near(ms, m, js[p]))
    && (forall p :: 0 <= p < |js| ==> Stands(ms, js[p], s.queue[p]))
  }

  ghost predicate ReceiverOk(ms: seq<Message>, s: Receiver, m: nat, js: seq<nat>)
  {
    Listed(ms, s, m, js) && Waiting(s)
  }

  /** The receiver has command i of message j. */
  ghost predicate Got(ms: seq<Message>, s: Receiver, m: nat, js: seq<nat>, j: nat, i: nat)
  {
    j < m || exists p :: InList(ms, s, js, p, j, i)
  }

  ghost predicate InList(ms: seq<Message>, s: Receiver, js: seq<nat>, p: int, j: nat, i: nat)
  {
    && 0 <= p < |js| && p < |s.queue| && js[p] == j < |ms|
    && (Short(ms[j]) || (i < |s.queue[p].fragments| && s.queue[p].fragments[i]))
  }

  // ----- places in the list

  lemma NearOffset(ms: seq<Message>, m: nat, j: nat)
    requires AllSendable(ms) && m <= |ms| && j <= |ms| && Near(ms, m, j)
    ensures LastOf(ms, m) < Start(ms, j)
    ensures Offset(Wire(Start(ms, j)), Wire(LastOf(ms, m))) == Start(ms, j) - LastOf(ms, m)
  {
    hide Start, Wire, Offset;
    StartGrows(ms, m, j);
    var a, b := Start(ms, j), LastOf(ms, m);
    Reach(a, b);
    WireOffset(a, b);
  }

  lemma Reach(a: nat, b: nat)
    requires Window(a) <= Window(b) + 6
    ensures a < b + NUMBERS
  {
  }

  lemma {:induction false} PlaceAscending(queue: seq<Entry>, incoming: Sequence, number: Sequence)
    requires forall a, b :: 0 <= a < b < |queue| ==>
      Offset(queue[a].number, incoming) < Offset(queue[b].number, incoming)
    ensures var p := Place(queue, incoming, number);
      && (forall i :: 0 <= i < p ==> Offset(queue[i].number, incoming) < Offset(number, incoming))
      && (forall i :: p <= i < |queue| ==> Offset(queue[i].number, incoming) >= Offset(number, incoming))
    decreases |queue|
  {
    hide Offset;
    if queue != [] && Offset(queue[0].number, incoming) < Offset(number, incoming) {
      PlaceAscending(queue[1..], incoming, number);
      var p := Place(queue, incoming, number);
      forall i | 0 <= i < p ensures Offset(queue[i].number, incoming) < Offset(number, incoming) {
        assert i == 0 || queue[i] == queue[1..][i - 1];
      }
      forall i | p <= i < |queue| ensures Offset(queue[i].number, incoming) >= Offset(number, incoming) {
        assert queue[i] == queue[1..][i - 1];
      }
    }
  }

  lemma ListOffset(ms: seq<Message>, s: Receiver, m: nat, js: seq<nat>, p: nat)
    requires Listed(ms, s, m, js) && p < |js|
    ensures Offset(s.queue[p].number, s.incoming) == Start(ms, js[p]) - LastOf(ms, m) > 0
    ensures s.queue[p].number == Wire(Start(ms, js[p]))
  {
    hide Start, Wire, Offset, Ascending, EntryWellFormed, HasPart;
    assert Near(ms, m, js[p]) && Stands(ms, js[p], s.queue[p]);
    NearOffset(ms, m, js[p]);
  }

  lemma StartOrder(ms: seq<Message>, i: nat, j: nat)
    requires AllSendable(ms) && i <= |ms| && j <= |ms|
    ensures i < j <==> Start(ms, i) < Start(ms, j)
    ensures i == j <==> Start(ms, i) == Start(ms, j)
  {
    hide Start;
    if i <= j {
      StartGrows(ms, i, j);
    } else {
      StartGrows(ms, j, i);
    }
  }

  /** The place of a message in the list. */
  lemma PlaceIs(ms: seq<Message>, s: Receiver, m: nat, js: seq<nat>, j: nat)
    requires Listed(ms, s, m, js) && j < |ms| && Near(ms, m, j)
    ensures var p := Place(s.queue, s.incoming, Wire(Start(ms, j)));
      && (forall i :: 0 <= i < p ==> js[i] < j)
      && (forall i :: p <= i < |js| ==> js[i] >= j)
      && (IsThere(s.queue, s.incoming, Wire(Start(ms, j))) <==> p < |js| && js[p] == j)
  {
    hide Start, Wire, Offset, Near, Stands, Place, LastOf;
    var number := Wire(Start(ms, j));
    NearOffset(ms, m, j);
    forall a, b | 0 <= a < b < |s.queue|
      ensures Offset(s.queue[a].number, s.incoming) < Offset(s.queue[b].number, s.incoming)
    {
      ListOffset(ms, s, m, js, a);
      ListOffset(ms, s, m, js, b);
      StartOrder(ms, js[a], js[b]);
    }
    PlaceAscending(s.queue, s.incoming, number);
    var p := Place(s.queue, s.incoming, number);
    forall i | 0 <= i < |js|
      ensures js[i] < j <==> i < p
      ensures js[i] == j <==> s.queue[i].number == number
    {
      ListOffset(ms, s, m, js, i);
      StartOrder(ms, js[i], j);
    }
  }

  // ----- dispatch

  lemma NextIs(ms: seq<Message>, s: Receiver, m: nat, js: seq<nat>)
    requires Listed(ms, s, m, js) && js != []
    ensures s.queue[0].number == (s.incoming + 1) % NUMBERS <==> js[0] == m
    ensures js[0] >= m
  {
    hide Start, Wire, Offset, Stands;
    ListOffset(ms, s, m, js, 0);
    assert Near(ms, m, js[0]);
    WireNext(LastOf(ms, m));
    WireOffset(LastOf(ms, m) + 1, LastOf(ms, m));
    StartOrder(ms, js[0], m);
  }

  /** A complete command carries its message. */
  lemma CompleteStands(ms: seq<Message>, j: nat, e: Entry)
    requires AllSendable(ms) && j < |ms| && Stands(ms, j, e) && e.fragmentsRemaining == 0
    ensures e.data == ms[j].payload
    ensures Advanced(e) == Wire(Start(ms, j + 1) - 1)
  {
    hide HasPart, Wire, Low, High, FragmentCount, Start;
    var m := ms[j];
    StartGrows(ms, j, j + 1);
    StartNext(ms, j);
    if !Short(m) {
      SetBitsAll(e.fragments);
      Complete(m, e.data);
      Tiles(m, 0);
      WireAdd(Start(ms, j), FragmentCount(m) - 1);
    }
  }

  lemma StartNext(ms: seq<Message>, j: nat)
    requires AllSendable(ms) && j < |ms|
    ensures Start(ms, j + 1) == Start(ms, j) + Commands(ms[j])
  {
  }

  lemma PayloadsNext(ms: seq<Message>, m: nat)
    requires m < |ms|
    ensures Payloads(ms[..m + 1]) == Payloads(ms[..m]) + [ms[m].payload]
  {
  }

  lemma NearLater(ms: seq<Message>, m: nat, j: nat)
    requires AllSendable(ms) && m < j <= |ms| && Near(ms, m, j)
    ensures Near(ms, m + 1, j)
  {
    hide Start;
    StartGrows(ms, m, m + 1);
    WindowMonotone(LastOf(ms, m), LastOf(ms, m + 1));
  }

  /** Dispatching one complete command moves on by one message. */
  lemma DispatchOne(ms: seq<Message>, s: Receiver, m: nat, js: seq<nat>)
    requires Listed(ms, s, m, js) && s.queue != [] && IsNext(s.queue[0], s.incoming)
    ensures js[0] == m < |ms|
    ensures Listed(ms, Receiver(Advanced(s.queue[0]), s.queue[1..], s.dispatched + [s.queue[0].data], s.taken), m + 1,
      js[1..])
  {
    hide Start, Wire, Stands, Advanced, LastOf, Near, Payloads;
    var e := s.queue[0];
    NextIs(ms, s, m, js);
    assert Stands(ms, js[0], e);
    CompleteStands(ms, m, e);
    PayloadsNext(ms, m);
    StartLast(ms, m + 1);
    var t := Receiver(Advanced(e), s.queue[1..], s.dispatched + [e.data], s.taken);
    assert t.taken + t.dispatched == (s.taken + s.dispatched) + [e.data];
    forall p | 0 <= p < |js| - 1
      ensures js[1..][p] < |ms| && Near(ms, m + 1, js[1..][p]) && Stands(ms, js[1..][p], t.queue[p])
    {
      assert js[0] < js[p + 1] && Near(ms, m, js[p + 1]);
      NearLater(ms, m, js[p + 1]);
      assert Stands(ms, js[p + 1], s.queue[p + 1]);
    }
  }

  lemma StartLast(ms: seq<Message>, m: nat)
    requires AllSendable(ms) && m <= |ms|
    ensures LastOf(ms, m) == Start(ms, m) - 1
  {
  }

  /** Dispatching keeps the meaning of the list, and forgets nothing. */
  lemma {:induction false} DispatchOk(ms: seq<Message>, s: Receiver, m: nat, js: seq<nat>) returns (n: nat)
    requires Listed(ms, s, m, js)
    ensures n <= |js| && ReceiverOk(ms, Dispatch(s), m + n, js[n..])
    ensures Dispatch(s).queue == s.queue[n..]
    ensures forall p :: 0 <= p < n ==> js[p] == m + p && s.queue[p].fragmentsRemaining == 0
    decreases |s.queue|
  {
    hide Listed, Advanced;
    ListSizes(ms, s, m, js);
    if s.queue == [] || !IsNext(s.queue[0], s.incoming) {
      n := 0;
      assert js[0..] == js && s.queue[0..] == s.queue;
    } else {
      DispatchOne(ms, s, m, js);
      var t := Receiver(Advanced(s.queue[0]), s.queue[1..], s.dispatched + [s.queue[0].data], s.taken);
      var k := DispatchOk(ms, t, m + 1, js[1..]);
      n := k + 1;
      assert js[1..][k..] == js[n..] && s.queue[1..][k..] == s.queue[n..];
      forall p | 0 <= p < n ensures js[p] == m + p && s.queue[p].fragmentsRemaining == 0 {
        assert p == 0 || (js[p] == js[1..][p - 1] && s.queue[p] == s.queue[1..][p - 1]);
      }
    }
  }

  lemma ListSizes(ms: seq<Message>, s: Receiver, m: nat, js: seq<nat>)
    requires Listed(ms, s, m, js)
    ensures |js| == |s.queue| && AllSendable(ms) && m <= |ms|
  {
  }

  /** What the receiver has is the same before and after dispatching. */
  lemma GotDispatched(ms: seq<Message>, s: Receiver, m: nat, js: seq<nat>, n: nat, t: Receiver, j: nat, i: nat)
    requires Listed(ms, s, m, js) && j < |ms| && i < Commands(ms[j])
    requires n <= |js| == |s.queue| && t.queue == s.queue[n..]
    requires forall p :: 0 <= p < n ==> js[p] == m + p && s.queue[p].fragmentsRemaining == 0
    ensures Got(ms, t, m + n, js[n..], j, i) <==> Got(ms, s, m, js, j, i)
  {
    hide Listed;
    if Got(ms, s, m, js, j, i) && j >= m + n {
      var p :| InList(ms, s, js, p, j, i);
      assert InList(ms, t, js[n..], p - n, j, i);
    }
    if Got(ms, t, m + n, js[n..], j, i) && j >= m {
      if j < m + n {
        CompleteGot(ms, s, m, js, j - m, j, i);
      } else {
        var p :| InList(ms, t, js[n..], p, j, i);
        assert InList(ms, s, js, p + n, j, i);
      }
    }
  }

  lemma CompleteGot(ms: seq<Message>, s: Receiver, m: nat, js: seq<nat>, p: nat, j: nat, i: nat)
    requires Listed(ms, s, m, js) && p < |js| && js[p] == j < |ms| && s.queue[p].fragmentsRemaining == 0
    requires i < Commands(ms[j])
    ensures InList(ms, s, js, p, j, i)
  {
    hide Start, Wire, HasPart, Near, LastOf;
    assert Stands(ms, js[p], s.queue[p]);
    if !Short(ms[j]) {
      Tiles(ms[j], 0);
      SetBitsAll(s.queue[p].fragments);
    }
  }

  // ----- one arrival

  /** The list keeps its meaning; if new, command i0 of message j0 is now there, and otherwise nothing changes. */
  ghost predicate Extends(ms: seq<Message>, s: Receiver, m: nat, js: seq<nat>, t: Receiver, m': nat, js': seq<nat>,
                          j0: nat, i0: nat, new_: bool)
    requires AllSendable(ms)
  {
    forall j: nat, i: nat :: j < |ms| && i < Commands(ms[j]) ==>
      (Got(ms, t, m', js', j, i) <==> Got(ms, s, m, js, j, i) || (new_ && j == j0 && i == i0))
  }

  lemma InsertedIs<T>(l: seq<T>, p: nat, e: T)
    requires p <= |l|
    ensures |Inserted(l, p, e)| == |l| + 1 && Inserted(l, p, e)[p] == e
    ensures forall i :: 0 <= i < p ==> Inserted(l, p, e)[i] == l[i]
    ensures forall i :: p < i <= |l| ==> Inserted(l, p, e)[i] == l[i - 1]
  {
  }

  lemma InsertListed(ms: seq<Message>, s: Receiver, m: nat, js: seq<nat>, j: nat, e: Entry, p: nat)
    requires Listed(ms, s, m, js) && j < |ms| && Near(ms, m, j) && Stands(ms, j, e)
    requires p == Place(s.queue, s.incoming, Wire(Start(ms, j))) && !IsThere(s.queue, s.incoming, Wire(Start(ms, j)))
    ensures Listed(ms, s.(queue := Inserted(s.queue, p, e)), m, Inserted(js, p, j))
  {
    hide Start, Wire, Stands, Near, LastOf, Place, IsThere, Inserted, Payloads;
    PlaceIs(ms, s, m, js, j);
    InsertedIs(js, p, j);
    InsertedIs(s.queue, p, e);
    var ks := Inserted(js, p, j);
    assert p < |js| ==> js[p] != j;
    forall a, b | 0 <= a < b < |ks| ensures ks[a] < ks[b] {
    }
  }

  lemma InsertGot(ms: seq<Message>, s: Receiver, m: nat, js: seq<nat>, j0: nat, e: Entry, p: nat, j: nat, i: nat)
    requires p <= |js| == |s.queue| && j0 < |ms|
    ensures Got(ms, s.(queue := Inserted(s.queue, p, e)), m, Inserted(js, p, j0), j, i)
       <==> Got(ms, s, m, js, j, i) || (j == j0 && (Short(ms[j]) || (i < |e.fragments| && e.fragments[i])))
  {
    hide Inserted;
    InsertedIs(js, p, j0);
    InsertedIs(s.queue, p, e);
    var t, ks := s.(queue := Inserted(s.queue, p, e)), Inserted(js, p, j0);
    if Got(ms, s, m, js, j, i) && j >= m {
      var q :| InList(ms, s, js, q, j, i);
      assert InList(ms, t, ks, if q < p then q else q + 1, j, i);
    }
    if j == j0 && (Short(ms[j]) || (i < |e.fragments| && e.fragments[i])) {
      assert InList(ms, t, ks, p, j, i);
    }
    if Got(ms, t, m, ks, j, i) && j >= m {
      var q :| InList(ms, t, ks, q, j, i);
      if q != p {
        assert InList(ms, s, js, if q < p then q else q - 1, j, i);
      }
    }
  }

  /**
   Where the window rule leaves an arriving command: already dispatched and not too old, or at most a window too far.
   */
  ghost predicate Reachable(ms: seq<Message>, m: nat, j: nat, i: nat)
    requires AllSendable(ms) && m <= |ms| && j < |ms|
  {
    if j < m then Window(LastOf(ms, m)) <= Window(Start(ms, j)) + 9
    else Window(Start(ms, j) + i) <= Window(LastOf(ms, m)) + 7
  }

  /** Old messages and those too far ahead are turned down, all others are within reach. */
  lemma AcceptsIs(ms: seq<Message>, m: nat, j: nat, i: nat)
    requires AllSendable(ms) && m <= |ms| && j < |ms| && Reachable(ms, m, j, i)
    ensures Accepts(Wire(Start(ms, j)), Wire(LastOf(ms, m))) && Wire(Start(ms, j)) != Wire(LastOf(ms, m)) ==>
      Near(ms, m, j)
    ensures Accepts(Wire(Start(ms, j)), Wire(LastOf(ms, m))) && Wire(Start(ms, j)) == Wire(LastOf(ms, m)) ==>
      j < m && Short(ms[j])
    ensures !Accepts(Wire(Start(ms, j)), Wire(LastOf(ms, m))) && j >= m ==>
      Window(Start(ms, j)) == Window(LastOf(ms, m)) + 7
  {
    hide Start, Wire, Accepts;
    var a, b := Start(ms, j), LastOf(ms, m);
    if j < m {
      StartGrows(ms, j, m);
      if a < b {
        WindowMonotone(a, b);
        OldTakenForNew(a, b);
      } else {
        OneCommand(ms[j]);
      }
    } else {
      StartGrows(ms, m, j);
      WindowMonotone(b, a);
      WindowMonotone(a, a + i);
      NewTurnedDown(a, b);
      if a < b + NUMBERS && Wire(a) == Wire(b) {
        WireApart(a, b);
      }
    }
  }

  lemma OneCommand(m: Message)
    requires Sendable(m)
    ensures Commands(m) <= 1 ==> Short(m)
  {
    if !Short(m) {
      Tiles(m, 0);
    }
  }

  lemma NothingNew(ms: seq<Message>, s: Receiver, m: nat, js: seq<nat>, j: nat, i: nat)
    requires AllSendable(ms)
    ensures Extends(ms, s, m, js, s, m, js, j, i, false)
  {
    hide Got;
  }

  /** A command that was turned down is either had already, or will not be acknowledged. */
  lemma TurnedDown(ms: seq<Message>, s: Receiver, m: nat, js: seq<nat>, j: nat, i: nat)
    requires Listed(ms, s, m, js) && j < |ms| && i < Commands(ms[j]) && Reachable(ms, m, j, i)
    requires !Accepts(Wire(Start(ms, j)), s.incoming) || Wire(Start(ms, j)) == s.incoming
    ensures Got(ms, s, m, js, j, i) || Unacknowledged(Wire(Start(ms, j) + i), s.incoming)
  {
    hide Start, Wire, Accepts, Stands, Payloads, InList;
    AcceptsIs(ms, m, j, i);
    if j >= m {
      StartGrows(ms, m, j);
      WindowMonotone(Start(ms, j), Start(ms, j) + i);
      NewTurnedDown(Start(ms, j) + i, LastOf(ms, m));
    }
  }

  lemma InsertAndDispatch(ms: seq<Message>, s: Receiver, m: nat, js: seq<nat>, j: nat, e: Entry)
    returns (t: Receiver, m': nat, js': seq<nat>)
    requires Listed(ms, s, m, js) && j < |ms| && Near(ms, m, j) && Stands(ms, j, e) && Short(ms[j])
    requires !IsThere(s.queue, s.incoming, Wire(Start(ms, j)))
    ensures t == Dispatch(s.(queue := Inserted(s.queue, Place(s.queue, s.incoming, Wire(Start(ms, j))), e)))
    ensures ReceiverOk(ms, t, m', js') && m' >= m && Extends(ms, s, m, js, t, m', js', j, 0, true)
  {
    hide Listed, Near, Stands, Start, Wire, Place, IsThere, ReceiverOk, Inserted, Got;
    ListSizes(ms, s, m, js);
    var p := Place(s.queue, s.incoming, Wire(Start(ms, j)));
    var u, ks := s.(queue := Inserted(s.queue, p, e)), Inserted(js, p, j);
    InsertListed(ms, s, m, js, j, e, p);
    var n := DispatchOk(ms, u, m, ks);
    t, m', js' := Dispatch(u), m + n, ks[n..];
    forall a: nat, b: nat | a < |ms| && b < Commands(ms[a])
      ensures Got(ms, t, m', js', a, b) <==> Got(ms, s, m, js, a, b) || (a == j && b == 0)
    {
      ListSizes(ms, u, m, ks);
      GotDispatched(ms, u, m, ks, n, t, a, b);
      InsertGot(ms, s, m, js, j, e, p, a, b);
    }
  }

  lemma ShortStands(ms: seq<Message>, j: nat)
    requires AllSendable(ms) && j < |ms| && Short(ms[j])
    ensures Stands(ms, j, Entry(Wire(Start(ms, j)), 0, 0, [], ms[j].payload))
  {
  }

  /** A message within reach is one that the receiver takes. */
  lemma NearAccepted(ms: seq<Message>, m: nat, j: nat)
    requires AllSendable(ms) && m <= |ms| && j < |ms|
    ensures Near(ms, m, j) ==>
      Accepts(Wire(Start(ms, j)), Wire(LastOf(ms, m))) && Wire(Start(ms, j)) != Wire(LastOf(ms, m))
  {
    hide Start, Wire, Accepts;
    if Near(ms, m, j) {
      NearOffset(ms, m, j);
      NewTurnedDown(Start(ms, j), LastOf(ms, m));
      Reach(Start(ms, j), LastOf(ms, m));
      if Wire(Start(ms, j)) == Wire(LastOf(ms, m)) {
        WireApart(Start(ms, j), LastOf(ms, m));
      }
    }
  }

  /** The header of a genuine fragment makes sense. */
  lemma FragmentFits(m: Message, start: nat, i: nat, maximumPacketSize: nat)
    requires Sendable(m) && !Short(m) && i < FragmentCount(m) && |m.payload| <= maximumPacketSize
    ensures var c := CommandOf(m, start, i);
      c.Fragment? && WellFormed(c, maximumPacketSize) && 0 < |c.data| <= maximumPacketSize
  {
    Tiles(m, i);
  }

  /** An unfragmented message arrives. */
  lemma ArriveReliable(ms: seq<Message>, s: Receiver, m: nat, js: seq<nat>, j: nat, room: bool, maximumPacketSize: nat)
    returns (m': nat, js': seq<nat>, new_: bool)
    requires ReceiverOk(ms, s, m, js) && j < |ms| && Short(ms[j]) && Reachable(ms, m, j, 0)
    ensures var (t, ok) := HandleReliable(s, Wire(Start(ms, j)), ms[j].payload, room, maximumPacketSize);
      && ReceiverOk(ms, t, m', js') && m' >= m && Extends(ms, s, m, js, t, m', js', j, 0, new_)
      && (ok && !Unacknowledged(Wire(Start(ms, j)), t.incoming) ==> Got(ms, t, m', js', j, 0))
      && (room && |ms[j].payload| <= maximumPacketSize ==> ok && (Near(ms, m, j) ==> Got(ms, t, m', js', j, 0)))
  {
    hide Listed, Near, Stands, Start, Wire, Place, Inserted, Accepts, Unacknowledged, Got, Waiting, Dispatch, Extends;
    ListSizes(ms, s, m, js);
    m', js', new_ := m, js, false;
    var number := Wire(Start(ms, j));
    var (t, ok) := HandleReliable(s, number, ms[j].payload, room, maximumPacketSize);
    IncomingIs(ms, s, m, js);
    NearAccepted(ms, m, j);
    if |ms[j].payload| > maximumPacketSize {
      NothingNew(ms, s, m, js, j, 0);
    } else if !Accepts(number, s.incoming) || number == s.incoming {
      NothingNew(ms, s, m, js, j, 0);
      TurnedDown(ms, s, m, js, j, 0);
    } else {
      AcceptsIs(ms, m, j, 0);
      PlaceIs(ms, s, m, js, j);
      if IsThere(s.queue, s.incoming, number) {
        NothingNew(ms, s, m, js, j, 0);
        ThereGot(ms, s, m, js, Place(s.queue, s.incoming, number), j, 0);
      } else if !room {
        NothingNew(ms, s, m, js, j, 0);
      } else {
        ShortStands(ms, j);
        var u;
        u, m', js' := InsertAndDispatch(ms, s, m, js, j, Entry(number, 0, 0, [], ms[j].payload));
        new_ := true;
        ExtendsNew(ms, s, m, js, t, m', js', j, 0);
      }
    }
  }

  lemma ExtendsNew(ms: seq<Message>, s: Receiver, m: nat, js: seq<nat>, t: Receiver, m': nat, js': seq<nat>, j: nat,
                   i: nat)
    requires AllSendable(ms) && j < |ms| && i < Commands(ms[j]) && Extends(ms, s, m, js, t, m', js', j, i, true)
    ensures Got(ms, t, m', js', j, i)
  {
    hide Got;
  }

  lemma ThereGot(ms: seq<Message>, s: Receiver, m: nat, js: seq<nat>, p: nat, j: nat, i: nat)
    requires p < |js| == |s.queue| && js[p] == j < |ms|
    requires (Short(ms[j]) || (i < |s.queue[p].fragments| && s.queue[p].fragments[i]))
    ensures Got(ms, s, m, js, j, i)
  {
    assert InList(ms, s, js, p, j, i);
  }

  lemma IncomingIs(ms: seq<Message>, s: Receiver, m: nat, js: seq<nat>)
    requires Listed(ms, s, m, js)
    ensures s.incoming == Wire(LastOf(ms, m)) && QueueWellFormed(s.queue) && |js| == |s.queue|
  {
    hide Wire, Near, Start, HasPart;
    forall p | 0 <= p < |s.queue| ensures EntryWellFormed(s.queue[p]) {
      assert Stands(ms, js[p], s.queue[p]);
    }
  }

  // ----- a fragment arrives

  /** Putting a fragment into a waiting packet. */
  lemma FragmentListed(ms: seq<Message>, s: Receiver, m: nat, js: seq<nat>, p: nat, i: nat)
    returns (m': nat, js': seq<nat>)
    requires Listed(ms, s, m, js) && Waiting(s) && p < |js| && js[p] < |ms| && !Short(ms[js[p]])
    requires i < FragmentCount(ms[js[p]])
    ensures QueueWellFormed(s.queue) && p < |s.queue|
    ensures var c := CommandOf(ms[js[p]], Start(ms, js[p]), i);
      && Matches(s.queue[p], c) && c.fragmentOffset + |c.data| <= c.totalLength &&
        c.fragmentNumber == i < c.fragmentCount
      && ReceiverOk(ms, AddFragment(s, p, c), m', js') && m' >= m
      && Extends(ms, s, m, js, AddFragment(s, p, c), m', js', js[p], i, true)
  {
    hide Start, Wire, Near, CommandOf, Got, Payloads, FragmentCount, WithFragment, Matches;
    IncomingIs(ms, s, m, js);
    var e, j := s.queue[p], js[p];
    assert Stands(ms, j, e);
    StandsPatched(ms, j, e, i);
    var c := CommandOf(ms[j], Start(ms, j), i);
    var e' := WithFragment(e, c);
    var u := s.(queue := s.queue[p := e']);
    hide Stands;
    ReplacedListed(ms, s, m, js, p, e');
    var n := 0;
    if !e.fragments[i] && e'.fragmentsRemaining == 0 {
      n := DispatchOk(ms, u, m, js);
    } else {
      StillWaiting(s, p, c);
    }
    m', js' := m + n, js[n..];
    assert js[0..] == js && u.queue[0..] == u.queue;
    ReplacedExtends(ms, s, m, js, p, e', i, u, n, AddFragment(s, p, c), m', js', j);
  }

  lemma ReplacedExtends(ms: seq<Message>, s: Receiver, m: nat, js: seq<nat>, p: nat, e: Entry, i: nat, u: Receiver,
                        n: nat, t: Receiver, m': nat, js': seq<nat>, j: nat)
    requires p < |js| == |s.queue| && u == s.(queue := s.queue[p := e]) && Listed(ms, u, m, js)
    requires js[p] == j < |ms| && !Short(ms[j])
    requires i < |s.queue[p].fragments| && e.fragments == s.queue[p].fragments[i := true]
    requires n <= |js| == |u.queue| && t.queue == u.queue[n..] && m' == m + n && js' == js[n..]
    requires forall q :: 0 <= q < n ==> js[q] == m + q && u.queue[q].fragmentsRemaining == 0
    ensures Extends(ms, s, m, js, t, m', js', j, i, true)
  {
    hide Got, Listed;
    ListAscending(ms, u, m, js);
    forall a: nat, b: nat | a < |ms| && b < Commands(ms[a])
      ensures Got(ms, t, m', js', a, b) <==> Got(ms, s, m, js, a, b) || (true && a == j && b == i)
    {
      GotDispatched(ms, u, m, js, n, t, a, b);
      ReplacedGot(ms, s, m, js, p, e, i, a, b);
    }
  }

  lemma ListAscending(ms: seq<Message>, s: Receiver, m: nat, js: seq<nat>)
    requires Listed(ms, s, m, js)
    ensures Ascending(js) && AllSendable(ms) && m <= |ms| && forall p :: 0 <= p < |js| ==> js[p] < |ms|
  {
  }

  lemma ReplacedListed(ms: seq<Message>, s: Receiver, m: nat, js: seq<nat>, p: nat, e: Entry)
    requires Listed(ms, s, m, js) && p < |js| && js[p] < |ms| && Stands(ms, js[p], e)
    ensures Listed(ms, s.(queue := s.queue[p := e]), m, js)
  {
    hide Start, Wire, Near, Stands, Payloads;
  }

  lemma StillWaiting(s: Receiver, p: nat, c: Command)
    requires c.Fragment? && p < |s.queue| && EntryWellFormed(s.queue[p]) && Matches(s.queue[p], c)
    requires c.fragmentNumber < c.fragmentCount && c.fragmentOffset + |c.data| <= c.totalLength
    requires Waiting(s)
    requires (s.queue[p].fragments[c.fragmentNumber] || WithFragment(s.queue[p], c).fragmentsRemaining != 0)
    ensures Waiting(s.(queue := s.queue[p := WithFragment(s.queue[p], c)]))
  {
  }

  lemma ReplacedGot(ms: seq<Message>, s: Receiver, m: nat, js: seq<nat>, p: nat, e: Entry, i: nat, j: nat, b: nat)
    requires p < |js| == |s.queue| && js[p] < |ms| && !Short(ms[js[p]]) && Ascending(js)
    requires i < |s.queue[p].fragments| && e.fragments == s.queue[p].fragments[i := true]
    ensures Got(ms, s.(queue := s.queue[p := e]), m, js, j, b) <==> Got(ms, s, m, js, j, b) || (j == js[p] && b == i)
  {
    var t := s.(queue := s.queue[p := e]);
    if j == js[p] && b == i {
      assert InList(ms, t, js, p, j, b);
    }
    if Got(ms, s, m, js, j, b) && j >= m {
      var q :| InList(ms, s, js, q, j, b);
      assert InList(ms, t, js, q, j, b);
    }
    if Got(ms, t, m, js, j, b) && j >= m {
      var q :| InList(ms, t, js, q, j, b);
      if q != p || b != i {
        assert InList(ms, s, js, q, j, b);
      }
    }
  }

  lemma BlankStands(ms: seq<Message>, j: nat, i: nat, blank: seq<Byte>)
    requires AllSendable(ms) && j < |ms| && !Short(ms[j]) && i < FragmentCount(ms[j]) && |blank| == |ms[j].payload|
    ensures Stands(ms, j, Blank(CommandOf(ms[j], Start(ms, j), i), blank))
  {
    hide Start, Wire;
    FragmentIs(ms[j], Start(ms, j), i);
    SetBitsNone(FragmentCount(ms[j]));
  }

  lemma InsertBlank(ms: seq<Message>, s: Receiver, m: nat, js: seq<nat>, j: nat, i: nat, e: Entry)
    returns (u: Receiver, ks: seq<nat>)
    requires ReceiverOk(ms, s, m, js) && j < |ms| && Near(ms, m, j) && Stands(ms, j, e) && !Short(ms[j])
    requires e.fragments == NoBits(e.fragmentCount) && e.fragmentsRemaining > 0
    requires !IsThere(s.queue, s.incoming, Wire(Start(ms, j)))
    ensures u == s.(queue := Inserted(s.queue, Place(s.queue, s.incoming, Wire(Start(ms, j))), e))
    ensures Listed(ms, u, m, ks) && Waiting(u) && Extends(ms, s, m, js, u, m, ks, j, i, false)
    ensures var p := Place(s.queue, s.incoming, Wire(Start(ms, j)));
      p < |ks| && ks[p] == j && u.queue[p] == e && |u.queue| == |ks|
  {
    hide Near, Stands, Start, Wire, Place, IsThere, Inserted, Got;
    var p := Place(s.queue, s.incoming, Wire(Start(ms, j)));
    u, ks := s.(queue := Inserted(s.queue, p, e)), Inserted(js, p, j);
    InsertListed(ms, s, m, js, j, e, p);
    InsertedIs(js, p, j);
    InsertedIs(s.queue, p, e);
    hide Listed;
    forall a: nat, b: nat | a < |ms| && b < Commands(ms[a])
      ensures Got(ms, u, m, ks, a, b) <==> Got(ms, s, m, js, a, b)
    {
      ListSizes(ms, s, m, js);
      InsertGot(ms, s, m, js, j, e, p, a, b);
    }
  }

  lemma ExtendsTwice(ms: seq<Message>, s: Receiver, m: nat, js: seq<nat>, u: Receiver, m1: nat, ks: seq<nat>,
                     t: Receiver, m': nat, js': seq<nat>, j: nat, i: nat)
    requires AllSendable(ms) && Extends(ms, s, m, js, u, m1, ks, j, i, false)
    requires Extends(ms, u, m1, ks, t, m', js', j, i, true)
    ensures Extends(ms, s, m, js, t, m', js', j, i, true)
  {
    hide Got;
    forall a: nat, b: nat | a < |ms| && b < Commands(ms[a])
      ensures Got(ms, t, m', js', a, b) <==> Got(ms, s, m, js, a, b) || (a == j && b == i)
    {
      assert Got(ms, u, m1, ks, a, b) <==> Got(ms, s, m, js, a, b);
    }
  }

  /** A fragment arrives. */
  lemma ArriveFragment(ms: seq<Message>, s: Receiver, m: nat, js: seq<nat>, j: nat, i: nat, room: bool,
                       maximumPacketSize: nat, blank: seq<Byte>)
    returns (m': nat, js': seq<nat>, new_: bool)
    requires ReceiverOk(ms, s, m, js) && j < |ms| && !Short(ms[j]) && i < FragmentCount(ms[j]) && Reachable(ms, m, j, i)
    requires |blank| == |ms[j].payload|
    ensures QueueWellFormed(s.queue) && CommandOf(ms[j], Start(ms, j), i).totalLength == |blank|
    ensures var (t, ok) := HandleFragment(s, CommandOf(ms[j], Start(ms, j), i), room, maximumPacketSize, blank);
      && ReceiverOk(ms, t, m', js') && m' >= m && Extends(ms, s, m, js, t, m', js', j, i, new_)
      && (ok && !Unacknowledged(Wire(Start(ms, j) + i), t.incoming) ==> Got(ms, t, m', js', j, i))
      && (room && |ms[j].payload| <= maximumPacketSize ==> ok && (Near(ms, m, j) ==> Got(ms, t, m', js', j, i)))
  {
    hide Listed, Near, Stands, Start, Wire, Place, Inserted, Accepts, Unacknowledged, Got, Dispatch, Extends, Matches,
      AddFragment, CommandOf, WellFormed, FragmentCount, Waiting, EntryWellFormed, Low, High;
    ListSizes(ms, s, m, js);
    IncomingIs(ms, s, m, js);
    FragmentIs(ms[j], Start(ms, j), i);
    if |ms[j].payload| <= maximumPacketSize {
      FragmentFits(ms[j], Start(ms, j), i, maximumPacketSize);
    }
    NearAccepted(ms, m, j);
    var c := CommandOf(ms[j], Start(ms, j), i);
    var (t, ok) := HandleFragment(s, c, room, maximumPacketSize, blank);
    m', js', new_ := m, js, false;
    NothingNew(ms, s, m, js, j, i);
    if |c.data| != 0 && |c.data| <= maximumPacketSize {
      if !Accepts(c.startNumber, s.incoming) {
        TurnedDown(ms, s, m, js, j, i);
      } else if WellFormed(c, maximumPacketSize) {
        AcceptsIs(ms, m, j, i);
        var p := Place(s.queue, s.incoming, c.startNumber);
        if c.startNumber != s.incoming {
          PlaceIs(ms, s, m, js, j);
          if IsThere(s.queue, s.incoming, c.startNumber) {
            m', js' := FragmentListed(ms, s, m, js, p, i);
            new_ := true;
            ExtendsNew(ms, s, m, js, t, m', js', j, i);
          } else if room {
            BlankStands(ms, j, i, blank);
            Tiles(ms[j], 0);
            var u, ks := InsertBlank(ms, s, m, js, j, i, Blank(c, blank));
            m', js' := FragmentListed(ms, u, m, ks, p, i);
            new_ := true;
            ExtendsTwice(ms, s, m, js, u, m, ks, t, m', js', j, i);
            ExtendsNew(ms, s, m, js, t, m', js', j, i);
          }
        }
      }
    }
  }
}
