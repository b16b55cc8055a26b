/** The receiving side of a channel: sorting in, reassembly, and dispatch in order. */
module EnetReceiver {
  import opened Basics
  import opened EnetWindows
  import opened EnetMessages

  /** A command in the channel's list, waiting for its turn; fragmentCount is 0 if it is not fragmented. */
  datatype Entry = Entry(number: Sequence, fragmentCount: nat, fragmentsRemaining: nat, fragments: seq<bool>,
                         data: seq<Byte>)

  /** The last number dispatched, the waiting list, the packets dispatched, and those the application has taken. */
  datatype Receiver = Receiver(incoming: Sequence, queue: seq<Entry>, dispatched: seq<seq<Byte>>, taken: seq<seq<Byte>>)

  function NewReceiver(): Receiver { Receiver(0, [], [], []) }

  // ----- dispatch

  predicate IsNext(e: Entry, incoming: Sequence)
  {
    e.fragmentsRemaining == 0 && e.number == (incoming + 1) % NUMBERS
  }

  function Advanced(e: Entry): Sequence
  {
    if e.fragmentCount > 0 then (e.number + e.fragmentCount - 1) % NUMBERS else e.number
  }

  /** Moves the commands whose turn has come from the front of the list to the dispatched packets. */
  function Dispatch(s: Receiver): Receiver
    decreases |s.queue|
  {
    if s.queue == [] || !IsNext(s.queue[0], s.incoming) then s
    else Dispatch(Receiver(Advanced(s.queue[0]), s.queue[1..], s.dispatched + [s.queue[0].data], s.taken))
  }

  /** The application takes the first dispatched packet, if there is one. */
  function Take(s: Receiver): Receiver
  {
    if s.dispatched == [] then s else s.(dispatched := s.dispatched[1..], taken := s.taken + [s.dispatched[0]])
  }

  // ----- sorting in

  /** The number of commands in the list that lie before the given number. */
  function Place(queue: seq<Entry>, incoming: Sequence, number: Sequence): (p: nat)
    ensures p <= |queue|
    decreases |queue|
  {
    if queue == [] || Offset(queue[0].number, incoming) >= Offset(number, incoming) then 0
    else 1 + Place(queue[1..], incoming, number)
  }

  predicate IsThere(queue: seq<Entry>, incoming: Sequence, number: Sequence)
  {
    var p := Place(queue, incoming, number);
    p < |queue| && queue[p].number == number
  }

  /** The waiting commands lie ahead of the receiver, in order, which the search for a place relies on. */
  ghost predicate InOrder(queue: seq<Entry>, incoming: Sequence)
  {
    && (forall a :: 0 <= a < |queue| ==> Offset(queue[a].number, incoming) > 0)
    && (forall a, b :: 0 <= a < b < |queue| ==> Offset(queue[a].number, incoming) < Offset(queue[b].number, incoming))
  }

  function Inserted<T>(queue: seq<T>, p: nat, e: T): seq<T>
    requires p <= |queue|
  {
    queue[..p] + [e] + queue[p..]
  }

  /**
   Puts a command in the list and dispatches what can be dispatched.  The flag is false if there is no room, which
   is also how a failed allocation shows; a command that is old, too new, or there already is dropped, which counts
   as a failure for fragmented commands only.
   */
  function QueueIncoming(s: Receiver, e: Entry, room: bool): (Receiver, bool)
  {
    if !Accepts(e.number, s.incoming) || e.number == s.incoming || IsThere(s.queue, s.incoming, e.number) then
      (s, e.fragmentCount == 0)
    else if !room then (s, false)
    else (Dispatch(s.(queue := Inserted(s.queue, Place(s.queue, s.incoming, e.number), e))), true)
  }

  function HandleReliable(s: Receiver, number: Sequence, data: seq<Byte>, room: bool,
                          maximumPacketSize: nat): (Receiver, bool)
  {
    if |data| > maximumPacketSize then (s, false)
    else QueueIncoming(s, Entry(number, 0, 0, [], data), room)
  }

  // ----- fragments

  /** The header of a fragment makes sense. */
  predicate WellFormed(c: Command, maximumPacketSize: nat)
    requires c.Fragment?
  {
    && c.fragmentCount <= ENET_PROTOCOL_MAXIMUM_FRAGMENT_COUNT && c.fragmentNumber < c.fragmentCount
    && c.totalLength <= maximumPacketSize && c.totalLength >= c.fragmentCount
    && c.fragmentOffset < c.totalLength && |c.data| <= c.totalLength - c.fragmentOffset
  }

  function Patched(data: seq<Byte>, at: nat, part: seq<Byte>): seq<Byte>
    requires at + |part| <= |data|
  {
    data[..at] + part + data[at + |part|..]
  }

  /** The waiting command and the fragment are parts of the same packet. */
  predicate Matches(e: Entry, c: Command)
    requires c.Fragment?
  {
    e.fragmentCount > 0 && |e.data| == c.totalLength && e.fragmentCount == c.fragmentCount
  }

  predicate EntryWellFormed(e: Entry)
  {
    |e.fragments| == e.fragmentCount &&
      (e.fragmentCount > 0 ==> e.fragmentsRemaining == e.fragmentCount - SetBits(e.fragments))
  }

  function SetBits(bits: seq<bool>): (n: nat)
    ensures n <= |bits|
    decreases |bits|
  {
    if bits == [] then 0 else SetBits(bits[..|bits| - 1]) + if bits[|bits| - 1] then 1 else 0
  }

  lemma {:induction false} SetBitsOne(bits: seq<bool>, i: nat)
    requires i < |bits| && !bits[i]
    ensures SetBits(bits[i := true]) == SetBits(bits) + 1 <= |bits|
    decreases |bits|
  {
    var n := |bits| - 1;
    if i < n {
      SetBitsOne(bits[..n], i);
      assert bits[i := true][..n] == bits[..n][i := true];
    } else {
      assert bits[i := true][..n] == bits[..n];
    }
  }

  lemma {:induction false} SetBitsAll(bits: seq<bool>)
    ensures SetBits(bits) == |bits| <==> forall i :: 0 <= i < |bits| ==> bits[i]
    decreases |bits|
  {
    if bits != [] {
      var n := |bits| - 1;
      SetBitsAll(bits[..n]);
      assert forall i :: 0 <= i < n ==> bits[..n][i] == bits[i];
    }
  }

  function NoBits(n: nat): seq<bool>
  {
    seq(n, _ => false)
  }

  lemma {:induction false} SetBitsNone(n: nat)
    ensures SetBits(NoBits(n)) == 0
  {
    if n > 0 {
      assert NoBits(n)[..n - 1] == NoBits(n - 1);
      SetBitsNone(n - 1);
    }
  }

  /** A fragment put into its packet, unless it is there already. */
  function WithFragment(e: Entry, c: Command): Entry
    requires c.Fragment? && EntryWellFormed(e) && Matches(e, c) && c.fragmentNumber < c.fragmentCount
    requires c.fragmentOffset + |c.data| <= c.totalLength
  {
    if e.fragments[c.fragmentNumber] then e
    else
      SetBitsOne(e.fragments, c.fragmentNumber);
      e.(fragmentsRemaining := e.fragmentsRemaining - 1, fragments := e.fragments[c.fragmentNumber := true],
         data := Patched(e.data, c.fragmentOffset, c.data))
  }

  predicate QueueWellFormed(queue: seq<Entry>)
  {
    forall i :: 0 <= i < |queue| ==> EntryWellFormed(queue[i])
  }

  /** Nothing in the list could be dispatched. */
  predicate Waiting(s: Receiver)
  {
    s.queue == [] || !IsNext(s.queue[0], s.incoming)
  }

  function Blank(c: Command, blank: seq<Byte>): Entry
    requires c.Fragment?
  {
    Entry(c.startNumber, c.fragmentCount, c.fragmentCount, NoBits(c.fragmentCount), blank)
  }

  /** Puts a fragment into the packet at position p of the list, and dispatches if that completes it. */
  function AddFragment(s: Receiver, p: nat, c: Command): Receiver
    requires c.Fragment? && p < |s.queue| && EntryWellFormed(s.queue[p]) && Matches(s.queue[p], c)
    requires c.fragmentNumber < c.fragmentCount && c.fragmentOffset + |c.data| <= c.totalLength
  {
    var e := s.queue[p];
    var e' := WithFragment(e, c);
    var t := s.(queue := s.queue[p := e']);
    if !e.fragments[c.fragmentNumber] && e'.fragmentsRemaining == 0 then Dispatch(t) else t
  }

  /** A fragment arrives; blank is the content of a packet buffer that has just been allocated. */
  function HandleFragment(s: Receiver, c: Command, room: bool, maximumPacketSize: nat, blank: seq<Byte>): (Receiver,
      bool)
    requires c.Fragment? && QueueWellFormed(s.queue) && |blank| == c.totalLength
  {
    if |c.data| == 0 || |c.data| > maximumPacketSize then (s, false)
    else if !Accepts(c.startNumber, s.incoming) then (s, true)
    else if !WellFormed(c, maximumPacketSize) then (s, false)
    else
      var p := Place(s.queue, s.incoming, c.startNumber);
      if IsThere(s.queue, s.incoming, c.startNumber) then
        if Matches(s.queue[p], c) then (AddFragment(s, p, c), true) else (s, false)
      else if c.startNumber == s.incoming || !room then (s, false)
      else
        SetBitsNone(c.fragmentCount);
        (AddFragment(s.(queue := Inserted(s.queue, p, Blank(c, blank))), p, c), true)
  }

  // ----- what the list contains

  /** The waiting command stands for message j. */
  ghost predicate Stands(ms: seq<Message>, j: nat, e: Entry)
    requires AllSendable(ms) && j < |ms|
  {
    var m := ms[j];
    && EntryWellFormed(e) && e.number == Wire(Start(ms, j))
    && if Short(m) then e.fragmentCount == 0 && e.fragmentsRemaining == 0 && e.data == m.payload
       else
         && e.fragmentCount == FragmentCount(m) && |e.data| == |m.payload|
         && (forall i :: 0 <= i < FragmentCount(m) && e.fragments[i] ==> HasPart(m, e.data, i))
  }

  ghost predicate HasPart(m: Message, data: seq<Byte>, i: nat)
    requires |data| == |m.payload|
  {
    Low(m, i) <= High(m, i) <= |data| && data[Low(m, i)..High(m, i)] == m.payload[Low(m, i)..High(m, i)]
  }

  /** A packet with all its parts is the message. */
  lemma Complete(m: Message, data: seq<Byte>)
    requires m.fragmentLength > 0 && !Short(m) && |data| == |m.payload|
    requires forall i :: 0 <= i < FragmentCount(m) ==> HasPart(m, data, i)
    ensures data == m.payload
  {
    forall b | 0 <= b < |data| ensures data[b] == m.payload[b] {
      var i := b / m.fragmentLength;
      PartOf(m, b);
      Tiles(m, i);
      assert HasPart(m, data, i);
      assert data[Low(m, i)..High(m, i)][b - Low(m, i)] == data[b];
      assert m.payload[Low(m, i)..High(m, i)][b - Low(m, i)] == m.payload[b];
    }
  }

  lemma PartOf(m: Message, b: nat)
    requires m.fragmentLength > 0 && !Short(m) && b < |m.payload|
    ensures var i := b / m.fragmentLength; i < FragmentCount(m) && Low(m, i) <= b < High(m, i)
  {
    var i, l := b / m.fragmentLength, m.fragmentLength;
    assert b == i * l + b % l;
    assert (i + 1) * l == i * l + l;
    Tiles(m, i);
  }

  /** Putting in a part that is missing leaves the parts that are there. */
  lemma PartPatched(m: Message, data: seq<Byte>, i: nat, k: nat)
    requires m.fragmentLength > 0 && !Short(m) && |data| == |m.payload| && i < FragmentCount(m) && k < FragmentCount(m)
    requires Low(m, i) <= High(m, i) <= |m.payload|
    requires k == i || HasPart(m, data, k)
    ensures HasPart(m, Patched(data, Low(m, i), m.payload[Low(m, i)..High(m, i)]), k)
  {
    hide Low, High, FragmentCount;
    Tiles(m, i);
    Tiles(m, k);
    if k != i {
      PartsApart(m, i, k);
    }
    var data' := Patched(data, Low(m, i), m.payload[Low(m, i)..High(m, i)]);
    forall b | Low(m, k) <= b < High(m, k) ensures data'[b] == m.payload[b] {
      if k != i {
        assert data[Low(m, k)..High(m, k)][b - Low(m, k)] == m.payload[Low(m, k)..High(m, k)][b - Low(m, k)];
      }
    }
  }

  lemma PartsApart(m: Message, i: nat, k: nat)
    requires m.fragmentLength > 0 && i != k
    ensures High(m, i) <= Low(m, k) || High(m, k) <= Low(m, i)
  {
    if i < k {
      Monotone(i + 1, k, m.fragmentLength);
    } else {
      Monotone(k + 1, i, m.fragmentLength);
    }
  }

  lemma StandsPatched(ms: seq<Message>, j: nat, e: Entry, i: nat)
    requires AllSendable(ms) && j < |ms| && Stands(ms, j, e) && !Short(ms[j]) && i < FragmentCount(ms[j])
    ensures var c := CommandOf(ms[j], Start(ms, j), i);
      && c.Fragment? && EntryWellFormed(e) && Matches(e, c) && c.fragmentOffset + |c.data| <= c.totalLength &&
        c.fragmentNumber == i < c.fragmentCount
      && Stands(ms, j, WithFragment(e, c))
      && WithFragment(e, c).number == e.number && WithFragment(e, c).fragments == e.fragments[i := true]
  {
    hide Low, High, FragmentCount, HasPart, Start;
    var m := ms[j];
    Tiles(m, i);
    FragmentIs(m, Start(ms, j), i);
    var c := CommandOf(m, Start(ms, j), i);
    hide CommandOf;
    var e' := WithFragment(e, c);
    if !e.fragments[i] {
      SetBitsOne(e.fragments, i);
      forall k | 0 <= k < FragmentCount(m) && e'.fragments[k] ensures HasPart(m, e'.data, k) {
        PartPatched(m, e.data, i, k);
      }
    } else {
      assert e.fragments[i := true] == e.fragments;
    }
  }
}
