/** Which commands a receiver refuses, with an error to the sender's loop, and which it drops without one. */
module EnetRefusals {
  import opened Basics
  import opened EnetWindows
  import opened EnetMessages
  import opened EnetReceiver
  import opened EnetOrder

  /** The number lies up to six windows ahead of the receiver's, around the circle of sixteen. */
  predicate Ahead(number: Sequence, incoming: Sequence)
  {
    (number / 4096 - incoming / 4096 + if number < incoming then 16 else 0) < 7
  }

  /** A waiting command bears the number. */
  predicate Waits(queue: seq<Entry>, number: Sequence)
  {
    exists i :: 0 <= i < |queue| && queue[i].number == number
  }

  lemma ThereIs(queue: seq<Entry>, incoming: Sequence, number: Sequence)
    requires InOrder(queue, incoming)
    ensures IsThere(queue, incoming, number) <==> Waits(queue, number)
    ensures Place(queue, incoming, number) <= |queue|
  {
    hide Place;
    PlaceAscending(queue, incoming, number);
    var p := Place(queue, incoming, number);
    forall i | p < i < |queue| ensures queue[i].number != number {
      assert Offset(queue[p].number, incoming) < Offset(queue[i].number, incoming);
    }
  }

  /**
   An unfragmented command is refused exactly if it is longer than the host admits, or is wanted and finds no room; and
   it is wanted if it lies ahead, is not the last one dispatched, and does not wait already.  Else nothing changes.
   */
  lemma ReliableRefused(s: Receiver, number: Sequence, data: seq<Byte>, room: bool, maximumPacketSize: nat)
    requires InOrder(s.queue, s.incoming)
    ensures var (t, ok) := HandleReliable(s, number, data, room, maximumPacketSize);
      var wanted := Ahead(number, s.incoming) && number != s.incoming && !Waits(s.queue, number);
      && (!ok <==> |data| > maximumPacketSize || (wanted && !room))
      && (!(wanted && ok) ==> t == s)
  {
    hide Place, Dispatch, InOrder;
    ThereIs(s.queue, s.incoming, number);
  }

  /** The header of a fragment contradicts itself, or asks for more than the host admits. */
  predicate Senseless(c: Command, maximumPacketSize: nat)
    requires c.Fragment?
  {
    || c.fragmentCount > 1048576 || c.fragmentNumber >= c.fragmentCount || c.totalLength > maximumPacketSize
    || c.totalLength < c.fragmentCount || c.fragmentOffset >= c.totalLength
    || c.fragmentOffset + |c.data| > c.totalLength
  }

  /** The waiting command with the number is of another kind, length or number of parts. */
  predicate Different(queue: seq<Entry>, c: Command)
    requires c.Fragment?
  {
    exists i :: 0 <= i < |queue| && queue[i].number == c.startNumber &&
      (queue[i].fragmentCount == 0 || |queue[i].data| != c.totalLength || queue[i].fragmentCount != c.fragmentCount)
  }

  lemma DifferentIs(queue: seq<Entry>, incoming: Sequence, c: Command)
    requires InOrder(queue, incoming) && c.Fragment?
    ensures var p := Place(queue, incoming, c.startNumber);
      Different(queue, c) <==> IsThere(queue, incoming, c.startNumber) && !Matches(queue[p], c)
  {
    hide Place, Offset;
    ThereIs(queue, incoming, c.startNumber);
    if IsThere(queue, incoming, c.startNumber) {
      var p := Place(queue, incoming, c.startNumber);
      assert forall i :: 0 <= i < |queue| && queue[i].number == c.startNumber ==> i == p;
    }
  }

  /**
   A fragment is refused exactly if it is empty or longer than the host admits, or lies ahead and makes no sense, does
   not match the waiting command, or would need one that cannot be had; refused or not ahead, it changes nothing.
   */
  lemma FragmentRefused(s: Receiver, c: Command, room: bool, maximumPacketSize: nat, blank: seq<Byte>)
    requires c.Fragment? && QueueWellFormed(s.queue) && |blank| == c.totalLength && InOrder(s.queue, s.incoming)
    ensures var (t, ok) := HandleFragment(s, c, room, maximumPacketSize, blank);
      && (!ok <==>
        || c.data == [] || |c.data| > maximumPacketSize
        || (Ahead(c.startNumber, s.incoming) &&
          (|| Senseless(c, maximumPacketSize)
           || Different(s.queue, c)
           || (!Waits(s.queue, c.startNumber) && (c.startNumber == s.incoming || !room)))))
      && (!ok || !Ahead(c.startNumber, s.incoming) ==> t == s)
  {
    hide Place, AddFragment, InOrder, Waits, Different, IsThere;
    ThereIs(s.queue, s.incoming, c.startNumber);
    DifferentIs(s.queue, s.incoming, c);
    SetBitsNone(c.fragmentCount);
  }
}
