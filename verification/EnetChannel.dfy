/** The two ends of a channel as the program keeps them, updated in place. */
module EnetChannel {
  import opened Basics
  import opened EnetWindows
  import opened EnetMessages
  import opened EnetSender
  import opened EnetReceiver
  import opened EnetOrder

  // ----- sending

  lemma {:induction false} QueuedAppend(a: seq<Command>, c: Command, last: nat)
    ensures Queued(a + [c], last) == Queued(a, last) + [Outgoing(last + |a| + 1, Wire(last + |a| + 1), 0, |c.data|, c)]
    decreases |a|
  {
    hide Wire;
    if a == [] {
      assert a + [c] == [c] && [c][1..] == [];
      assert Queued([], last + 1) == [];
    } else {
      assert (a + [c])[0] == a[0] && (a + [c])[1..] == a[1..] + [c];
      QueuedAppend(a[1..], c, last + 1);
    }
  }

  lemma SendSomeIs(s: Sender, room: nat, limit: nat)
    requires |s.windows| == ENET_PEER_RELIABLE_WINDOWS
    ensures room == 0 || !CanSend(s, limit) ==> SendSome(s, room, limit) == (s, [])
    ensures room > 0 && CanSend(s, limit) ==> |Send(s).windows| == ENET_PEER_RELIABLE_WINDOWS && s.queue != []
    ensures room > 0 && CanSend(s, limit) ==>
      SendSome(s, room, limit) ==
        (SendSome(Send(s), room - 1, limit).0, [s.queue[0]] + SendSome(Send(s), room - 1, limit).1)
  {
    hide WindowWrap;
  }

  /** What has been picked out of the first i commands. */
  ghost predicate Picked(l: seq<Outgoing>, expired: set<nat>, i: nat, back: seq<Outgoing>, kept: seq<Outgoing>)
  {
    && i <= |l|
    && Pick(l, expired, true) == back + Pick(l[i..], expired, true)
    && Pick(l, expired, false) == kept + Pick(l[i..], expired, false)
  }

  lemma PickedMore(l: seq<Outgoing>, expired: set<nat>, i: nat, back: seq<Outgoing>, kept: seq<Outgoing>)
    requires Picked(l, expired, i, back, kept) && i < |l|
    ensures l[i].id in expired ==>
      Picked(l, expired, i + 1, back + [l[i]], kept) && Total(back + [l[i]]) == Total(back) + l[i].length
    ensures l[i].id !in expired ==> Picked(l, expired, i + 1, back, kept + [l[i]])
  {
    assert l[i..][0] == l[i] && l[i..][1..] == l[i + 1..];
    CountSum(back, [l[i]], 0);
    CountOne(l[i], 0);
  }

  lemma PickedAll(l: seq<Outgoing>, expired: set<nat>, back: seq<Outgoing>, kept: seq<Outgoing>)
    requires Picked(l, expired, |l|, back, kept)
    ensures Pick(l, expired, true) == back && Pick(l, expired, false) == kept
  {
    assert l[|l|..] == [];
  }

  lemma PickedNone(l: seq<Outgoing>, expired: set<nat>)
    ensures Picked(l, expired, 0, [], [])
  {
    assert l[0..] == l;
  }

  lemma NoTotal()
    ensures Total([]) == 0
  {
  }

  class OutgoingChannel {
    var outgoingReliableSequenceNumber: Sequence
    const reliableWindows: array<nat>
    var usedReliableWindows: set<nat>
    var outgoingSendReliableCommands: seq<Outgoing>
    var sentReliableCommands: seq<Outgoing>
    var reliableDataInTransit: int
    var queued: nat
    ghost var newest: nat

    ghost predicate Valid()
      reads this, reliableWindows
    {
      reliableWindows.Length == ENET_PEER_RELIABLE_WINDOWS && outgoingReliableSequenceNumber == Wire(queued)
    }

    ghost function State(): Sender
      reads this, reliableWindows
    {
      Sender(reliableWindows[..], usedReliableWindows, outgoingSendReliableCommands, sentReliableCommands,
             reliableDataInTransit, queued, newest)
    }

    constructor ()
      ensures Valid() && State() == NewSender() && fresh(reliableWindows)
    {
      outgoingReliableSequenceNumber := 0;
      reliableWindows := new nat[ENET_PEER_RELIABLE_WINDOWS](_ => 0);
      usedReliableWindows, outgoingSendReliableCommands, sentReliableCommands := {}, [], [];
      reliableDataInTransit, queued, newest := 0, 0, 0;
    }

    /** Numbers a command and puts it at the end of the queue. */
    method SetupOutgoingCommand(c: Command)
      requires Valid()
      modifies this
      ensures Valid() && State() == old(State()).(
        queue := old(outgoingSendReliableCommands) + [Outgoing(old(queued) + 1, Wire(old(queued) + 1), 0, |c.data|, c)],
        last := old(queued) + 1)
    {
      WireNext(queued);
      outgoingReliableSequenceNumber := (outgoingReliableSequenceNumber + 1) % NUMBERS;
      queued := queued + 1;
      outgoingSendReliableCommands := outgoingSendReliableCommands +
        [Outgoing(queued, outgoingReliableSequenceNumber, 0, |c.data|, c)];
    }

    /** Splits a packet, numbers its commands and queues them; or refuses it. */
    method SendPacket(connected: bool, channelID: nat, channelCount: nat, maximumPacketSize: nat, payload: seq<Byte>,
                      mtuFragmentLength: nat)
      returns (sent: bool)
      requires Valid() && mtuFragmentLength > 0
      modifies this
      ensures var m := Message(payload, mtuFragmentLength);
        && Valid() && (sent <==> connected && channelID < channelCount && Acceptable(m, maximumPacketSize))
        && State() == if sent then SetUp(old(State()), CommandsOf(m, old(queued) + 1)) else old(State())
    {
      hide Wire, CommandOf, FragmentCount;
      var commands, number;
      sent, commands, number := PeerSend(connected, channelID, channelCount, maximumPacketSize, payload,
        mtuFragmentLength, outgoingReliableSequenceNumber, queued);
      label Before:
      ghost var start := State();
      var i := 0;
      assert commands[..0] == [];
      while i < |commands|
        invariant i <= |commands| && Valid()
        invariant State() == SetUp(start, commands[..i])
      {
        QueuedAppend(commands[..i], commands[i], start.last);
        assert commands[..i + 1] == commands[..i] + [commands[i]];
        SetupOutgoingCommand(commands[i]);
        i := i + 1;
      }
      assert commands[..i] == commands;
    }

    /** Sends the first command of the queue. */
    method SendFirst() returns (outgoingCommand: Outgoing)
      requires Valid() && outgoingSendReliableCommands != []
      modifies this, reliableWindows
      ensures Valid() && outgoingCommand == old(outgoingSendReliableCommands[0]) && State() == Send(old(State()))
    {
      ghost var before := State();
      outgoingCommand := outgoingSendReliableCommands[0];
      var reliableWindow := Window(outgoingCommand.number);
      WindowSmall(outgoingCommand.number);
      if outgoingCommand.sendAttempts < 1 {
        usedReliableWindows := usedReliableWindows + {reliableWindow};
        reliableWindows[reliableWindow] := reliableWindows[reliableWindow] + 1;
        newest := newest + 1;
      }
      outgoingSendReliableCommands := outgoingSendReliableCommands[1..];
      sentReliableCommands := sentReliableCommands +
        [outgoingCommand.(sendAttempts := outgoingCommand.sendAttempts + 1)];
      reliableDataInTransit := reliableDataInTransit + outgoingCommand.length;
      assert State().windows == Send(before).windows;
    }

    /** Sends what may be sent, in order, and returns it. */
    method CheckOutgoingCommands(room: nat, limit: nat) returns (out: seq<Outgoing>)
      requires Valid()
      modifies this, reliableWindows
      ensures Valid() && (State(), out) == SendSome(old(State()), room, limit)
    {
      hide Wire, WindowWrap, Mask, SendSome, Send;
      out := [];
      ghost var goal := SendSome(State(), room, limit);
      assert [] + goal.1 == goal.1;
      var left: nat := room;
      while true
        invariant Valid() && left <= room
        invariant goal == (SendSome(State(), left, limit).0, out + SendSome(State(), left, limit).1)
        decreases left
      {
        ghost var before := State();
        SendSomeIs(before, left, limit);
        assert out + [] == out;
        if left == 0 || outgoingSendReliableCommands == [] {
          break;
        }
        var outgoingCommand := outgoingSendReliableCommands[0];
        WindowSmall(outgoingCommand.number);
        var wrap := MustWait(outgoingCommand, Window(outgoingCommand.number));
        if wrap || reliableDataInTransit + outgoingCommand.length > limit {
          break;
        }
        outgoingCommand := SendFirst();
        ghost var more := SendSome(State(), left - 1, limit).1;
        assert out + ([outgoingCommand] + more) == out + [outgoingCommand] + more;
        out := out + [outgoingCommand];
        left := left - 1;
      }
    }

    method MustWait(c: Outgoing, w: nat) returns (wait: bool)
      requires Valid() && w == Window(c.number) < ENET_PEER_RELIABLE_WINDOWS
      ensures wait == WindowWrap(State(), c)
    {
      wait := c.sendAttempts < 1 && c.number % ENET_PEER_RELIABLE_WINDOW_SIZE == 0 &&
        (reliableWindows[(w + ENET_PEER_RELIABLE_WINDOWS - 1) % ENET_PEER_RELIABLE_WINDOWS]
         >= ENET_PEER_RELIABLE_WINDOW_SIZE
         || usedReliableWindows * Mask(w) != {});
    }

    /** Moves the commands whose time is up to the front of the queue, keeping their order. */
    method CheckTimeouts(expired: set<nat>)
      requires Valid()
      modifies this
      ensures Valid() && State() == Expire(old(State()), expired)
    {
      hide Pick, Total, Picked;
      var i: nat, back: seq<Outgoing>, kept: seq<Outgoing> := 0, [], [];
      ghost var was := State();
      PickedNone(was.sent, expired);
      assert Total([]) == 0 by { NoTotal(); }
      while i < |sentReliableCommands|
        invariant i <= |sentReliableCommands| && sentReliableCommands == was.sent
        invariant State() == was.(inTransit := was.inTransit - Total(back)) && Valid()
        invariant Picked(was.sent, expired, i, back, kept)
      {
        PickedMore(was.sent, expired, i, back, kept);
        var c := sentReliableCommands[i];
        if c.id in expired {
          reliableDataInTransit := reliableDataInTransit - c.length;
          back := back + [c];
        } else {
          kept := kept + [c];
        }
        i := i + 1;
      }
      PickedAll(was.sent, expired, back, kept);
      sentReliableCommands, outgoingSendReliableCommands := kept, back + outgoingSendReliableCommands;
    }

    method FindSentReliableCommand(number: Sequence) returns (i: nat)
      ensures if FindNumber(sentReliableCommands, number).Some? then
        i == FindNumber(sentReliableCommands, number).value < |sentReliableCommands|
              else i == |sentReliableCommands|
    {
      i := 0;
      while i < |sentReliableCommands|
        invariant i <= |sentReliableCommands|
        invariant FindNumber(sentReliableCommands, number) ==
          match FindNumber(sentReliableCommands[i..], number) case None => None case Some(k) => Some(k + i)
      {
        assert sentReliableCommands[i..][0] == sentReliableCommands[i];
        assert sentReliableCommands[i..][1..] == sentReliableCommands[i + 1..];
        if sentReliableCommands[i].number == number {
          return;
        }
        i := i + 1;
      }
    }

    method FindQueuedReliableCommand(number: Sequence) returns (i: nat)
      ensures var q := outgoingSendReliableCommands;
        if FindTried(q, number).Some? then i == FindTried(q, number).value < |q| else i == |q|
    {
      var q := outgoingSendReliableCommands;
      i := 0;
      while i < |q|
        invariant i <= |q|
        invariant FindTried(q, number) == match FindTried(q[i..], number) case None => None case Some(k) => Some(k + i)
      {
        assert q[i..][0] == q[i] && q[i..][1..] == q[i + 1..];
        if q[i].sendAttempts < 1 {
          return |q|;
        }
        if q[i].number == number {
          return;
        }
        i := i + 1;
      }
    }

    /** Handles an acknowledged number. */
    method RemoveSentReliableCommand(number: Sequence)
      requires Valid()
      modifies this, reliableWindows
      ensures Valid() && State() == Acknowledge(old(State()), number)
    {
      FoundNumber(sentReliableCommands, number);
      FoundTried(outgoingSendReliableCommands, number);
      ghost var was := State();
      var i := FindSentReliableCommand(number);
      var wasSent := i < |sentReliableCommands|;
      if !wasSent {
        i := FindQueuedReliableCommand(number);
        if i == |outgoingSendReliableCommands| {
          return;
        }
      }
      WindowSmall(number);
      var reliableWindow := Window(number);
      if reliableWindows[reliableWindow] > 0 {
        reliableWindows[reliableWindow] := reliableWindows[reliableWindow] - 1;
        if reliableWindows[reliableWindow] == 0 {
          usedReliableWindows := usedReliableWindows - {reliableWindow};
        }
      }
      if wasSent {
        reliableDataInTransit := reliableDataInTransit - sentReliableCommands[i].length;
        sentReliableCommands := Without(sentReliableCommands, i);
      } else {
        outgoingSendReliableCommands := Without(outgoingSendReliableCommands, i);
      }
      assert State().windows == Uncounted(was, number).windows;
    }
  }

  // ----- receiving

  lemma DispatchNext(was: Receiver, number: Sequence, p: nat, packets: seq<seq<Byte>>)
    requires p < |was.queue| && IsNext(was.queue[p], number)
    ensures var e := was.queue[p];
      Dispatch(Receiver(number, was.queue[p..], was.dispatched + packets, was.taken)) ==
        Dispatch(Receiver(Advanced(e), was.queue[p + 1..], was.dispatched + (packets + [e.data]), was.taken))
  {
    hide IsNext, Advanced;
    assert was.queue[p..][0] == was.queue[p] && was.queue[p..][1..] == was.queue[p + 1..];
    assert was.dispatched + packets + [was.queue[p].data] == was.dispatched + (packets + [was.queue[p].data]);
  }

  lemma DispatchEnds(was: Receiver, number: Sequence, p: nat, packets: seq<seq<Byte>>)
    requires p <= |was.queue| && (p < |was.queue| ==> !IsNext(was.queue[p], number))
    ensures var t := Receiver(number, was.queue[p..], was.dispatched + packets, was.taken); Dispatch(t) == t
  {
    hide IsNext;
    assert p < |was.queue| ==> was.queue[p..][0] == was.queue[p];
  }

  /** A list that stands for messages is in order. */
  lemma ListedInOrder(ms: seq<Message>, s: Receiver, m: nat, js: seq<nat>)
    requires ReceiverOk(ms, s, m, js)
    ensures InOrder(s.queue, s.incoming) && QueueWellFormed(s.queue) && Waiting(s)
  {
    hide Start, Wire, Offset, Near, Stands, EntryWellFormed;
    IncomingIs(ms, s, m, js);
    forall a | 0 <= a < |s.queue| ensures Offset(s.queue[a].number, s.incoming) > 0 {
      ListOffset(ms, s, m, js, a);
    }
    forall a, b | 0 <= a < b < |s.queue|
      ensures Offset(s.queue[a].number, s.incoming) < Offset(s.queue[b].number, s.incoming)
    {
      ListOffset(ms, s, m, js, a);
      ListOffset(ms, s, m, js, b);
      StartOrder(ms, js[a], js[b]);
    }
  }

  /** The place is where all commands before are nearer, and all from there on are not. */
  lemma {:induction false} PlaceFound(queue: seq<Entry>, incoming: Sequence, number: Sequence, p: nat)
    requires p <= |queue|
    requires forall i :: 0 <= i < p ==> Offset(queue[i].number, incoming) < Offset(number, incoming)
    requires forall i :: p <= i < |queue| ==> Offset(queue[i].number, incoming) >= Offset(number, incoming)
    ensures p == Place(queue, incoming, number)
    decreases |queue|
  {
    hide Offset;
    if p > 0 {
      PlaceFound(queue[1..], incoming, number, p - 1);
    }
  }

  class IncomingChannel {
    var incomingReliableSequenceNumber: Sequence
    var incomingReliableCommands: seq<Entry>
    var dispatchedCommands: seq<seq<Byte>>
    var acknowledgements: seq<Sequence>
    ghost var taken: seq<seq<Byte>>

    ghost function State(): Receiver
      reads this
    {
      Receiver(incomingReliableSequenceNumber, incomingReliableCommands, dispatchedCommands, taken)
    }

    ghost predicate Valid()
      reads this
    {
      && InOrder(incomingReliableCommands, incomingReliableSequenceNumber)
      && QueueWellFormed(incomingReliableCommands) && Waiting(State())
    }

    constructor ()
      ensures Valid() && State() == NewReceiver() && acknowledgements == []
    {
      incomingReliableSequenceNumber := 0;
      incomingReliableCommands, dispatchedCommands, acknowledgements, taken := [], [], [], [];
    }

    /** Looks for the number from the end of the list, comparing 16-bit numbers on both sides of the receiver's own. */
    method Find(number: Sequence) returns (found: bool, p: nat)
      requires InOrder(incomingReliableCommands, incomingReliableSequenceNumber)
      ensures p == Place(incomingReliableCommands, incomingReliableSequenceNumber, number)
      ensures found == IsThere(incomingReliableCommands, incomingReliableSequenceNumber, number)
    {
      hide Place;
      ghost var queue, incoming := incomingReliableCommands, incomingReliableSequenceNumber;
      p := |incomingReliableCommands|;
      while p > 0
        invariant p <= |queue|
        invariant forall i :: p <= i < |queue| ==> Offset(queue[i].number, incoming) > Offset(number, incoming)
      {
        var other := incomingReliableCommands[p - 1].number;
        if number >= incomingReliableSequenceNumber {
          if other < incomingReliableSequenceNumber {
            p := p - 1;
            continue;
          }
        } else if other >= incomingReliableSequenceNumber {
          break;
        }
        if other <= number {
          if other < number {
            break;
          }
          p := p - 1;
          PlaceFound(queue, incoming, number, p);
          return true, p;
        }
        p := p - 1;
      }
      PlaceFound(queue, incoming, number, p);
      found := false;
      assert p < |queue| ==> queue[p].number != number;
    }

    /** Moves what can be dispatched to the dispatched packets. */
    method DispatchIncomingReliableCommands()
      modifies this
      ensures State() == Dispatch(old(State())) && acknowledgements == old(acknowledgements)
    {
      hide IsNext, Advanced, Dispatch;
      ghost var goal, was := Dispatch(State()), State();
      var currentCommand: nat := 0;
      var number := incomingReliableSequenceNumber;
      var packets: seq<seq<Byte>> := [];
      assert was.queue[0..] == was.queue && was.dispatched + packets == was.dispatched;
      while currentCommand < |incomingReliableCommands| && IsNext(incomingReliableCommands[currentCommand], number)
        invariant currentCommand <= |was.queue| && State() == was && acknowledgements == old(acknowledgements)
        invariant goal == Dispatch(Receiver(number, was.queue[currentCommand..], was.dispatched + packets, was.taken))
      {
        var e := incomingReliableCommands[currentCommand];
        DispatchNext(was, number, currentCommand, packets);
        number := Advanced(e);
        packets := packets + [e.data];
        currentCommand := currentCommand + 1;
      }
      DispatchEnds(was, number, currentCommand, packets);
      incomingReliableSequenceNumber := number;
      incomingReliableCommands := incomingReliableCommands[currentCommand..];
      dispatchedCommands := dispatchedCommands + packets;
    }

    /** Queues a command, unless it is old, too new, there already, or there is no room. */
    method QueueIncomingCommand(e: Entry, room: bool) returns (ok: bool)
      requires InOrder(incomingReliableCommands, incomingReliableSequenceNumber)
      modifies this
      ensures (State(), ok) == QueueIncoming(old(State()), e, room) && acknowledgements == old(acknowledgements)
    {
      hide Place, Offset, Dispatch;
      if Distance(e.number, incomingReliableSequenceNumber) >= ENET_PEER_FREE_RELIABLE_WINDOWS - 1 {
        return e.fragmentCount == 0;
      }
      if e.number == incomingReliableSequenceNumber {
        return e.fragmentCount == 0;
      }
      var found, p := Find(e.number);
      if found {
        return e.fragmentCount == 0;
      }
      if !room {
        return false;
      }
      incomingReliableCommands := Inserted(incomingReliableCommands, p, e);
      DispatchIncomingReliableCommands();
      ok := true;
    }

    method HandleSendReliable(number: Sequence, data: seq<Byte>, room: bool, maximumPacketSize: nat) returns (ok: bool)
      requires Valid()
      modifies this
      ensures (State(), ok) == HandleReliable(old(State()), number, data, room, maximumPacketSize)
      ensures acknowledgements == old(acknowledgements)
    {
      if |data| > maximumPacketSize {
        return false;
      }
      ok := QueueIncomingCommand(Entry(number, 0, 0, [], data), room);
    }

    /** Puts a fragment into its packet, which is created first if it is not there. */
    method HandleSendFragment(c: Command, room: bool, maximumPacketSize: nat, blank: seq<Byte>) returns (ok: bool)
      requires Valid() && c.Fragment? && |blank| == c.totalLength
      modifies this
      ensures (State(), ok) == HandleFragment(old(State()), c, room, maximumPacketSize, blank)
      ensures acknowledgements == old(acknowledgements)
    {
      hide Place, Offset, Dispatch, Distance, IsNext;
      if |c.data| == 0 || |c.data| > maximumPacketSize {
        return false;
      }
      if Distance(c.startNumber, incomingReliableSequenceNumber) >= ENET_PEER_FREE_RELIABLE_WINDOWS - 1 {
        return true;
      }
      if !WellFormed(c, maximumPacketSize) {
        return false;
      }
      var found, p := Find(c.startNumber);
      if found {
        if !Matches(incomingReliableCommands[p], c) {
          return false;
        }
      } else {
        ghost var s := State();
        ok := QueueIncomingCommand(Blank(c, blank), room);
        if !ok {
          return;
        }
        BlankWaits(s, p, c, blank);
      }
      PutFragment(p, c);
      ok := true;
    }

    method PutFragment(p: nat, c: Command)
      requires c.Fragment? && p < |incomingReliableCommands|
      requires EntryWellFormed(incomingReliableCommands[p]) && Matches(incomingReliableCommands[p], c)
      requires c.fragmentNumber < c.fragmentCount && c.fragmentOffset + |c.data| <= c.totalLength
      modifies this
      ensures State() == AddFragment(old(State()), p, c) && acknowledgements == old(acknowledgements)
    {
      hide Dispatch;
      var startCommand := incomingReliableCommands[p];
      if !startCommand.fragments[c.fragmentNumber] {
        SetBitsOne(startCommand.fragments, c.fragmentNumber);
        startCommand := startCommand.(fragmentsRemaining := startCommand.fragmentsRemaining - 1,
                                      fragments := startCommand.fragments[c.fragmentNumber := true],
                                      data := Patched(startCommand.data, c.fragmentOffset, c.data));
        incomingReliableCommands := incomingReliableCommands[p := startCommand];
        if startCommand.fragmentsRemaining == 0 {
          DispatchIncomingReliableCommands();
        }
      }
    }

    /** Queues an acknowledgement, unless the number is one that was turned down as too far ahead. */
    method QueueAcknowledgement(number: Sequence)
      modifies this
      ensures State() == old(State())
      ensures acknowledgements == old(acknowledgements) +
        if Unacknowledged(number, incomingReliableSequenceNumber) then [] else [number]
    {
      var distance := Distance(number, incomingReliableSequenceNumber);
      if distance >= ENET_PEER_FREE_RELIABLE_WINDOWS - 1 && distance <= ENET_PEER_FREE_RELIABLE_WINDOWS {
        return;
      }
      acknowledgements := acknowledgements + [number];
    }

    /** Hands the first dispatched packet to the application. */
    method Receive() returns (packet: seq<seq<Byte>>)
      modifies this
      ensures State() == Take(old(State())) && acknowledgements == old(acknowledgements)
      ensures packet == if old(dispatchedCommands) == [] then [] else [old(dispatchedCommands)[0]]
    {
      if dispatchedCommands == [] {
        return [];
      }
      packet := [dispatchedCommands[0]];
      taken := taken + packet;
      dispatchedCommands := dispatchedCommands[1..];
    }
  }

  /** A packet just created cannot be dispatched, so putting it in the list moves nothing. */
  lemma BlankWaits(s: Receiver, p: nat, c: Command, blank: seq<Byte>)
    requires Waiting(s) && c.Fragment? && c.fragmentCount > 0 && p <= |s.queue| && QueueWellFormed(s.queue)
    ensures var t := s.(queue := Inserted(s.queue, p, Blank(c, blank)));
      Dispatch(t) == t && t.queue[p] == Blank(c, blank) && EntryWellFormed(t.queue[p])
  {
    SetBitsNone(c.fragmentCount);
  }
}
