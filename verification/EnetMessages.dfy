/** Messages, the reliable commands that carry them, and the splitting of a long message into fragments. */
module EnetMessages {
  import opened Basics
  import opened EnetWindows

  const ENET_PROTOCOL_MAXIMUM_FRAGMENT_COUNT: nat := 1024 * 1024
  const ENET_HOST_DEFAULT_MTU: nat := 900
  const ENET_HOST_DEFAULT_MAXIMUM_PACKET_SIZE: nat := 32 * 1024 * 1024

  /** The room for data in a datagram with one fragment: without the two headers of 4 and 24 bytes and the checksum. */
  function FragmentLength(mtu: nat, checksum: bool): int
  {
    mtu - 4 - 24 - if checksum then 4 else 0
  }

  /** A packet given to the channel, and the fragment length that the peer's MTU leaves at that time. */
  datatype Message = Message(payload: seq<Byte>, fragmentLength: nat)

  datatype Command =
    | Reliable(number: Sequence, data: seq<Byte>)
    | Fragment(number: Sequence, startNumber: Sequence, fragmentNumber: nat, fragmentCount: nat, totalLength: nat,
               fragmentOffset: nat, data: seq<Byte>)

  predicate Short(m: Message)
  {
    |m.payload| <= m.fragmentLength
  }

  function FragmentCount(m: Message): nat
    requires m.fragmentLength > 0
  {
    (|m.payload| + m.fragmentLength - 1) / m.fragmentLength
  }

  /** The number of commands that carry a message. */
  function Commands(m: Message): nat
    requires m.fragmentLength > 0
  {
    if Short(m) then 1 else FragmentCount(m)
  }

  /** A message that a channel takes, if the host has no lower limit on the size of packets. */
  predicate Sendable(m: Message)
  {
    m.fragmentLength > 0 && Commands(m) <= ENET_PROTOCOL_MAXIMUM_FRAGMENT_COUNT
  }

  /** A message that a host takes. */
  predicate Acceptable(m: Message, maximumPacketSize: nat)
  {
    Sendable(m) && |m.payload| <= maximumPacketSize
  }

  function Low(m: Message, i: nat): nat
  {
    i * m.fragmentLength
  }

  function High(m: Message, i: nat): nat
  {
    if (i + 1) * m.fragmentLength <= |m.payload| then (i + 1) * m.fragmentLength else |m.payload|
  }

  lemma Tiles(m: Message, i: nat)
    requires m.fragmentLength > 0 && !Short(m)
    ensures FragmentCount(m) >= 2 && |m.payload| >= FragmentCount(m)
    ensures i < FragmentCount(m) ==> Low(m, i) < High(m, i) <= |m.payload|
    ensures i + 1 < FragmentCount(m) ==> High(m, i) == Low(m, i + 1)
    ensures i < FragmentCount(m) <==> Low(m, i) < |m.payload|
    ensures i + 1 == FragmentCount(m) ==> High(m, i) == |m.payload|
    ensures High(m, i) - Low(m, i) <= m.fragmentLength
  {
    var l, p, n := m.fragmentLength, |m.payload|, FragmentCount(m);
    CeilingBounds(p, l);
    assert n * l >= p && (n - 1) * l < p;
    if i < n {
      Monotone(i + 1, n, l);
      Monotone(i, n - 1, l);
    } else {
      Monotone(n, i, l);
    }
    if i + 1 < n {
      Monotone(i + 1, n - 1, l);
    }
    assert (i + 1) * l == i * l + l;
    if n < 2 {
      Monotone(n, 1, l);
    }
    AtLeast(n - 1, l);
  }

  lemma CeilingBounds(p: nat, l: nat)
    requires 0 < l < p
    ensures var n := (p + l - 1) / l; n >= 1 && n * l >= p && (n - 1) * l < p
  {
    var n := (p + l - 1) / l;
    var r := (p + l - 1) % l;
    assert p + l - 1 == n * l + r;
    assert (n - 1) * l == n * l - l;
  }

  lemma Monotone(a: nat, b: nat, l: nat)
    requires a <= b
    ensures a * l <= b * l
  {
  }

  lemma AtLeast(a: nat, l: nat)
    requires l > 0
    ensures a * l >= a
  {
  }

  /** Command i of a message whose first command has the given number. */
  function CommandOf(m: Message, start: nat, i: nat): Command
    requires m.fragmentLength > 0 && i < Commands(m)
  {
    if Short(m) then Reliable(Wire(start), m.payload)
    else
      Tiles(m, i);
      Fragment(Wire(start + i), Wire(start), i, FragmentCount(m), |m.payload|, Low(m, i),
        m.payload[Low(m, i)..High(m, i)])
  }

  /** All commands of a message whose first command has the given number. */
  function CommandsOf(m: Message, start: nat): seq<Command>
    requires m.fragmentLength > 0
  {
    seq(Commands(m), i requires 0 <= i < Commands(m) => CommandOf(m, start, i))
  }

  /**
   Splits a message into commands and numbers them, or refuses it: without a connection or the channel, and if it is too
   long or has too many fragments.  The last number given out on the channel goes in, and the new one comes out.
   */
  method PeerSend(connected: bool, channelID: nat, channelCount: nat, maximumPacketSize: nat, payload: seq<Byte>,
                  mtuFragmentLength: nat, outgoing: Sequence, ghost last: nat)
    returns (sent: bool, commands: seq<Command>, outgoing': Sequence)
    requires mtuFragmentLength > 0 && outgoing == Wire(last)
    ensures var m := Message(payload, mtuFragmentLength);
      && (sent <==> connected && channelID < channelCount && Acceptable(m, maximumPacketSize))
      && (!sent ==> commands == [] && outgoing' == outgoing)
      && (sent ==> commands == CommandsOf(m, last + 1) && outgoing' == Wire(last + Commands(m)))
  {
    hide Wire, CommandOf;
    ghost var m := Message(payload, mtuFragmentLength);
    sent, commands, outgoing' := true, [], outgoing;
    if !connected || channelID >= channelCount || |payload| > maximumPacketSize {
      return false, [], outgoing;
    }
    if |payload| > mtuFragmentLength {
      var fragmentCount := (|payload| + mtuFragmentLength - 1) / mtuFragmentLength;
      if fragmentCount > ENET_PROTOCOL_MAXIMUM_FRAGMENT_COUNT {
        return false, [], outgoing;
      }
      commands, outgoing' := SendFragments(payload, mtuFragmentLength, fragmentCount, outgoing, last);
    } else {
      WireNext(last);
      ShortIs(m, last + 1);
      outgoing' := (outgoing + 1) % NUMBERS;
      commands := [Reliable(outgoing', payload)];
    }
  }

  /** The fragments of a long message, each numbered as it is queued. */
  method SendFragments(payload: seq<Byte>, mtuFragmentLength: nat, fragmentCount: nat, outgoing: Sequence,
                       ghost last: nat)
    returns (commands: seq<Command>, outgoing': Sequence)
    requires 0 < mtuFragmentLength < |payload| && outgoing == Wire(last)
    requires fragmentCount == FragmentCount(Message(payload, mtuFragmentLength))
    ensures var m := Message(payload, mtuFragmentLength);
      && commands == CommandsOf(m, last + 1) && outgoing' == Wire(last + Commands(m))
  {
    hide Wire, CommandOf, FragmentCount, Low, High;
    ghost var m := Message(payload, mtuFragmentLength);
    var fragmentLength := mtuFragmentLength;
    var startNumber := (outgoing + 1) % NUMBERS;
    WireNext(last);
    Tiles(m, 0);
    LowZero(m);
    commands, outgoing' := [], outgoing;
    var fragmentNumber: nat, fragmentOffset: nat := 0, 0;
    while fragmentOffset < |payload|
      invariant |commands| == fragmentNumber <= fragmentCount
      invariant fragmentNumber < fragmentCount ==>
        fragmentOffset == Low(m, fragmentNumber) && fragmentLength == mtuFragmentLength
      invariant fragmentNumber == fragmentCount ==> fragmentOffset >= |payload|
      invariant outgoing' == Wire(last + fragmentNumber)
      invariant forall i :: 0 <= i < fragmentNumber ==> commands[i] == CommandOf(m, last + 1, i)
      decreases fragmentCount - fragmentNumber
    {
      Tiles(m, fragmentNumber);
      NextPart(m, fragmentNumber);
      if |payload| - fragmentOffset < fragmentLength {
        fragmentLength := |payload| - fragmentOffset;
      }
      WireNext(last + fragmentNumber);
      FragmentIs(m, last + 1, fragmentNumber);
      outgoing' := (outgoing' + 1) % NUMBERS;
      commands := commands + [Fragment(outgoing', startNumber, fragmentNumber, fragmentCount, |payload|, fragmentOffset,
                                       payload[fragmentOffset..fragmentOffset + fragmentLength])];
      fragmentNumber := fragmentNumber + 1;
      fragmentOffset := fragmentOffset + fragmentLength;
    }
    if fragmentNumber < fragmentCount {
      Tiles(m, fragmentNumber);
    }
  }

  lemma LowZero(m: Message)
    ensures Low(m, 0) == 0
  {
  }

  lemma ShortIs(m: Message, start: nat)
    requires m.fragmentLength > 0 && Short(m)
    ensures CommandOf(m, start, 0) == Reliable(Wire(start), m.payload)
  {
  }

  lemma FragmentIs(m: Message, start: nat, i: nat)
    requires m.fragmentLength > 0 && !Short(m) && i < FragmentCount(m)
    ensures Low(m, i) <= High(m, i) <= |m.payload|
    ensures CommandOf(m, start, i)
         == Fragment(Wire(start + i), Wire(start), i, FragmentCount(m), |m.payload|, Low(m, i),
           m.payload[Low(m, i)..High(m, i)])
  {
    Tiles(m, i);
  }

  lemma NextPart(m: Message, i: nat)
    requires m.fragmentLength > 0 && !Short(m) && i < FragmentCount(m)
    ensures High(m, i) == Low(m, i) + if |m.payload| - Low(m, i) < m.fragmentLength then |m.payload| - Low(m, i)
      else m.fragmentLength
    ensures i + 1 < FragmentCount(m) ==> |m.payload| - Low(m, i) >= m.fragmentLength
  {
    Tiles(m, i);
    Tiles(m, i + 1);
    assert (i + 1) * m.fragmentLength == i * m.fragmentLength + m.fragmentLength;
  }

  // ----- a stream of messages

  ghost predicate AllSendable(ms: seq<Message>)
  {
    forall j :: 0 <= j < |ms| ==> Sendable(ms[j])
  }

  /** The number of the first command of message j. */
  function Start(ms: seq<Message>, j: nat): nat
    requires j <= |ms| && forall i :: 0 <= i < |ms| ==> ms[i].fragmentLength > 0
    decreases j
  {
    if j == 0 then 1 else Start(ms, j - 1) + Commands(ms[j - 1])
  }

  lemma {:induction false} StartKept(ms: seq<Message>, m: Message, j: nat)
    requires AllSendable(ms) && Sendable(m) && j <= |ms|
    ensures AllSendable(ms + [m]) && Start(ms + [m], j) == Start(ms, j)
    decreases j
  {
    hide Commands;
    if j > 0 {
      StartKept(ms, m, j - 1);
    }
  }

  lemma {:induction false} StartGrows(ms: seq<Message>, i: nat, j: nat)
    requires AllSendable(ms) && i <= j <= |ms|
    ensures 1 <= Start(ms, i) && Start(ms, i) + (j - i) <= Start(ms, j)
    ensures i < j ==> Start(ms, i) + Commands(ms[i]) <= Start(ms, j)
    decreases j
  {
    if i < j {
      StartGrows(ms, i, j - 1);
      CommandsPositive(ms[j - 1]);
    } else if i > 0 {
      StartGrows(ms, i - 1, j - 1);
      CommandsPositive(ms[i - 1]);
    }
  }

  lemma CommandsPositive(m: Message)
    requires Sendable(m)
    ensures 1 <= Commands(m)
  {
    if !Short(m) {
      Tiles(m, 0);
    }
  }

  /** The command with the unbounded number k is command i of message j. */
  ghost predicate IsNumbered(ms: seq<Message>, j: nat, i: nat, k: nat)
  {
    AllSendable(ms) && j < |ms| && i < Commands(ms[j]) && k == Start(ms, j) + i
  }

  ghost predicate Carries(ms: seq<Message>, j: nat, i: nat, k: nat, c: Command)
  {
    IsNumbered(ms, j, i, k) && c == CommandOf(ms[j], Start(ms, j), i)
  }

  ghost predicate IsCommand(ms: seq<Message>, k: nat, c: Command)
  {
    exists j: nat, i: nat :: Carries(ms, j, i, k, c)
  }

  lemma NumberedKept(ms: seq<Message>, m: Message, j: nat, i: nat, k: nat)
    requires IsNumbered(ms, j, i, k) && Sendable(m)
    ensures IsNumbered(ms + [m], j, i, k) && Start(ms + [m], j) == Start(ms, j)
  {
    hide Start, Sendable, Commands;
    StartKept(ms, m, j);
  }

  lemma CommandKept(ms: seq<Message>, m: Message, k: nat, c: Command)
    requires IsCommand(ms, k, c) && Sendable(m)
    ensures IsCommand(ms + [m], k, c)
  {
    hide Start, Sendable, Commands, CommandOf;
    var j: nat, i: nat :| Carries(ms, j, i, k, c);
    NumberedKept(ms, m, j, i, k);
    assert Carries(ms + [m], j, i, k, c);
  }
}
