/** 16-bit sequence numbers, and how a receiver sorts them into old, new and too new by windows of 4096. */
module EnetWindows {
  const ENET_PEER_RELIABLE_WINDOWS: nat := 16
  const ENET_PEER_RELIABLE_WINDOW_SIZE: nat := 0x1000
  const ENET_PEER_FREE_RELIABLE_WINDOWS: nat := 8
  const NUMBERS: nat := 0x1_0000

  type Sequence = x: nat | x < NUMBERS

  /** The sequence number on the wire of the command with the given unbounded number. */
  function Wire(k: nat): Sequence
  {
    k % NUMBERS
  }

  function Window(k: nat): nat
  {
    k / ENET_PEER_RELIABLE_WINDOW_SIZE
  }

  /** How many windows the number lies ahead of the receiver's, as the receiver computes it; 16 if just behind. */
  function Distance(number: Sequence, incoming: Sequence): nat
  {
    Window(number) + (if number < incoming then ENET_PEER_RELIABLE_WINDOWS else 0) - Window(incoming)
  }

  /** The receiver takes the number for a new one. */
  predicate Accepts(number: Sequence, incoming: Sequence)
  {
    !(Distance(number, incoming) >= ENET_PEER_FREE_RELIABLE_WINDOWS - 1)
  }

  /** The receiver will not acknowledge the number. */
  predicate Unacknowledged(number: Sequence, incoming: Sequence)
  {
    ENET_PEER_FREE_RELIABLE_WINDOWS - 1 <= Distance(number, incoming) <= ENET_PEER_FREE_RELIABLE_WINDOWS
  }

  /** How far the number lies ahead of the receiver's, around the circle. */
  function Offset(number: Sequence, incoming: Sequence): Sequence
  {
    if number < incoming then number + NUMBERS - incoming else number - incoming
  }

  lemma WireParts(k: nat)
    ensures Window(k) == 16 * (k / NUMBERS) + Window(Wire(k)) && Window(Wire(k)) < 16
  {
    var a, b := k / NUMBERS, k % NUMBERS;
    var c, d := b / 4096, b % 4096;
    assert k == (16 * a + c) * 4096 + d;
  }

  /** A number ahead by less than sixteen windows is seen at its true distance. */
  lemma AheadDistance(k: nat, r: nat)
    requires r <= k && Window(k) - Window(r) < ENET_PEER_RELIABLE_WINDOWS
    ensures Distance(Wire(k), Wire(r)) == Window(k) - Window(r)
  {
    WireParts(k);
    WireParts(r);
  }

  /** A number behind is seen sixteen windows further ahead. */
  lemma BehindDistance(k: nat, r: nat)
    requires k < r && Window(r) - Window(k) < ENET_PEER_RELIABLE_WINDOWS
    ensures Distance(Wire(k), Wire(r)) == ENET_PEER_RELIABLE_WINDOWS - (Window(r) - Window(k))
  {
    WireParts(k);
    WireParts(r);
  }

  /** An old number is taken for a new one exactly if it is ten windows old or more (and less than a full turn). */
  lemma OldTakenForNew(k: nat, r: nat)
    requires k < r && Window(r) - Window(k) < ENET_PEER_RELIABLE_WINDOWS
    ensures Accepts(Wire(k), Wire(r)) <==> Window(r) - Window(k) >= 10
  {
    BehindDistance(k, r);
  }

  /** A new number is turned down, and not acknowledged, exactly from the seventh window ahead; up to the eighth. */
  lemma NewTurnedDown(k: nat, r: nat)
    requires r <= k && Window(k) - Window(r) <= ENET_PEER_FREE_RELIABLE_WINDOWS
    ensures Accepts(Wire(k), Wire(r)) <==> Window(k) - Window(r) < 7
    ensures Unacknowledged(Wire(k), Wire(r)) <==> !Accepts(Wire(k), Wire(r))
  {
    AheadDistance(k, r);
  }

  lemma WireOffset(k: nat, r: nat)
    requires r <= k < r + NUMBERS
    ensures Offset(Wire(k), Wire(r)) == k - r
  {
    var a, b := k / NUMBERS, r / NUMBERS;
    assert k == a * NUMBERS + Wire(k) && r == b * NUMBERS + Wire(r);
  }

  lemma WireApart(k: nat, j: nat)
    requires Wire(k) == Wire(j) && k < j + NUMBERS && j < k + NUMBERS
    ensures k == j
  {
    if k <= j {
      WireOffset(j, k);
    } else {
      WireOffset(k, j);
    }
  }

  lemma WireNext(k: nat)
    ensures Wire(k + 1) == (Wire(k) + 1) % NUMBERS
  {
    WireAdd(k, 1);
  }

  lemma WireAdd(k: nat, n: nat)
    ensures Wire(k + n) == (Wire(k) + n) % NUMBERS
  {
    var a := k / NUMBERS;
    assert k + n == a * NUMBERS + (Wire(k) + n);
    var b, c := (Wire(k) + n) / NUMBERS, (Wire(k) + n) % NUMBERS;
    assert k + n == (a + b) * NUMBERS + c;
  }

  lemma WindowMonotone(a: nat, b: nat)
    requires a <= b
    ensures Window(a) <= Window(b)
  {
  }
}
