/** Relative mouse motion: how a pending delta is cut into packets whose values have 16 bits. */
module MouseMotion {
  const Int16Min := -0x8000
  const Int16Max := 0x7fff

  datatype Move = Move(dx: int, dy: int)

  const Still := Move(0, 0)

  /** A packet, and the hint to the sender that another one follows. */
  datatype Packet = Packet(move: Move, more: bool)

  function Sum(a: Move, b: Move): Move
  {
    Move(a.dx + b.dx, a.dy + b.dy)
  }

  function Total(moves: seq<Move>): Move
    decreases |moves|
  {
    if moves == [] then Still else Sum(Total(moves[..|moves| - 1]), moves[|moves| - 1])
  }

  /** The motion that a series of packets stands for. */
  function Carried(packets: seq<Packet>): Move
    decreases |packets|
  {
    if packets == [] then Still else Sum(Carried(packets[..|packets| - 1]), packets[|packets| - 1].move)
  }

  lemma CarriedAppend(packets: seq<Packet>, p: Packet)
    ensures Carried(packets + [p]) == Sum(Carried(packets), p.move)
  {
    assert (packets + [p])[..|packets|] == packets;
  }

  predicate Fits(d: int)
  {
    Int16Min <= d <= Int16Max
  }

  predicate PacketFits(p: Packet)
  {
    Fits(p.move.dx) && Fits(p.move.dy)
  }

  /** The part of a delta that one packet can carry. */
  function Clamp(d: int): (c: int)
    ensures Fits(c) && (c == d <==> Fits(d))
    ensures 0 <= c <= d || d <= c <= 0
    ensures d != 0 ==> c != 0
  {
    if d < Int16Min then Int16Min else if d > Int16Max then Int16Max else d
  }

  function Size(m: Move): nat
  {
    (if m.dx < 0 then -m.dx else m.dx) + (if m.dy < 0 then -m.dy else m.dy)
  }

  /** What is left of a delta after one packet. */
  function Rest(m: Move): (r: Move)
    ensures m != Still ==> Size(r) < Size(m)
  {
    Move(m.dx - Clamp(m.dx), m.dy - Clamp(m.dy))
  }

  /** The next packet for a pending delta. */
  function Next(m: Move): (p: Packet)
    ensures PacketFits(p) && Sum(p.move, Rest(m)) == m
    ensures p.more <==> Rest(m) != Still
  {
    Packet(Move(Clamp(m.dx), Clamp(m.dy)), !Fits(m.dx) || !Fits(m.dy))
  }

  /** All packets for a pending delta to which nothing is added in between. */
  function Packets(m: Move): seq<Packet>
    decreases Size(m)
  {
    if m == Still then [] else [Next(m)] + Packets(Rest(m))
  }

  /** The number of packets that one axis needs. */
  function Pieces(d: int): nat
  {
    if d < 0 then (-d + 0x7fff) / 0x8000 else (d + 0x7ffe) / 0x7fff
  }

  function Max(a: nat, b: nat): nat
  {
    if a < b then b else a
  }

  lemma PiecesStep(d: int)
    ensures Pieces(d - Clamp(d)) == if d == 0 then 0 else Pieces(d) - 1
  {
  }

  /**
   A delta at rest goes out in as many packets as its longer axis needs; together they carry exactly the delta, and
   all but the last say that more will follow.
   */
  lemma PacketsAre(m: Move)
    ensures |Packets(m)| == Max(Pieces(m.dx), Pieces(m.dy))
    ensures forall i :: 0 <= i < |Packets(m)| ==>
      PacketFits(Packets(m)[i]) && (Packets(m)[i].more <==> i < |Packets(m)| - 1)
    ensures Carried(Packets(m)) == m
  {
    hide *;
    PacketsCount(m);
    PacketsFit(m);
    PacketsCarry(m);
  }

  lemma {:induction false} PacketsCount(m: Move)
    ensures |Packets(m)| == Max(Pieces(m.dx), Pieces(m.dy))
    decreases Size(m)
  {
    hide Pieces, Clamp;
    PiecesZero(m.dx);
    PiecesZero(m.dy);
    if m != Still {
      PacketsCount(Rest(m));
      PiecesStep(m.dx);
      PiecesStep(m.dy);
    }
  }

  lemma {:induction false} PacketsFit(m: Move)
    ensures forall i :: 0 <= i < |Packets(m)| ==>
      PacketFits(Packets(m)[i]) && (Packets(m)[i].more <==> i < |Packets(m)| - 1)
    decreases Size(m)
  {
    hide PacketFits, Next;
    if m != Still {
      var r := Rest(m);
      PacketsFit(r);
      assert r == Still <==> |Packets(r)| == 0;
      forall i | 0 <= i < |Packets(m)|
        ensures PacketFits(Packets(m)[i]) && (Packets(m)[i].more <==> i < |Packets(m)| - 1)
      {
        assert Packets(m)[i] == if i == 0 then Next(m) else Packets(r)[i - 1];
      }
    }
  }

  lemma {:induction false} PacketsCarry(m: Move)
    ensures Carried(Packets(m)) == m
    decreases Size(m)
  {
    if m != Still {
      PacketsCarry(Rest(m));
      hide *;
      PacketsStep(m);
      CarriedPrepend(Next(m), Packets(Rest(m)));
    }
  }

  lemma PiecesZero(d: int)
    ensures Pieces(d) == 0 <==> d == 0
  {
  }

  lemma {:induction false} CarriedPrepend(p: Packet, packets: seq<Packet>)
    ensures Carried([p] + packets) == Sum(p.move, Carried(packets))
    decreases |packets|
  {
    if packets == [] {
      assert ([p] + packets)[..0] == [];
      assert Carried([]) == Still;
    } else {
      var n := |packets|;
      assert ([p] + packets)[..n] == [p] + packets[..n - 1];
      CarriedPrepend(p, packets[..n - 1]);
    }
  }

  lemma PacketsStep(m: Move)
    ensures Packets(m) == if m == Still then [] else [Next(m)] + Packets(Rest(m))
  {
  }

  /** The motion that comes in while the first n packets are on their way. */
  function Arrived(arriving: seq<seq<Move>>, n: nat): Move
    decreases n
  {
    if n == 0 then Still else Sum(Arrived(arriving, n - 1), if n <= |arriving| then Total(arriving[n - 1]) else Still)
  }

  /** Nothing comes in. */
  predicate Calm(arriving: seq<seq<Move>>)
  {
    forall moves :: moves in arriving ==> moves == []
  }

  lemma CalmTotal(arriving: seq<seq<Move>>, i: nat)
    requires Calm(arriving) && i < |arriving|
    ensures Total(arriving[i]) == Still
  {
    assert arriving[i] in arriving;
  }

  predicate AllFit(packets: seq<Packet>)
  {
    forall i :: 0 <= i < |packets| ==> PacketFits(packets[i])
  }

  lemma AllFitAppend(packets: seq<Packet>, p: Packet)
    requires AllFit(packets) && PacketFits(p)
    ensures AllFit(packets + [p])
  {
  }

  lemma NothingYet(start: Move, arriving: seq<seq<Move>>)
    ensures Sum(Still, start) == Sum(start, Still) && Sum(start, Still) == start
    ensures Carried([]) == Still && Packets(Still) == [] && Arrived(arriving, 0) == Still && AllFit([])
  {
  }

  /** One packet more keeps the account, with or without moves that come in meanwhile. */
  lemma Balance(packets: seq<Packet>, m: Move, start: Move, arriving: seq<seq<Move>>)
    requires Sum(Carried(packets), m) == Sum(start, Arrived(arriving, |packets|))
    ensures
      var came := if |packets| < |arriving| then Total(arriving[|packets|]) else Still;
      && Sum(Rest(m), Still) == Rest(m)
      && Sum(Carried(packets + [Next(m)]), Sum(Rest(m), came)) == Sum(start, Arrived(arriving, |packets| + 1))
  {
    hide Carried, Next, Rest, Clamp, Size, Total, Arrived, Fits, PacketFits, Sum;
    var n := |packets|;
    ArrivedStep(arriving, n);
    CarriedAppend(packets, Next(m));
    SumMoved(Carried(packets), Next(m).move, Rest(m), start, Arrived(arriving, n), if n < |arriving| then
      Total(arriving[n]) else Still);
  }

  lemma SumMoved(c: Move, p: Move, r: Move, s: Move, a: Move, came: Move)
    requires Sum(c, Sum(p, r)) == Sum(s, a)
    ensures Sum(Sum(c, p), Sum(r, came)) == Sum(s, Sum(a, came)) && Sum(r, Still) == r
  {
  }

  lemma ArrivedStep(arriving: seq<seq<Move>>, n: nat)
    ensures Arrived(arriving, n + 1) == Sum(Arrived(arriving, n), if n < |arriving| then Total(arriving[n]) else Still)
  {
  }

  lemma PacketsOneMore(packets: seq<Packet>, m: Move, all: seq<Packet>)
    requires m != Still && packets + Packets(m) == all
    ensures packets + [Next(m)] + Packets(Rest(m)) == all
  {
    PacketsStep(m);
    assert packets + ([Next(m)] + Packets(Rest(m))) == packets + [Next(m)] + Packets(Rest(m));
  }

  /** The pending motion that the application threads and the input thread share. */
  class RelativeMouseState {
    var deltaX: int
    var deltaY: int
    var dirty: bool

    function Pending(): Move
      reads this
    {
      Move(deltaX, deltaY)
    }

    constructor ()
      ensures Pending() == Still && !dirty
    {
      deltaX, deltaY, dirty := 0, 0, false;
    }

    /** Adds what the other threads submitted while the lock was free; their holder is queued already. */
    method Combine(moves: seq<Move>)
      modifies this`deltaX, this`deltaY
      ensures Pending() == Sum(old(Pending()), Total(moves))
    {
      var i := 0;
      assert moves[..0] == [];
      while i < |moves|
        invariant 0 <= i <= |moves|
        invariant Pending() == Sum(old(Pending()), Total(moves[..i]))
      {
        assert moves[..i + 1][..i] == moves[..i];
        deltaX := deltaX + moves[i].dx;
        deltaY := deltaY + moves[i].dy;
        i := i + 1;
      }
      assert moves[..i] == moves;
    }

    /** Takes the next packet out of the pending motion. */
    method TakePacket() returns (packet: Packet)
      modifies this`deltaX, this`deltaY
      ensures packet == Next(old(Pending())) && Pending() == Rest(old(Pending()))
    {
      var more := false;
      var x, y;
      if deltaX < Int16Min {
        x := Int16Min;
        deltaX := deltaX - Int16Min;
        more := true;
      } else if deltaX > Int16Max {
        x := Int16Max;
        deltaX := deltaX - Int16Max;
        more := true;
      } else {
        x := deltaX;
        deltaX := 0;
      }
      if deltaY < Int16Min {
        y := Int16Min;
        deltaY := deltaY - Int16Min;
        more := true;
      } else if deltaY > Int16Max {
        y := Int16Max;
        deltaY := deltaY - Int16Max;
        more := true;
      } else {
        y := deltaY;
        deltaY := 0;
      }
      packet := Packet(Move(x, y), more);
    }

    /**
     The input thread's loop for a motion holder.  While packet i is on its way, the lock is free and the moves
     arriving[i] come in; sending packet number failing does not succeed.
     */
    method SendPending(arriving: seq<seq<Move>>, failing: int) returns (packets: seq<Packet>, ok: bool)
      requires dirty
      modifies this
      ensures AllFit(packets)
      ensures Sum(Carried(packets), Pending()) == Sum(old(Pending()), Arrived(arriving, |packets|))
      ensures ok <==> !(0 <= failing < |packets|)
      ensures ok ==> !dirty && Pending() == Still
      ensures !ok ==> dirty && |packets| == failing + 1
      ensures ok && Calm(arriving) ==> packets == Packets(old(Pending()))
    {
      hide Next, Rest, Carried, Total, PacketFits, Packets, Size, Clamp, Fits, Arrived, AllFit, Calm, Sum;
      NothingYet(Pending(), arriving);
      packets := [];
      ghost var start := Pending();
      ghost var calm := Calm(arriving);
      while deltaX != 0 || deltaY != 0
        invariant dirty && !(0 <= failing < |packets|)
        invariant AllFit(packets)
        invariant Sum(Carried(packets), Pending()) == Sum(start, Arrived(arriving, |packets|))
        invariant calm ==> packets + Packets(Pending()) == Packets(start)
        decreases if |packets| < |arriving| then |arriving| - |packets| else 0, Size(Pending())
      {
        if calm {
          PacketsOneMore(packets, Pending(), Packets(start));
        }
        ghost var pending := Pending();
        var packet := TakePacket();
        Balance(packets, pending, start, arriving);
        AllFitAppend(packets, packet);
        packets := packets + [packet];
        if |packets| <= |arriving| {
          if calm {
            CalmTotal(arriving, |packets| - 1);
          }
          Combine(arriving[|packets| - 1]);
        }
        if |packets| - 1 == failing {
          ok := false;
          return;
        }
      }
      dirty := false;
      ok := true;
    }
  }
}
