/** A cursor over a byte buffer that reads and writes single bits, numbers and Exp-Golomb codes. */
module BitStream {
  import opened Basics
  import opened BitXor
  import opened NalBytes
  import opened BitCodes

  function At(bits: seq<bool>, k: nat): bool
  {
    k < |bits| && bits[k]
  }

  /** The n bits from position k on, with zeros after the end. */
  function Taken(bits: seq<bool>, k: nat, n: nat): seq<bool>
  {
    seq(n, i requires 0 <= i => At(bits, k + i))
  }

  /** The code lies at position k. */
  ghost predicate Has(bits: seq<bool>, k: nat, code: seq<bool>)
  {
    k + |code| <= |bits| && bits[k..k + |code|] == code
  }

  /** Writing a code at position k, if it fits, has changed just those bits. */
  ghost predicate Wrote(now: seq<bool>, was: seq<bool>, k: nat, code: seq<bool>)
  {
    |now| == |was| && (k + |code| <= |was| ==> now == was[..k] + code + was[k + |code|..])
  }

  lemma WroteNothing(was: seq<bool>, k: nat)
    ensures Wrote(was, was, k, [])
  {
  }

  lemma WroteMore(next: seq<bool>, now: seq<bool>, was: seq<bool>, k: nat, a: seq<bool>, b: seq<bool>)
    requires Wrote(now, was, k, a) && Wrote(next, now, k + |a|, b)
    ensures Wrote(next, was, k, a + b)
  {
    if k + |a + b| <= |was| {
      assert now[..k + |a|] == was[..k] + a;
      assert now[k + |a| + |b|..] == was[k + |a + b|..];
      assert next == was[..k] + a + b + was[k + |a + b|..];
    }
  }

  lemma HasPart(bits: seq<bool>, k: nat, a: seq<bool>, b: seq<bool>)
    ensures Has(bits, k, a + b) <==> Has(bits, k, a) && Has(bits, k + |a|, b)
  {
    if Has(bits, k, a + b) {
      assert bits[k..k + |a|] == bits[k..k + |a + b|][..|a|];
      assert bits[k + |a|..k + |a| + |b|] == bits[k..k + |a + b|][|a|..];
    }
    if Has(bits, k, a) && Has(bits, k + |a|, b) {
      assert bits[k..k + |a + b|] == bits[k..k + |a|] + bits[k + |a|..k + |a| + |b|];
    }
  }

  lemma HasTaken(bits: seq<bool>, k: nat, code: seq<bool>)
    requires Has(bits, k, code)
    ensures Taken(bits, k, |code|) == code
  {
    forall i | 0 <= i < |code| ensures At(bits, k + i) == code[i] {
      assert bits[k..k + |code|][i] == code[i];
    }
  }

  lemma HasAt(bits: seq<bool>, k: nat, code: seq<bool>, i: nat)
    requires Has(bits, k, code) && i < |code|
    ensures k + i < |bits| && bits[k + i] == code[i]
  {
    assert bits[k..k + |code|][i] == code[i];
  }

  lemma TakenNext(bits: seq<bool>, k: nat, n: nat)
    ensures Taken(bits, k, n + 1) == Taken(bits, k, n) + [At(bits, k + n)]
  {
  }

  lemma NumberNext(s: seq<bool>, b: bool)
    ensures Number(s + [b]) == 2 * Number(s) + Digit(b)
  {
    assert (s + [b])[..|s + [b]| - 1] == s;
  }

  class Bs {
    const buf: array<Byte>
    const end: nat
    var p: nat
    var bits_left: nat

    ghost predicate Valid()
      reads this
    {
      end <= buf.Length && 1 <= bits_left <= 8
    }

    /** How many bits have been read or written. */
    function Pos(): nat
      requires 1 <= bits_left <= 8
      reads this
    {
      8 * p + (8 - bits_left)
    }

    ghost function Stream(): (s: seq<bool>)
      requires Valid()
      reads this, buf
      ensures |s| == 8 * end
    {
      Bits(buf[..end])
    }

    constructor (buf: array<Byte>, size: nat)
      requires size <= buf.Length
      ensures Valid() && this.buf == buf && end == size && Pos() == 0
      ensures Stream() == Bits(buf[..size])
    {
      this.buf := buf;
      end, p, bits_left := size, 0, 8;
    }

    predicate ByteAligned()
      reads this
    {
      bits_left == 8
    }

    predicate Eof()
      reads this
    {
      p >= end
    }

    predicate Overrun()
      reads this
    {
      p > end
    }

    // ----- reading

    method ReadU1() returns (r: nat)
      requires Valid()
      modifies this
      ensures Valid() && Pos() == old(Pos()) + 1
      ensures r == Digit(At(Stream(), old(Pos())))
    {
      hide Binary, Bits, Shifted;
      r := 0;
      bits_left := bits_left - 1;
      if !Eof() {
        r := Shifted(buf[p], bits_left) % 2;
        BitsAt(buf[..end], p, 7 - bits_left);
        BinaryAt(8, buf[p], 7 - bits_left);
      }
      if bits_left == 0 {
        p := p + 1;
        bits_left := 8;
      }
    }

    /** Reads n bits, highest first; bits after the end of the buffer read as zero. */
    method ReadU(n: nat) returns (r: nat)
      requires Valid()
      modifies this
      ensures Valid() && Pos() == old(Pos()) + n
      ensures r == Number(Taken(Stream(), old(Pos()), n))
    {
      hide Bits, Number, Two;
      r := 0;
      ghost var start, bits := Pos(), Stream();
      ghost var head: nat := 0;
      assert Number(Taken(bits, start, 0)) == 0 by { NoNumber(); }
      for i := 0 to n
        invariant Valid() && Stream() == bits && Pos() == start + i
        invariant r == Number(Taken(bits, start, i)) * Two(n - i)
      {
        TakenNext(bits, start, i);
        NumberNext(Taken(bits, start, i), At(bits, start + i));
        TwoNext(n - i - 1);
        NextSum(Number(Taken(bits, start, i)), Digit(At(bits, start + i)), Two(n - i - 1));
        var bit := ReadU1();
        r := r + bit * Two(n - i - 1);
      }
      assert Two(0) == 1 by { TwoZero(); }
    }

    /** Reads a byte at once where that is possible. */
    method ReadU8() returns (r: nat)
      requires Valid()
      modifies this
      ensures Valid() && Pos() == old(Pos()) + 8
      ensures r == Number(Taken(Stream(), old(Pos()), 8))
    {
      if bits_left == 8 && !Eof() {
        r := buf[p];
        ByteTaken(buf[..end], p);
        p := p + 1;
        return;
      }
      r := ReadU(8);
    }

    /** Reads an unsigned Exp-Golomb code.  If there is the code of v, the result is v. */
    method ReadUe(ghost v: nat) returns (r: nat)
      requires Valid() && v <= UE_MAX
      modifies this
      ensures Valid()
      ensures Has(Stream(), old(Pos()), UeCode(v)) ==> r == v && Pos() == old(Pos()) + |UeCode(v)|
    {
      hide Bits, Number, Two, Taken, UeCode, At;
      ghost var start, bits, code := Pos(), Stream(), UeCode(v);
      ghost var good := Has(bits, start, code);
      ghost var l := UeZeros(v);
      UeParts(v);
      var i: nat := 0;
      while true
        invariant Valid() && Stream() == bits && i <= 32
        invariant good ==> i <= l && Pos() == start + i
        decreases 32 - i
      {
        if good {
          HasAt(bits, start, code, i);
          if i < l {
            HasAt(bits, start, code, i + 1);
          }
        }
        BitAt(bits, Pos());
        var bit := ReadU1();
        if !(bit == 0 && i < 32 && !Eof()) {
          break;
        }
        i := i + 1;
      }
      var rest := ReadU(i);
      if good {
        UeRest(bits, start, v);
      }
      r := (rest + Two(i) - 1) % 0x1_0000_0000;
      if good {
        assert r == v;
      }
    }

    /** Reads a signed Exp-Golomb code. */
    method ReadSe(ghost v: int) returns (r: int)
      requires Valid() && SeNumber(v) <= UE_MAX
      modifies this
      ensures Valid()
      ensures Has(Stream(), old(Pos()), UeCode(SeNumber(v))) ==> r == v && Pos() == old(Pos()) + |UeCode(SeNumber(v))|
    {
      hide Bits, UeCode, Has;
      r := ReadUe(SeNumber(v));
      if r % 2 == 1 {
        r := (r + 1) / 2;
      } else {
        r := -(r / 2);
      }
    }

    method SkipU(n: nat)
      requires Valid()
      modifies this
      ensures Valid() && Pos() == old(Pos()) + n
    {
      for i := 0 to n
        invariant Valid() && Pos() == old(Pos()) + i
      {
        bits_left := bits_left - 1;
        if bits_left == 0 {
          p := p + 1;
          bits_left := 8;
        }
      }
    }

    // ----- writing

    /** Writes the lowest bit of v; after the end of the buffer nothing is written. */
    method WriteU1(v: nat)
      requires Valid()
      modifies this, buf
      ensures Valid() && Pos() == old(Pos()) + 1
      ensures Wrote(Stream(), old(Stream()), old(Pos()), [v % 2 == 1])
      ensures forall i :: end <= i < buf.Length ==> buf[i] == old(buf[i])
    {
      hide Binary, Bits, Shifted, WithBit, Two;
      bits_left := bits_left - 1;
      if !Eof() {
        ghost var bytes, b := buf[..end], v % 2 == 1;
        WithBitIs(buf[p], bits_left, b);
        EightBits();
        WithBitSmall(8, buf[p], bits_left, b);
        WithBitBinary(8, buf[p], bits_left, b);
        var cleared := buf[p] - (Shifted(buf[p], bits_left) % 2) * Two(bits_left);
        buf[p] := cleared + (v % 2) * Two(bits_left);
        assert buf[..end] == bytes[p := buf[p]];
        BitReplaced(bytes, p, buf[p], 7 - bits_left, b);
      }
      if bits_left == 0 {
        p := p + 1;
        bits_left := 8;
      }
    }

    /** Writes the lowest n bits of v, highest first. */
    method WriteU(n: nat, v: nat)
      requires Valid()
      modifies this, buf
      ensures Valid() && Pos() == old(Pos()) + n
      ensures Wrote(Stream(), old(Stream()), old(Pos()), Binary(n, v))
      ensures forall i :: end <= i < buf.Length ==> buf[i] == old(buf[i])
    {
      hide Binary, Bits, Shifted, Wrote;
      ghost var start, was, code := Pos(), Stream(), Binary(n, v);
      WroteNothing(was, start);
      assert code[..0] == [];
      for i := 0 to n
        invariant Valid() && Pos() == start + i
        invariant Wrote(Stream(), was, start, code[..i])
        invariant forall k :: end <= k < buf.Length ==> buf[k] == old(buf[k])
      {
        BinaryAt(n, v, i);
        ghost var now := Stream();
        var bit := Shifted(v, n - i - 1) % 2;
        WriteU1(bit);
        WroteMore(Stream(), now, was, start, code[..i], [code[i]]);
        assert code[..i + 1] == code[..i] + [code[i]];
      }
      assert code[..n] == code;
    }

    /** Writes a byte at once where that is possible. */
    method WriteU8(v: nat)
      requires Valid()
      modifies this, buf
      ensures Valid() && Pos() == old(Pos()) + 8
      ensures Wrote(Stream(), old(Stream()), old(Pos()), Binary(8, v))
      ensures forall i :: end <= i < buf.Length ==> buf[i] == old(buf[i])
    {
      hide Binary, Bits;
      if bits_left == 8 && !Eof() {
        ghost var bytes := buf[..end];
        buf[p] := v % 256;
        assert buf[..end] == bytes[p := buf[p]];
        BitsReplaced(bytes, p, v % 256);
        LowByte(v);
        p := p + 1;
        return;
      }
      WriteU(8, v);
    }

    /** Writes an unsigned Exp-Golomb code. */
    method WriteUe(v: nat)
      requires Valid() && v <= UE_MAX
      modifies this, buf
      ensures Valid() && Pos() == old(Pos()) + |UeCode(v)|
      ensures Wrote(Stream(), old(Stream()), old(Pos()), UeCode(v))
      ensures forall i :: end <= i < buf.Length ==> buf[i] == old(buf[i])
    {
      hide Binary, Bits, Wrote;
      if v == 0 {
        ShortestCode();
        WriteU1(1);
      } else {
        LengthIs(v + 1);
        var len := Length(v + 1);
        WriteU(2 * len - 1, v + 1);
      }
    }

    /** Writes a signed Exp-Golomb code. */
    method WriteSe(v: int)
      requires Valid() && SeNumber(v) <= UE_MAX
      modifies this, buf
      ensures Valid() && Pos() == old(Pos()) + |UeCode(SeNumber(v))|
      ensures Wrote(Stream(), old(Stream()), old(Pos()), UeCode(SeNumber(v)))
      ensures forall i :: end <= i < buf.Length ==> buf[i] == old(buf[i])
    {
      hide UeCode, Bits, Wrote;
      if v <= 0 {
        WriteUe(-v * 2);
      } else {
        WriteUe(v * 2 - 1);
      }
    }
  }

  function UeZeros(v: nat): nat
    requires v <= UE_MAX
  {
    LengthIs(v + 1);
    Length(v + 1) - 1
  }

  lemma NoNumber()
    ensures Number([]) == 0 && forall bits, k :: Taken(bits, k, 0) == []
  {
  }

  lemma TwoZero()
    ensures Two(0) == 1
  {
  }

  lemma EightBits()
    ensures Two(8) == 256
  {
    Powers();
  }

  lemma NextSum(a: nat, b: nat, w: nat)
    ensures (2 * a + b) * w == a * (2 * w) + b * w
  {
  }

  lemma BitAt(bits: seq<bool>, k: nat)
    ensures k < |bits| ==> At(bits, k) == bits[k]
  {
  }

  lemma ByteTaken(bytes: seq<Byte>, p: nat)
    requires p < |bytes|
    ensures Number(Taken(Bits(bytes), 8 * p, 8)) == bytes[p]
  {
    hide Binary, Bits, Number, Two;
    forall i | 0 <= i < 8 ensures At(Bits(bytes), 8 * p + i) == Binary(8, bytes[p])[i] {
      BitsAt(bytes, p, i);
    }
    assert Taken(Bits(bytes), 8 * p, 8) == Binary(8, bytes[p]);
    NumberBinary(8, bytes[p]);
    EightBits();
  }

  /** The part of a code after its first one. */
  lemma UeRest(bits: seq<bool>, k: nat, v: nat)
    requires v <= UE_MAX && Has(bits, k, UeCode(v))
    ensures Number(Taken(bits, k + UeZeros(v) + 1, UeZeros(v))) + Two(UeZeros(v)) - 1 == v
  {
    hide Number, Two, UeCode;
    UeParts(v);
    var l, code := UeZeros(v), UeCode(v);
    assert code == code[..l + 1] + code[l + 1..];
    HasPart(bits, k, code[..l + 1], code[l + 1..]);
    HasTaken(bits, k + l + 1, code[l + 1..]);
  }

  /** Replacing one bit of one byte. */
  lemma BitReplaced(bytes: seq<Byte>, p: nat, x: Byte, i: nat, b: bool)
    requires p < |bytes| && i < 8 && Binary(8, x) == Binary(8, bytes[p])[i := b]
    ensures Wrote(Bits(bytes[p := x]), Bits(bytes), 8 * p + i, [b])
  {
    hide Binary, Bits;
    BitsReplaced(bytes, p, x);
    var was, now := Bits(bytes), Bits(bytes[p := x]);
    forall k | 0 <= k < 8 ensures was[8 * p + k] == Binary(8, bytes[p])[k] {
      BitsAt(bytes, p, k);
    }
    var goal := was[..8 * p + i] + [b] + was[8 * p + i + 1..];
    forall k | 0 <= k < |was| ensures now[k] == goal[k] {
      if 8 * p <= k < 8 * p + 8 {
        assert now[k] == Binary(8, x)[k - 8 * p];
      }
    }
  }

  /** Only the low byte counts. */
  lemma {:induction false} LowBits(n: nat, v: nat)
    ensures Binary(n, v % Two(n)) == Binary(n, v)
    decreases n
  {
    if n > 0 {
      LowBits(n - 1, v / 2);
      ModTwice(v, Two(n - 1));
      assert (v % Two(n)) / 2 == v / 2 % Two(n - 1) && (v % Two(n)) % 2 == v % 2;
    }
  }

  lemma LowByte(v: nat)
    ensures Binary(8, v % 256) == Binary(8, v)
  {
    hide Binary;
    EightBits();
    LowBits(8, v);
  }

  lemma ShortestCode()
    ensures UeCode(0) == [true]
  {
    assert Binary(1, 1) == Binary(0, 0) + [true];
  }
}
