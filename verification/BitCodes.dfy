/** Fixed-length and Exp-Golomb codes as sequences of bits, and bytes as eight bits each. */
module BitCodes {
  import opened Basics
  import opened BitXor
  import opened NalBytes

  /** The lowest n bits of a number, highest first. */
  function Binary(n: nat, v: nat): (s: seq<bool>)
    ensures |s| == n
    decreases n
  {
    if n == 0 then [] else Binary(n - 1, v / 2) + [v % 2 == 1]
  }

  function Digit(b: bool): nat { if b then 1 else 0 }

  /** The number with the given bits. */
  function Number(s: seq<bool>): nat
    decreases |s|
  {
    if s == [] then 0 else 2 * Number(s[..|s| - 1]) + Digit(s[|s| - 1])
  }

  /** The number shifted right by n bits. */
  function Shifted(v: nat, n: nat): nat
    decreases n
  {
    if n == 0 then v else Shifted(v / 2, n - 1)
  }

  lemma {:induction false} NumberBinary(n: nat, v: nat)
    ensures Two(n) > 0 && Number(Binary(n, v)) == v % Two(n)
    decreases n
  {
    if n > 0 {
      NumberBinary(n - 1, v / 2);
      assert Binary(n, v)[..n - 1] == Binary(n - 1, v / 2);
      ModTwice(v, Two(n - 1));
    }
  }

  lemma ModTwice(v: nat, w: nat)
    requires w > 0
    ensures v % (2 * w) == 2 * (v / 2 % w) + v % 2
  {
    var h, q, r := v / 2, v / 2 / w, v / 2 % w;
    assert h == q * w + r;
    assert v == q * (2 * w) + (2 * r + v % 2);
    ModIs(v, 2 * w, q, 2 * r + v % 2);
  }

  lemma ModIs(a: nat, d: nat, q: nat, r: nat)
    requires d > 0 && a == q * d + r && r < d
    ensures a % d == r && a / d == q
  {
    var q' := a / d;
    assert a == q' * d + a % d;
    if q' < q {
      Mono(q' + 1, q, d);
    } else if q' > q {
      Mono(q + 1, q', d);
    }
  }

  lemma Mono(a: nat, b: nat, c: nat)
    requires a <= b
    ensures a * c <= b * c
  {
  }

  /** Each bit of the code of a number, by shifting. */
  lemma {:induction false} BinaryAt(n: nat, v: nat, i: nat)
    requires i < n
    ensures Binary(n, v)[i] == (Shifted(v, n - 1 - i) % 2 == 1)
    decreases n
  {
    if i < n - 1 {
      BinaryAt(n - 1, v / 2, i);
    }
  }

  lemma Double(a: nat, w: nat)
    ensures 2 * (a * w) == a * (2 * w)
  {
  }

  // ----- bits within a byte

  /** The number with bit k (counted from the lowest) replaced. */
  function WithBit(x: nat, k: nat, b: bool): nat
    decreases k
  {
    if k == 0 then x / 2 * 2 + Digit(b) else 2 * WithBit(x / 2, k - 1, b) + x % 2
  }

  lemma {:induction false} WithBitIs(x: nat, k: nat, b: bool)
    ensures WithBit(x, k, b) == x - (Shifted(x, k) % 2) * Two(k) + Digit(b) * Two(k)
    decreases k
  {
    if k == 0 {
      assert Two(0) == 1;
    } else {
      WithBitIs(x / 2, k - 1, b);
      Double(Shifted(x, k) % 2, Two(k - 1));
      Double(Digit(b), Two(k - 1));
    }
  }

  lemma {:induction false} WithBitBinary(n: nat, x: nat, k: nat, b: bool)
    requires k < n
    ensures Binary(n, WithBit(x, k, b)) == Binary(n, x)[n - 1 - k := b]
    decreases n
  {
    var y := WithBit(x, k, b);
    if k == 0 {
      assert y / 2 == x / 2;
    } else {
      WithBitBinary(n - 1, x / 2, k - 1, b);
      assert y / 2 == WithBit(x / 2, k - 1, b) && y % 2 == x % 2;
    }
  }

  lemma HalfBelow(x: nat, w: nat)
    requires x < 2 * w
    ensures x / 2 < w
  {
  }

  lemma TwiceBelow(y: nat, d: nat, w: nat)
    requires y < w && d < 2
    ensures 2 * y + d < 2 * w && y * 2 + d < 2 * w
  {
  }

  lemma {:induction false} WithBitSmall(n: nat, x: nat, k: nat, b: bool)
    requires k < n && x < Two(n)
    ensures WithBit(x, k, b) < Two(n)
    decreases n
  {
    var w := Two(n - 1);
    assert Two(n) == 2 * w;
    hide Two;
    HalfBelow(x, w);
    if k > 0 {
      WithBitSmall(n - 1, x / 2, k - 1, b);
      TwiceBelow(WithBit(x / 2, k - 1, b), x % 2, w);
    } else {
      TwiceBelow(x / 2, Digit(b), w);
    }
  }

  /** The bits of bytes, in reading order. */
  function Bits(bytes: seq<Byte>): (s: seq<bool>)
    ensures |s| == 8 * |bytes|
  {
    seq(8 * |bytes|, k requires 0 <= k < 8 * |bytes| => Binary(8, bytes[k / 8])[k % 8])
  }

  lemma BitsAt(bytes: seq<Byte>, p: nat, i: nat)
    requires p < |bytes| && i < 8
    ensures Bits(bytes)[8 * p + i] == Binary(8, bytes[p])[i]
  {
    hide Binary;
    assert (8 * p + i) / 8 == p && (8 * p + i) % 8 == i;
  }

  /** Replacing one byte replaces its eight bits. */
  lemma BitsReplaced(bytes: seq<Byte>, p: nat, x: Byte)
    requires p < |bytes|
    ensures Bits(bytes[p := x]) == Bits(bytes)[..8 * p] + Binary(8, x) + Bits(bytes)[8 * p + 8..]
  {
    hide Binary;
    var t := Bits(bytes)[..8 * p] + Binary(8, x) + Bits(bytes)[8 * p + 8..];
    forall k | 0 <= k < 8 * |bytes| ensures Bits(bytes[p := x])[k] == t[k] {
      ByteOf(k, p);
    }
  }

  lemma ByteOf(k: nat, p: nat)
    ensures k / 8 == p <==> 8 * p <= k < 8 * p + 8
    ensures k / 8 == p ==> k % 8 == k - 8 * p
  {
  }

  lemma BitsPrefix(bytes: seq<Byte>, n: nat)
    requires n <= |bytes|
    ensures Bits(bytes[..n]) == Bits(bytes)[..8 * n]
  {
    hide Binary;
  }

  lemma {:induction false} BinaryNumber(s: seq<bool>)
    ensures Binary(|s|, Number(s)) == s && Number(s) < Two(|s|)
    decreases |s|
  {
    if s != [] {
      var t, b := s[..|s| - 1], s[|s| - 1];
      BinaryNumber(t);
      var v := Number(s);
      assert v / 2 == Number(t) && (v % 2 == 1) == b;
      assert t + [b] == s;
    } else {
      assert Two(0) == 1;
    }
  }

  function ByteOfBits(s: seq<bool>): Byte
    requires |s| == 8
  {
    BinaryNumber(s);
    Powers();
    Number(s)
  }

  /** Whole bytes from their bits. */
  function BytesOf(bits: seq<bool>): seq<Byte>
    requires |bits| % 8 == 0
  {
    seq(|bits| / 8, k requires 0 <= k < |bits| / 8 => ByteOfBits(bits[8 * k..8 * k + 8]))
  }

  lemma BitsOfBytes(bits: seq<bool>)
    requires |bits| % 8 == 0
    ensures Bits(BytesOf(bits)) == bits
  {
    hide Binary, Number;
    forall k | 0 <= k < |bits| ensures Bits(BytesOf(bits))[k] == bits[k] {
      var p := k / 8;
      BinaryNumber(bits[8 * p..8 * p + 8]);
      assert bits[8 * p..8 * p + 8][k % 8] == bits[k];
    }
  }

  /** Bytes are known by their bits. */
  lemma BytesOfBits(bytes: seq<Byte>)
    ensures BytesOf(Bits(bytes)) == bytes
  {
    hide Binary, Number, Two;
    forall p | 0 <= p < |bytes| ensures BytesOf(Bits(bytes))[p] == bytes[p] {
      forall i | 0 <= i < 8 ensures Bits(bytes)[8 * p + i] == Binary(8, bytes[p])[i] {
        BitsAt(bytes, p, i);
      }
      assert Bits(bytes)[8 * p..8 * p + 8] == Binary(8, bytes[p]);
      NumberBinary(8, bytes[p]);
      Powers();
    }
  }

  // ----- Exp-Golomb codes

  /** The number of binary digits, as the table of 256 entries has it; 1 for zero. */
  function TableLength(v: nat): nat
    requires v < 256
  {
    if v < 2 then 1 else if v < 4 then 2 else if v < 8 then 3 else if v < 16 then 4
    else if v < 32 then 5 else if v < 64 then 6 else if v < 128 then 7 else 8
  }

  function Length(v: nat): nat
    requires v < 0x1_0000_0000
  {
    if v >= 0x100_0000 then 24 + TableLength(v / 0x100_0000)
    else if v >= 0x1_0000 then 16 + TableLength(v / 0x1_0000)
    else if v >= 0x100 then 8 + TableLength(v / 0x100)
    else TableLength(v)
  }

  const UE_MAX: nat := 65534

  lemma Powers()
    ensures Two(0) == 1 && Two(1) == 2 && Two(2) == 4 && Two(3) == 8 && Two(4) == 16
    ensures Two(5) == 32 && Two(6) == 64 && Two(7) == 128 && Two(8) == 256
  {
  }

  lemma LargePowers()
    ensures Two(9) == 512 && Two(10) == 1024 && Two(11) == 2048 && Two(12) == 4096
    ensures Two(13) == 8192 && Two(14) == 16384 && Two(15) == 32768 && Two(16) == 65536
  {
    Powers();
    assert Two(9) == 2 * Two(8);
    assert Two(10) == 2 * Two(9);
    assert Two(11) == 2 * Two(10);
    assert Two(12) == 2 * Two(11);
    assert Two(13) == 2 * Two(12);
    assert Two(14) == 2 * Two(13);
    assert Two(15) == 2 * Two(14);
    assert Two(16) == 2 * Two(15);
  }

  /** The length is the number of binary digits. */
  lemma LengthIs(v: nat)
    requires 1 <= v <= 65535
    ensures 1 <= Length(v) <= 16 && Two(Length(v) - 1) <= v < Two(Length(v))
  {
    Powers();
    LargePowers();
    hide Two;
    if v >= 0x100 {
      var h := v / 0x100;
      assert 0x100 * h <= v < 0x100 * h + 0x100;
    }
  }

  /** The code of an unsigned number: as many zeros as there are digits after the first, and then the digits. */
  function UeCode(v: nat): seq<bool>
    requires v <= UE_MAX
  {
    Binary(2 * Length(v + 1) - 1, v + 1)
  }

  /** The unsigned number that stands for a signed one. */
  function SeNumber(v: int): nat
  {
    if v <= 0 then -v * 2 else v * 2 - 1
  }

  lemma {:induction false} BinarySplit(m: nat, n: nat, v: nat)
    ensures Binary(m + n, v) == Binary(m, Shifted(v, n)) + Binary(n, v)
    decreases n
  {
    if n > 0 {
      BinarySplit(m, n - 1, v / 2);
    }
  }

  lemma {:induction false} BinaryZero(n: nat)
    ensures forall i :: 0 <= i < n ==> !Binary(n, 0)[i]
    decreases n
  {
    if n > 0 {
      BinaryZero(n - 1);
    }
  }

  /** The parts of a code that a reader looks at. */
  lemma UeParts(v: nat)
    requires v <= UE_MAX
    ensures var l := Length(v + 1) - 1;
      && l <= 15 && |UeCode(v)| == 2 * l + 1
      && (forall i :: 0 <= i < l ==> !UeCode(v)[i]) && UeCode(v)[l]
      && Number(UeCode(v)[l + 1..]) + Two(l) - 1 == v
  {
    hide Binary, Number, Two, Length;
    var w := v + 1;
    LengthIs(w);
    var l := Length(w) - 1;
    UeSplit(w, l);
    var code := UeCode(v);
    assert code == Binary(l, 0) + [true] + Binary(l, w);
    BinaryZero(l);
    assert forall i :: 0 <= i < l ==> code[i] == Binary(l, 0)[i];
    assert code[l + 1..] == Binary(l, w);
    NumberBinary(l, w);
    assert Two(l + 1) == 2 * Two(l) by { TwoNext(l); }
    ModIs(w, Two(l), 1, w - Two(l));
  }

  lemma TwoNext(l: nat)
    ensures Two(l + 1) == 2 * Two(l)
  {
  }

  lemma UeSplit(w: nat, l: nat)
    requires Two(l) <= w < Two(l + 1)
    ensures Binary(2 * l + 1, w) == Binary(l, 0) + [true] + Binary(l, w)
  {
    hide Binary;
    FirstDigit(w, l);
    BinarySplit(l + 1, l, w);
    LastDigit(l);
  }

  lemma {:induction false} FirstDigit(w: nat, l: nat)
    requires Two(l) <= w < Two(l + 1)
    ensures Shifted(w, l) == 1
    decreases l
  {
    if l > 0 {
      FirstDigit(w / 2, l - 1);
    } else {
      assert Two(0) == 1 && Two(1) == 2;
    }
  }

  lemma LastDigit(l: nat)
    ensures Binary(l + 1, 1) == Binary(l, 0) + [true]
  {
  }
}
