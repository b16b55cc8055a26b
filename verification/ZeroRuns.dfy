/**
 Why packing hardly lengthens some payloads: an emulation byte needs twenty-two zero bits in a row, and only in a run of
 thirty-eight or more do such bytes come closer than one in every three.
 */
module ZeroRuns {
  import opened Basics
  import opened BitXor
  import opened NalBytes
  import opened BitCodes

  /**
   What a run of zero bits can gain on one emulation byte for every three bytes, in thirds of a byte.  Four is more than
   any payload here may gain in all.
   */
  function Gain(zeros: nat): nat
  {
    if zeros < 38 then 0 else if zeros < 54 then 1 else if zeros < 70 then 2 else 4
  }

  /** The zero bits just read, and the gain of all the runs that have ended. */
  datatype Run = Run(zeros: nat, gain: nat)

  function NextBit(r: Run, b: bool): Run
  {
    if b then Run(0, r.gain + Gain(r.zeros)) else Run(r.zeros + 1, r.gain)
  }

  function Scan(bits: seq<bool>, r: Run): Run
    decreases |bits|
  {
    if bits == [] then r else Scan(bits[1..], NextBit(r, bits[0]))
  }

  function Worth(r: Run): nat
  {
    r.gain + Gain(r.zeros)
  }

  lemma {:induction false} ScanAppend(a: seq<bool>, b: seq<bool>, r: Run)
    ensures Scan(a + b, r) == Scan(b, Scan(a, r))
    decreases |a|
  {
    if a == [] {
      assert a + b == b;
    } else {
      assert (a + b)[0] == a[0] && (a + b)[1..] == a[1..] + b;
      ScanAppend(a[1..], b, NextBit(r, a[0]));
    }
  }

  lemma {:induction false} ScanGrows(bits: seq<bool>, r: Run)
    ensures Worth(Scan(bits, r)) >= Worth(r)
    decreases |bits|
  {
    if bits != [] {
      ScanGrows(bits[1..], NextBit(r, bits[0]));
    }
  }

  lemma {:induction false} ScanZeros(bits: seq<bool>, r: Run)
    requires forall i :: 0 <= i < |bits| ==> !bits[i]
    ensures Scan(bits, r) == Run(r.zeros + |bits|, r.gain)
    decreases |bits|
  {
    if bits != [] {
      ScanZeros(bits[1..], NextBit(r, bits[0]));
    }
  }

  /** Zeros, a one, and a few bits more. */
  lemma ScanOne(bits: seq<bool>, k: nat, r: Run)
    requires k < |bits| <= k + 38 && bits[k] && forall i :: 0 <= i < k ==> !bits[i]
    ensures var t := Scan(bits, r); t.gain == r.gain + Gain(r.zeros + k) && t.zeros < |bits| - k
  {
    hide Scan, Gain;
    assert bits == bits[..k] + ([bits[k]] + bits[k + 1..]);
    ScanAppend(bits[..k], [bits[k]] + bits[k + 1..], r);
    ScanZeros(bits[..k], r);
    var t := Run(r.zeros + k, r.gain);
    ScanAppend([bits[k]], bits[k + 1..], t);
    ScanBit(bits[k], t);
    ScanShort(bits[k + 1..], Run(0, r.gain + Gain(r.zeros + k)));
  }

  lemma ScanBit(b: bool, r: Run)
    ensures Scan([b], r) == NextBit(r, b)
  {
    assert [b][1..] == [];
    assert Scan([], NextBit(r, b)) == NextBit(r, b);
  }

  lemma {:induction false} ScanShort(bits: seq<bool>, r: Run)
    requires r.zeros + |bits| < 38
    ensures Scan(bits, r).gain == r.gain && Scan(bits, r).zeros <= r.zeros + |bits|
    decreases |bits|
  {
    if bits != [] {
      ScanShort(bits[1..], NextBit(r, bits[0]));
    }
  }

  // ----- bytes

  lemma {:induction false} NoOnes(s: seq<bool>)
    requires forall i :: 0 <= i < |s| ==> !s[i]
    ensures Number(s) == 0
    decreases |s|
  {
    if s != [] {
      NoOnes(s[..|s| - 1]);
    }
  }

  lemma {:induction false} FirstTrue(s: seq<bool>) returns (k: nat)
    requires !forall i :: 0 <= i < |s| ==> !s[i]
    ensures k < |s| && s[k] && forall i :: 0 <= i < k ==> !s[i]
    decreases |s|
  {
    if s[0] {
      k := 0;
    } else {
      assert !forall i :: 0 <= i < |s[1..]| ==> !s[1..][i];
      var j := FirstTrue(s[1..]);
      k := j + 1;
      assert forall i :: 0 < i < k ==> s[i] == s[1..][i - 1];
    }
  }

  lemma SmallByte(b: Byte)
    requires b <= 3
    ensures forall i :: 0 <= i < 6 ==> !Binary(8, b)[i]
  {
    assert Binary(8, b) == Binary(7, b / 2) + [b % 2 == 1];
    assert Binary(7, b / 2) == Binary(6, 0) + [b / 2 % 2 == 1];
    hide Binary;
    BinaryZero(6);
  }

  /** The zero bits at the start of a byte other than zero. */
  lemma FirstOne(b: Byte) returns (k: nat)
    requires b != 0
    ensures k < 8 && Binary(8, b)[k] && (forall i :: 0 <= i < k ==> !Binary(8, b)[i]) && (b <= 3 ==> k >= 6)
  {
    hide Binary, Number, Two;
    var s := Binary(8, b);
    if forall i :: 0 <= i < 8 ==> !s[i] {
      NoOnes(s);
      NumberBinary(8, b);
      Powers();
    }
    k := FirstTrue(s);
    if b <= 3 {
      SmallByte(b);
    }
  }

  lemma ScanByte(b: Byte, r: Run) returns (k: nat)
    ensures k < 8
    ensures b == 0 ==> Scan(Binary(8, b), r) == Run(r.zeros + 8, r.gain)
    ensures b != 0 ==>
      Scan(Binary(8, b), r).zeros < 8 && Scan(Binary(8, b), r).gain == r.gain + Gain(r.zeros + k) && (b <= 3 ==> k >= 6)
  {
    hide Scan, Binary, Gain;
    if b == 0 {
      k := 0;
      BinaryZero(8);
      ScanZeros(Binary(8, b), r);
    } else {
      k := FirstOne(b);
      ScanOne(Binary(8, b), k, r);
    }
  }

  /** The run at the end of the first i bytes. */
  function RunAt(x: seq<Byte>, i: nat): Run
    requires i <= |x|
  {
    Scan(Bits(x[..i]), Run(0, 0))
  }

  lemma RunNext(x: seq<Byte>, i: nat)
    requires i < |x|
    ensures RunAt(x, i + 1) == Scan(Binary(8, x[i]), RunAt(x, i))
  {
    hide Scan, Binary;
    var s, t := x[..i], x[..i + 1];
    forall j | 0 <= j < 8 ensures Bits(t)[8 * i + j] == Binary(8, x[i])[j] {
      BitsAt(t, i, j);
    }
    BitsPrefix(t, i);
    assert t[..i] == s;
    assert Bits(t) == Bits(s) + Binary(8, x[i]);
    ScanAppend(Bits(s), Binary(8, x[i]), Run(0, 0));
  }

  lemma RunEarlier(x: seq<Byte>, i: nat)
    requires i <= |x|
    ensures Worth(RunAt(x, i)) <= Worth(Scan(Bits(x), Run(0, 0)))
  {
    hide Scan, Bits;
    BitsPrefix(x, i);
    var b := Bits(x);
    assert |b| == 8 * |x| by { BitCount(x); }
    ScanAppend(b[..8 * i], b[8 * i..], Run(0, 0));
    ScanGrows(b[8 * i..], RunAt(x, i));
    assert b[..8 * i] + b[8 * i..] == b;
  }

  lemma BitCount(x: seq<Byte>)
    ensures |Bits(x)| == 8 * |x|
  {
  }

  /** The zeros counted in packing after a byte other than zero and n zero bytes. */
  function Counted(n: nat): nat
  {
    if n == 0 then 0 else if n % 2 == 0 then 2 else 1
  }

  /** What n zero bytes have gained so far, in thirds of a byte. */
  function Gained(n: nat): int
  {
    if n == 0 then 0 else if n % 2 == 0 then n / 2 - 3 else n / 2 - 1
  }

  /** After i bytes, the last n of which are zero. */
  predicate Stage(x: seq<Byte>, i: nat, n: nat)
    requires i <= |x|
  {
    && 8 * n <= RunAt(x, i).zeros < 8 * n + 8 && ZerosAfter(x[..i], 0) == Counted(n)
    && 3 * |Packed(x[..i], 0)| <= 4 * i - 1 + RunAt(x, i).gain + Gained(n)
  }

  lemma {:induction false} StageAt(x: seq<Byte>, i: nat) returns (n: nat)
    requires 0 < i <= |x| && x[0] != 0 && Worth(Scan(Bits(x), Run(0, 0))) <= 3
    ensures Stage(x, i, n)
    decreases i
  {
    hide Scan, Packed, ZerosAfter, Bits, Gain, Counted, Gained, Binary;
    RunNext(x, i - 1);
    RunEarlier(x, i);
    PackedNext(x, i - 1);
    var k := ScanByte(x[i - 1], RunAt(x, i - 1));
    if i == 1 {
      n := 0;
      NothingScanned();
      assert x[..0] == [];
      NothingPacked();
      FirstStage(k);
    } else {
      var m := StageAt(x, i - 1);
      n := if x[i - 1] == 0 then m + 1 else 0;
      StageNext(m, x[i - 1], RunAt(x, i - 1), k);
    }
  }

  lemma NothingScanned()
    ensures Scan(Bits([]), Run(0, 0)) == Run(0, 0)
  {
    assert Bits([]) == [];
  }

  lemma FirstStage(k: nat)
    requires k < 8
    ensures Gain(k) == 0 && Counted(0) == 0 && Gained(0) == 0
  {
  }

  /** One more byte: what is gained by it, and where the count of zeros stands. */
  lemma StageNext(m: nat, b: Byte, r: Run, k: nat)
    requires 8 * m <= r.zeros < 8 * m + 8
    requires b != 0 ==> (b <= 3 ==> k >= 6) && r.gain + Gain(r.zeros + k) <= 3
    ensures var pair := Counted(m) == 2 && b <= 3; var cost := if pair then 2 else -1;
      if b == 0 then
        Counted(m + 1) == Zeros(if pair then 0 else Counted(m), b) && Gained(m + 1) == Gained(m) + cost
      else
        Counted(0) == Zeros(if pair then 0 else Counted(m), b) && Gained(m) + cost <= Gain(r.zeros + k) + Gained(0)
  {
  }

  /** A payload whose runs of zeros gain little is packed in four thirds of its bytes, and so is every start of it. */
  lemma PackedInFourThirds(x: seq<Byte>, i: nat)
    requires i <= |x| && x != [] && x[0] != 0 && Worth(Scan(Bits(x), Run(0, 0))) <= 3
    ensures 3 * |Packed(x[..i], 0)| <= 4 * i + 2
  {
    hide Scan, Packed, ZerosAfter, Bits;
    if i == 0 {
      assert x[..0] == [];
      NothingPacked();
    } else {
      var n := StageAt(x, i);
      RunEarlier(x, i);
      GainedLess(n, RunAt(x, i).zeros);
    }
  }

  lemma GainedLess(n: nat, zeros: nat)
    requires 8 * n <= zeros < 8 * n + 8 && Gain(zeros) <= 3
    ensures Gained(n) <= Gain(zeros)
  {
  }

  /** If three quarters of the size hold such a payload, the size holds its packed form, and is not overrun. */
  lemma CapSuffices(x: seq<Byte>, size: nat)
    requires x != [] && x[0] != 0 && Worth(Scan(Bits(x), Run(0, 0))) <= 3 && |x| <= size * 3 / 4
    ensures PacksWithin(x, size) && !Overruns(x, size)
  {
    hide Scan, Packed, ZerosAfter, Bits;
    PackedInFourThirds(x, |x| - 1);
    forall i | 0 <= i < |x| ensures !PairAtEnd(x, i, size) {
      PackedNext(x, i);
      PackedInFourThirds(x, i + 1);
    }
  }

  // ----- bounds

  /** What a run will be worth after m more zeros. */
  function WorthAfter(r: Run, m: nat): nat
  {
    r.gain + Gain(r.zeros + m)
  }

  /** However many zeros follow, up to a run of 75, r will not be worth more than the bound. */
  ghost predicate Below(r: Run, bound: Run)
  {
    forall m: nat :: bound.zeros + m <= 75 ==> WorthAfter(r, m) <= WorthAfter(bound, m)
  }

  lemma GainSum(a: nat, b: nat)
    requires a + b < 75
    ensures Gain(a) + Gain(b) <= Gain(a + b + 1)
  {
  }

  lemma GainMonotone(a: nat, b: nat)
    requires a <= b
    ensures Gain(a) <= Gain(b)
  {
  }

  /** Any bits: at worst they are zeros. */
  lemma {:induction false} BelowBits(bits: seq<bool>, r: Run, bound: Run)
    requires Below(r, bound) && bound.zeros + |bits| <= 75
    ensures Below(Scan(bits, r), Run(bound.zeros + |bits|, bound.gain))
    decreases |bits|
  {
    hide Gain, Below;
    if bits != [] {
      BelowBit(bits[0], r, bound);
      BelowBits(bits[1..], NextBit(r, bits[0]), Run(bound.zeros + 1, bound.gain));
    }
  }

  lemma BelowBit(b: bool, r: Run, bound: Run)
    requires Below(r, bound) && bound.zeros < 75
    ensures Below(NextBit(r, b), Run(bound.zeros + 1, bound.gain))
  {
    hide Gain;
    var t, next := NextBit(r, b), Run(bound.zeros + 1, bound.gain);
    assert WorthAfter(r, 0) <= WorthAfter(bound, 0);
    forall m: nat | next.zeros + m <= 75 ensures WorthAfter(t, m) <= WorthAfter(next, m) {
      if b {
        GainSum(bound.zeros, m);
      } else {
        assert WorthAfter(r, m + 1) <= WorthAfter(bound, m + 1);
      }
    }
  }

  lemma BelowReset(r: Run, bound: Run)
    requires Below(r, bound) && bound.zeros <= 75
    ensures Below(NextBit(r, true), Run(0, bound.gain + Gain(bound.zeros)))
  {
    hide Gain;
    assert WorthAfter(r, 0) <= WorthAfter(bound, 0);
  }

  /** A one after k zeros, and any bits: the run before it is over. */
  lemma BelowOne(bits: seq<bool>, k: nat, r: Run, bound: Run)
    requires k < |bits| && bits[k] && bound.zeros + k < 75 && |bits| - k <= 75
    requires Below(r, bound)
    ensures Below(Scan(bits, r), Run(|bits| - k - 1, bound.gain + Gain(bound.zeros + k)))
  {
    hide Gain, Scan, Below;
    var a, c := bits[..k], bits[k + 1..];
    assert bits == a + ([bits[k]] + c);
    ScanAppend(a, [bits[k]] + c, r);
    BelowBits(a, r, bound);
    var t := Scan(a, r);
    ScanAppend([bits[k]], c, t);
    ScanBit(bits[k], t);
    BelowReset(t, Run(bound.zeros + k, bound.gain));
    BelowBits(c, NextBit(t, true), Run(0, bound.gain + Gain(bound.zeros + k)));
  }
}
