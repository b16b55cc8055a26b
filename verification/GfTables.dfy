/** The lookup tables of the erasure coder, and the loops that fill them. */
module GfTables {
  import opened BitXor
  import opened GaloisField

  const GF_BITS: nat := 8
  const GF_SIZE: nat := 255
  const GF_PP: string := "101110001"

  /** The static tables once they have been initialised. */
  datatype Tables = Tables(exp: seq<Gf>, log: seq<nat>, inverse: seq<Gf>, mul: seq<Gf>) {

    /** The tables represent the field. */
    ghost predicate Valid()
    {
      IsExp(exp) && IsLog(log) && IsInverse(inverse) && IsMul(mul)
    }

    /** The product read from the multiplication table. */
    function Times(a: Gf, b: Gf): (r: Gf)
      requires Valid()
      ensures r == Mul(a, b)
    {
      mul[a * 256 + b]
    }

    function Inverse(a: Gf): (r: Gf)
      requires Valid()
      ensures r == Inv(a)
    {
      inverse[a]
    }
  }

  ghost predicate IsExp(exp: seq<Gf>)
  {
    |exp| == 2 * GF_SIZE && forall i :: 0 <= i < 2 * GF_SIZE ==> exp[i] == Pow(i)
  }

  ghost predicate IsLog(log: seq<nat>)
  {
    && |log| == GF_SIZE + 1
    && log[0] == GF_SIZE
    && (forall a: Gf :: a != 0 ==> log[a] < GF_SIZE && Pow(log[a]) == a)
    && (forall i :: 0 <= i < GF_SIZE ==> log[Pow(i)] == i)
  }

  ghost predicate IsInverse(inverse: seq<Gf>)
  {
    |inverse| == GF_SIZE + 1 && forall a: Gf :: inverse[a] == Inv(a)
  }

  ghost predicate IsMul(mul: seq<Gf>)
  {
    |mul| == 65536 && forall a: Gf, b: Gf :: mul[a * 256 + b] == Mul(a, b)
  }

  /** x mod 255 by shifts and masks. */
  method Modnn(a: nat) returns (r: nat)
    ensures r == a % GF_SIZE
  {
    var x: nat := a;
    while x >= GF_SIZE
      invariant x % GF_SIZE == a % GF_SIZE
      decreases x
    {
      var y := x - GF_SIZE;
      ModFold(x, y);
      x := y / 256 + y % 256;
    }
    r := x;
  }

  lemma ModFold(x: nat, y: nat)
    requires x >= 255 && y == x - 255
    ensures (y / 256 + y % 256) % 255 == x % 255
    ensures y / 256 + y % 256 < x
  {
    var q, r := y / 256, y % 256;
    ModPlus(q + r, q + 1);
    assert x == (q + r) + 255 * (q + 1);
  }

  lemma {:induction false} ModPlus(a: nat, k: nat)
    ensures (a + 255 * k) % 255 == a % 255
    decreases k
  {
    if k > 0 {
      ModPlus(a, k - 1);
      assert a + 255 * k == (a + 255 * (k - 1)) + 255;
    }
  }

  lemma {:induction false} PowTwo(i: nat)
    requires i < 8
    ensures Pow(i) == Two(i) < 256
  {
    if i > 0 {
      PowTwo(i - 1);
      TwoBound(i - 1);
    }
  }

  lemma {:induction false} TwoBound(i: nat)
    requires i < 7
    ensures Two(i) <= 64
  {
    assert Two(0) == 1 && Two(1) == 2 && Two(2) == 4 && Two(3) == 8;
    assert Two(4) == 16 && Two(5) == 32 && Two(6) == 64;
  }

  /** The value of x^8 accumulated from the first digits of the reducing polynomial. */
  function PartialPoly(i: nat): Gf
  {
    if i == 0 then 0 else if i <= 2 then 1 else if i == 3 then 5 else if i == 4 then 13 else 29
  }

  lemma PolyStep(i: nat)
    requires i < 8
    ensures PartialPoly(i + 1) == if GF_PP[i] == '1' then Xor(PartialPoly(i), Two(i)) else PartialPoly(i)
  {
    if i == 0 {
      assert Two(0) == 1;
    } else if i == 2 {
      XorCons(0, 1, 2, 0);
      assert Two(2) == 4 && Xor(0, 2) == 2;
    } else if i == 3 {
      XorCons(2, 1, 4, 0);
      XorCons(1, 0, 2, 0);
      XorCons(0, 1, 1, 0);
      assert Two(3) == 8;
    } else if i == 4 {
      XorCons(6, 1, 8, 0);
      XorCons(3, 0, 4, 0);
      XorCons(1, 1, 2, 0);
      XorCons(0, 1, 1, 0);
      assert Two(4) == 16;
    }
  }

  /** The next power of x, as the table loop computes it from the previous one. */
  lemma PowNext(i: nat, v: Gf)
    requires i > 0 && v == Pow(i - 1)
    ensures v >= 128 ==> Xor(v, 128) == v - 128 && Pow(i) == Xor(29, 2 * (v - 128))
    ensures v < 128 ==> Pow(i) == 2 * v
  {
    if v >= 128 {
      XorTop(v, 128);
      XorNothing(v - 128);
      XorComm(29, 2 * (v - 128));
      hide Xor;
    }
  }

  lemma PowEight()
    ensures Pow(8) == 29
  {
    PowTwo(7);
    assert Two(7) == 128;
  }

  method GenerateGf() returns (exp: seq<Gf>, log: seq<nat>, inverse: seq<Gf>)
    ensures IsExp(exp) && IsLog(log) && IsInverse(inverse)
  {
    hide Xor, Add, Mul, Xtime, Pow, Two, PartialPoly;
    var gfExp := new Gf[2 * GF_SIZE](_ => 0);
    var gfLog := new nat[GF_SIZE + 1](_ => 0);
    PowersOfTwo(gfExp, gfLog);
    HigherPowers(gfExp, gfLog);
    gfLog[0] := GF_SIZE;
    forall i | 0 <= i < GF_SIZE ensures gfLog[..][Pow(i)] == i {
      PowNonzero(i);
    }
    LogComplete(gfLog[..]);
    ExtendExp(gfExp);
    exp, log := gfExp[..], gfLog[..];
    inverse := Inverses(exp, log);
  }

  /** The inverses, from the exponents that add up to the order. */
  method Inverses(gfExp: seq<Gf>, gfLog: seq<nat>) returns (inverse: seq<Gf>)
    requires IsExp(gfExp) && IsLog(gfLog)
    ensures IsInverse(inverse)
  {
    hide Add, Mul, Pow, IsLog, IsExp, Inv;
    var gfInverse := new Gf[GF_SIZE + 1](_ => 0);
    gfInverse[0] := 0;
    gfInverse[1] := 1;
    InverseOfOne();
    assert forall a: Gf :: a < 2 ==> gfInverse[a] == Inv(a);
    for i := 2 to GF_SIZE + 1
      invariant forall a: Gf :: a < i ==> gfInverse[a] == Inv(a)
    {
      InverseEntry(gfExp, gfLog, i);
      gfInverse[i] := gfExp[GF_SIZE - gfLog[i]];
    }
    inverse := gfInverse[..];
  }

  lemma InverseEntry(exp: seq<Gf>, log: seq<nat>, a: Gf)
    requires IsExp(exp) && IsLog(log) && a != 0
    ensures |log| == GF_SIZE + 1 && |exp| == 2 * GF_SIZE && log[a] < GF_SIZE && exp[GF_SIZE - log[a]] == Inv(a)
  {
    hide Pow, Inv;
    LogUnique(log, a);
  }

  /** The first eight powers, and x^8 from the reducing polynomial. */
  method PowersOfTwo(gfExp: array<Gf>, gfLog: array<nat>)
    requires gfExp.Length == 2 * GF_SIZE && gfLog.Length == GF_SIZE + 1
    modifies gfExp, gfLog
    ensures forall j :: 0 <= j <= GF_BITS ==> gfExp[j] == Pow(j)
    ensures forall j :: 0 <= j <= GF_BITS ==> gfLog[Pow(j)] == j
  {
    hide Xor, Add, Mul, Xtime, Pow, Two, PartialPoly;
    var mask: Gf := 1;
    gfExp[GF_BITS] := 0;
    assert Two(0) == 1 && PartialPoly(0) == 0 by { Starts(); }
    for i := 0 to GF_BITS
      invariant i < GF_BITS ==> mask == Two(i)
      invariant gfExp[GF_BITS] == PartialPoly(i)
      invariant forall j :: 0 <= j < i ==> gfExp[j] == Pow(j)
      invariant forall j :: 0 <= j < i ==> gfLog[Pow(j)] == j
    {
      PowTwo(i);
      PolyStep(i);
      gfExp[i] := mask;
      Injective(i);
      gfLog[gfExp[i]] := i;
      if GF_PP[i] == '1' {
        XorIsByte(gfExp[GF_BITS], mask);
        gfExp[GF_BITS] := Xor(gfExp[GF_BITS], mask);
      }
      DoubleTwo(i);
      mask := (2 * mask) % 256;
    }
    assert PartialPoly(GF_BITS) == 29 by { Starts(); }
    PowEight();
    Injective(GF_BITS);
    gfLog[gfExp[GF_BITS]] := GF_BITS;
  }

  lemma Starts()
    ensures Two(0) == 1 && PartialPoly(0) == 0 && PartialPoly(8) == 29
  {
  }

  lemma DoubleTwo(i: nat)
    requires i < 8
    ensures i < 7 ==> (2 * Two(i)) % 256 == Two(i + 1)
  {
    if i < 7 {
      TwoBound(i);
    }
  }

  lemma Injective(i: nat)
    requires i < GF_SIZE
    ensures forall j :: 0 <= j < i ==> Pow(j) != Pow(i)
  {
    forall j | 0 <= j < i ensures Pow(j) != Pow(i) {
      PowInjective(j, i);
    }
  }

  /** The powers x^9 to x^254, each from the one before. */
  method HigherPowers(gfExp: array<Gf>, gfLog: array<nat>)
    requires gfExp.Length == 2 * GF_SIZE && gfLog.Length == GF_SIZE + 1
    requires forall j :: 0 <= j <= GF_BITS ==> gfExp[j] == Pow(j)
    requires forall j :: 0 <= j <= GF_BITS ==> gfLog[Pow(j)] == j
    modifies gfExp, gfLog
    ensures forall j :: 0 <= j < GF_SIZE ==> gfExp[j] == Pow(j)
    ensures forall j :: 0 <= j < GF_SIZE ==> gfLog[Pow(j)] == j
  {
    hide Xor, Add, Mul, Xtime, Pow;
    var mask: Gf := 128;
    PowEight();
    for i := GF_BITS + 1 to GF_SIZE
      invariant forall j :: 0 <= j < i ==> gfExp[j] == Pow(j)
      invariant forall j :: 0 <= j < i ==> gfLog[Pow(j)] == j
    {
      PowNext(i, gfExp[i - 1]);
      if gfExp[i - 1] >= mask {
        XorIsByte(gfExp[GF_BITS], 2 * Xor(gfExp[i - 1], mask));
        gfExp[i] := Xor(gfExp[GF_BITS], 2 * Xor(gfExp[i - 1], mask));
      } else {
        gfExp[i] := 2 * gfExp[i - 1];
      }
      Injective(i);
      gfLog[gfExp[i]] := i;
    }
  }

  /** The second copy of the powers, which saves a reduction when exponents are added. */
  method ExtendExp(gfExp: array<Gf>)
    requires gfExp.Length == 2 * GF_SIZE
    requires forall j :: 0 <= j < GF_SIZE ==> gfExp[j] == Pow(j)
    modifies gfExp
    ensures IsExp(gfExp[..])
  {
    hide Pow;
    for i := 0 to GF_SIZE
      invariant forall j :: 0 <= j < GF_SIZE + i ==> gfExp[j] == Pow(j)
    {
      PowPeriod(i);
      gfExp[i + GF_SIZE] := gfExp[i];
    }
  }

  lemma LogComplete(log: seq<nat>)
    requires |log| == GF_SIZE + 1 && log[0] == GF_SIZE
    requires forall i :: 0 <= i < GF_SIZE ==> log[Pow(i)] == i
    ensures IsLog(log)
  {
    hide Pow;
    forall a: Gf | a != 0 ensures log[a] < GF_SIZE && Pow(log[a]) == a {
      PowSurjective(a);
    }
  }

  lemma LogUnique(log: seq<nat>, a: Gf)
    requires IsLog(log) && a != 0
    ensures log[a] == Log(a) && Inv(a) == Pow(GF_SIZE - log[a])
  {
    hide Pow;
    assert log[Pow(Log(a))] == Log(a);
  }

  lemma InverseOfOne()
    ensures Inv(0) == 0 && Inv(1) == 1
  {
    hide Mul;
    MulInv(1);
    MulOne(Inv(1));
  }

  method InitMulTable(exp: seq<Gf>, log: seq<nat>) returns (mul: seq<Gf>)
    requires IsExp(exp) && IsLog(log)
    ensures IsMul(mul)
  {
    hide Mul, Pow;
    var table := new Gf[65536](_ => 0);
    for i := 0 to GF_SIZE + 1
      invariant forall a: Gf, b: Gf :: 0 < a < i && b != 0 ==> table[a * 256 + b] == Mul(a, b)
    {
      for j := 0 to GF_SIZE + 1
        invariant forall a: Gf, b: Gf :: 0 < a < i && b != 0 ==> table[a * 256 + b] == Mul(a, b)
        invariant i != 0 ==> forall b: Gf :: 0 < b < j ==> table[i * 256 + b] == Mul(i, b)
      {
        var k := Modnn(log[i] + log[j]);
        table[i * 256 + j] := exp[k];
        if i != 0 && j != 0 {
          LogProduct(log, i, j, k);
        }
      }
    }
    for j := 0 to GF_SIZE + 1
      invariant forall a: Gf, b: Gf :: 0 < a && 0 < b ==> table[a * 256 + b] == Mul(a, b)
      invariant forall b: Gf :: b < j ==> table[b] == 0 && table[b * 256] == 0
    {
      table[j * 256] := 0;
      table[j] := 0;
    }
    mul := table[..];
    forall a: Gf, b: Gf ensures mul[a * 256 + b] == Mul(a, b) {
      MulZero(a);
      MulZero(b);
    }
  }

  lemma LogProduct(log: seq<nat>, a: Gf, b: Gf, k: nat)
    requires IsLog(log) && a != 0 && b != 0 && k == (log[a] + log[b]) % GF_SIZE
    ensures k < GF_SIZE && Pow(k) == Mul(a, b)
  {
    hide Mul, Pow;
    var n := log[a] + log[b];
    PowAdd(log[a], log[b]);
    SmallMod(n);
    if n >= GF_SIZE {
      PowPeriod(n - GF_SIZE);
    }
  }

  lemma SmallMod(n: nat)
    requires n < 510
    ensures n % 255 == if n >= 255 then n - 255 else n
  {
  }

  /** The tables built at start-up represent the field. */
  method ReedSolomonInit() returns (t: Tables)
    ensures t.Valid()
  {
    var exp, log, inverse := GenerateGf();
    var mul := InitMulTable(exp, log);
    t := Tables(exp, log, inverse, mul);
  }
}
