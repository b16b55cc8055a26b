/**
 The field with 256 elements as polynomials over one bit modulo x^8 + x^4 + x^3 + x^2 + 1,
 independently of the lookup tables of the erasure coder.
 */
module GaloisField {
  import opened BitXor

  type Gf = x: nat | x < 256

  function Add(a: Gf, b: Gf): (r: Gf)
  {
    XorIsByte(a, b);
    Xor(a, b)
  }

  lemma XorIsByte(a: nat, b: nat)
    requires a < 256 && b < 256
    ensures Xor(a, b) < 256
  {
    assert Two(8) == 256;
    XorBound(a, b, 8);
  }

  /** Multiplication by x. */
  function Xtime(a: Gf): Gf
  {
    if a >= 128 then Add(2 * a - 256, 29) else 2 * a
  }

  /** Polynomial multiplication, reduced after every shift. */
  function Mul(a: Gf, b: Gf): Gf
    decreases b
  {
    if b == 0 then 0 else Add(if b % 2 == 1 then a else 0, Xtime(Mul(a, b / 2)))
  }

  /** The powers of x. */
  function Pow(n: nat): Gf
  {
    if n == 0 then 1 else Xtime(Pow(n - 1))
  }

  // ----- addition

  lemma AddComm(a: Gf, b: Gf)
    ensures Add(a, b) == Add(b, a)
  {
    XorComm(a, b);
  }

  lemma AddAssoc(a: Gf, b: Gf, c: Gf)
    ensures Add(Add(a, b), c) == Add(a, Add(b, c))
  {
    XorAssoc(a, b, c);
  }

  lemma AddZero(a: Gf)
    ensures Add(a, 0) == a && Add(0, a) == a && Add(a, a) == 0
  {
    XorZero(a, a);
  }

  lemma AddCancel(a: Gf, b: Gf)
    ensures Add(a, b) == 0 <==> a == b
  {
    XorZero(a, b);
  }

  /** Addition is its own inverse. */
  lemma AddTwice(a: Gf, b: Gf)
    ensures Add(Add(a, b), b) == a && Add(b, Add(b, a)) == a
  {
    AddAssoc(a, b, b);
    AddAssoc(b, b, a);
    AddZero(b);
    AddZero(a);
  }

  /** (a + b) + (c + d) = (a + c) + (b + d) */
  lemma AddSwap(a: Gf, b: Gf, c: Gf, d: Gf)
    ensures Add(Add(a, b), Add(c, d)) == Add(Add(a, c), Add(b, d))
  {
    AddAssoc(a, b, Add(c, d));
    AddAssoc(b, c, d);
    AddComm(b, c);
    AddAssoc(c, b, d);
    AddAssoc(a, c, Add(b, d));
  }

  // ----- multiplication by x

  lemma XorTop(a: Gf, b: Gf)
    ensures Xor(a, b) >= 128 <==> (a >= 128) != (b >= 128)
    ensures a >= 128 && b >= 128 ==> Xor(a, b) == Xor(a - 128, b - 128)
    ensures a >= 128 && b < 128 ==> Xor(a, b) == Xor(a - 128, b) + 128
  {
    assert Two(7) == 128;
    var a' := if a >= 128 then a - 128 else a;
    var b' := if b >= 128 then b - 128 else b;
    XorBound(a', b', 7);
    XorTopBit(a', b', 7);
    XorTopBit(b', a', 7);
    XorComm(a', b');
    XorComm(a, b);
  }

  /** A digit above both operands is carried through, and two of them cancel. */
  lemma {:induction false} XorTopBit(a: nat, b: nat, n: nat)
    requires a < Two(n) && b < Two(n)
    ensures Xor(a + Two(n), b) == Xor(a, b) + Two(n)
    ensures Xor(a + Two(n), b + Two(n)) == Xor(a, b)
    decreases n, 1
  {
    if n == 0 {
      assert Xor(1, 0) == 1 && Xor(1, 1) == 0 && Xor(0, 0) == 0;
    } else {
      XorTopNext(a / 2, a % 2, b / 2, b % 2, n - 1);
      hide Xor;
    }
    hide Xor;
  }

  lemma {:induction false} XorTopNext(a: nat, i: nat, b: nat, j: nat, n: nat)
    requires i < 2 && j < 2 && a < Two(n) && b < Two(n)
    ensures Xor(2 * a + i + Two(n + 1), 2 * b + j) == Xor(2 * a + i, 2 * b + j) + Two(n + 1)
    ensures Xor(2 * a + i + Two(n + 1), 2 * b + j + Two(n + 1)) == Xor(2 * a + i, 2 * b + j)
    decreases n, 2
  {
    hide Xor;
    XorTopBit(a, b, n);
    XorTopStep(a, i, b, j, Two(n));
  }

  lemma XorTopStep(a: nat, i: nat, b: nat, j: nat, w: nat)
    requires i < 2 && j < 2
    requires Xor(a + w, b) == Xor(a, b) + w
    requires Xor(a + w, b + w) == Xor(a, b)
    ensures Xor(2 * a + i + 2 * w, 2 * b + j) == Xor(2 * a + i, 2 * b + j) + 2 * w
    ensures Xor(2 * a + i + 2 * w, 2 * b + j + 2 * w) == Xor(2 * a + i, 2 * b + j)
  {
    hide Xor;
    XorCons(a, i, b, j);
    XorCons(a + w, i, b, j);
    XorCons(a + w, i, b + w, j);
    assert 2 * (a + w) + i == 2 * a + i + 2 * w;
    assert 2 * (b + w) + j == 2 * b + j + 2 * w;
  }

  /** Multiplication by x in terms of the seven low bits. */
  lemma XtimeTop(a: Gf)
    ensures Xtime(a) == if a >= 128 then Add(2 * (a - 128), 29) else Add(2 * a, 0)
  {
    if a < 128 {
      AddZero(2 * a);
    }
  }

  lemma XtimeLinear(a: Gf, b: Gf)
    ensures Xtime(Add(a, b)) == Add(Xtime(a), Xtime(b))
  {
    XtimeTop(a);
    XtimeTop(b);
    XtimeTop(Add(a, b));
    XorTop(a, b);
    hide Xor, Xtime;
    var a' := if a >= 128 then a - 128 else a;
    var b' := if b >= 128 then b - 128 else b;
    var ra := if a >= 128 then 29 else 0;
    var rb := if b >= 128 then 29 else 0;
    XorCons(a', 0, b', 0);
    AddZero(2 * a');
    AddZero(2 * b');
    AddZero(29);
    AddComm(a, b);
    AddComm(a', b');
    XorTop(b, a);
    AddZero(Add(2 * a', 2 * b'));
    AddSwap(2 * a', ra, 2 * b', rb);
  }

  // ----- multiplication

  lemma MulStep(a: Gf, b: Gf)
    ensures Mul(a, b) == Add(if b % 2 == 1 then a else 0, Xtime(Mul(a, b / 2)))
  {
    AddZero(0);
  }

  /** Multiplication distributes over addition on the right. */
  lemma {:induction false} MulAdd(a: Gf, b: Gf, c: Gf)
    ensures Mul(a, Add(b, c)) == Add(Mul(a, b), Mul(a, c))
    decreases b + c
  {
    if b == 0 || c == 0 {
      AddZero(b);
      AddZero(c);
      AddZero(Mul(a, b));
      AddZero(Mul(a, c));
    } else {
      MulAdd(a, b / 2, c / 2);
      var bc := Add(b, c);
      XorStep(b, c);
      assert bc / 2 == Add(b / 2, c / 2);
      MulAddStep(a, b, c, bc);
    }
  }

  lemma MulAddStep(a: Gf, b: Gf, c: Gf, bc: Gf)
    requires bc % 2 == (b + c) % 2
    requires Mul(a, bc / 2) == Add(Mul(a, b / 2), Mul(a, c / 2))
    ensures Mul(a, bc) == Add(Mul(a, b), Mul(a, c))
  {
    hide Xor, Add, Xtime, Mul;
    MulStep(a, b);
    MulStep(a, c);
    MulStep(a, bc);
    AddZero(a);
    AddZero(0);
    HornerAdd(if b % 2 == 1 then a else 0, if c % 2 == 1 then a else 0, Mul(a, b / 2), Mul(a, c / 2));
  }

  lemma HornerAdd(a: Gf, b: Gf, p: Gf, q: Gf)
    ensures Add(Add(a, b), Xtime(Add(p, q))) == Add(Add(a, Xtime(p)), Add(b, Xtime(q)))
  {
    XtimeLinear(p, q);
    AddSwap(a, b, Xtime(p), Xtime(q));
  }

  /** Multiplication distributes over addition on the left. */
  lemma {:induction false} AddMul(a: Gf, b: Gf, c: Gf)
    ensures Mul(Add(a, b), c) == Add(Mul(a, c), Mul(b, c))
    decreases c
  {
    AddZero(0);
    if c != 0 {
      AddMul(a, b, c / 2);
      XtimeLinear(Mul(a, c / 2), Mul(b, c / 2));
      var ac := if c % 2 == 1 then a else 0;
      var bc := if c % 2 == 1 then b else 0;
      AddSwap(ac, Xtime(Mul(a, c / 2)), bc, Xtime(Mul(b, c / 2)));
    }
  }

  lemma {:induction false} MulXtimeLeft(a: Gf, b: Gf)
    ensures Mul(Xtime(a), b) == Xtime(Mul(a, b))
    decreases b
  {
    AddZero(0);
    if b != 0 {
      MulXtimeLeft(a, b / 2);
      XtimeLinear(if b % 2 == 1 then a else 0, Xtime(Mul(a, b / 2)));
    }
  }

  lemma {:induction false} MulOne(b: Gf)
    ensures Mul(1, b) == b && Mul(b, 1) == b && Mul(b, 0) == 0 && Mul(0, b) == 0
    decreases b
  {
    AddZero(b);
    AddZero(0);
    assert Xtime(0) == 0;
    if b != 0 {
      MulOne(b / 2);
      EvenPlusBit(b);
      MulStep(b, 1);
    }
  }

  lemma EvenPlusBit(b: Gf)
    ensures Add(if b % 2 == 1 then 1 else 0, 2 * (b / 2)) == b
  {
    var bit := if b % 2 == 1 then 1 else 0;
    XorStep(bit, 2 * (b / 2));
    AddZero(b / 2);
    assert bit / 2 == 0 && (2 * (b / 2)) / 2 == b / 2;
    assert (bit + 2 * (b / 2)) % 2 == b % 2;
  }

  lemma {:induction false} PowAdd(i: nat, j: nat)
    ensures Pow(i + j) == Mul(Pow(i), Pow(j))
  {
    if i == 0 {
      MulOne(Pow(j));
    } else {
      PowAdd(i - 1, j);
      MulXtimeLeft(Pow(i - 1), Pow(j));
    }
  }

  // ----- the order of x

  /** A byte written out in digits, highest first. */
  datatype Bits = Bits(b7: bool, b6: bool, b5: bool, b4: bool, b3: bool, b2: bool, b1: bool, b0: bool)

  function Digit(b: bool): nat { if b then 1 else 0 }

  function Value(x: Bits): Gf
  {
    2 * (2 * (2 * (2 * (2 * (2 * (2 * Digit(x.b7) + Digit(x.b6)) + Digit(x.b5)) + Digit(x.b4))
      + Digit(x.b3)) + Digit(x.b2)) + Digit(x.b1)) + Digit(x.b0)
  }

  /** `Xtime` on digits. */
  function Shift(x: Bits): Bits
  {
    Bits(x.b6, x.b5, x.b4, x.b3 != x.b7, x.b2 != x.b7, x.b1 != x.b7, x.b0, x.b7)
  }

  lemma XorDigit(a: nat, i: bool, b: nat, j: bool)
    ensures Xor(2 * a + Digit(i), 2 * b + Digit(j)) == 2 * Xor(a, b) + Digit(i != j)
  {
    XorCons(a, Digit(i), b, Digit(j));
  }

  lemma XorNothing(a: nat)
    ensures Xor(a, 0) == a
  {
  }

  lemma XorFeedback(a: nat, b3: bool, b2: bool, b1: bool, b0: bool)
    ensures Xor(2 * (2 * (2 * (2 * (2 * a + Digit(b3)) + Digit(b2)) + Digit(b1)) + Digit(b0)) + 0, 29)
         == 2 * (2 * (2 * (2 * (2 * a + Digit(!b3)) + Digit(!b2)) + Digit(!b1)) + Digit(b0)) + 1
  {
    hide Xor;
    XorNothing(a);
    XorDigit(a, b3, 0, true);
    XorDigit(2 * a + Digit(b3), b2, 1, true);
    XorDigit(2 * (2 * a + Digit(b3)) + Digit(b2), b1, 3, true);
    XorDigit(2 * (2 * (2 * a + Digit(b3)) + Digit(b2)) + Digit(b1), b0, 7, false);
    XorDigit(2 * (2 * (2 * (2 * a + Digit(b3)) + Digit(b2)) + Digit(b1)) + Digit(b0), false, 14, true);
  }

  lemma ShiftIsXtime(x: Bits)
    ensures Xtime(Value(x)) == Value(Shift(x))
  {
    hide Xor, Xtime;
    if x.b7 {
      ShiftIsXtimeHigh(x);
    } else {
      XtimeLow(Value(x));
    }
  }

  lemma XtimeLow(v: nat)
    requires v < 128
    ensures Xtime(v) == 2 * v
  {
  }

  lemma XtimeHigh(v: nat)
    requires 128 <= v < 256
    ensures Xtime(v) == Xor(2 * v - 256, 29)
  {
  }

  lemma ShiftIsXtimeHigh(x: Bits)
    requires x.b7
    ensures Xtime(Value(x)) == Value(Shift(x))
  {
    hide Xor, Xtime;
    var a := 2 * (2 * Digit(x.b6) + Digit(x.b5)) + Digit(x.b4);
    XorFeedback(a, x.b3, x.b2, x.b1, x.b0);
    XtimeHigh(Value(x));
  }

  function Shift4(x: Bits): Bits { Shift(Shift(Shift(Shift(x)))) }

  function Shift17(x: Bits): Bits { Shift(Shift4(Shift4(Shift4(Shift4(x))))) }

  /** x^n written out in digits. */
  predicate IsPow(n: nat, x: Bits)
  {
    Pow(n) == Value(x)
  }

  lemma PowShift(n: nat, x: Bits)
    requires IsPow(n, x)
    ensures IsPow(n + 1, Shift(x))
  {
    ShiftIsXtime(x);
    hide Xtime, Value;
  }

  lemma PowShift4(n: nat, x: Bits)
    requires IsPow(n, x)
    ensures IsPow(n + 4, Shift4(x))
  {
    hide IsPow, Shift;
    PowShift(n, x);
    PowShift(n + 1, Shift(x));
    PowShift(n + 2, Shift(Shift(x)));
    PowShift(n + 3, Shift(Shift(Shift(x))));
  }

  lemma PowShift17(n: nat, x: Bits)
    requires IsPow(n, x)
    ensures IsPow(n + 17, Shift17(x))
  {
    hide IsPow, Shift, Shift4;
    PowShift4(n, x);
    PowShift4(n + 4, Shift4(x));
    PowShift4(n + 8, Shift4(Shift4(x)));
    PowShift4(n + 12, Shift4(Shift4(Shift4(x))));
    PowShift(n + 16, Shift4(Shift4(Shift4(Shift4(x)))));
  }

  function Sum(a: bool, b: bool, c: bool): bool { (a != b) != c }

  /** Seventeen shifts at once: each digit of the result is a sum of digits of the operand. */
  function Times17(x: Bits): Bits
  {
    Bits(Sum(Sum(x.b7, x.b6, x.b5), x.b3, x.b0),
         Sum(x.b6 != x.b5, x.b4, x.b2),
         Sum(x.b5 != x.b4, x.b3, x.b1),
         Sum(x.b4 != x.b3, x.b2, x.b0),
         Sum(Sum(x.b7, x.b6, x.b5), x.b2, x.b1 != x.b0),
         Sum(x.b7 != x.b4, x.b3, x.b1),
         Sum(x.b7, x.b5, x.b2),
         Sum(x.b7 != x.b6, x.b4, x.b1))
  }

  function Times4(x: Bits): Bits
  {
    Bits(x.b3 != x.b7,
         Sum(x.b2, x.b6, x.b7),
         Sum(x.b1 != x.b5, x.b6, x.b7),
         Sum(x.b0 != x.b4, x.b5, x.b6),
         Sum(x.b4, x.b5, x.b7),
         x.b4 != x.b6,
         x.b5,
         x.b4)
  }

  function Times8(x: Bits): Bits
  {
    Bits(Sum(x.b3, x.b4, x.b5),
         Sum(x.b2, x.b3, x.b4),
         Sum(x.b1 != x.b2, x.b3, x.b7),
         Sum(x.b0 != x.b1, x.b2, x.b6),
         Sum(x.b0 != x.b1, x.b3, x.b4),
         Sum(x.b0 != x.b2, x.b4 != x.b5, x.b7),
         Sum(x.b1 != x.b5, x.b6, x.b7),
         Sum(x.b0 != x.b4, x.b5, x.b6))
  }

  function Times12(x: Bits): Bits
  {
    Bits(Sum(x.b0, x.b1, x.b5),
         Sum(x.b0, x.b4, x.b7),
         x.b3 != x.b6,
         Sum(x.b2, x.b5, x.b7),
         Sum(x.b0 != x.b4, x.b5 != x.b6, x.b7),
         Sum(x.b0 != x.b1, x.b3 != x.b4, x.b6),
         Sum(x.b1 != x.b2, x.b3, x.b7),
         Sum(x.b0 != x.b1, x.b2, x.b6))
  }

  function Times16(x: Bits): Bits
  {
    Bits(Sum(x.b1 != x.b4, x.b6, x.b7),
         Sum(x.b0 != x.b3, x.b5 != x.b6, x.b7),
         Sum(x.b2 != x.b4, x.b5, x.b6),
         Sum(x.b1 != x.b3, x.b4, x.b5),
         Sum(x.b0 != x.b1, x.b2 != x.b3, x.b6 != x.b7),
         Sum(x.b0 != x.b2, x.b4, x.b5),
         x.b3 != x.b6,
         Sum(x.b2, x.b5, x.b7))
  }

  lemma EvalShift4(x: Bits)
    ensures Shift4(x) == Times4(x)
  {
  }

  lemma EvalShift8(x: Bits)
    ensures Times4(Times4(x)) == Times8(x)
  {
  }

  lemma EvalShift12(x: Bits)
    ensures Times4(Times8(x)) == Times12(x) && Times4(Times12(x)) == Times16(x)
  {
  }

  lemma EvalShift16(x: Bits)
    ensures Shift(Times16(x)) == Times17(x)
  {
  }

  lemma EvalShift17(x: Bits)
    ensures Shift17(x) == Times17(x)
  {
    hide Shift4, Shift, Times4, Times8, Times12, Times16, Times17;
    EvalShift4(x);
    EvalShift4(Times4(x));
    EvalShift8(x);
    EvalShift4(Times8(x));
    EvalShift12(x);
    EvalShift4(Times12(x));
    EvalShift16(x);
  }

  lemma PowTimes17(n: nat, x: Bits)
    requires IsPow(n, x)
    ensures IsPow(n + 17, Times17(x))
  {
    PowShift17(n, x);
    EvalShift17(x);
  }

  /** x^255 = 1, and the powers that could make the order smaller are not 1. */
  lemma Milestones()
    ensures Pow(255) == 1 && Pow(85) == 214 && Pow(51) == 10 && Pow(17) == 152
  {
    var p0 := Bits(false, false, false, false, false, false, false, true);
    assert IsPow(0, p0);
    hide Pow, Xtime;
    var p17 := Bits(true, false, false, true, true, false, false, false);
    PowTimes17(0, p0);
    var p34 := Bits(false, true, false, false, true, true, true, false);
    PowTimes17(17, p17);
    var p51 := Bits(false, false, false, false, true, false, true, false);
    PowTimes17(34, p34);
    var p68 := Bits(true, false, false, true, true, false, false, true);
    PowTimes17(51, p51);
    var p85 := Bits(true, true, false, true, false, true, true, false);
    PowTimes17(68, p68);
    var p102 := Bits(false, true, false, false, false, true, false, false);
    PowTimes17(85, p85);
    var p119 := Bits(true, false, false, true, false, false, true, true);
    PowTimes17(102, p102);
    var p136 := Bits(false, true, false, false, true, true, true, true);
    PowTimes17(119, p119);
    var p153 := Bits(true, false, false, true, false, false, true, false);
    PowTimes17(136, p136);
    var p170 := Bits(true, true, false, true, false, true, true, true);
    PowTimes17(153, p153);
    var p187 := Bits(true, true, false, true, true, true, false, false);
    PowTimes17(170, p170);
    var p204 := Bits(true, true, false, true, true, true, false, true);
    PowTimes17(187, p187);
    var p221 := Bits(false, true, false, false, false, true, false, true);
    PowTimes17(204, p204);
    var p238 := Bits(false, false, false, false, true, false, true, true);
    PowTimes17(221, p221);
    var p255 := Bits(false, false, false, false, false, false, false, true);
    PowTimes17(238, p238);
    assert IsPow(17, p17) && IsPow(51, p51) && IsPow(85, p85) && IsPow(255, p255);
  }

  lemma {:induction false} PowMultiple(d: nat, m: nat)
    requires Pow(d) == 1
    ensures Pow(d * m) == 1
  {
    if m > 0 {
      PowMultiple(d, m - 1);
      PowAdd(d * (m - 1), d);
      MulOne(1);
      assert d * m == d * (m - 1) + d;
    }
  }

  lemma MulMonotone(a: nat, b: nat, c: nat)
    requires a <= b
    ensures a * c <= b * c
  {
  }

  /** A divisor of 255 other than 255 divides 15, or is 17, 51 or 85. */
  lemma Divisors(d: nat)
    requires 0 < d < 255 && 255 % d == 0
    ensures d in {1, 3, 5, 15, 17, 51, 85}
  {
    var q := 255 / d;
    assert 255 == q * d;
    if d >= 16 {
      assert q < 16 by {
        if q >= 16 {
          MulMonotone(16, q, d);
        }
      }
      assert q != 0 && q != 1 && q != 2 && q != 4 && q != 6 && q != 7 && q != 8 && q != 9 && q != 10;
      assert q != 11 && q != 12 && q != 13 && q != 14;
    } else {
      assert d != 2 && d != 4 && d != 6 && d != 7 && d != 8 && d != 9 && d != 10;
      assert d != 11 && d != 12 && d != 13 && d != 14;
    }
  }

  lemma PowRemainder(d: nat)
    requires d > 0 && Pow(d) == 1
    ensures Pow(255 % d) == 1
  {
    hide Pow, Mul;
    Milestones();
    PowMultiple(d, 255 / d);
    PowAdd(d * (255 / d), 255 % d);
    MulOne(Pow(255 % d));
  }

  lemma Pow15()
    ensures Pow(15) != 1
  {
    assert Pow(2) == 4;
    PowAdd(15, 2);
    MulOne(Pow(2));
    Milestones();
    hide Mul, Pow;
  }

  /** No positive exponent below 255 gives 1: x generates all 255 non-zero elements. */
  lemma {:induction false} Order(d: nat)
    requires 0 < d < 255
    ensures Pow(d) != 1
    decreases d
  {
    hide Pow;
    if Pow(d) == 1 {
      PowRemainder(d);
      if 255 % d > 0 {
        Order(255 % d);
      } else {
        Divisors(d);
        Milestones();
        if d <= 15 {
          PowMultiple(d, 15 / d);
          Pow15();
        }
      }
    }
  }

  lemma PowPeriod(n: nat)
    ensures Pow(n + 255) == Pow(n)
  {
    Milestones();
    PowAdd(n, 255);
    MulOne(Pow(n));
  }

  lemma PowInverse(n: nat)
    requires n <= 255
    ensures Mul(Pow(n), Pow(255 - n)) == 1
  {
    Milestones();
    PowAdd(n, 255 - n);
  }

  lemma PowInjective(i: nat, j: nat)
    requires i < j < 255
    ensures Pow(i) != Pow(j)
  {
    if Pow(i) == Pow(j) {
      var k := 255 - j;
      PowAdd(i, k);
      PowAdd(j, k);
      Milestones();
      Order(i + k);
    }
  }

  lemma XtimeNonzero(a: Gf)
    requires a != 0
    ensures Xtime(a) != 0
  {
    if a >= 128 {
      AddCancel(2 * a - 256, 29);
      hide Add;
    }
  }

  lemma {:induction false} PowNonzero(n: nat)
    ensures Pow(n) != 0
  {
    if n > 0 {
      PowNonzero(n - 1);
      XtimeNonzero(Pow(n - 1));
    }
  }

  /** The first n powers, as a set. */
  ghost function Powers(n: nat): set<Gf>
  {
    set i | 0 <= i < n :: Pow(i)
  }

  lemma {:induction false} PowersCount(n: nat)
    requires n <= 255
    ensures |Powers(n)| == n
  {
    if n > 0 {
      PowersCount(n - 1);
      assert Powers(n) == Powers(n - 1) + {Pow(n - 1)};
      forall i | 0 <= i < n - 1 ensures Pow(i) != Pow(n - 1) {
        PowInjective(i, n - 1);
      }
    }
  }

  ghost function Below(n: nat): (s: set<nat>)
    requires n >= 1
    ensures |s| == n - 1
    ensures forall i :: i in s <==> 0 < i < n
  {
    if n == 1 then {} else Below(n - 1) + {n - 1}
  }

  lemma SubsetOfSameSize<T>(a: set<T>, b: set<T>)
    requires a <= b && |a| == |b|
    ensures a == b
  {
    assert b == a + (b - a);
  }

  lemma PowSurjective(a: Gf)
    requires a != 0
    ensures exists i :: 0 <= i < 255 && Pow(i) == a
  {
    PowersCount(255);
    var p: set<nat> := Powers(255);
    forall v | v in p ensures v in Below(256) {
      var i :| 0 <= i < 255 && Pow(i) == v;
      PowNonzero(i);
    }
    SubsetOfSameSize(p, Below(256));
    assert a in p;
  }

  ghost function Log(a: Gf): (i: nat)
    requires a != 0
    ensures i < 255 && Pow(i) == a
  {
    PowSurjective(a);
    var i :| 0 <= i < 255 && Pow(i) == a;
    i
  }

  lemma LogPow(i: nat)
    requires i < 255
    ensures Pow(i) != 0 && Log(Pow(i)) == i
  {
    PowNonzero(i);
    var j := Log(Pow(i));
    if i < j {
      PowInjective(i, j);
    } else if j < i {
      PowInjective(j, i);
    }
  }

  /** The multiplicative inverse; 0, which has none, is sent to 0. */
  ghost function Inv(a: Gf): Gf
  {
    if a == 0 then 0 else Pow(255 - Log(a))
  }

  // ----- the field laws

  lemma MulComm(a: Gf, b: Gf)
    ensures Mul(a, b) == Mul(b, a)
  {
    MulOne(a);
    MulOne(b);
    if a != 0 && b != 0 {
      PowAdd(Log(a), Log(b));
      PowAdd(Log(b), Log(a));
    }
  }

  lemma MulAssoc(a: Gf, b: Gf, c: Gf)
    ensures Mul(Mul(a, b), c) == Mul(a, Mul(b, c))
  {
    hide Mul, Pow;
    if a != 0 && b != 0 && c != 0 {
      PowAssoc(Log(a), Log(b), Log(c));
    } else {
      MulZero(a);
      MulZero(b);
      MulZero(c);
      MulZero(Mul(a, b));
      MulZero(Mul(b, c));
    }
  }

  lemma PowAssoc(i: nat, j: nat, k: nat)
    ensures Mul(Mul(Pow(i), Pow(j)), Pow(k)) == Mul(Pow(i), Mul(Pow(j), Pow(k)))
  {
    hide Mul, Pow;
    PowAdd(i, j);
    PowAdd(j, k);
    PowAdd(i + j, k);
    PowAdd(i, j + k);
  }

  lemma MulZero(a: Gf)
    ensures Mul(a, 0) == 0 && Mul(0, a) == 0
  {
    MulOne(a);
  }

  lemma MulInv(a: Gf)
    requires a != 0
    ensures Mul(a, Inv(a)) == 1 && Mul(Inv(a), a) == 1 && Inv(a) != 0
  {
    PowInverse(Log(a));
    PowNonzero(255 - Log(a));
    MulComm(a, Inv(a));
  }

  lemma MulNonzero(a: Gf, b: Gf)
    requires a != 0 && b != 0
    ensures Mul(a, b) != 0
  {
    MulInv(b);
    MulAssoc(a, b, Inv(b));
    MulOne(a);
    MulOne(Inv(b));
  }
}
