/** Lists of syntax elements and sequences of bytes as one number each, to compare them with literals. */
module Spelling {
  import opened Basics
  import opened BitXor
  import opened NalBytes
  import opened BitCodes
  import opened BitStream
  import opened SpsSyntax

  /** The number whose digits to the base 256 are the bytes. */
  function Value(x: seq<Byte>): nat
    decreases |x|
  {
    if x == [] then 0 else 256 * Value(x[..|x| - 1]) + x[|x| - 1]
  }

  lemma ValueNext(x: seq<Byte>, b: Byte) returns (y: seq<Byte>)
    ensures y == x + [b] && Value(y) == 256 * Value(x) + b && Value([]) == 0
  {
    y := x + [b];
    assert y[..|y| - 1] == x;
  }

  function Times(a: nat, b: nat): nat
  {
    a * b
  }

  lemma {:induction false} TwoSum(a: nat, b: nat)
    ensures Two(a + b) == Times(Two(a), Two(b))
    decreases b
  {
    if b > 0 {
      TwoSum(a, b - 1);
    }
  }

  lemma {:induction false} NumberAppend(a: seq<bool>, b: seq<bool>)
    ensures Number(a + b) == Times(Number(a), Two(|b|)) + Number(b)
    decreases |b|
  {
    if b == [] {
      assert a + b == a;
    } else {
      var n := |b| - 1;
      NumberAppend(a, b[..n]);
      assert (a + b)[..|a + b| - 1] == a + b[..n];
      Regroup(Number(a), Two(n));
    }
  }

  lemma Regroup(x: nat, w: nat)
    ensures 2 * (x * w) == x * (2 * w)
  {
  }

  lemma {:induction false} NumberBits(x: seq<Byte>)
    ensures Number(Bits(x)) == Value(x)
    decreases |x|
  {
    hide Binary, Number, Two;
    if x == [] {
      assert Bits(x) == [];
      NoNumber();
    } else {
      var n := |x| - 1;
      NumberBits(x[..n]);
      BitsPrefix(x, n);
      forall i | 0 <= i < 8 ensures Bits(x)[8 * n + i] == Binary(8, x[n])[i] {
        BitsAt(x, n, i);
      }
      assert Bits(x) == Bits(x[..n]) + Binary(8, x[n]);
      NumberAppend(Bits(x[..n]), Binary(8, x[n]));
      NumberBinary(8, x[n]);
      Powers();
    }
  }

  /** Bits are known by their number and their count. */
  lemma SameBits(a: seq<bool>, b: seq<bool>)
    requires |a| == |b| && Number(a) == Number(b)
    ensures a == b
  {
    hide Binary, Number;
    BinaryNumber(a);
    BinaryNumber(b);
  }

  // ----- lists of elements

  ghost predicate IsSpell(code: seq<bool>, v: nat, n: nat)
  {
    |code| == n && Number(code) == v
  }

  lemma BinarySpell(n: nat, v: nat)
    requires v < Two(n)
    ensures IsSpell(Binary(n, v), v, n)
  {
    hide Number, Two;
    NumberBinary(n, v);
    SmallMod(v, Two(n));
  }

  lemma SpellBoth(a: seq<bool>, v: nat, n: nat, b: seq<bool>, w: nat, m: nat, q: nat)
    requires IsSpell(a, v, n) && IsSpell(b, w, m) && q == Two(m)
    ensures IsSpell(a + b, v * q + w, n + m)
  {
    hide Number, Two;
    NumberAppend(a, b);
  }

  /** The code of the first k elements has n bits, which form the number v. */
  ghost predicate Spelt(l: seq<Element>, k: nat, v: nat, n: nat)
  {
    k <= |l| && IsSpell(Codes(l[..k]), v, n) && AllFit(l[..k])
  }

  lemma SpeltNothing(l: seq<Element>)
    ensures Spelt(l, 0, 0, 0)
  {
    assert l[..0] == [];
    assert Codes([]) == [];
  }

  lemma SpeltAll(l: seq<Element>, v: nat, n: nat)
    requires Spelt(l, |l|, v, n)
    ensures Codes(l) == Binary(n, v) && AllFit(l)
  {
    hide Binary, Number, Codes;
    assert l[..|l|] == l;
    BinaryNumber(Codes(l));
  }

  lemma SpeltNext(l: seq<Element>, k: nat, v: nat, n: nat, u: nat, w: nat)
    requires Spelt(l, k, v, n) && k < |l| && IsSpell(Code(l[k]), u, w) && Fits(l[k])
    ensures Spelt(l, k + 1, Times(v, Two(w)) + u, n + w)
  {
    hide Codes, Code, Number, Two, Times, Fits;
    assert l[..k + 1] == l[..k] + [l[k]];
    CodesAppend(l[..k], [l[k]]);
    CodesOne(l[k]);
    NumberAppend(Codes(l[..k]), Code(l[k]));
  }

  /** A field of w bits; q is two to the power of that. */
  lemma NextU(l: seq<Element>, k: nat, v: nat, n: nat, w: nat, u: nat, q: nat)
    requires Spelt(l, k, v, n) && k < |l| && l[k] == U(w, u) && u < q == Two(w)
    ensures Spelt(l, k + 1, v * q + u, n + w)
  {
    hide Codes, Binary, Number, Two, Spelt;
    NumberBinary(w, u);
    SmallMod(u, q);
    SpeltNext(l, k, v, n, u, w);
  }

  lemma SmallMod(u: nat, q: nat)
    requires u < q
    ensures u % q == u
  {
  }

  /** A number whose code has d zeros in front, and 2 * d + 1 bits. */
  lemma CodeIs(x: nat, d: nat)
    requires x <= UE_MAX && Two(d) <= x + 1 < Two(d + 1)
    ensures IsSpell(UeCode(x), x + 1, 2 * d + 1)
  {
    hide Binary, Number, Length;
    TwoNext(d);
    LengthFrom(x + 1, d);
    TwoGrows(d + 1, 2 * d + 1);
    hide Two;
    NumberBinary(2 * d + 1, x + 1);
    SmallMod(x + 1, Two(2 * d + 1));
  }

  lemma LengthFrom(w: nat, d: nat)
    requires 1 <= w <= 65535 && Two(d) <= w < 2 * Two(d)
    ensures Length(w) == d + 1
  {
    hide Length, Two;
    LengthIs(w);
    TwoNext(d);
    if Length(w) - 1 < d {
      TwoGrows(Length(w), d);
    } else if d < Length(w) - 1 {
      TwoGrows(d + 1, Length(w) - 1);
    }
  }

  lemma {:induction false} TwoGrows(a: nat, b: nat)
    requires a <= b
    ensures Two(a) <= Two(b)
    decreases b
  {
    if a < b {
      TwoGrows(a, b - 1);
    }
  }

  lemma NextUe(l: seq<Element>, k: nat, v: nat, n: nat, x: nat, d: nat, q: nat)
    requires Spelt(l, k, v, n) && k < |l| && l[k] == Ue(x) && x <= UE_MAX
    requires Two(d) <= x + 1 < Two(d + 1) && q == Two(2 * d + 1)
    ensures Spelt(l, k + 1, v * q + x + 1, n + 2 * d + 1)
  {
    hide Spelt, UeCode, Two, IsSpell;
    CodeIs(x, d);
    SpeltNext(l, k, v, n, x + 1, 2 * d + 1);
  }

  /** A signed number; x is the unsigned number that stands for it. */
  lemma NextSe(l: seq<Element>, k: nat, v: nat, n: nat, i: int, x: nat, d: nat, q: nat)
    requires Spelt(l, k, v, n) && k < |l| && l[k] == Se(i) && x <= UE_MAX
    requires x == if i > 0 then 2 * i - 1 else -2 * i
    requires Two(d) <= x + 1 < Two(d + 1) && q == Two(2 * d + 1)
    ensures Spelt(l, k + 1, v * q + x + 1, n + 2 * d + 1)
  {
    hide Spelt, UeCode, Two, IsSpell;
    CodeIs(x, d);
    SpeltNext(l, k, v, n, x + 1, 2 * d + 1);
  }

  lemma SmallPowers()
    ensures Two(0) == 1 && Two(1) == 2 && Two(2) == 4 && Two(3) == 8 && Two(4) == 0x10 && Two(5) == 0x20
    ensures Two(6) == 0x40 && Two(7) == 0x80 && Two(8) == 0x100 && Two(9) == 0x200 && Two(11) == 0x800
    ensures Two(13) == 0x2000 && Two(16) == 0x1_0000 && Two(32) == 0x1_0000_0000
  {
    Powers();
    LargePowers();
    hide Two;
    TwoSum(16, 16);
  }

  lemma BitCount(x: seq<Byte>)
    ensures |Bits(x)| == 8 * |x|
  {
  }
}
