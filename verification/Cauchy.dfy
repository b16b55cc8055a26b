/** Square matrices with entries 1 / (x + y) have no kernel. */
module Cauchy {
  import opened Basics
  import opened GaloisField
  import opened LinearAlgebra

  /** The entries 1 / (x + y), for y in ys. */
  ghost function Row(x: Gf, ys: seq<Gf>): Vector
  {
    seq(|ys|, i requires 0 <= i < |ys| => Inv(Add(x, ys[i])))
  }

  ghost predicate Apart(xs: seq<Gf>, ys: seq<Gf>)
  {
    Distinct(xs) && Distinct(ys) && forall j, i :: 0 <= j < |xs| && 0 <= i < |ys| ==> xs[j] != ys[i]
  }

  function Total(c: Vector, n: nat): Gf
    requires n <= |c|
  {
    if n == 0 then 0 else Add(Total(c, n - 1), c[n - 1])
  }

  /** c (y + top), entry by entry */
  function Lifted(c: Vector, ys: seq<Gf>, top: Gf): Vector
    requires |c| == |ys|
  {
    seq(|c|, i requires 0 <= i < |c| => Mul(c[i], Add(ys[i], top)))
  }

  /** d / (x + y), entry by entry */
  ghost function Lowered(d: Vector, ys: seq<Gf>, x: Gf): Vector
    requires |d| == |ys|
  {
    seq(|d|, i requires 0 <= i < |d| => Mul(d[i], Inv(Add(x, ys[i]))))
  }

  lemma InvOfSum(x: Gf, y: Gf)
    requires x != y
    ensures Mul(Add(x, y), Inv(Add(x, y))) == 1
  {
    AddCancel(x, y);
    MulInv(Add(x, y));
  }

  /** (x + t) (c / (x + y)) = c + (c (y + t)) / (x + y) */
  lemma LiftTerm(x: Gf, t: Gf, y: Gf, c: Gf)
    requires x != y
    ensures Mul(Add(x, t), Mul(c, Inv(Add(x, y)))) == Add(c, Mul(Mul(c, Add(y, t)), Inv(Add(x, y))))
  {
    hide Add, Mul, Inv;
    var a := Inv(Add(x, y));
    InvOfSum(x, y);
    // x + t = (x + y) + (y + t)
    AddAssoc(x, y, Add(y, t));
    AddTwice(t, y);
    MulComm(c, a);
    MulAssoc(Add(x, t), a, c);
    AddMul(Add(x, y), Add(y, t), a);
    AddMul(1, Mul(Add(y, t), a), c);
    MulOne(c);
    MulComm(Mul(Add(y, t), a), c);
    MulAssoc(c, Add(y, t), a);
  }

  lemma {:induction false} LiftSum(x: Gf, t: Gf, ys: seq<Gf>, c: Vector, n: nat)
    requires |c| == |ys| && n <= |c|
    requires x !in ys
    ensures Mul(Add(x, t), Dot(c, Row(x, ys), n)) == Add(Total(c, n), Dot(Lifted(c, ys, t), Row(x, ys), n))
  {
    hide Add, Mul, Inv;
    if n == 0 {
      MulZero(Add(x, t));
      AddZero(0);
    } else {
      var i := n - 1;
      LiftSum(x, t, ys, c, i);
      LiftTerm(x, t, ys[i], c[i]);
      MulAdd(Add(x, t), Dot(c, Row(x, ys), i), Mul(c[i], Row(x, ys)[i]));
      AddSwap(Total(c, i), Dot(Lifted(c, ys, t), Row(x, ys), i), c[i], Mul(Lifted(c, ys, t)[i], Row(x, ys)[i]));
    }
  }

  /** d / (x + y) + d / (z + y) = (x + z) ((d / (z + y)) / (x + y)) */
  lemma LowerTerm(x: Gf, z: Gf, y: Gf, d: Gf)
    requires x != y && z != y
    ensures Add(Mul(d, Inv(Add(x, y))), Mul(d, Inv(Add(z, y))))
         == Mul(Add(x, z), Mul(Mul(d, Inv(Add(z, y))), Inv(Add(x, y))))
  {
    hide Add, Mul, Inv;
    var a, b := Inv(Add(x, y)), Inv(Add(z, y));
    LiftTerm(x, z, y, Mul(d, b));
    // (d b) (y + z) = d
    InvOfSum(z, y);
    AddComm(y, z);
    MulAssoc(d, b, Add(z, y));
    MulComm(b, Add(z, y));
    MulOne(d);
    AddComm(Mul(d, b), Mul(d, a));
  }

  lemma {:induction false} LowerSum(x: Gf, z: Gf, ys: seq<Gf>, d: Vector, n: nat)
    requires |d| == |ys| && n <= |d|
    requires x !in ys && z !in ys
    ensures Add(Dot(d, Row(x, ys), n), Dot(d, Row(z, ys), n))
         == Mul(Add(x, z), Dot(Lowered(d, ys, z), Row(x, ys), n))
  {
    hide Add, Mul, Inv;
    if n == 0 {
      MulZero(Add(x, z));
      AddZero(0);
    } else {
      var i := n - 1;
      LowerSum(x, z, ys, d, i);
      LowerTerm(x, z, ys[i], d[i]);
      AddSwap(Dot(d, Row(x, ys), i), Mul(d[i], Row(x, ys)[i]), Dot(d, Row(z, ys), i), Mul(d[i], Row(z, ys)[i]));
      MulAdd(Add(x, z), Dot(Lowered(d, ys, z), Row(x, ys), i), Mul(Lowered(d, ys, z)[i], Row(x, ys)[i]));
    }
  }

  ghost predicate Solves(xs: seq<Gf>, ys: seq<Gf>, c: Vector)
    requires |ys| == |c|
  {
    forall j :: 0 <= j < |xs| ==> Dot(c, Row(xs[j], ys), |c|) == 0
  }

  /** The coefficients left after the last x and the last y have been eliminated. */
  ghost function Reduced(xs: seq<Gf>, ys: seq<Gf>, c: Vector): Vector
    requires |xs| == |ys| == |c| > 0
  {
    var n := |c| - 1;
    Lowered(Lifted(c, ys, ys[n]), ys, xs[n])
  }

  lemma ReducedSolves(xs: seq<Gf>, ys: seq<Gf>, c: Vector)
    requires |xs| == |ys| == |c| > 0 && Apart(xs, ys) && Solves(xs, ys, c)
    ensures var n := |c| - 1; Solves(xs[..n], ys[..n], Reduced(xs, ys, c)[..n])
  {
    hide Add, Mul, Inv;
    var n := |c| - 1;
    var t, z, d, e := ys[n], xs[n], Lifted(c, ys, ys[n]), Reduced(xs, ys, c);
    forall j | 0 <= j < n ensures Dot(e[..n], Row(xs[..n][j], ys[..n]), n) == 0 {
      var x := xs[j];
      LiftedTotal(x, t, ys, c);
      LiftedTotal(z, t, ys, c);
      LowerSum(x, z, ys, d, n + 1);
      AddZero(Total(c, n + 1));
      AddCancel(x, z);
      if Dot(e, Row(x, ys), n + 1) != 0 {
        MulNonzero(Add(x, z), Dot(e, Row(x, ys), n + 1));
      }
      LastVanishes(xs, ys, c);
      MulZero(Row(x, ys)[n]);
      AddZero(Dot(e, Row(x, ys), n));
      DotSame(e, Row(x, ys), e[..n], Row(x, ys[..n]), n);
    }
  }

  lemma LiftedTotal(x: Gf, t: Gf, ys: seq<Gf>, c: Vector)
    requires |c| == |ys| && x !in ys && Dot(c, Row(x, ys), |c|) == 0
    ensures Dot(Lifted(c, ys, t), Row(x, ys), |c|) == Total(c, |c|)
  {
    hide Add, Mul, Inv;
    LiftSum(x, t, ys, c, |c|);
    MulZero(Add(x, t));
    AddCancel(Total(c, |c|), Dot(Lifted(c, ys, t), Row(x, ys), |c|));
  }

  lemma LastVanishes(xs: seq<Gf>, ys: seq<Gf>, c: Vector)
    requires |xs| == |ys| == |c| > 0
    ensures Reduced(xs, ys, c)[|c| - 1] == 0
  {
    var n := |c| - 1;
    AddZero(ys[n]);
    MulZero(c[n]);
    MulZero(Inv(Add(xs[n], ys[n])));
  }

  /** Every square matrix 1 / (x + y) with distinct, disjoint x and y has only the zero vector in its kernel. */
  lemma {:induction false} Independent(xs: seq<Gf>, ys: seq<Gf>, c: Vector)
    requires |xs| == |ys| == |c| && Apart(xs, ys) && Solves(xs, ys, c)
    ensures forall i :: 0 <= i < |c| ==> c[i] == 0
    decreases |c|
  {
    hide Add, Mul, Inv;
    if |c| > 0 {
      var n := |c| - 1;
      ReducedSolves(xs, ys, c);
      Independent(xs[..n], ys[..n], Reduced(xs, ys, c)[..n]);
      forall i | 0 <= i < n ensures c[i] == 0 {
        assert Reduced(xs, ys, c)[..n][i] == 0;
        ReducedZero(xs[n], ys[n], ys[i], c[i]);
      }
      DotZero(c, Row(xs[n], ys), n);
      AddZero(Mul(c[n], Row(xs[n], ys)[n]));
      InverseNonzero(xs[n], ys[n]);
      if c[n] != 0 {
        MulNonzero(c[n], Row(xs[n], ys)[n]);
      }
    }
  }

  lemma InverseNonzero(x: Gf, y: Gf)
    requires x != y
    ensures Inv(Add(x, y)) != 0
  {
    AddCancel(x, y);
    MulInv(Add(x, y));
  }

  lemma ReducedZero(x: Gf, t: Gf, y: Gf, c: Gf)
    requires x != y && y != t
    requires Mul(Mul(c, Add(y, t)), Inv(Add(x, y))) == 0
    ensures c == 0
  {
    hide Add, Mul, Inv;
    if c != 0 {
      AddCancel(y, t);
      MulNonzero(c, Add(y, t));
      InverseNonzero(x, y);
      MulNonzero(Mul(c, Add(y, t)), Inv(Add(x, y)));
    }
  }
}
