/** Why every tolerable pattern of erasures can be repaired. */
module ErasureCode {
  import opened Basics
  import opened BitXor
  import opened GaloisField
  import opened LinearAlgebra
  import opened Cauchy

  const DATA_SHARDS_MAX: nat := 255

  ghost predicate IsShape(ds: nat, ps: nat)
  {
    0 < ds && 0 < ps && ds + ps <= DATA_SHARDS_MAX
  }

  /** The coefficients of parity shard j. */
  ghost function ParityRow(ds: nat, ps: nat, j: nat): (v: Vector)
    requires IsShape(ds, ps) && j < ps
    ensures |v| == ds
  {
    seq(ds, i requires 0 <= i < ds => ParityEntry(ps, i, j))
  }

  /** One over the exclusive or of ps + i and j. */
  ghost function ParityEntry(ps: nat, i: nat, j: nat): Gf
    requires ps + i < 256 && j < 256
  {
    Inv(Add(ps + i, j))
  }

  ghost predicate Bounded(s: seq<nat>, n: nat)
  {
    forall i :: 0 <= i < |s| ==> s[i] < n
  }

  /** The data shards that survive and those that are lost. */
  ghost predicate IsSplit(ds: nat, kept: seq<nat>, lost: seq<nat>)
  {
    && Ascending(kept) && Ascending(lost)
    && Bounded(kept, ds) && Bounded(lost, ds)
    && |kept| + |lost| == ds
    && (forall q, i :: 0 <= q < |kept| && 0 <= i < |lost| ==> kept[q] != lost[i])
    && (forall x: nat :: x < ds ==> x in kept || x in lost)
  }

  ghost predicate IsChoice(ps: nat, fec: seq<nat>)
  {
    Ascending(fec) && Bounded(fec, ps)
  }

  /** The rows of the generator that belong to the kept data shards and the chosen parity shards. */
  ghost predicate IsDecodeMatrix(d: Matrix, ds: nat, ps: nat, kept: seq<nat>, lost: seq<nat>, fec: seq<nat>)
    requires IsShape(ds, ps) && IsSplit(ds, kept, lost) && IsChoice(ps, fec) && |fec| == |lost|
  {
    && IsMatrix(d, ds, ds)
    && (forall q :: 0 <= q < |kept| ==> d[q] == Unit(ds, kept[q]))
    && (forall q :: |kept| <= q < ds ==> d[q] == ParityRow(ds, ps, fec[q - |kept|]))
  }

  function Select(v: Vector, pos: seq<nat>): Vector
    requires Bounded(pos, |v|)
  {
    seq(|pos|, i requires 0 <= i < |pos| => v[pos[i]])
  }

  function Range(from: nat, to: nat): seq<nat>
    requires from <= to
  {
    seq(to - from, i requires 0 <= i => from + i)
  }

  lemma InFront(pos: seq<nat>, x: nat)
    requires pos != [] && pos[|pos| - 1] != x
    ensures x in pos ==> x in pos[..|pos| - 1]
  {
    if x in pos {
      var i :| 0 <= i < |pos| && pos[i] == x;
      assert pos[..|pos| - 1][i] == x;
    }
  }

  /** Positions where a factor is zero may be left out of a dot product. */
  lemma {:induction false} DotSparse(u: Vector, v: Vector, n: nat, pos: seq<nat>)
    requires n <= |u| && n <= |v|
    requires Ascending(pos) && Bounded(pos, n)
    requires forall x: nat :: x < n ==> x in pos || u[x] == 0 || v[x] == 0
    ensures Dot(u, v, n) == Dot(Select(u, pos), Select(v, pos), |pos|)
  {
    hide Add, Mul;
    if n > 0 {
      var l := |pos| - 1;
      if l >= 0 && pos[l] == n - 1 {
        forall x: nat | x < n - 1 ensures x in pos[..l] || u[x] == 0 || v[x] == 0 {
          InFront(pos, x);
        }
        DotSparse(u, v, n - 1, pos[..l]);
        DotSame(Select(u, pos), Select(v, pos), Select(u, pos[..l]), Select(v, pos[..l]), l);
      } else {
        assert n - 1 !in pos;
        DotSparse(u, v, n - 1, pos);
        MulZero(u[n - 1]);
        MulZero(v[n - 1]);
        AddZero(Dot(u, v, n - 1));
      }
    }
  }

  /** The points ps + i of the Cauchy matrix. */
  function Points(ps: nat, pos: seq<nat>): seq<Gf>
    requires ps <= 256 && Bounded(pos, 256 - ps)
  {
    seq(|pos|, i requires 0 <= i < |pos| => ps + pos[i])
  }

  function Indices(pos: seq<nat>): seq<Gf>
    requires Bounded(pos, 256)
  {
    seq(|pos|, i requires 0 <= i < |pos| => pos[i])
  }

  lemma ParityRowSelect(ds: nat, ps: nat, j: nat, pos: seq<nat>)
    requires IsShape(ds, ps) && j < ps && Bounded(pos, ds)
    ensures Select(ParityRow(ds, ps, j), pos) == Row(j, Points(ps, pos))
  {
    hide Add, Inv;
    forall i | 0 <= i < |pos| ensures Select(ParityRow(ds, ps, j), pos)[i] == Row(j, Points(ps, pos))[i] {
      AddComm(ps + pos[i], j);
    }
  }

  /** The kept shards and as many parity shards as are lost determine the data. */
  lemma DecodeNotSingular(d: Matrix, ds: nat, ps: nat, kept: seq<nat>, lost: seq<nat>, fec: seq<nat>)
    requires IsShape(ds, ps) && IsSplit(ds, kept, lost) && IsChoice(ps, fec) && |fec| == |lost|
    requires IsDecodeMatrix(d, ds, ps, kept, lost, fec)
    ensures !Singular(d, ds)
  {
    forall v: Vector | |v| == ds && Maps(d, ds, v, Zero(ds)) ensures v == Zero(ds) {
      KernelIsZero(d, ds, ps, kept, lost, fec, v);
    }
  }

  lemma KernelIsZero(d: Matrix, ds: nat, ps: nat, kept: seq<nat>, lost: seq<nat>, fec: seq<nat>, v: Vector)
    requires IsShape(ds, ps) && IsSplit(ds, kept, lost) && IsChoice(ps, fec) && |fec| == |lost|
    requires IsDecodeMatrix(d, ds, ps, kept, lost, fec)
    requires |v| == ds && Maps(d, ds, v, Zero(ds))
    ensures v == Zero(ds)
  {
    hide Add, Mul, Inv;
    forall x | x in kept ensures v[x] == 0 {
      var q :| 0 <= q < |kept| && kept[q] == x;
      assert Dot(d[q], v, ds) == Zero(ds)[q];
      DotComm(Unit(ds, x), v, ds);
      DotUnit(v, x, ds);
    }
    var c, xs, ys := Select(v, lost), Indices(fec), Points(ps, lost);
    forall j | 0 <= j < |xs| ensures Dot(c, Row(xs[j], ys), |c|) == 0 {
      var q := |kept| + j;
      assert Dot(d[q], v, ds) == Zero(ds)[q];
      DotSparse(ParityRow(ds, ps, fec[j]), v, ds, lost);
      ParityRowSelect(ds, ps, fec[j], lost);
      DotComm(Row(xs[j], ys), c, |c|);
    }
    Independent(xs, ys, c);
    forall x: nat | x < ds ensures v[x] == 0 {
      if x in lost {
        var i :| 0 <= i < |lost| && lost[i] == x;
        assert c[i] == 0;
      }
    }
  }

  // ----- the coefficients of the first shard

  /** Row w of an inverse of d, from some row on, against a column of d that is zero above. */
  lemma TailDot(d: Matrix, ds: nat, ps: nat, kept: seq<nat>, lost: seq<nat>, fec: seq<nat>,
                w: Vector, j: nat, from: nat)
    requires IsShape(ds, ps) && IsSplit(ds, kept, lost) && IsChoice(ps, fec) && |fec| == |lost|
    requires IsDecodeMatrix(d, ds, ps, kept, lost, fec)
    requires |w| == ds && j < ds && |kept| <= from <= ds
    requires forall q :: 0 <= q < from ==> w[q] == 0 || d[q][j] == 0
    ensures Dot(w, Column(d, ds, j), ds) == Dot(w[from..], Row(ps + j, Indices(fec[from - |kept|..])), ds - from)
  {
    hide Add, Mul, Inv, Row, ParityRow;
    var pos, u := Range(from, ds), Column(d, ds, j);
    forall x: nat | x < ds ensures x in pos || w[x] == 0 || u[x] == 0 {
      if x >= from {
        assert pos[x - from] == x;
      }
    }
    DotSparse(w, u, ds, pos);
    assert Select(w, pos) == w[from..];
    TailColumn(d, ds, ps, kept, lost, fec, j, from);
  }

  lemma TailColumn(d: Matrix, ds: nat, ps: nat, kept: seq<nat>, lost: seq<nat>, fec: seq<nat>, j: nat, from: nat)
    requires IsShape(ds, ps) && IsSplit(ds, kept, lost) && IsChoice(ps, fec) && |fec| == |lost|
    requires IsDecodeMatrix(d, ds, ps, kept, lost, fec) && j < ds && |kept| <= from <= ds
    ensures Select(Column(d, ds, j), Range(from, ds)) == Row(ps + j, Indices(fec[from - |kept|..]))
  {
    hide Add, Inv;
    var ys, pos, u := Indices(fec[from - |kept|..]), Range(from, ds), Column(d, ds, j);
    forall i | 0 <= i < ds - from ensures Select(u, pos)[i] == Row(ps + j, ys)[i] {
      assert d[from + i] == ParityRow(ds, ps, fec[from + i - |kept|]);
    }
  }

  /** Coefficients that send the columns J to zero vanish, and so send every column to zero. */
  lemma NoCoefficients(ds: nat, ps: nat, pos: seq<nat>, ys: seq<nat>, c: Vector, e: nat)
    requires IsShape(ds, ps) && |pos| == |ys| == |c| && e < ds
    requires Distinct(pos) && Bounded(pos, ds)
    requires IsChoice(ps, ys)
    requires forall i :: 0 <= i < |pos| ==> Dot(c, Row(ps + pos[i], Indices(ys)), |c|) == 0
    ensures Dot(c, Row(ps + e, Indices(ys)), |c|) == 0
  {
    hide Add, Mul, Inv;
    var xs := Points(ps, pos);
    Independent(xs, Indices(ys), c);
    DotZero(c, Row(ps + e, Indices(ys)), |c|);
  }

  /** No first coefficient used to rebuild a lost shard is zero. */
  lemma FirstCoefficient(d: Matrix, b: Matrix, ds: nat, ps: nat, kept: seq<nat>, lost: seq<nat>, fec: seq<nat>, i: nat)
    requires IsShape(ds, ps) && IsSplit(ds, kept, lost) && IsChoice(ps, fec) && |fec| == |lost|
    requires IsDecodeMatrix(d, ds, ps, kept, lost, fec)
    requires IsMatrix(b, ds, ds) && Inverse(d, b, ds)
    requires i < |lost|
    ensures b[lost[i]][0] != 0
  {
    hide Add, Mul, Inv, Inverse, IsSplit, IsChoice, IsDecodeMatrix;
    if |kept| > 0 {
      FirstCoefficientKept(d, b, ds, ps, kept, lost, fec, i);
    } else {
      FirstCoefficientAllLost(d, b, ds, ps, kept, lost, fec, i);
    }
  }

  lemma UnitColumnEntry(d: Matrix, ds: nat, ps: nat, kept: seq<nat>, lost: seq<nat>, fec: seq<nat>, q: nat, j: nat)
    requires IsShape(ds, ps) && IsSplit(ds, kept, lost) && IsChoice(ps, fec) && |fec| == |lost|
    requires IsDecodeMatrix(d, ds, ps, kept, lost, fec)
    requires q < |kept| && j < ds
    ensures d[q][j] == if kept[q] == j then 1 else 0
  {
    hide Inv, ParityRow;
  }

  lemma FirstCoefficientKept(d: Matrix, b: Matrix, ds: nat, ps: nat, kept: seq<nat>, lost: seq<nat>, fec: seq<nat>,
                             i: nat)
    requires IsShape(ds, ps) && IsSplit(ds, kept, lost) && IsChoice(ps, fec) && |fec| == |lost|
    requires IsDecodeMatrix(d, ds, ps, kept, lost, fec)
    requires IsMatrix(b, ds, ds) && Inverse(d, b, ds)
    requires i < |lost| && |kept| > 0
    ensures b[lost[i]][0] != 0
  {
    hide Add, Mul, Inv, Inverse, ParityRow;
    var w, s, e := b[lost[i]], |kept|, lost[i];
    if w[0] == 0 {
      var pos := lost[i := kept[0]];
      forall m | 0 <= m < |pos| ensures Dot(w[s..], Row(ps + pos[m], Indices(fec)), |lost|) == 0 {
        forall q | 0 <= q < s ensures w[q] == 0 || d[q][pos[m]] == 0 {
          UnitColumnEntry(d, ds, ps, kept, lost, fec, q, pos[m]);
        }
        TailDot(d, ds, ps, kept, lost, fec, w, pos[m], s);
        assert fec[0..] == fec;
        assert pos[m] != e;
        InverseProduct(d, b, ds, e, pos[m]);
      }
      assert Distinct(pos);
      NoCoefficients(ds, ps, pos, fec, w[s..], e);
      forall q | 0 <= q < s ensures d[q][e] == 0 {
        UnitColumnEntry(d, ds, ps, kept, lost, fec, q, e);
      }
      TailDot(d, ds, ps, kept, lost, fec, w, e, s);
      assert fec[0..] == fec;
      InverseProduct(d, b, ds, e, e);
    }
  }

  lemma FirstCoefficientAllLost(d: Matrix, b: Matrix, ds: nat, ps: nat, kept: seq<nat>, lost: seq<nat>, fec: seq<nat>,
                                i: nat)
    requires IsShape(ds, ps) && IsSplit(ds, kept, lost) && IsChoice(ps, fec) && |fec| == |lost|
    requires IsDecodeMatrix(d, ds, ps, kept, lost, fec)
    requires IsMatrix(b, ds, ds) && Inverse(d, b, ds)
    requires i < |lost| && |kept| == 0
    ensures b[lost[i]][0] != 0
  {
    hide Add, Mul, Inv, Inverse, ParityRow;
    var w, e := b[lost[i]], lost[i];
    if w[0] == 0 {
      var pos := lost[..i] + lost[i + 1..];
      forall m | 0 <= m < |pos| ensures Dot(w[1..], Row(ps + pos[m], Indices(fec[1..])), ds - 1) == 0 {
        var j := pos[m];
        TailDot(d, ds, ps, kept, lost, fec, w, j, 1);
        InverseProduct(d, b, ds, e, j);
        assert j != e;
      }
      NoCoefficients(ds, ps, pos, fec[1..], w[1..], e);
      TailDot(d, ds, ps, kept, lost, fec, w, e, 1);
      InverseProduct(d, b, ds, e, e);
    }
  }

  /** The inverse rows give back the lost data from the kept shards and the parity. */
  lemma DecodeRow(d: Matrix, b: Matrix, ds: nat, ps: nat, kept: seq<nat>, lost: seq<nat>, fec: seq<nat>,
                  x: Vector, sub: Vector, e: nat)
    requires IsShape(ds, ps) && IsSplit(ds, kept, lost) && IsChoice(ps, fec) && |fec| == |lost|
    requires IsDecodeMatrix(d, ds, ps, kept, lost, fec)
    requires IsMatrix(b, ds, ds) && Inverse(d, b, ds)
    requires |x| == |sub| == ds && e < ds
    requires forall q :: 0 <= q < |kept| ==> sub[q] == x[kept[q]]
    requires forall q :: |kept| <= q < ds ==> sub[q] == Dot(ParityRow(ds, ps, fec[q - |kept|]), x, ds)
    ensures Dot(b[e], sub, ds) == x[e]
  {
    hide Add, Mul, Inv, ParityRow;
    forall q | 0 <= q < ds ensures Dot(d[q], x, ds) == sub[q] {
      if q < |kept| {
        DotComm(Unit(ds, kept[q]), x, ds);
        DotUnit(x, kept[q], ds);
      }
    }
    assert Maps(d, ds, x, sub);
    assert Maps(b, ds, sub, x);
  }

  /** Every square submatrix of the parity rows has only the zero vector in its kernel. */
  lemma ParitySubmatrix(ds: nat, ps: nat, rows: seq<nat>, cols: seq<nat>, c: Vector)
    requires IsShape(ds, ps) && |rows| == |cols| == |c|
    requires Distinct(rows) && Bounded(rows, ps) && Distinct(cols) && Bounded(cols, ds)
    requires forall p :: 0 <= p < |rows| ==> Dot(Select(ParityRow(ds, ps, rows[p]), cols), c, |c|) == 0
    ensures c == Zero(|c|)
  {
    hide Add, Mul, Inv, ParityRow;
    var xs, ys := Indices(rows), Points(ps, cols);
    forall p | 0 <= p < |xs| ensures Dot(c, Row(xs[p], ys), |c|) == 0 {
      ParityRowSelect(ds, ps, rows[p], cols);
      DotComm(Row(xs[p], ys), c, |c|);
    }
    Independent(xs, ys, c);
  }

  // ----- the coefficients themselves

  /** The inverse is the only factor that gives one. */
  lemma OnlyInverse(a: Gf, b: Gf)
    requires Mul(a, b) == 1
    ensures b == Inv(a)
  {
    hide Mul, Inv;
    MulZero(b);
    MulInv(a);
    MulAssoc(Inv(a), a, b);
    MulOne(b);
    MulOne(Inv(a));
    MulComm(1, b);
    MulComm(Inv(a), 1);
  }

  /** Coefficient i of parity shard j is the one whose product with the exclusive or of ps + i and j is one. */
  lemma CoefficientIs(ds: nat, ps: nat, j: nat, i: nat, c: Gf)
    requires IsShape(ds, ps) && j < ps && i < ds
    ensures ParityRow(ds, ps, j)[i] == c <==> Mul(Add(ps + i, j), c) == 1
  {
    hide Mul, Inv, Add;
    var a := Add(ps + i, j);
    AddCancel(ps + i, j);
    MulInv(a);
    if Mul(a, c) == 1 {
      OnlyInverse(a, c);
    }
  }

  /** Four data shards and two parity shards. */
  lemma FourAndTwo()
    ensures ParityRow(4, 2, 0) == [142, 244, 71, 167] && ParityRow(4, 2, 1) == [244, 142, 167, 71]
  {
    SmallProducts();
    SmallSums();
    hide Mul, Inv, Add;
    forall j, i | 0 <= j < 2 && 0 <= i < 4
      ensures ParityRow(4, 2, j)[i] == [[142, 244, 71, 167], [244, 142, 167, 71]][j][i]
    {
      CoefficientIs(4, 2, j, i, [[142, 244, 71, 167], [244, 142, 167, 71]][j][i]);
    }
  }

  lemma SmallSums()
    ensures Add(2, 0) == 2 && Add(3, 0) == 3 && Add(4, 0) == 4 && Add(5, 0) == 5
    ensures Add(2, 1) == 3 && Add(3, 1) == 2 && Add(4, 1) == 5 && Add(5, 1) == 4
  {
  }

  /** Products with two, three, four and five. */
  lemma SmallFactors(a: Gf)
    ensures Mul(a, 2) == Xtime(a) && Mul(a, 3) == Add(a, Xtime(a))
    ensures Mul(a, 4) == Xtime(Xtime(a)) && Mul(a, 5) == Add(a, Xtime(Xtime(a)))
  {
    hide Xtime, Add;
    MulZero(a);
    MulOne(a);
    AddZero(a);
    AddZero(Xtime(a));
    AddZero(Xtime(Xtime(a)));
    assert Mul(a, 2) == Add(0, Xtime(Mul(a, 1)));
    assert Mul(a, 3) == Add(a, Xtime(Mul(a, 1)));
    assert Mul(a, 4) == Add(0, Xtime(Mul(a, 2)));
    assert Mul(a, 5) == Add(a, Xtime(Mul(a, 2)));
  }

  lemma SmallXors()
    ensures Xor(28, 29) == 1 && Xor(244, 245) == 1 && Xor(167, 166) == 1
    ensures Xor(232, 29) == 245 && Xor(78, 29) == 83
  {
    XorZero(14, 14);
    XorZero(122, 122);
    XorZero(83, 83);
    assert Xor(14, 1) == 15;
    assert Xor(29, 3) == 30;
    assert Xor(58, 7) == 61;
    assert Xor(116, 14) == 122;
    assert Xor(4, 1) == 5;
    assert Xor(9, 3) == 10;
    assert Xor(19, 7) == 20;
    assert Xor(39, 14) == 41;
  }

  lemma SmallProducts()
    ensures Mul(2, 142) == 1 && Mul(3, 244) == 1 && Mul(4, 71) == 1 && Mul(5, 167) == 1
  {
    hide Mul, Xor;
    SmallXors();
    assert Xtime(142) == 1 && Xtime(71) == 142 && Xtime(83) == 166;
    assert Xtime(244) == 245 && Xtime(167) == 83;
    SmallFactors(142);
    SmallFactors(244);
    SmallFactors(71);
    SmallFactors(167);
    MulComm(2, 142);
    MulComm(3, 244);
    MulComm(4, 71);
    MulComm(5, 167);
  }
}
