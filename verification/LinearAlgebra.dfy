/** Vectors and matrices over the field with 256 elements, and the exchange step of Gauss-Jordan elimination. */
module LinearAlgebra {
  import opened GaloisField

  type Vector = seq<Gf>
  type Matrix = seq<Vector>

  ghost predicate IsMatrix(m: Matrix, rows: nat, cols: nat)
  {
    |m| == rows && forall r :: 0 <= r < rows ==> |m[r]| == cols
  }

  /** The sum of the products of the first n entries. */
  function Dot(u: Vector, v: Vector, n: nat): Gf
    requires n <= |u| && n <= |v|
  {
    if n == 0 then 0 else Add(Dot(u, v, n - 1), Mul(u[n - 1], v[n - 1]))
  }

  /** y = m x */
  ghost predicate Maps(m: Matrix, k: nat, x: Vector, y: Vector)
    requires IsMatrix(m, k, k) && |x| == k && |y| == k
  {
    forall r :: 0 <= r < k ==> Dot(m[r], x, k) == y[r]
  }

  /** The matrices a and b undo each other. */
  ghost predicate Inverse(a: Matrix, b: Matrix, k: nat)
    requires IsMatrix(a, k, k) && IsMatrix(b, k, k)
  {
    forall x: Vector, y: Vector | |x| == k && |y| == k :: Maps(a, k, x, y) <==> Maps(b, k, y, x)
  }

  function Zero(k: nat): Vector
  {
    seq(k, _ => 0)
  }

  function Unit(k: nat, j: nat): Vector
  {
    seq(k, i => if i == j then 1 else 0)
  }

  function Column(m: Matrix, k: nat, j: nat): Vector
    requires IsMatrix(m, k, k) && j < k
  {
    seq(k, r requires 0 <= r < k => m[r][j])
  }

  /** Some non-zero vector is sent to zero. */
  ghost predicate Singular(m: Matrix, k: nat)
    requires IsMatrix(m, k, k)
  {
    exists x: Vector :: |x| == k && x != Zero(k) && Maps(m, k, x, Zero(k))
  }

  // ----- dot products

  lemma {:induction false} DotSame(u: Vector, v: Vector, u': Vector, v': Vector, n: nat)
    requires n <= |u| && n <= |v| && n <= |u'| && n <= |v'|
    requires forall j :: 0 <= j < n ==> u[j] == u'[j] && v[j] == v'[j]
    ensures Dot(u, v, n) == Dot(u', v', n)
  {
    if n > 0 {
      DotSame(u, v, u', v', n - 1);
    }
  }

  lemma {:induction false} DotComm(u: Vector, v: Vector, n: nat)
    requires n <= |u| && n <= |v|
    ensures Dot(u, v, n) == Dot(v, u, n)
  {
    hide Add, Mul;
    if n > 0 {
      DotComm(u, v, n - 1);
      MulComm(u[n - 1], v[n - 1]);
    }
  }

  lemma {:induction false} DotZero(u: Vector, v: Vector, n: nat)
    requires n <= |u| && n <= |v|
    requires forall j :: 0 <= j < n ==> u[j] == 0 || v[j] == 0
    ensures Dot(u, v, n) == 0
  {
    if n > 0 {
      DotZero(u, v, n - 1);
      MulZero(u[n - 1]);
      MulZero(v[n - 1]);
      AddZero(0);
      hide Add, Mul;
    }
  }

  /** Changing one entry on each side exchanges one product. */
  lemma {:induction false} DotUpdate(u: Vector, v: Vector, u': Vector, v': Vector, p: nat, n: nat)
    requires p < n <= |u| && n <= |v| && n <= |u'| && n <= |v'|
    requires forall j :: 0 <= j < n && j != p ==> u[j] == u'[j] && v[j] == v'[j]
    ensures Add(Dot(u', v', n), Mul(u[p], v[p])) == Add(Dot(u, v, n), Mul(u'[p], v'[p]))
  {
    hide Add, Mul;
    var d, d' := Dot(u, v, n - 1), Dot(u', v', n - 1);
    if p == n - 1 {
      DotSame(u, v, u', v', n - 1);
      AddRight(d, Mul(u'[p], v'[p]), Mul(u[p], v[p]));
    } else {
      DotUpdate(u, v, u', v', p, n - 1);
      var t := Mul(u[n - 1], v[n - 1]);
      AddRight(d, t, Mul(u'[p], v'[p]));
      AddRight(d', t, Mul(u[p], v[p]));
    }
  }

  lemma AddRight(a: Gf, b: Gf, c: Gf)
    ensures Add(Add(a, b), c) == Add(Add(a, c), b)
  {
    AddAssoc(a, b, c);
    AddComm(b, c);
    AddAssoc(a, c, b);
  }

  /** The dot product is linear on the left. */
  lemma {:induction false} DotLinear(u: Vector, w: Vector, c: Gf, z: Vector, v: Vector, n: nat)
    requires n <= |u| && n <= |w| && n <= |z| && n <= |v|
    requires forall j :: 0 <= j < n ==> z[j] == Add(u[j], Mul(c, w[j]))
    ensures Dot(z, v, n) == Add(Dot(u, v, n), Mul(c, Dot(w, v, n)))
  {
    hide Add, Mul;
    if n == 0 {
      MulZero(c);
      AddZero(0);
    } else {
      DotLinear(u, w, c, z, v, n - 1);
      var j := n - 1;
      AddMul(u[j], Mul(c, w[j]), v[j]);
      MulAssoc(c, w[j], v[j]);
      MulAdd(c, Dot(w, v, j), Mul(w[j], v[j]));
      AddSwap(Dot(u, v, j), Mul(c, Dot(w, v, j)), Mul(u[j], v[j]), Mul(c, Mul(w[j], v[j])));
    }
  }

  lemma {:induction false} DotScale(w: Vector, c: Gf, z: Vector, v: Vector, n: nat)
    requires n <= |w| && n <= |z| && n <= |v|
    requires forall j :: 0 <= j < n ==> z[j] == Mul(c, w[j])
    ensures Dot(z, v, n) == Mul(c, Dot(w, v, n))
  {
    hide Add, Mul;
    forall j | 0 <= j < n ensures z[j] == Add(Zero(n)[j], Mul(c, w[j])) {
      AddZero(Mul(c, w[j]));
    }
    DotLinear(Zero(n), w, c, z, v, n);
    DotZero(Zero(n), v, n);
    AddZero(Mul(c, Dot(w, v, n)));
  }

  lemma DotUnit(u: Vector, j: nat, k: nat)
    requires |u| == k && j < k
    ensures Dot(u, Unit(k, j), k) == u[j]
  {
    hide Add, Mul;
    DotZero(u, Zero(k), k);
    DotUpdate(u, Zero(k), u, Unit(k, j), j, k);
    MulZero(u[j]);
    MulOne(u[j]);
    AddZero(Dot(u, Unit(k, j), k));
    AddZero(u[j]);
  }

  // ----- inverses

  /** The product of mutually inverse matrices is the identity. */
  lemma InverseProduct(a: Matrix, b: Matrix, k: nat, i: nat, j: nat)
    requires IsMatrix(a, k, k) && IsMatrix(b, k, k) && Inverse(a, b, k)
    requires i < k && j < k
    ensures Dot(b[i], Column(a, k, j), k) == if i == j then 1 else 0
    ensures Dot(a[i], Column(b, k, j), k) == if i == j then 1 else 0
  {
    UnitColumn(a, k, j);
    assert Maps(b, k, Column(a, k, j), Unit(k, j));
    UnitColumn(b, k, j);
    assert Maps(a, k, Column(b, k, j), Unit(k, j));
  }

  lemma UnitColumn(a: Matrix, k: nat, j: nat)
    requires IsMatrix(a, k, k) && j < k
    ensures Maps(a, k, Unit(k, j), Column(a, k, j))
  {
    forall r | 0 <= r < k ensures Dot(a[r], Unit(k, j), k) == Column(a, k, j)[r] {
      DotUnit(a[r], j, k);
    }
  }

  lemma InverseNotSingular(a: Matrix, b: Matrix, k: nat)
    requires IsMatrix(a, k, k) && IsMatrix(b, k, k) && Inverse(a, b, k)
    ensures !Singular(a, k)
  {
    forall x: Vector | |x| == k && Maps(a, k, x, Zero(k)) ensures x == Zero(k) {
      assert Maps(b, k, Zero(k), x);
      forall r | 0 <= r < k ensures x[r] == 0 {
        DotZero(b[r], Zero(k), k);
      }
    }
  }

  // ----- the exchange step

  /** The variables on the right of the current equations: y where a column has been pivoted, x elsewhere. */
  function Inputs(k: nat, pivoted: seq<bool>, perm: seq<nat>, x: Vector, y: Vector): Vector
    requires |pivoted| == |perm| == |x| == |y| == k && forall j :: 0 <= j < k ==> perm[j] < k
  {
    seq(k, j requires 0 <= j < k => if pivoted[j] then y[perm[j]] else x[j])
  }

  /** The variables on the left: x where a row has been pivoted, y elsewhere. */
  function Outputs(k: nat, pivoted: seq<bool>, perm: seq<nat>, x: Vector, y: Vector): Vector
    requires |pivoted| == |perm| == |x| == |y| == k && forall j :: 0 <= j < k ==> perm[j] < k
  {
    seq(k, r requires 0 <= r < k => if pivoted[r] then x[r] else y[perm[r]])
  }

  ghost predicate IsPlan(k: nat, pivoted: seq<bool>, perm: seq<nat>)
  {
    |pivoted| == |perm| == k && forall j :: 0 <= j < k ==> perm[j] < k
  }

  /** The equations Outputs = m Inputs. */
  ghost predicate Exchanged(m: Matrix, k: nat, pivoted: seq<bool>, perm: seq<nat>, x: Vector, y: Vector)
    requires IsMatrix(m, k, k) && IsPlan(k, pivoted, perm) && |x| == |y| == k
  {
    Maps(m, k, Inputs(k, pivoted, perm, x, y), Outputs(k, pivoted, perm, x, y))
  }

  /** m with the pivot p exchanged says the same about x and y as a does. */
  ghost predicate Represents(a: Matrix, m: Matrix, k: nat, pivoted: seq<bool>, perm: seq<nat>)
    requires IsMatrix(a, k, k) && IsMatrix(m, k, k) && IsPlan(k, pivoted, perm)
  {
    forall x: Vector, y: Vector | |x| == k && |y| == k ::
      Maps(a, k, x, y) <==> Exchanged(m, k, pivoted, perm, x, y)
  }

  function Swapped<T>(s: seq<T>, a: nat, b: nat): (t: seq<T>)
    requires a < |s| && b < |s|
    ensures |t| == |s|
  {
    s[a := s[b]][b := s[a]]
  }

  lemma RepresentsInitially(a: Matrix, k: nat, pivoted: seq<bool>, perm: seq<nat>)
    requires IsMatrix(a, k, k) && IsPlan(k, pivoted, perm)
    requires forall j :: 0 <= j < k ==> !pivoted[j] && perm[j] == j
    ensures Represents(a, a, k, pivoted, perm)
  {
    forall x: Vector, y: Vector | |x| == k && |y| == k
      ensures Maps(a, k, x, y) <==> Exchanged(a, k, pivoted, perm, x, y)
    {
      assert Inputs(k, pivoted, perm, x, y) == x;
      assert Outputs(k, pivoted, perm, x, y) == y;
    }
  }

  lemma RepresentsRowSwap(a: Matrix, m: Matrix, k: nat, pivoted: seq<bool>, perm: seq<nat>, p: nat, q: nat)
    requires IsMatrix(a, k, k) && IsMatrix(m, k, k) && IsPlan(k, pivoted, perm)
    requires p < k && q < k && !pivoted[p] && !pivoted[q]
    requires Represents(a, m, k, pivoted, perm)
    ensures IsMatrix(Swapped(m, p, q), k, k) && IsPlan(k, pivoted, Swapped(perm, p, q))
    ensures Represents(a, Swapped(m, p, q), k, pivoted, Swapped(perm, p, q))
  {
    var m', perm' := Swapped(m, p, q), Swapped(perm, p, q);
    forall x: Vector, y: Vector | |x| == k && |y| == k
      ensures Maps(a, k, x, y) <==> Exchanged(m', k, pivoted, perm', x, y)
    {
      var i := Inputs(k, pivoted, perm, x, y);
      var o, o' := Outputs(k, pivoted, perm, x, y), Outputs(k, pivoted, perm', x, y);
      assert Inputs(k, pivoted, perm', x, y) == i;
      assert o' == Swapped(o, p, q);
      MapsSwap(m, k, i, o, p, q);
    }
  }

  lemma MapsSwap(m: Matrix, k: nat, x: Vector, y: Vector, p: nat, q: nat)
    requires IsMatrix(m, k, k) && |x| == |y| == k && p < k && q < k
    ensures Maps(Swapped(m, p, q), k, x, Swapped(y, p, q)) <==> Maps(m, k, x, y)
  {
    var m', y' := Swapped(m, p, q), Swapped(y, p, q);
    if Maps(m', k, x, y') {
      forall r | 0 <= r < k ensures Dot(m[r], x, k) == y[r] {
        var r' := if r == p then q else if r == q then p else r;
        assert Dot(m'[r'], x, k) == y'[r'];
      }
    }
  }

  /** The matrix after the elimination of column p, whose pivot is not zero. */
  ghost predicate IsPivoted(m: Matrix, m': Matrix, k: nat, p: nat)
    requires IsMatrix(m, k, k) && IsMatrix(m', k, k) && p < k
  {
    var ci := Inv(m[p][p]);
    && (forall j :: 0 <= j < k ==> m'[p][j] == if j == p then ci else Mul(ci, m[p][j]))
    && (forall r, j :: 0 <= r < k && r != p && 0 <= j < k ==>
          m'[r][j] == Add(if j == p then 0 else m[r][j], Mul(m[r][p], m'[p][j])))
  }

  lemma PivotRow(m: Matrix, m': Matrix, k: nat, p: nat, i: Vector, yp: Gf)
    requires IsMatrix(m, k, k) && IsMatrix(m', k, k) && p < k && m[p][p] != 0
    requires IsPivoted(m, m', k, p)
    requires |i| == k
    ensures Dot(m[p], i, k) == yp <==> Dot(m'[p], i[p := yp], k) == i[p]
  {
    hide Add, Mul;
    var c := m[p][p];
    var ci := Inv(c);
    var w: Vector := seq(k, j requires 0 <= j < k => Mul(ci, m[p][j]));
    MulInv(c);
    DotScale(m[p], ci, w, i, k);
    var i' := i[p := yp];
    DotUpdate(w, i, m'[p], i', p, k);
    assert w[p] == 1;
    MulOne(i[p]);
    var d := Dot(m[p], i, k);
    PivotAlgebra(Dot(m'[p], i', k), i[p], ci, d, yp);
  }

  lemma PivotAlgebra(e: Gf, xp: Gf, ci: Gf, d: Gf, yp: Gf)
    requires ci != 0 && Add(e, xp) == Add(Mul(ci, d), Mul(ci, yp))
    ensures d == yp <==> e == xp
  {
    hide Mul;
    MulAdd(ci, d, yp);
    AddCancel(d, yp);
    AddCancel(e, xp);
    MulZero(ci);
    hide Add;
    if d != yp {
      MulNonzero(ci, Add(d, yp));
    }
  }

  lemma OtherRow(m: Matrix, m': Matrix, k: nat, p: nat, i: Vector, yp: Gf, r: nat)
    requires IsMatrix(m, k, k) && IsMatrix(m', k, k) && p < k
    requires IsPivoted(m, m', k, p)
    requires |i| == k && r < k && r != p
    requires Dot(m'[p], i[p := yp], k) == i[p]
    ensures Dot(m'[r], i[p := yp], k) == Dot(m[r], i, k)
  {
    hide Add, Mul;
    var i' := i[p := yp];
    var d := m[r][p];
    var u := m[r][p := 0];
    DotLinear(u, m'[p], d, m'[r], i', k);
    DotUpdate(m[r], i, u, i', p, k);
    MulZero(yp);
    AddZero(Dot(m[r], i, k));
  }

  lemma RepresentsPivot(a: Matrix, m: Matrix, m': Matrix, k: nat, pivoted: seq<bool>, perm: seq<nat>, p: nat)
    requires IsMatrix(a, k, k) && IsMatrix(m, k, k) && IsMatrix(m', k, k) && IsPlan(k, pivoted, perm)
    requires p < k && !pivoted[p] && m[p][p] != 0
    requires IsPivoted(m, m', k, p)
    requires Represents(a, m, k, pivoted, perm)
    ensures Represents(a, m', k, pivoted[p := true], perm)
  {
    var pivoted' := pivoted[p := true];
    forall x: Vector, y: Vector | |x| == k && |y| == k
      ensures Maps(a, k, x, y) <==> Exchanged(m', k, pivoted', perm, x, y)
    {
      var i, i' := Inputs(k, pivoted, perm, x, y), Inputs(k, pivoted', perm, x, y);
      var o, o' := Outputs(k, pivoted, perm, x, y), Outputs(k, pivoted', perm, x, y);
      var yp := y[perm[p]];
      assert i' == i[p := yp] && i[p] == x[p];
      assert o' == o[p := x[p]] && o[p] == yp;
      ExchangeRows(m, m', k, p, i, o, yp);
    }
  }

  lemma ExchangeRows(m: Matrix, m': Matrix, k: nat, p: nat, i: Vector, o: Vector, yp: Gf)
    requires IsMatrix(m, k, k) && IsMatrix(m', k, k) && p < k && m[p][p] != 0
    requires IsPivoted(m, m', k, p)
    requires |i| == |o| == k && o[p] == yp
    ensures Maps(m, k, i, o) <==> Maps(m', k, i[p := yp], o[p := i[p]])
  {
    var i', o' := i[p := yp], o[p := i[p]];
    PivotRow(m, m', k, p, i, yp);
    if Maps(m, k, i, o) || Maps(m', k, i', o') {
      assert Dot(m'[p], i', k) == i[p] by {
        if Maps(m, k, i, o) {
          assert Dot(m[p], i, k) == o[p];
        } else {
          assert Dot(m'[p], i', k) == o'[p];
        }
      }
      forall r | 0 <= r < k && r != p ensures Dot(m'[r], i', k) == Dot(m[r], i, k) {
        OtherRow(m, m', k, p, i, yp, r);
      }
    }
  }

  function StuckVector(m: Matrix, k: nat, pivoted: seq<bool>, p: nat): (x: Vector)
    requires IsMatrix(m, k, k) && |pivoted| == k && p < k
    ensures |x| == k
  {
    seq(k, r requires 0 <= r < k => if pivoted[r] then m[r][p] else if r == p then 1 else 0)
  }

  lemma StuckSolution(m: Matrix, k: nat, pivoted: seq<bool>, perm: seq<nat>, p: nat)
    requires IsMatrix(m, k, k) && IsPlan(k, pivoted, perm)
    requires p < k && !pivoted[p]
    requires forall r :: 0 <= r < k && !pivoted[r] ==> m[r][p] == 0
    ensures Exchanged(m, k, pivoted, perm, StuckVector(m, k, pivoted, p), Zero(k))
  {
    hide Add, Mul, Dot;
    var x, y := StuckVector(m, k, pivoted, p), Zero(k);
    var i, o := Inputs(k, pivoted, perm, x, y), Outputs(k, pivoted, perm, x, y);
    assert i == Unit(k, p);
    forall r | 0 <= r < k ensures Dot(m[r], i, k) == o[r] {
      DotUnit(m[r], p, k);
    }
  }

  /** If no unused row has a non-zero entry in an unused column, then a is singular. */
  lemma StuckIsSingular(a: Matrix, m: Matrix, k: nat, pivoted: seq<bool>, perm: seq<nat>, p: nat)
    requires IsMatrix(a, k, k) && IsMatrix(m, k, k) && IsPlan(k, pivoted, perm)
    requires Represents(a, m, k, pivoted, perm)
    requires p < k && !pivoted[p]
    requires forall r, j :: 0 <= r < k && 0 <= j < k && !pivoted[r] && !pivoted[j] ==> m[r][j] == 0
    ensures Singular(a, k)
  {
    StuckSolution(m, k, pivoted, perm, p);
    var x := StuckVector(m, k, pivoted, p);
    assert x[p] == 1 && Zero(k)[p] == 0;
    hide StuckVector, Exchanged, Maps, Zero;
    assert Maps(a, k, x, Zero(k));
  }

  // ----- undoing the row swaps by column swaps

  function SwappedColumns(m: Matrix, k: nat, p: nat, q: nat): (m': Matrix)
    requires IsMatrix(m, k, k) && p < k && q < k
    ensures IsMatrix(m', k, k)
  {
    seq(k, r requires 0 <= r < k => Swapped(m[r], p, q))
  }

  lemma DotSwap(u: Vector, v: Vector, k: nat, p: nat, q: nat)
    requires |u| == |v| == k && p < k && q < k
    ensures Dot(Swapped(u, p, q), Swapped(v, p, q), k) == Dot(u, v, k)
  {
    hide Add, Mul;
    if p != q {
      var u1, v1 := u[p := u[q]], v[p := v[q]];
      DotUpdate(u, v, u1, v1, p, k);
      DotUpdate(u1, v1, Swapped(u, p, q), Swapped(v, p, q), q, k);
      SwapAlgebra(Dot(u, v, k), Dot(u1, v1, k), Dot(Swapped(u, p, q), Swapped(v, p, q), k),
        Mul(u[p], v[p]), Mul(u[q], v[q]));
    } else {
      assert Swapped(u, p, q) == u && Swapped(v, p, q) == v;
    }
  }

  lemma SwapAlgebra(d0: Gf, d1: Gf, d2: Gf, a: Gf, b: Gf)
    requires Add(d1, a) == Add(d0, b) && Add(d2, b) == Add(d1, a)
    ensures d2 == d0
  {
    AddTwice(d2, b);
    AddTwice(d0, b);
    hide Add;
  }

  lemma RepresentsColumnSwap(a: Matrix, m: Matrix, k: nat, pivoted: seq<bool>, perm: seq<nat>, p: nat, q: nat)
    requires IsMatrix(a, k, k) && IsMatrix(m, k, k) && IsPlan(k, pivoted, perm)
    requires forall j :: 0 <= j < k ==> pivoted[j]
    requires p < k && q < k
    requires Represents(a, m, k, pivoted, perm)
    ensures IsPlan(k, pivoted, Swapped(perm, p, q))
    ensures Represents(a, SwappedColumns(m, k, p, q), k, pivoted, Swapped(perm, p, q))
  {
    var m', perm' := SwappedColumns(m, k, p, q), Swapped(perm, p, q);
    forall x: Vector, y: Vector | |x| == k && |y| == k
      ensures Maps(a, k, x, y) <==> Exchanged(m', k, pivoted, perm', x, y)
    {
      var i, i' := Inputs(k, pivoted, perm, x, y), Inputs(k, pivoted, perm', x, y);
      assert i' == Swapped(i, p, q);
      assert Outputs(k, pivoted, perm', x, y) == Outputs(k, pivoted, perm, x, y);
      forall r | 0 <= r < k ensures Dot(m'[r], i', k) == Dot(m[r], i, k) {
        DotSwap(m[r], i, k, p, q);
      }
    }
  }

  lemma RepresentsFinally(a: Matrix, m: Matrix, k: nat, pivoted: seq<bool>, perm: seq<nat>)
    requires IsMatrix(a, k, k) && IsMatrix(m, k, k) && IsPlan(k, pivoted, perm)
    requires forall j :: 0 <= j < k ==> pivoted[j] && perm[j] == j
    requires Represents(a, m, k, pivoted, perm)
    ensures Inverse(a, m, k)
  {
    forall x: Vector, y: Vector | |x| == k && |y| == k
      ensures Maps(a, k, x, y) <==> Maps(m, k, y, x)
    {
      assert Inputs(k, pivoted, perm, x, y) == y;
      assert Outputs(k, pivoted, perm, x, y) == x;
    }
  }
}
