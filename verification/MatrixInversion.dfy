/** In-place Gauss-Jordan inversion. */
module MatrixInversion {
  import opened GaloisField
  import opened LinearAlgebra
  import opened GfTables
  import opened FlatMatrix

  /** How many columns have been used as pivots. */
  function Used(ipiv: seq<nat>, n: nat): nat
    requires n <= |ipiv|
  {
    if n == 0 then 0 else Used(ipiv, n - 1) + if ipiv[n - 1] == 0 then 0 else 1
  }

  lemma {:induction false} UsedSet(ipiv: seq<nat>, n: nat, p: nat)
    requires n <= |ipiv| && p < |ipiv| && ipiv[p] == 0
    ensures Used(ipiv[p := 1], n) == Used(ipiv, n) + if p < n then 1 else 0
  {
    if n > 0 {
      UsedSet(ipiv, n - 1, p);
    }
  }

  lemma {:induction false} UsedBound(ipiv: seq<nat>, n: nat)
    requires n <= |ipiv|
    ensures Used(ipiv, n) <= n
    ensures Used(ipiv, n) == n ==> forall j :: 0 <= j < n ==> ipiv[j] != 0
  {
    if n > 0 {
      UsedBound(ipiv, n - 1);
    }
  }

  lemma {:induction false} SomeUnused(ipiv: seq<nat>, n: nat) returns (p: nat)
    requires n <= |ipiv| && Used(ipiv, n) < n
    ensures p < n && ipiv[p] == 0
  {
    if ipiv[n - 1] == 0 {
      p := n - 1;
    } else {
      p := SomeUnused(ipiv, n - 1);
    }
  }

  function Pivoted(ipiv: seq<nat>): seq<bool>
  {
    seq(|ipiv|, j requires 0 <= j < |ipiv| => ipiv[j] != 0)
  }

  ghost predicate Marks(ipiv: seq<nat>, k: nat)
  {
    |ipiv| == k && forall j :: 0 <= j < k ==> ipiv[j] <= 1
  }

  /** No unused row has a non-zero entry in an unused column. */
  ghost predicate Stuck(m: Matrix, k: nat, ipiv: seq<nat>)
    requires IsMatrix(m, k, k) && |ipiv| == k
  {
    forall r, j :: 0 <= r < k && 0 <= j < k && ipiv[r] == 0 && ipiv[j] == 0 ==> m[r][j] == 0
  }

  ghost predicate IsPivot(m: Matrix, k: nat, ipiv: seq<nat>, irow: int, icol: int)
    requires IsMatrix(m, k, k) && |ipiv| == k
  {
    0 <= irow < k && 0 <= icol < k && ipiv[irow] == 0 && ipiv[icol] == 0 && m[irow][icol] != 0
  }

  /** Looks on the diagonal first, then row by row. */
  method FindPivot(src: array<Gf>, k: nat, ipiv: array<nat>, col: nat) returns (irow: int, icol: int)
    requires src.Length >= k * k && col < k && Marks(ipiv[..], k)
    ensures icol == -1 ==> Stuck(RowsOf(src[..], k, k), k, ipiv[..])
    ensures icol != -1 ==> IsPivot(RowsOf(src[..], k, k), k, ipiv[..], irow, icol)
  {
    ghost var m := RowsOf(src[..], k, k);
    irow, icol := -1, -1;
    var d := GetEntry(src, k, k, col, col);
    if ipiv[col] != 1 && d != 0 {
      irow, icol := col, col;
      return;
    }
    for row := 0 to k
      invariant icol == -1
      invariant forall r, j :: 0 <= r < row && 0 <= j < k && ipiv[r] == 0 && ipiv[j] == 0 ==> m[r][j] == 0
    {
      if ipiv[row] != 1 {
        for ix := 0 to k
          invariant icol == -1
          invariant forall j :: 0 <= j < ix && ipiv[j] == 0 ==> m[row][j] == 0
        {
          if ipiv[ix] == 0 {
            var v := GetEntry(src, k, k, row, ix);
            if v != 0 {
              irow, icol := row, ix;
              return;
            }
          } else if ipiv[ix] > 1 {
            assert false; // a column is used at most once
          }
        }
      }
    }
  }

  /** One more entry of u has been copied over v. */
  lemma NextEntry(u: Vector, v: Vector, i: nat)
    requires |u| == |v| && i < |u|
    ensures (u[..i] + v[i..])[i := u[i]] == u[..i + 1] + v[i + 1..]
  {
  }

  method SwapRows(src: array<Gf>, k: nat, p: nat, q: nat)
    requires src.Length >= k * k && p < k && q < k && p != q
    modifies src
    ensures RowsOf(src[..], k, k) == old(Swapped(RowsOf(src[..], k, k), p, q))
  {
    hide RowsOf;
    ghost var m := RowsOf(src[..], k, k);
    assert m[q][..0] + m[p][0..] == m[p] && m[p][..0] + m[q][0..] == m[q];
    assert m[q][..k] + m[p][k..] == m[q] && m[p][..k] + m[q][k..] == m[p];
    for ix := 0 to k
      invariant RowsOf(src[..], k, k) == m[p := m[q][..ix] + m[p][ix..]][q := m[p][..ix] + m[q][ix..]]
    {
      var u := GetEntry(src, k, k, p, ix);
      var v := GetEntry(src, k, k, q, ix);
      SetEntry(src, k, k, p, ix, v);
      SetEntry(src, k, k, q, ix, u);
      NextEntry(m[q], m[p], ix);
      NextEntry(m[p], m[q], ix);
    }
  }

  /** The pivot row divided by its pivot, whose own place takes the inverse. */
  function ScaledRow(row: Vector, p: nat, ci: Gf): Vector
    requires p < |row|
  {
    seq(|row|, j requires 0 <= j < |row| => if j == p then ci else Mul(ci, row[j]))
  }

  method ScalePivotRow(t: Tables, src: array<Gf>, k: nat, p: nat)
    requires t.Valid() && src.Length >= k * k && p < k
    requires RowsOf(src[..], k, k)[p][p] != 0
    modifies src
    ensures var m := old(RowsOf(src[..], k, k));
      RowsOf(src[..], k, k) == m[p := ScaledRow(m[p], p, Inv(m[p][p]))]
  {
    hide Add, Mul, Inv, RowsOf, Tables.Valid;
    ghost var m := RowsOf(src[..], k, k);
    var c := GetEntry(src, k, k, p, p);
    ghost var ci := Inv(c);
    if c != 1 {
      c := t.Inverse(c);
      SetEntry(src, k, k, p, p, 1);
      ghost var scaled := ScaledRow(m[p], p, ci);
      assert scaled[..0] + m[p][p := 1][0..] == m[p][p := 1];
      assert scaled[..k] + m[p][p := 1][k..] == scaled;
      for ix := 0 to k
        invariant RowsOf(src[..], k, k) == m[p := scaled[..ix] + m[p][p := 1][ix..]]
      {
        var v := GetEntry(src, k, k, p, ix);
        MulOne(c);
        assert Mul(c, v) == scaled[ix];
        SetEntry(src, k, k, p, ix, t.Times(c, v));
        NextEntry(scaled, m[p][p := 1], ix);
      }
    } else {
      InverseOfOne();
      forall j | 0 <= j < k ensures m[p][j] == ScaledRow(m[p], p, ci)[j] {
        MulOne(m[p][j]);
      }
      assert m[p] == ScaledRow(m[p], p, ci);
    }
  }

  /** A row from which the multiple of the pivot row that clears column p has been removed. */
  function ClearedRow(row: Vector, p: nat, pivotRow: Vector): Vector
    requires p < |row| == |pivotRow|
  {
    AddScaled(row[p := 0], row[p], pivotRow)
  }

  ghost predicate Cleared(m: Matrix, m': Matrix, k: nat, p: nat, n: nat)
    requires IsMatrix(m, k, k) && IsMatrix(m', k, k) && p < k && n <= k
  {
    forall r :: 0 <= r < k ==> m'[r] == if r < n && r != p then ClearedRow(m[r], p, m[p]) else m[r]
  }

  /** Clears column p in all other rows, unless the pivot row is a row of the identity matrix. */
  method ClearColumn(t: Tables, src: array<Gf>, k: nat, p: nat, idRow: array<Gf>)
    requires t.Valid() && src.Length >= k * k && p < k
    requires idRow.Length == k && idRow[..] == Unit(k, p)
    modifies src
    ensures Cleared(old(RowsOf(src[..], k, k)), RowsOf(src[..], k, k), k, p, k)
  {
    hide Add, Mul, AddScaled;
    ghost var m := RowsOf(src[..], k, k);
    Fits(p, k, k);
    if src[p * k..p * k + k] != idRow[..] {
      for ix := 0 to k
        invariant Cleared(m, RowsOf(src[..], k, k), k, p, ix)
      {
        if ix != p {
          var c := GetEntry(src, k, k, ix, p);
          SetEntry(src, k, k, ix, p, 0);
          AddMulRow(t, src, k, k, ix, p, c);
        }
      }
    } else {
      assert m[p] == Unit(k, p);
      forall r | 0 <= r < k && r != p ensures ClearedRow(m[r], p, m[p]) == m[r] {
        ClearedByUnit(m[r], p, k);
      }
    }
  }

  lemma ClearedByUnit(row: Vector, p: nat, k: nat)
    requires p < k == |row|
    ensures ClearedRow(row, p, Unit(k, p)) == row
  {
    hide Add, Mul;
    forall j | 0 <= j < k ensures ClearedRow(row, p, Unit(k, p))[j] == row[j] {
      MulOne(row[p]);
      AddZero(row[j]);
    }
  }

  lemma StepIsPivot(m: Matrix, m1: Matrix, m2: Matrix, k: nat, p: nat)
    requires IsMatrix(m, k, k) && IsMatrix(m1, k, k) && IsMatrix(m2, k, k) && p < k
    requires m1 == m[p := ScaledRow(m[p], p, Inv(m[p][p]))]
    requires Cleared(m1, m2, k, p, k)
    ensures IsPivoted(m, m2, k, p)
  {
    hide Add, Mul, Inv;
    assert m2[p] == m1[p];
    forall r, j | 0 <= r < k && r != p && 0 <= j < k
      ensures m2[r][j] == Add(if j == p then 0 else m[r][j], Mul(m[r][p], m2[p][j]))
    {
      assert m1[r] == m[r];
      assert m2[r] == ClearedRow(m1[r], p, m1[p]);
    }
  }

  method SwapColumns(src: array<Gf>, k: nat, p: nat, q: nat)
    requires src.Length >= k * k && p < k && q < k && p != q
    modifies src
    ensures RowsOf(src[..], k, k) == old(SwappedColumns(RowsOf(src[..], k, k), k, p, q))
  {
    ghost var m := RowsOf(src[..], k, k);
    for row := 0 to k
      invariant forall r :: 0 <= r < k ==>
        RowsOf(src[..], k, k)[r] == if r < row then Swapped(m[r], p, q) else m[r]
    {
      var u := GetEntry(src, k, k, row, p);
      var v := GetEntry(src, k, k, row, q);
      SetEntry(src, k, k, row, p, v);
      SetEntry(src, k, k, row, q, u);
    }
  }

  function Identity(k: nat): seq<nat>
  {
    seq(k, j requires 0 <= j < k => j)
  }

  /** perms records how the row swaps recorded in indxr and indxc have permuted y. */
  ghost predicate IsHistory(perms: seq<seq<nat>>, indxr: seq<nat>, indxc: seq<nat>, k: nat, n: nat)
    requires n <= |indxr| && n <= |indxc|
  {
    && |perms| == n + 1
    && perms[0] == Identity(k)
    && (forall c :: 0 <= c <= n ==> |perms[c]| == k && forall j :: 0 <= j < k ==> perms[c][j] < k)
    && (forall c :: 0 <= c < n ==>
      indxr[c] < k && indxc[c] < k && perms[c + 1] == Swapped(perms[c], indxr[c], indxc[c]))
  }

  /** m2 is m after one pivot: rows exchanged, pivot row scaled, pivot column cleared. */
  ghost predicate IsStep(m: Matrix, m2: Matrix, k: nat, irow: nat, icol: nat)
    requires IsMatrix(m, k, k) && IsMatrix(m2, k, k) && irow < k && icol < k
  {
    var m0 := Swapped(m, irow, icol);
    Cleared(m0[icol := ScaledRow(m0[icol], icol, Inv(m0[icol][icol]))], m2, k, icol, k)
  }

  method Eliminate(t: Tables, src: array<Gf>, k: nat, irow: nat, icol: nat, idRow: array<Gf>)
    requires t.Valid() && src.Length >= k * k && irow < k && icol < k
    requires RowsOf(src[..], k, k)[irow][icol] != 0
    requires idRow != src && idRow.Length == k && idRow[..] == Zero(k)
    modifies src, idRow
    ensures IsStep(old(RowsOf(src[..], k, k)), RowsOf(src[..], k, k), k, irow, icol)
    ensures idRow[..] == Zero(k)
  {
    hide Add, Mul, Inv, Tables.Valid, Cleared, RowsOf;
    ghost var m := RowsOf(src[..], k, k);
    if irow != icol {
      SwapRows(src, k, irow, icol);
    }
    assert RowsOf(src[..], k, k) == Swapped(m, irow, icol);
    ScalePivotRow(t, src, k, icol);
    idRow[icol] := 1;
    assert idRow[..] == Unit(k, icol);
    ClearColumn(t, src, k, icol, idRow);
    idRow[icol] := 0;
  }

  lemma PivotStep(a: Matrix, m: Matrix, m2: Matrix, k: nat, ipiv: seq<nat>, perm: seq<nat>, irow: nat, icol: nat)
    requires IsMatrix(a, k, k) && IsMatrix(m, k, k) && IsMatrix(m2, k, k)
    requires Marks(ipiv, k) && IsPlan(k, Pivoted(ipiv), perm)
    requires IsPivot(m, k, ipiv, irow, icol)
    requires Represents(a, m, k, Pivoted(ipiv), perm)
    requires IsStep(m, m2, k, irow, icol)
    ensures IsPlan(k, Pivoted(ipiv[icol := 1]), Swapped(perm, irow, icol))
    ensures Represents(a, m2, k, Pivoted(ipiv[icol := 1]), Swapped(perm, irow, icol))
  {
    var m0 := Swapped(m, irow, icol);
    var m1 := m0[icol := ScaledRow(m0[icol], icol, Inv(m0[icol][icol]))];
    RepresentsRowSwap(a, m, k, Pivoted(ipiv), perm, irow, icol);
    StepIsPivot(m0, m1, m2, k, icol);
    RepresentsPivot(a, m0, m2, k, Pivoted(ipiv), Swapped(perm, irow, icol), icol);
    assert Pivoted(ipiv)[icol := true] == Pivoted(ipiv[icol := 1]);
  }

  /** What holds after the first n columns have been eliminated. */
  ghost predicate IsProgress(a: Matrix, m: Matrix, k: nat, ipiv: seq<nat>, indxr: seq<nat>, indxc: seq<nat>,
                             perms: seq<seq<nat>>, n: nat)
    requires IsMatrix(a, k, k) && IsMatrix(m, k, k) && |indxr| == |indxc| == k && n <= k
  {
    && Marks(ipiv, k) && Used(ipiv, k) == n
    && IsHistory(perms, indxr, indxc, k, n)
    && Represents(a, m, k, Pivoted(ipiv), perms[n])
  }

  function Extended(perms: seq<seq<nat>>, n: nat, irow: nat, icol: nat): seq<seq<nat>>
  {
    if n < |perms| && irow < |perms[n]| && icol < |perms[n]| then
      perms + [Swapped(perms[n], irow, icol)]
    else perms
  }

  lemma ProgressStarts(a: Matrix, k: nat, ipiv: seq<nat>, indxr: seq<nat>, indxc: seq<nat>)
    requires IsMatrix(a, k, k) && |ipiv| == |indxr| == |indxc| == k
    requires forall j :: 0 <= j < k ==> ipiv[j] == 0
    ensures IsProgress(a, a, k, ipiv, indxr, indxc, [Identity(k)], 0)
  {
    NoneUsed(ipiv, k);
    RepresentsInitially(a, k, Pivoted(ipiv), Identity(k));
  }

  lemma ProgressStep(a: Matrix, m: Matrix, m2: Matrix, k: nat, ipiv: seq<nat>, indxr: seq<nat>, indxc: seq<nat>,
                     perms: seq<seq<nat>>, n: nat, irow: nat, icol: nat)
    requires IsMatrix(a, k, k) && IsMatrix(m, k, k) && IsMatrix(m2, k, k) && |indxr| == |indxc| == k && n < k
    requires IsProgress(a, m, k, ipiv, indxr, indxc, perms, n)
    requires IsPivot(m, k, ipiv, irow, icol)
    requires IsStep(m, m2, k, irow, icol)
    ensures IsProgress(a, m2, k, ipiv[icol := 1], indxr[n := irow], indxc[n := icol],
                       Extended(perms, n, irow, icol), n + 1)
  {
    hide Represents, IsStep, IsPivot;
    assert icol < k && irow < k && ipiv[icol] == 0 by {
      PivotInRange(m, k, ipiv, irow, icol);
    }
    UsedSet(ipiv, k, icol);
    PivotStep(a, m, m2, k, ipiv, perms[n], irow, icol);
    HistoryStep(perms, indxr, indxc, k, n, irow, icol);
  }

  lemma PivotInRange(m: Matrix, k: nat, ipiv: seq<nat>, irow: nat, icol: nat)
    requires IsMatrix(m, k, k) && |ipiv| == k && IsPivot(m, k, ipiv, irow, icol)
    ensures irow < k && icol < k && ipiv[icol] == 0
  {
  }

  lemma HistoryStep(perms: seq<seq<nat>>, indxr: seq<nat>, indxc: seq<nat>, k: nat, n: nat, irow: nat, icol: nat)
    requires n < |indxr| && n < |indxc| && irow < k && icol < k
    requires IsHistory(perms, indxr, indxc, k, n)
    ensures IsHistory(Extended(perms, n, irow, icol), indxr[n := irow], indxc[n := icol], k, n + 1)
  {
  }

  lemma ProgressStuck(a: Matrix, m: Matrix, k: nat, ipiv: seq<nat>, indxr: seq<nat>, indxc: seq<nat>,
                      perms: seq<seq<nat>>, n: nat)
    requires IsMatrix(a, k, k) && IsMatrix(m, k, k) && |indxr| == |indxc| == k && n < k
    requires IsProgress(a, m, k, ipiv, indxr, indxc, perms, n)
    requires Stuck(m, k, ipiv)
    ensures Singular(a, k)
  {
    hide Represents, Singular;
    var p := SomeUnused(ipiv, k);
    StuckIsSingular(a, m, k, Pivoted(ipiv), perms[n], p);
  }

  /**
   Replaces the matrix at the start of src by its inverse.  Returns non-zero exactly if there is none.
   */
  method InvertMat(t: Tables, src: array<Gf>, k: nat) returns (error: int)
    requires t.Valid() && src.Length >= k * k
    modifies src
    ensures error == 0 || error == 1
    ensures error == 1 <==> Singular(old(RowsOf(src[..], k, k)), k)
    ensures error == 0 ==> Inverse(old(RowsOf(src[..], k, k)), RowsOf(src[..], k, k), k)
  {
    hide Add, Mul, Inv, Tables.Valid, Represents, Inverse, Singular, IsStep, IsProgress, Stuck, RowsOf;
    ghost var a := RowsOf(src[..], k, k);
    var indxc := new nat[k](_ => 0);
    var indxr := new nat[k](_ => 0);
    var ipiv := new nat[k](_ => 0);
    var idRow := new Gf[k](_ => 0);
    ghost var perms := [Identity(k)];
    ProgressStarts(a, k, ipiv[..], indxr[..], indxc[..]);
    for col := 0 to k
      invariant idRow[..] == Zero(k)
      invariant Marks(ipiv[..], k)
      invariant IsProgress(a, RowsOf(src[..], k, k), k, ipiv[..], indxr[..], indxc[..], perms, col)
    {
      ghost var m := RowsOf(src[..], k, k);
      ghost var marks, rows, cols := ipiv[..], indxr[..], indxc[..];
      var irow, icol := FindPivot(src, k, ipiv, col);
      if icol == -1 {
        ProgressStuck(a, m, k, marks, rows, cols, perms, col);
        return 1;
      }
      ipiv[icol] := ipiv[icol] + 1;
      indxr[col] := irow;
      indxc[col] := icol;
      Eliminate(t, src, k, irow, icol, idRow);
      ProgressStep(a, m, RowsOf(src[..], k, k), k, marks, rows, cols, perms, col, irow, icol);
      assert ipiv[..] == marks[icol := 1] && indxr[..] == rows[col := irow] && indxc[..] == cols[col := icol];
      perms := Extended(perms, col, irow, icol);
    }
    Unscramble(src, k, indxr[..], indxc[..], a, perms, ipiv[..]);
    InverseNotSingular(a, RowsOf(src[..], k, k), k);
    error := 0;
  }

  lemma {:induction false} NoneUsed(ipiv: seq<nat>, n: nat)
    requires n <= |ipiv| && forall j :: 0 <= j < n ==> ipiv[j] == 0
    ensures Used(ipiv, n) == 0
  {
    if n > 0 {
      NoneUsed(ipiv, n - 1);
    }
  }

  /** Undoes the row swaps, last first, on the columns of the result. */
  method Unscramble(src: array<Gf>, k: nat, indxr: seq<nat>, indxc: seq<nat>,
                    ghost a: Matrix, ghost perms: seq<seq<nat>>, ghost marks: seq<nat>)
    requires src.Length >= k * k && |indxr| == |indxc| == k
    requires IsMatrix(a, k, k)
    requires IsProgress(a, RowsOf(src[..], k, k), k, marks, indxr, indxc, perms, k)
    modifies src
    ensures Inverse(a, RowsOf(src[..], k, k), k)
  {
    hide Represents, Inverse, RowsOf;
    UsedBound(marks, k);
    var col: nat := k;
    while col > 0
      invariant col <= k
      invariant IsPlan(k, Pivoted(marks), perms[col])
      invariant Represents(a, RowsOf(src[..], k, k), k, Pivoted(marks), perms[col])
    {
      col := col - 1;
      assert perms[col + 1] == Swapped(perms[col], indxr[col], indxc[col]);
      assert Swapped(perms[col + 1], indxr[col], indxc[col]) == perms[col];
      if indxr[col] != indxc[col] {
        RepresentsColumnSwap(a, RowsOf(src[..], k, k), k, Pivoted(marks), perms[col + 1], indxr[col], indxc[col]);
        SwapColumns(src, k, indxr[col], indxc[col]);
      } else {
        assert perms[col + 1] == perms[col];
      }
    }
    RepresentsFinally(a, RowsOf(src[..], k, k), k, Pivoted(marks), perms[0]);
  }
}
