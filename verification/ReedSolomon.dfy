/** The erasure coder: generator, encoding and reconstruction over caller-supplied buffers. */
module ReedSolomon {
  import opened Basics
  import opened BitXor
  import opened GaloisField
  import opened LinearAlgebra
  import opened GfTables
  import opened FlatMatrix
  import opened MatrixInversion
  import opened ErasureCode

  datatype Coder = Coder(dataShards: nat, parityShards: nat, shards: nat, m: seq<Gf>, parity: seq<Gf>) {

    /** The generator is the identity above Cauchy rows, and parity is its lower part. */
    ghost predicate Valid()
    {
      && IsShape(dataShards, parityShards)
      && shards == dataShards + parityShards
      && |m| == shards * dataShards && |parity| == parityShards * dataShards
      && (forall r :: 0 <= r < shards ==> RowsOf(m, shards, dataShards)[r] == GeneratorRow(dataShards, parityShards, r))
      && (forall j :: 0 <= j < parityShards ==>
        RowsOf(parity, parityShards, dataShards)[j] == ParityRow(dataShards, parityShards, j))
    }
  }

  ghost function GeneratorRow(ds: nat, ps: nat, r: nat): (v: Vector)
    requires IsShape(ds, ps) && r < ds + ps
    ensures |v| == ds
  {
    if r < ds then Unit(ds, r) else ParityRow(ds, ps, r - ds)
  }

  // ----- building the generator

  /** The identity matrix with zero rows below it. */
  method IdentityOver(rows: nat, ds: nat) returns (vm: array<Gf>)
    requires ds <= rows
    ensures fresh(vm) && vm.Length == rows * ds
    ensures forall r :: 0 <= r < rows ==> RowsOf(vm[..], rows, ds)[r] == Unit(ds, r)
  {
    hide RowsOf, Unit, WithEntry;
    vm := new Gf[rows * ds](_ => 0);
    for row := 0 to rows
      invariant UnitTo(RowsOf(vm[..], rows, ds), ds, row, 0)
    {
      for col := 0 to ds
        invariant UnitTo(RowsOf(vm[..], rows, ds), ds, row, col)
      {
        UnitEntry(ds, row, col);
        ghost var m := RowsOf(vm[..], rows, ds);
        SetEntry(vm, rows, ds, row, col, if row == col then 1 else 0);
        UnitStep(m, ds, row, col, if row == col then 1 else 0);
      }
      UnitRow(RowsOf(vm[..], rows, ds), ds, row);
    }
  }

  /** The rows before the given one are unit vectors, and so far is the row itself. */
  ghost predicate UnitTo(m: Matrix, ds: nat, row: nat, col: nat)
  {
    && (forall r :: 0 <= r < row && r < |m| ==> m[r] == Unit(ds, r))
    && (row < |m| ==> col <= |m[row]| && col <= |Unit(ds, row)| && m[row][..col] == Unit(ds, row)[..col])
  }

  lemma UnitEntry(ds: nat, row: nat, col: nat)
    requires col < ds
    ensures |Unit(ds, row)| == ds && Unit(ds, row)[col] == if row == col then 1 else 0
  {
  }

  lemma UnitStep(m: Matrix, ds: nat, row: nat, col: nat, v: Gf)
    requires row < |m| && col < |m[row]| && |Unit(ds, row)| == ds && col < ds && v == Unit(ds, row)[col]
    requires UnitTo(m, ds, row, col)
    ensures UnitTo(WithEntry(m, row, col, v), ds, row, col + 1)
  {
    hide Unit;
    var m' := WithEntry(m, row, col, v);
    assert m'[row][..col + 1] == m[row][..col] + [v];
    assert Unit(ds, row)[..col + 1] == Unit(ds, row)[..col] + [v];
  }

  lemma UnitRow(m: Matrix, ds: nat, row: nat)
    requires row < |m| && |m[row]| == ds && UnitTo(m, ds, row, ds)
    ensures UnitTo(m, ds, row + 1, 0)
  {
    assert |Unit(ds, row)| == ds;
    hide Unit;
    assert m[row] == m[row][..ds] && Unit(ds, row) == Unit(ds, row)[..ds];
  }

  /** Copies the rows from rmin up to rmax. */
  method SubMatrix(matrix: array<Gf>, rmin: nat, rmax: nat, rows: nat, cols: nat) returns (sub: array<Gf>)
    requires rmin <= rmax <= rows && matrix.Length >= rows * cols
    ensures fresh(sub) && sub.Length == (rmax - rmin) * cols
    ensures RowsOf(sub[..], rmax - rmin, cols) == RowsOf(matrix[..], rows, cols)[rmin..rmax]
  {
    hide RowsOf;
    var n := rmax - rmin;
    sub := new Gf[n * cols](_ => 0);
    CopyRows(matrix[..], rows, rmin, sub, n, cols);
  }

  method CopyRows(from: seq<Gf>, rows: nat, rmin: nat, dst: array<Gf>, n: nat, cols: nat)
    requires |from| >= rows * cols && rmin + n <= rows && dst.Length >= n * cols
    modifies dst
    ensures RowsOf(dst[..], n, cols) == RowsOf(from, rows, cols)[rmin..rmin + n]
  {
    hide RowsOf;
    ghost var m := RowsOf(from, rows, cols)[rmin..rmin + n];
    for i := 0 to n
      invariant forall r :: 0 <= r < i ==> RowsOf(dst[..], n, cols)[r] == m[r]
    {
      CopyRow(from, rows, rmin + i, dst, n, i, cols);
    }
  }

  /** Copies row i of a matrix over row r of another. */
  method CopyRow(from: seq<Gf>, rows: nat, i: nat, dst: array<Gf>, n: nat, r: nat, k: nat)
    requires |from| >= rows * k && i < rows
    requires dst.Length >= n * k && r < n
    modifies dst
    ensures RowsOf(dst[..], n, k) == old(RowsOf(dst[..], n, k))[r := RowsOf(from, rows, k)[i]]
  {
    hide RowsOf;
    ghost var m := RowsOf(dst[..], n, k);
    ghost var row := RowsOf(from, rows, k)[i];
    assert row[..0] + m[r][0..] == m[r];
    assert row[..k] + m[r][k..] == row;
    for c := 0 to k
      invariant RowsOf(dst[..], n, k) == m[r := row[..c] + m[r][c..]]
    {
      At(from, rows, k, i, c);
      SetEntry(dst, n, k, r, c, from[i * k + c]);
      NextEntry(row, m[r], c);
    }
  }

  function ProductRow(u: Vector, b: Matrix, k: nat): (v: Vector)
    requires |u| == k && IsMatrix(b, k, k)
    ensures |v| == k
  {
    seq(k, c requires 0 <= c < k => Dot(u, Column(b, k, c), k))
  }

  /** Row r of one matrix times column c of another. */
  method RowTimesColumn(t: Tables, a: array<Gf>, rows: nat, r: nat, b: array<Gf>, k: nat, c: nat) returns (tg: Gf)
    requires t.Valid() && a.Length >= rows * k && b.Length >= k * k && r < rows && c < k
    ensures tg == Dot(RowsOf(a[..], rows, k)[r], Column(RowsOf(b[..], k, k), k, c), k)
  {
    hide RowsOf, Add, Mul, Tables.Valid;
    tg := 0;
    for i := 0 to k
      invariant tg == Dot(RowsOf(a[..], rows, k)[r], Column(RowsOf(b[..], k, k), k, c), i)
    {
      var u := GetEntry(a, rows, k, r, i);
      var v := GetEntry(b, k, k, i, c);
      tg := Add(tg, t.Times(u, v));
    }
  }

  /** The product of a rows x k matrix and a k x k matrix. */
  method Multiply(t: Tables, a: array<Gf>, rows: nat, b: array<Gf>, k: nat) returns (p: array<Gf>)
    requires t.Valid() && a.Length >= rows * k && b.Length >= k * k
    ensures fresh(p) && p.Length == rows * k
    ensures forall r :: 0 <= r < rows ==>
      RowsOf(p[..], rows, k)[r] == ProductRow(RowsOf(a[..], rows, k)[r], RowsOf(b[..], k, k), k)
  {
    hide RowsOf, Dot, Tables.Valid, ProductRow;
    p := new Gf[rows * k](_ => 0);
    ghost var ma, mb := RowsOf(a[..], rows, k), RowsOf(b[..], k, k);
    for r := 0 to rows
      invariant forall q :: 0 <= q < r ==> RowsOf(p[..], rows, k)[q] == ProductRow(ma[q], mb, k)
    {
      MultiplyRow(t, a, rows, r, b, k, p);
    }
  }

  method MultiplyRow(t: Tables, a: array<Gf>, rows: nat, r: nat, b: array<Gf>, k: nat, p: array<Gf>)
    requires t.Valid() && a.Length >= rows * k && b.Length >= k * k && r < rows
    requires p.Length >= rows * k && p != a && p != b
    modifies p
    ensures RowsOf(p[..], rows, k)
         == old(RowsOf(p[..], rows, k))[r := ProductRow(RowsOf(a[..], rows, k)[r], RowsOf(b[..], k, k), k)]
  {
    hide RowsOf, Dot, Tables.Valid, ProductRow;
    ghost var row := ProductRow(RowsOf(a[..], rows, k)[r], RowsOf(b[..], k, k), k);
    ghost var m := RowsOf(p[..], rows, k);
    assert row[..0] + m[r][0..] == m[r];
    assert row[..k] + m[r][k..] == row;
    for c := 0 to k
      invariant RowsOf(p[..], rows, k) == m[r := row[..c] + m[r][c..]]
    {
      var tg := RowTimesColumn(t, a, rows, r, b, k, c);
      ProductEntry(RowsOf(a[..], rows, k)[r], RowsOf(b[..], k, k), k, c);
      SetEntry(p, rows, k, r, c, tg);
      NextEntry(row, m[r], c);
    }
  }

  lemma ProductEntry(u: Vector, b: Matrix, k: nat, c: nat)
    requires |u| == k && IsMatrix(b, k, k) && c < k
    ensures ProductRow(u, b, k)[c] == Dot(u, Column(b, k, c), k)
  {
  }

  lemma IdentityNotSingular(a: Matrix, k: nat)
    requires IsMatrix(a, k, k) && forall r :: 0 <= r < k ==> a[r] == Unit(k, r)
    ensures !Singular(a, k)
  {
    forall x: Vector | |x| == k && Maps(a, k, x, Zero(k)) ensures x == Zero(k) {
      forall r | 0 <= r < k ensures x[r] == 0 {
        assert Dot(a[r], x, k) == Zero(k)[r];
        DotComm(Unit(k, r), x, k);
        DotUnit(x, r, k);
      }
    }
  }

  /** The product with the inverse of the identity is unchanged. */
  lemma TimesInverseOfIdentity(a: Matrix, b: Matrix, k: nat, r: nat)
    requires IsMatrix(a, k, k) && IsMatrix(b, k, k) && Inverse(a, b, k)
    requires forall q :: 0 <= q < k ==> a[q] == Unit(k, q)
    requires r < k
    ensures ProductRow(Unit(k, r), b, k) == Unit(k, r)
  {
    hide Dot;
    forall c | 0 <= c < k ensures ProductRow(Unit(k, r), b, k)[c] == Unit(k, r)[c] {
      InverseProduct(a, b, k, r, c);
    }
  }

  /** The identity over parity rows, by way of the inverse of its upper square. */
  method Systematic(t: Tables, ds: nat, ps: nat) returns (m: array<Gf>)
    requires t.Valid() && IsShape(ds, ps)
    ensures fresh(m) && m.Length == (ds + ps) * ds
    ensures forall r :: 0 <= r < ds ==> RowsOf(m[..], ds + ps, ds)[r] == Unit(ds, r)
  {
    hide RowsOf, Tables.Valid, Inverse, Singular, ProductRow;
    var shards := ds + ps;
    var vm := IdentityOver(shards, ds);
    var top := SubMatrix(vm, 0, ds, shards, ds);
    ghost var id := RowsOf(top[..], ds, ds);
    IdentityNotSingular(id, ds);
    var err := InvertMat(t, top, ds);
    m := Multiply(t, vm, shards, top, ds);
    forall r | 0 <= r < ds ensures RowsOf(m[..], shards, ds)[r] == Unit(ds, r) {
      TimesInverseOfIdentity(id, RowsOf(top[..], ds, ds), ds, r);
    }
  }

  /** Returns nothing exactly if the numbers of shards are out of range. */
  method ReedSolomonNew(t: Tables, data_shards: int, parity_shards: int) returns (rs: Option<Coder>)
    requires t.Valid()
    ensures rs.None? <==> data_shards + parity_shards > DATA_SHARDS_MAX || data_shards <= 0 || parity_shards <= 0
    ensures rs.Some? ==>
      rs.value.Valid() && rs.value.dataShards == data_shards && rs.value.parityShards == parity_shards
  {
    hide RowsOf, Tables.Valid, GeneratorRow;
    if data_shards + parity_shards > DATA_SHARDS_MAX || data_shards <= 0 || parity_shards <= 0 {
      return None;
    }
    var ds: nat, ps: nat := data_shards, parity_shards;
    var shards := ds + ps;
    var m := Systematic(t, ds, ps);
    FillParity(t, m, ds, ps);
    var parity := SubMatrix(m, ds, shards, shards, ds);
    rs := Some(Coder(ds, ps, shards, m[..], parity[..]));
    forall j | 0 <= j < ps ensures RowsOf(parity[..], ps, ds)[j] == ParityRow(ds, ps, j) {
      LowerRow(ds, ps, j);
      assert RowsOf(m[..], shards, ds)[ds..shards][j] == RowsOf(m[..], shards, ds)[ds + j];
    }
  }

  lemma LowerRow(ds: nat, ps: nat, j: nat)
    requires IsShape(ds, ps) && j < ps
    ensures GeneratorRow(ds, ps, ds + j) == ParityRow(ds, ps, j)
  {
  }

  /** Overwrites the lower rows of the generator by inverse[(ps + i) ^ j]. */
  method FillParity(t: Tables, m: array<Gf>, ds: nat, ps: nat)
    requires t.Valid() && IsShape(ds, ps) && m.Length == (ds + ps) * ds
    requires forall r :: 0 <= r < ds ==> RowsOf(m[..], ds + ps, ds)[r] == Unit(ds, r)
    modifies m
    ensures forall r :: 0 <= r < ds + ps ==> RowsOf(m[..], ds + ps, ds)[r] == GeneratorRow(ds, ps, r)
  {
    hide RowsOf, Add, Mul, Inv, Xor, Tables.Valid, ParityRow, ParityEntry;
    for j := 0 to ps
      invariant forall r :: 0 <= r < ds + j ==> RowsOf(m[..], ds + ps, ds)[r] == GeneratorRow(ds, ps, r)
    {
      ghost var row := ParityRow(ds, ps, j);
      for i := 0 to ds
        invariant forall r :: 0 <= r < ds + j ==> RowsOf(m[..], ds + ps, ds)[r] == GeneratorRow(ds, ps, r)
        invariant RowsOf(m[..], ds + ps, ds)[ds + j][..i] == row[..i]
      {
        XorIsByte(ps + i, j);
        ParityEntryIs(t, ds, ps, i, j);
        ghost var before := RowsOf(m[..], ds + ps, ds)[ds + j];
        SetEntry(m, ds + ps, ds, ds + j, i, t.Inverse(Xor(ps + i, j)));
        assert RowsOf(m[..], ds + ps, ds)[ds + j] == before[i := row[i]];
      }
      assert RowsOf(m[..], ds + ps, ds)[ds + j] == row;
    }
  }

  lemma ParityEntryIs(t: Tables, ds: nat, ps: nat, i: nat, j: nat)
    requires t.Valid() && IsShape(ds, ps) && i < ds && j < ps
    ensures Xor(ps + i, j) < 256 && Inv(Xor(ps + i, j)) == ParityRow(ds, ps, j)[i]
  {
    hide Xor, Inv;
    XorIsByte(ps + i, j);
  }

  // ----- coding

  /** Writes c times src over dst, except that c = 0 leaves dst alone. */
  method MulInto(t: Tables, dst: array<Gf>, src: array<Gf>, c: Gf, sz: nat)
    requires t.Valid() && dst != src && sz <= dst.Length && sz <= src.Length
    modifies dst
    ensures forall i :: 0 <= i < sz ==> dst[i] == if c != 0 then Mul(c, src[i]) else old(dst[i])
    ensures forall i :: sz <= i < dst.Length ==> dst[i] == old(dst[i])
  {
    hide Mul, Tables.Valid;
    if c != 0 {
      for j := 0 to sz
        invariant forall i :: 0 <= i < j ==> dst[i] == Mul(c, src[i])
        invariant forall i :: j <= i < dst.Length ==> dst[i] == old(dst[i])
      {
        dst[j] := t.Times(c, src[j]);
      }
    } else {
      // the source clears c = 0 bytes here, that is, none
    }
  }

  /** What an output byte holds after the first n inputs have been coded into it. */
  function Partial(row: Vector, x: Vector, n: nat, was: Gf): Gf
    requires n <= |row| && n <= |x|
  {
    if n == 0 then was else Add(if row[0] == 0 then was else 0, Dot(row, x, n))
  }

  lemma PartialStep(row: Vector, x: Vector, n: nat, was: Gf)
    requires n < |row| && n < |x|
    ensures n == 0 && row[0] != 0 ==> Partial(row, x, 1, was) == Mul(row[0], x[0])
    ensures n == 0 && row[0] == 0 ==> Partial(row, x, 1, was) == was
    ensures n > 0 ==> Partial(row, x, n + 1, was) == Add(Partial(row, x, n, was), Mul(row[n], x[n]))
  {
    hide Add, Mul;
    if n == 0 {
      assert Dot(row, x, 0) == 0;
      assert Dot(row, x, 1) == Add(0, Mul(row[0], x[0]));
      AddZero(Mul(row[0], x[0]));
      MulZero(x[0]);
      AddZero(was);
    } else {
      AddAssoc(if row[0] == 0 then was else 0, Dot(row, x, n), Mul(row[n], x[n]));
    }
  }

  function Slice(blocks: seq<seq<Gf>>, b: nat): Vector
    requires forall i :: 0 <= i < |blocks| ==> b < |blocks[i]|
  {
    seq(|blocks|, i requires 0 <= i < |blocks| => blocks[i][b])
  }

  function Contents(blocks: seq<array<Gf>>): (s: seq<seq<Gf>>)
    reads blocks
    ensures |s| == |blocks|
    ensures forall i :: 0 <= i < |s| ==> s[i] == blocks[i][..]
  {
    seq(|blocks|, i requires 0 <= i < |blocks| reads blocks => blocks[i][..])
  }

  ghost predicate Separate(blocks: seq<array<Gf>>)
  {
    forall i, j :: 0 <= i < j < |blocks| ==> blocks[i] != blocks[j]
  }

  ghost predicate Disjoint(a: seq<array<Gf>>, b: seq<array<Gf>>)
  {
    forall i, j :: 0 <= i < |a| && 0 <= j < |b| ==> a[i] != b[j]
  }

  ghost predicate Roomy(blocks: seq<array<Gf>>, n: nat)
  {
    forall i :: 0 <= i < |blocks| ==> blocks[i].Length >= n
  }

  ghost predicate Long(blocks: seq<seq<Gf>>, n: nat)
  {
    forall i :: 0 <= i < |blocks| ==> |blocks[i]| >= n
  }

  /** The outputs after the first n inputs, and one more for outputs before r. */
  ghost predicate CodedTo(now: seq<seq<Gf>>, was: seq<seq<Gf>>, ins: seq<seq<Gf>>, rows: Matrix,
                          byteCount: nat, n: nat, r: nat)
    requires |now| == |was| == |rows| && Long(now, byteCount) && Long(was, byteCount) && Long(ins, byteCount)
    requires IsMatrix(rows, |rows|, |ins|)
    requires n <= |ins| && (r > 0 ==> n < |ins|)
  {
    forall o, b :: 0 <= o < |now| && 0 <= b < byteCount ==>
      now[o][b] == Partial(rows[o], Slice(ins, b), if o < r then n + 1 else n, was[o][b])
  }

  /**
   Codes all inputs into each output.  An output whose first coefficient is zero keeps its old bytes as a summand.
   */
  method CodeSomeShards(t: Tables, matrixRows: seq<Gf>, inputs: seq<array<Gf>>, outputs: seq<array<Gf>>,
                        dataShards: nat, outputCount: nat, byteCount: nat)
    requires t.Valid() && |matrixRows| >= outputCount * dataShards
    requires |inputs| == dataShards && |outputs| == outputCount
    requires Roomy(inputs, byteCount) && Roomy(outputs, byteCount)
    requires Separate(outputs) && Disjoint(outputs, inputs)
    modifies outputs
    ensures CodedTo(Contents(outputs), old(Contents(outputs)), old(Contents(inputs)),
                    RowsOf(matrixRows, outputCount, dataShards), byteCount, dataShards, 0)
    ensures forall o, i :: 0 <= o < outputCount && byteCount <= i < outputs[o].Length ==>
      outputs[o][i] == old(outputs[o][i])
  {
    hide RowsOf, Partial, Tables.Valid, CodedTo;
    ghost var was, ins := Contents(outputs), Contents(inputs);
    ghost var rows := RowsOf(matrixRows, outputCount, dataShards);
    NothingCoded(was, ins, rows, byteCount);
    for c := 0 to dataShards
      invariant Contents(inputs) == ins
      invariant CodedTo(Contents(outputs), was, ins, rows, byteCount, c, 0)
      invariant forall o, i :: 0 <= o < outputCount && byteCount <= i < outputs[o].Length ==>
        outputs[o][i] == old(outputs[o][i])
    {
      CodeInput(t, matrixRows, inputs, outputs, dataShards, outputCount, byteCount, c, was);
      assert Contents(inputs) == ins;
    }
  }

  /** Codes input c into every output. */
  method CodeInput(t: Tables, matrixRows: seq<Gf>, inputs: seq<array<Gf>>, outputs: seq<array<Gf>>,
                   dataShards: nat, outputCount: nat, byteCount: nat, c: nat, ghost was: seq<seq<Gf>>)
    requires t.Valid() && |matrixRows| >= outputCount * dataShards
    requires |inputs| == dataShards && |outputs| == outputCount == |was| && c < dataShards
    requires Roomy(inputs, byteCount) && Roomy(outputs, byteCount) && Long(was, byteCount)
    requires Separate(outputs) && Disjoint(outputs, inputs)
    requires CodedTo(Contents(outputs), was, Contents(inputs), RowsOf(matrixRows, outputCount, dataShards), byteCount,
      c, 0)
    modifies outputs
    ensures CodedTo(Contents(outputs), was, old(Contents(inputs)), RowsOf(matrixRows, outputCount, dataShards),
      byteCount, c + 1, 0)
    ensures forall o, i :: 0 <= o < outputCount && byteCount <= i < outputs[o].Length ==>
      outputs[o][i] == old(outputs[o][i])
  {
    hide RowsOf, Partial, Tables.Valid, CodedTo, Add, Mul;
    ghost var ins := Contents(inputs);
    ghost var rows := RowsOf(matrixRows, outputCount, dataShards);
    for iRow := 0 to outputCount
      invariant inputs[c][..] == ins[c]
      invariant CodedTo(Contents(outputs), was, ins, rows, byteCount, c, iRow)
      invariant forall o, i :: 0 <= o < outputCount && byteCount <= i < outputs[o].Length ==>
        outputs[o][i] == old(outputs[o][i])
    {
      ghost var now := Contents(outputs);
      At(matrixRows, outputCount, dataShards, iRow, c);
      CodeOne(t, outputs[iRow], inputs[c], matrixRows[iRow * dataShards + c], c == 0, byteCount);
      OthersUnchanged(outputs, iRow, now);
      CodedStep(now, Contents(outputs), was, ins, rows, byteCount, c, iRow);
    }
    CodedAll(Contents(outputs), was, ins, rows, byteCount, c);
  }

  lemma OthersUnchanged(outputs: seq<array<Gf>>, r: nat, now: seq<seq<Gf>>)
    requires r < |outputs| == |now|
    requires forall o :: 0 <= o < |outputs| && o != r ==> outputs[o][..] == now[o]
    ensures forall o :: 0 <= o < |outputs| && o != r ==> Contents(outputs)[o] == now[o]
  {
  }

  lemma NothingCoded(was: seq<seq<Gf>>, ins: seq<seq<Gf>>, rows: Matrix, byteCount: nat)
    requires |was| == |rows| && Long(was, byteCount) && Long(ins, byteCount) && IsMatrix(rows, |rows|, |ins|)
    ensures CodedTo(was, was, ins, rows, byteCount, 0, 0)
  {
  }

  lemma CodedAll(now: seq<seq<Gf>>, was: seq<seq<Gf>>, ins: seq<seq<Gf>>, rows: Matrix, byteCount: nat, n: nat)
    requires |now| == |was| == |rows| && Long(now, byteCount) && Long(was, byteCount) && Long(ins, byteCount)
    requires IsMatrix(rows, |rows|, |ins|) && n < |ins|
    requires CodedTo(now, was, ins, rows, byteCount, n, |rows|)
    ensures CodedTo(now, was, ins, rows, byteCount, n + 1, 0)
  {
    hide Partial;
  }

  method CodeOne(t: Tables, dst: array<Gf>, src: array<Gf>, c: Gf, first: bool, byteCount: nat)
    requires t.Valid() && dst != src && byteCount <= dst.Length && byteCount <= src.Length
    modifies dst
    ensures forall i :: 0 <= i < byteCount ==>
      dst[i] == if !first then Add(old(dst[i]), Mul(c, src[i])) else if c != 0 then Mul(c, src[i]) else old(dst[i])
    ensures forall i :: byteCount <= i < dst.Length ==> dst[i] == old(dst[i])
  {
    hide Add, Mul, Tables.Valid;
    if first {
      MulInto(t, dst, src, c, byteCount);
    } else {
      ghost var u, w := dst[0..0 + byteCount], src[0..0 + byteCount];
      FlatMatrix.AddMul(t, dst, 0, src, 0, c, byteCount);
      assert forall i :: 0 <= i < byteCount ==> dst[i] == dst[0..0 + byteCount][i] == Add(u[i], Mul(c, w[i]));
    }
  }

  lemma CodedStep(now: seq<seq<Gf>>, next: seq<seq<Gf>>, was: seq<seq<Gf>>, ins: seq<seq<Gf>>, rows: Matrix,
                  byteCount: nat, n: nat, r: nat)
    requires |now| == |next| == |was| == |rows| && Long(now, byteCount) && Long(was, byteCount) && Long(ins, byteCount)
    requires IsMatrix(rows, |rows|, |ins|) && n < |ins| && r < |rows|
    requires CodedTo(now, was, ins, rows, byteCount, n, r)
    requires |next[r]| == |now[r]| && forall o :: 0 <= o < |now| && o != r ==> next[o] == now[o]
    requires forall b :: 0 <= b < byteCount ==>
      next[r][b] == if n != 0 then Add(now[r][b], Mul(rows[r][n], ins[n][b]))
                    else if rows[r][0] != 0 then Mul(rows[r][0], ins[0][b]) else now[r][b]
    ensures Long(next, byteCount) && CodedTo(next, was, ins, rows, byteCount, n, r + 1)
  {
    hide Add, Mul, Partial;
    forall o, b | 0 <= o < |next| && 0 <= b < byteCount
      ensures next[o][b] == Partial(rows[o], Slice(ins, b), if o < r + 1 then n + 1 else n, was[o][b])
    {
      if o == r {
        PartialStep(rows[r], Slice(ins, b), n, was[r][b]);
        if n == 0 {
          PartialStart(rows[r], Slice(ins, b), was[r][b]);
        }
      }
    }
  }

  lemma PartialStart(row: Vector, x: Vector, was: Gf)
    ensures Partial(row, x, 0, was) == was
  {
  }

  // ----- encoding

  /** The parity blocks belong to the data blocks. */
  ghost predicate IsParity(ds: nat, ps: nat, data: seq<seq<Gf>>, fec: seq<seq<Gf>>, n: nat)
    requires IsShape(ds, ps) && |data| == ds && |fec| == ps && Long(data, n) && Long(fec, n)
  {
    forall j, b :: 0 <= j < ps && 0 <= b < n ==> fec[j][b] == Dot(ParityRow(ds, ps, j), Slice(data, b), ds)
  }

  lemma CodedIsParity(rs: Coder, data: seq<seq<Gf>>, fec: seq<seq<Gf>>, was: seq<seq<Gf>>, n: nat)
    requires rs.Valid() && |data| == rs.dataShards && |fec| == |was| == rs.parityShards
    requires Long(data, n) && Long(fec, n) && Long(was, n)
    requires CodedTo(fec, was, data, RowsOf(rs.parity, rs.parityShards, rs.dataShards), n, rs.dataShards, 0)
    ensures IsParity(rs.dataShards, rs.parityShards, data, fec, n)
  {
    hide RowsOf, Add, Mul, ParityRow;
    var ds, ps := rs.dataShards, rs.parityShards;
    forall j, b | 0 <= j < ps && 0 <= b < n ensures fec[j][b] == Dot(ParityRow(ds, ps, j), Slice(data, b), ds) {
      var row := ParityRow(ds, ps, j);
      assert RowsOf(rs.parity, ps, ds)[j] == row;
      ParityFirstNonzero(ds, ps, j);
      assert fec[j][b] == Partial(row, Slice(data, b), ds, was[j][b]);
      AddZero(Dot(row, Slice(data, b), ds));
    }
  }

  lemma ParityFirstNonzero(ds: nat, ps: nat, j: nat)
    requires IsShape(ds, ps) && j < ps
    ensures ParityRow(ds, ps, j)[0] != 0
  {
    AddCancel(ps, j);
    MulInv(Add(ps, j));
  }

  // ----- groups of shards: all data blocks come first, then all parity blocks

  /** Group g of n groups of k blocks. */
  function Group<T>(blocks: seq<T>, n: nat, k: nat, g: nat): (s: seq<T>)
    requires g < n && |blocks| == n * k
    ensures |s| == k
  {
    Fits(g, n, k);
    blocks[g * k..g * k + k]
  }

  lemma GroupAt<T>(blocks: seq<T>, n: nat, k: nat, g: nat, i: nat)
    requires g < n && |blocks| == n * k && i < k
    ensures g * k + i < |blocks| && Group(blocks, n, k, g)[i] == blocks[g * k + i]
  {
    Fits(g, n, k);
  }

  lemma GroupLong(blocks: seq<seq<Gf>>, n: nat, k: nat, g: nat, bytes: nat)
    requires g < n && |blocks| == n * k && Long(blocks, bytes)
    ensures Long(Group(blocks, n, k, g), bytes)
  {
    forall i | 0 <= i < k ensures |Group(blocks, n, k, g)[i]| >= bytes {
      GroupAt(blocks, n, k, g, i);
    }
  }

  /** The parity blocks of group g belong to its data blocks. */
  ghost predicate GroupEncoded(ds: nat, ps: nat, data: seq<seq<Gf>>, fec: seq<seq<Gf>>, n: nat, bytes: nat, g: nat)
    requires IsShape(ds, ps) && |data| == n * ds && |fec| == n * ps && Long(data, bytes) && Long(fec, bytes) && g < n
  {
    GroupLong(data, n, ds, g, bytes);
    GroupLong(fec, n, ps, g, bytes);
    IsParity(ds, ps, Group(data, n, ds, g), Group(fec, n, ps, g), bytes)
  }

  ghost predicate EncodedUpTo(ds: nat, ps: nat, data: seq<seq<Gf>>, fec: seq<seq<Gf>>, n: nat, bytes: nat, m: nat)
    requires IsShape(ds, ps) && |data| == n * ds && |fec| == n * ps && Long(data, bytes) && Long(fec, bytes) && m <= n
  {
    forall g :: 0 <= g < m ==> GroupEncoded(ds, ps, data, fec, n, bytes, g)
  }

  lemma EncodedStep(ds: nat, ps: nat, data: seq<seq<Gf>>, was: seq<seq<Gf>>, now: seq<seq<Gf>>, n: nat, bytes: nat,
                    m: nat)
    requires IsShape(ds, ps) && |data| == n * ds && |was| == |now| == n * ps && m < n
    requires Long(data, bytes) && Long(was, bytes) && Long(now, bytes)
    requires EncodedUpTo(ds, ps, data, was, n, bytes, m)
    requires forall i :: 0 <= i < |was| && !(m * ps <= i < m * ps + ps) ==> now[i] == was[i]
    requires GroupEncoded(ds, ps, data, now, n, bytes, m)
    ensures EncodedUpTo(ds, ps, data, now, n, bytes, m + 1)
  {
    hide IsParity;
    forall g | 0 <= g < m ensures GroupEncoded(ds, ps, data, now, n, bytes, g) {
      assert GroupEncoded(ds, ps, data, was, n, bytes, g);
      forall i | 0 <= i < ps ensures Group(now, n, ps, g)[i] == Group(was, n, ps, g)[i] {
        GroupAt(now, n, ps, g, i);
        GroupAt(was, n, ps, g, i);
        Fits(g, m, ps);
      }
      assert Group(now, n, ps, g) == Group(was, n, ps, g);
    }
  }

  /** Computes the parity blocks of every group and leaves the data blocks alone. */
  method ReedSolomonEncode(t: Tables, rs: Coder, shards: seq<array<Gf>>, nr_shards: nat, block_size: nat)
    returns (r: int)
    requires t.Valid() && rs.Valid()
    requires |shards| == nr_shards && nr_shards % rs.shards == 0
    requires Separate(shards) && Roomy(shards, block_size)
    modifies shards
    ensures r == 0
    ensures var n := nr_shards / rs.shards; var d := n * rs.dataShards;
      && d <= |shards| && |shards| - d == n * rs.parityShards
      && EncodedUpTo(rs.dataShards, rs.parityShards, Contents(shards[..d]), Contents(shards[d..]), n, block_size, n)
      && Contents(shards[..d]) == old(Contents(shards[..d]))
  {
    hide Coder.Valid, Tables.Valid, RowsOf, EncodedUpTo;
    CoderShape(rs);
    var n := nr_shards / rs.shards;
    GroupCount(nr_shards, n, rs.dataShards, rs.parityShards);
    var d := n * rs.dataShards;
    EncodeGroups(t, rs, shards[..d], shards[d..], n, block_size);
    r := 0;
  }

  lemma GroupCount(total: nat, n: nat, ds: nat, ps: nat)
    requires ds + ps > 0 && total % (ds + ps) == 0 && n == total / (ds + ps)
    ensures n * ds <= total && total - n * ds == n * ps
  {
    assert total == n * (ds + ps);
    assert n * (ds + ps) == n * ds + n * ps;
  }

  lemma CoderShape(rs: Coder)
    requires rs.Valid()
    ensures IsShape(rs.dataShards, rs.parityShards) && rs.shards == rs.dataShards + rs.parityShards
    ensures |rs.m| == rs.shards * rs.dataShards && |rs.parity| == rs.parityShards * rs.dataShards
  {
  }

  method EncodeGroups(t: Tables, rs: Coder, data: seq<array<Gf>>, fec: seq<array<Gf>>, n: nat, bytes: nat)
    requires t.Valid() && rs.Valid()
    requires |data| == n * rs.dataShards && |fec| == n * rs.parityShards
    requires Separate(fec) && Disjoint(fec, data) && Roomy(data, bytes) && Roomy(fec, bytes)
    modifies fec
    ensures EncodedUpTo(rs.dataShards, rs.parityShards, Contents(data), Contents(fec), n, bytes, n)
  {
    hide Coder.Valid, Tables.Valid, RowsOf, EncodedUpTo;
    CoderShape(rs);
    ghost var values := Contents(data);
    assert EncodedUpTo(rs.dataShards, rs.parityShards, values, Contents(fec), n, bytes, 0) by {
      NothingEncoded(rs.dataShards, rs.parityShards, values, Contents(fec), n, bytes);
    }
    for g := 0 to n
      invariant Contents(data) == values
      invariant EncodedUpTo(rs.dataShards, rs.parityShards, values, Contents(fec), n, bytes, g)
    {
      EncodeGroup(t, rs, data, fec, n, bytes, g);
    }
  }

  lemma NothingEncoded(ds: nat, ps: nat, data: seq<seq<Gf>>, fec: seq<seq<Gf>>, n: nat, bytes: nat)
    requires IsShape(ds, ps) && |data| == n * ds && |fec| == n * ps && Long(data, bytes) && Long(fec, bytes)
    ensures EncodedUpTo(ds, ps, data, fec, n, bytes, 0)
  {
  }

  lemma GroupContents(blocks: seq<array<Gf>>, n: nat, k: nat, g: nat)
    requires g < n && |blocks| == n * k
    ensures Contents(Group(blocks, n, k, g)) == Group(Contents(blocks), n, k, g)
  {
    forall i | 0 <= i < k ensures Contents(Group(blocks, n, k, g))[i] == Group(Contents(blocks), n, k, g)[i] {
      GroupAt(blocks, n, k, g, i);
      GroupAt(Contents(blocks), n, k, g, i);
    }
  }

  lemma GroupSeparate(blocks: seq<array<Gf>>, n: nat, k: nat, g: nat, bytes: nat)
    requires g < n && |blocks| == n * k && Separate(blocks) && Roomy(blocks, bytes)
    ensures Separate(Group(blocks, n, k, g)) && Roomy(Group(blocks, n, k, g), bytes)
    ensures forall i :: 0 <= i < |blocks| && !(g * k <= i < g * k + k) ==> blocks[i] !in Group(blocks, n, k, g)
    ensures forall x :: x in Group(blocks, n, k, g) ==> x in blocks
  {
    Fits(g, n, k);
  }

  /** Computes the parity blocks of group g. */
  method EncodeGroup(t: Tables, rs: Coder, data: seq<array<Gf>>, fec: seq<array<Gf>>, n: nat, bytes: nat, g: nat)
    requires t.Valid() && rs.Valid() && g < n
    requires |data| == n * rs.dataShards && |fec| == n * rs.parityShards
    requires Separate(fec) && Disjoint(fec, data) && Roomy(data, bytes) && Roomy(fec, bytes)
    requires EncodedUpTo(rs.dataShards, rs.parityShards, Contents(data), Contents(fec), n, bytes, g)
    modifies fec
    ensures EncodedUpTo(rs.dataShards, rs.parityShards, Contents(data), Contents(fec), n, bytes, g + 1)
  {
    hide Coder.Valid, Tables.Valid, EncodedUpTo, IsParity;
    CoderShape(rs);
    var ds, ps := rs.dataShards, rs.parityShards;
    var inputs, outputs := Group(data, n, ds, g), Group(fec, n, ps, g);
    ghost var values, was := Contents(data), Contents(fec);
    GroupSeparate(fec, n, ps, g, bytes);
    DisjointGroups(data, fec, n, ds, ps, g, bytes);
    hide Disjoint, Separate, Group, GroupEncoded;
    assert forall i :: 0 <= i < |outputs| ==> outputs[i] in fec;
    EncodeBlocks(t, rs, inputs, outputs, bytes);
    assert Contents(data) == values;
    ghost var now := Contents(fec);
    assert forall i :: 0 <= i < |was| && !(g * ps <= i < g * ps + ps) ==> now[i] == was[i];
    GroupContents(data, n, ds, g);
    GroupContents(fec, n, ps, g);
    GroupIsEncoded(ds, ps, values, now, n, bytes, g);
    EncodedStep(ds, ps, values, was, now, n, bytes, g);
  }

  lemma GroupIsEncoded(ds: nat, ps: nat, data: seq<seq<Gf>>, fec: seq<seq<Gf>>, n: nat, bytes: nat, g: nat)
    requires IsShape(ds, ps) && |data| == n * ds && |fec| == n * ps && Long(data, bytes) && Long(fec, bytes) && g < n
    requires Long(Group(data, n, ds, g), bytes) && Long(Group(fec, n, ps, g), bytes)
    requires IsParity(ds, ps, Group(data, n, ds, g), Group(fec, n, ps, g), bytes)
    ensures GroupEncoded(ds, ps, data, fec, n, bytes, g)
  {
  }

  lemma DisjointGroups(data: seq<array<Gf>>, fec: seq<array<Gf>>, n: nat, ds: nat, ps: nat, g: nat, bytes: nat)
    requires g < n && |data| == n * ds && |fec| == n * ps && Disjoint(fec, data) && Roomy(data, bytes)
    ensures Disjoint(Group(fec, n, ps, g), Group(data, n, ds, g)) && Roomy(Group(data, n, ds, g), bytes)
    ensures forall i :: 0 <= i < |data| ==> data[i] !in Group(fec, n, ps, g)
  {
    Fits(g, n, ds);
    Fits(g, n, ps);
  }

  /** Computes the parity blocks of one group. */
  method EncodeBlocks(t: Tables, rs: Coder, inputs: seq<array<Gf>>, outputs: seq<array<Gf>>, bytes: nat)
    requires t.Valid() && rs.Valid() && |inputs| == rs.dataShards && |outputs| == rs.parityShards
    requires Separate(outputs) && Disjoint(outputs, inputs) && Roomy(inputs, bytes) && Roomy(outputs, bytes)
    modifies outputs
    ensures IsParity(rs.dataShards, rs.parityShards, Contents(inputs), Contents(outputs), bytes)
  {
    hide Coder.Valid, Tables.Valid, RowsOf, CodedTo, IsParity;
    CoderShape(rs);
    ghost var was, ins := Contents(outputs), Contents(inputs);
    CodeSomeShards(t, rs.parity, inputs, outputs, rs.dataShards, rs.parityShards, bytes);
    assert Contents(inputs) == ins;
    CodedIsParity(rs, ins, Contents(outputs), was, bytes);
  }
}
