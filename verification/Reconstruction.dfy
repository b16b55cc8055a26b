/** Repairing lost data shards from the surviving shards and the parity. */
module Reconstruction {
  import opened Basics
  import opened GaloisField
  import opened LinearAlgebra
  import opened Cauchy
  import opened GfTables
  import opened FlatMatrix
  import opened MatrixInversion
  import opened ErasureCode
  import opened ErasedOrder
  import opened ReedSolomon

  // ----- collecting what is lost and what is at hand

  /** The first n indices whose mark is set (or clear), in order. */
  function Marked(marks: seq<Gf>, n: nat, set_: bool): (s: seq<nat>)
    requires n <= |marks|
    ensures |s| <= n
  {
    if n == 0 then []
    else Marked(marks, n - 1, set_) + if (marks[n - 1] != 0) == set_ then [n - 1] else []
  }

  lemma {:induction false} MarkedOrdered(marks: seq<Gf>, n: nat, set_: bool)
    requires n <= |marks|
    ensures Ascending(Marked(marks, n, set_)) && Bounded(Marked(marks, n, set_), n)
    ensures forall x :: x in Marked(marks, n, set_) <==> 0 <= x < n && (marks[x] != 0) == set_
  {
    if n > 0 {
      MarkedOrdered(marks, n - 1, set_);
    }
  }

  lemma {:induction false} MarkedGrows(marks: seq<Gf>, m: nat, n: nat, set_: bool)
    requires m <= n <= |marks|
    ensures |Marked(marks, m, set_)| <= |Marked(marks, n, set_)|
  {
    if m < n {
      MarkedGrows(marks, m, n - 1, set_);
    }
  }

  lemma {:induction false} MarkedSplit(marks: seq<Gf>, n: nat)
    requires n <= |marks|
    ensures |Marked(marks, n, false)| + |Marked(marks, n, true)| == n
  {
    if n > 0 {
      MarkedSplit(marks, n - 1);
    }
  }

  /** The kept and lost data shards of a group split it. */
  lemma MarksSplit(marks: seq<Gf>, ds: nat)
    requires |marks| == ds
    ensures IsSplit(ds, Marked(marks, ds, false), Marked(marks, ds, true))
  {
    MarkedOrdered(marks, ds, false);
    MarkedOrdered(marks, ds, true);
    MarkedSplit(marks, ds);
    var kept, lost := Marked(marks, ds, false), Marked(marks, ds, true);
    forall q, i | 0 <= q < |kept| && 0 <= i < |lost| ensures kept[q] != lost[i] {
      assert kept[q] in kept && lost[i] in lost;
    }
  }

  // ----- decoding one group

  /** What the buffers hold agrees with a group of data blocks, as far as they have not been lost. */
  ghost predicate Agrees(ds: nat, ps: nat, orig: seq<seq<Gf>>, data: seq<seq<Gf>>, fec: seq<seq<Gf>>,
                         kept: seq<nat>, fecNos: seq<nat>, bytes: nat)
    requires IsShape(ds, ps) && Bounded(kept, ds) && Bounded(fecNos, ps)
    requires |orig| == |data| == ds && |fec| == |fecNos|
    requires Long(orig, bytes) && Long(data, bytes) && Long(fec, bytes)
  {
    && (forall q :: 0 <= q < |kept| ==> data[kept[q]][..bytes] == orig[kept[q]][..bytes])
    && (forall p, b :: 0 <= p < |fec| && 0 <= b < bytes ==>
          fec[p][b] == Dot(ParityRow(ds, ps, fecNos[p]), Slice(orig, b), ds))
  }

  ghost predicate KeptRows(m: Matrix, ds: nat, kept: seq<nat>, a: nat)
    requires IsMatrix(m, ds, ds) && a <= |kept| <= ds
  {
    forall q :: 0 <= q < a ==> m[q] == Unit(ds, kept[q])
  }

  ghost predicate ParityRows(m: Matrix, ds: nat, ps: nat, from: nat, fecNos: seq<nat>, a: nat)
    requires IsShape(ds, ps) && IsMatrix(m, ds, ds) && Bounded(fecNos, ps) && a <= |fecNos| && from + a <= ds
  {
    forall q :: from <= q < from + a ==> m[q] == ParityRow(ds, ps, fecNos[q - from])
  }

  ghost predicate KeptShards(sub: seq<array<Gf>>, data: seq<array<Gf>>, kept: seq<nat>, a: nat)
    requires a <= |sub| && a <= |kept| && Bounded(kept, |data|)
  {
    forall q :: 0 <= q < a ==> sub[q] == data[kept[q]]
  }

  ghost predicate ParityShards(sub: seq<array<Gf>>, from: nat, decFec: seq<array<Gf>>, a: nat)
    requires from + a <= |sub| && a <= |decFec|
  {
    forall q :: from <= q < from + a ==> sub[q] == decFec[q - from]
  }

  /** Copies the generator rows of the shards that are not lost. */
  method TakeKept(rs: Coder, data: seq<array<Gf>>, lost: seq<nat>, matrix: array<Gf>, ghost kept: seq<nat>)
    returns (sub: seq<array<Gf>>)
    requires rs.Valid() && |data| == rs.dataShards && IsSplit(rs.dataShards, kept, lost)
    requires matrix.Length >= rs.dataShards * rs.dataShards
    modifies matrix
    ensures KeptRows(RowsOf(matrix[..], rs.dataShards, rs.dataShards), rs.dataShards, kept, |kept|)
    ensures |sub| == |kept| && KeptShards(sub, data, kept, |kept|)
  {
    hide RowsOf, Coder.Valid;
    CoderShape(rs);
    var ds := rs.dataShards;
    sub := [];
    var j := 0;
    for i := 0 to ds
      invariant j + |sub| == i && j <= |lost| && |sub| <= |kept|
      invariant j < |lost| ==> lost[j] >= i
      invariant |sub| < |kept| ==> kept[|sub|] >= i
      invariant forall q :: 0 <= q < j ==> lost[q] < i
      invariant forall q :: 0 <= q < |sub| ==> kept[q] < i
      invariant KeptShards(sub, data, kept, |sub|)
      invariant KeptRows(RowsOf(matrix[..], ds, ds), ds, kept, |sub|)
    {
      NextShard(ds, kept, lost, i, |sub|, j);
      if j < |lost| && i == lost[j] {
        j := j + 1;
      } else {
        GeneratorUpper(rs, i);
        CopyRow(rs.m, rs.shards, i, matrix, ds, |sub|, ds);
        sub := sub + [data[i]];
      }
    }
  }

  /** Appends the generator rows of the parity shards at hand. */
  method TakeParity(rs: Coder, decFec: seq<array<Gf>>, fecNos: seq<nat>, matrix: array<Gf>, kept: seq<array<Gf>>)
    returns (sub: seq<array<Gf>>)
    requires rs.Valid() && IsChoice(rs.parityShards, fecNos)
    requires |decFec| == |fecNos| && |kept| + |fecNos| == rs.dataShards
    requires matrix.Length >= rs.dataShards * rs.dataShards
    modifies matrix
    ensures RowsOf(matrix[..], rs.dataShards, rs.dataShards)[..|kept|]
         == old(RowsOf(matrix[..], rs.dataShards, rs.dataShards))[..|kept|]
    ensures ParityRows(RowsOf(matrix[..], rs.dataShards, rs.dataShards), rs.dataShards, rs.parityShards, |kept|, fecNos,
      |fecNos|)
    ensures |sub| == rs.dataShards && sub[..|kept|] == kept && ParityShards(sub, |kept|, decFec, |decFec|)
  {
    hide RowsOf, ParityRow, Coder.Valid;
    CoderShape(rs);
    var ds := rs.dataShards;
    ghost var m := RowsOf(matrix[..], ds, ds);
    sub := kept;
    var i := 0;
    while i < |fecNos| && |sub| < ds
      invariant i <= |fecNos| && |sub| == |kept| + i
      invariant sub[..|kept|] == kept && ParityShards(sub, |kept|, decFec, i)
      invariant forall q :: 0 <= q < |kept| ==> RowsOf(matrix[..], ds, ds)[q] == m[q]
      invariant ParityRows(RowsOf(matrix[..], ds, ds), ds, rs.parityShards, |kept|, fecNos, i)
    {
      GeneratorLower(rs, fecNos[i]);
      CopyRow(rs.m, rs.shards, ds + fecNos[i], matrix, ds, |sub|, ds);
      sub := sub + [decFec[i]];
      i := i + 1;
    }
  }

  lemma DecodeRoom(ds: nat)
    requires ds <= DATA_SHARDS_MAX
    ensures ds * ds <= DATA_SHARDS_MAX * DATA_SHARDS_MAX
  {
    MulMonotone(ds, DATA_SHARDS_MAX, ds);
    MulMonotone(ds, DATA_SHARDS_MAX, DATA_SHARDS_MAX);
  }

  lemma GeneratorUpper(rs: Coder, r: nat)
    requires rs.Valid() && r < rs.dataShards
    ensures r < rs.shards && |rs.m| == rs.shards * rs.dataShards
    ensures RowsOf(rs.m, rs.shards, rs.dataShards)[r] == Unit(rs.dataShards, r)
  {
    hide RowsOf;
  }

  lemma GeneratorLower(rs: Coder, j: nat)
    requires rs.Valid() && j < rs.parityShards
    ensures rs.dataShards + j < rs.shards && |rs.m| == rs.shards * rs.dataShards
    ensures RowsOf(rs.m, rs.shards, rs.dataShards)[rs.dataShards + j] == ParityRow(rs.dataShards, rs.parityShards, j)
  {
    hide RowsOf, ParityRow;
  }

  /** The next shard is the next lost one or the next kept one. */
  lemma NextShard(ds: nat, kept: seq<nat>, lost: seq<nat>, i: nat, a: nat, j: nat)
    requires IsSplit(ds, kept, lost) && i < ds && a <= |kept| && j <= |lost|
    requires j < |lost| ==> lost[j] >= i
    requires a < |kept| ==> kept[a] >= i
    requires forall q :: 0 <= q < j ==> lost[q] < i
    requires forall q :: 0 <= q < a ==> kept[q] < i
    ensures (j < |lost| && lost[j] == i) || (a < |kept| && kept[a] == i)
    ensures j < |lost| && lost[j] == i ==> (a < |kept| ==> kept[a] > i) && (j + 1 < |lost| ==> lost[j + 1] > i)
    ensures !(j < |lost| && lost[j] == i) ==> (j < |lost| ==> lost[j] > i) && (a + 1 < |kept| ==> kept[a + 1] > i)
  {
    if i in kept {
      var q :| 0 <= q < |kept| && kept[q] == i;
    } else {
      var q :| 0 <= q < |lost| && lost[q] == i;
    }
  }

  /** Moves the rows of the lost shards to the front, in place. */
  method GatherRows(matrix: array<Gf>, ds: nat, data: seq<array<Gf>>, lost: seq<nat>) returns (outputs: seq<array<Gf>>)
    requires matrix.Length >= ds * ds && |data| == ds
    requires Ascending(lost) && Bounded(lost, ds)
    modifies matrix
    ensures |outputs| == |lost| <= ds && forall q :: 0 <= q < |lost| ==> outputs[q] == data[lost[q]]
    ensures forall q :: 0 <= q < |lost| ==> RowsOf(matrix[..], ds, ds)[q] == old(RowsOf(matrix[..], ds, ds))[lost[q]]
  {
    hide RowsOf;
    ghost var b := RowsOf(matrix[..], ds, ds);
    outputs := [];
    AscendingSpread(lost, ds);
    for i := 0 to |lost|
      invariant |outputs| == i && forall q :: 0 <= q < i ==> outputs[q] == data[lost[q]]
      invariant forall q :: 0 <= q < i ==> RowsOf(matrix[..], ds, ds)[q] == b[lost[q]]
      invariant forall q :: i <= q < ds ==> RowsOf(matrix[..], ds, ds)[q] == b[q]
    {
      var j := lost[i];
      outputs := outputs + [data[j]];
      CopyRow(matrix[..], ds, j, matrix, ds, i, ds);
    }
  }

  lemma {:induction false} AscendingAbove(s: seq<nat>, i: nat)
    requires Ascending(s) && i < |s|
    ensures s[i] >= i
  {
    if i > 0 {
      AscendingAbove(s, i - 1);
    }
  }

  lemma AscendingSpread(s: seq<nat>, n: nat)
    requires Ascending(s) && Bounded(s, n)
    ensures |s| <= n && forall i :: 0 <= i < |s| ==> s[i] >= i
  {
    forall i | 0 <= i < |s| ensures s[i] >= i {
      AscendingAbove(s, i);
    }
    if |s| > 0 {
      assert s[|s| - 1] >= |s| - 1;
    }
  }

  lemma IsDecode(m: Matrix, before: Matrix, ds: nat, ps: nat, kept: seq<nat>, lost: seq<nat>, fecNos: seq<nat>)
    requires IsShape(ds, ps) && IsSplit(ds, kept, lost) && IsChoice(ps, fecNos) && |fecNos| == |lost|
    requires IsMatrix(m, ds, ds) && IsMatrix(before, ds, ds)
    requires KeptRows(before, ds, kept, |kept|) && m[..|kept|] == before[..|kept|]
    requires ParityRows(m, ds, ps, |kept|, fecNos, |fecNos|)
    ensures IsDecodeMatrix(m, ds, ps, kept, lost, fecNos)
  {
    hide ParityRow;
    forall q | 0 <= q < |kept| ensures m[q] == Unit(ds, kept[q]) {
      assert m[..|kept|][q] == before[..|kept|][q];
    }
  }

  /** Rows of the same buffer, whatever the number of rows taken. */
  lemma RowsPrefix(s: seq<Gf>, n: nat, m: nat, k: nat, r: nat)
    requires r < n <= m && |s| >= m * k && |s| >= n * k
    ensures RowsOf(s, n, k)[r] == RowsOf(s, m, k)[r]
  {
  }

  /** The rows that rebuild the lost shards, and the shards they are applied to. */
  ghost predicate IsRecipe(rows: Matrix, d: Matrix, b: Matrix, ds: nat, lost: seq<nat>)
    requires IsMatrix(rows, |lost|, ds) && IsMatrix(d, ds, ds) && IsMatrix(b, ds, ds) && Bounded(lost, ds)
  {
    Inverse(d, b, ds) && forall i :: 0 <= i < |lost| ==> rows[i] == b[lost[i]]
  }

  lemma SplitFacts(ds: nat, kept: seq<nat>, lost: seq<nat>)
    requires IsSplit(ds, kept, lost)
    ensures Bounded(kept, ds) && Bounded(lost, ds) && |kept| + |lost| == ds
  {
  }

  /** A coded output is the lost original block. */
  lemma RecipeRebuilds(rows: Matrix, d: Matrix, b: Matrix, ds: nat, ps: nat, kept: seq<nat>, lost: seq<nat>,
                       fecNos: seq<nat>, orig: seq<seq<Gf>>, data: seq<seq<Gf>>, fec: seq<seq<Gf>>,
                       ins: seq<seq<Gf>>, was: seq<seq<Gf>>, now: seq<seq<Gf>>, bytes: nat)
    requires IsShape(ds, ps) && IsSplit(ds, kept, lost) && IsChoice(ps, fecNos) && |fecNos| == |lost|
    requires IsMatrix(d, ds, ds) && IsMatrix(b, ds, ds) && IsMatrix(rows, |lost|, ds)
    requires IsDecodeMatrix(d, ds, ps, kept, lost, fecNos) && IsRecipe(rows, d, b, ds, lost)
    requires |orig| == |data| == |ins| == ds && |fec| == |lost| == |was| == |now|
    requires Long(orig, bytes) && Long(data, bytes) && Long(fec, bytes) && Long(ins, bytes) && Long(was, bytes)
    requires Long(now, bytes)
    requires Agrees(ds, ps, orig, data, fec, kept, fecNos, bytes)
    requires forall q :: 0 <= q < |kept| ==> ins[q] == data[kept[q]]
    requires forall q :: |kept| <= q < ds ==> ins[q] == fec[q - |kept|]
    requires CodedTo(now, was, ins, rows, bytes, ds, 0)
    ensures forall i :: 0 <= i < |lost| ==> now[i][..bytes] == orig[lost[i]][..bytes]
  {
    hide Agrees, IsDecodeMatrix, IsRecipe, IsSplit, CodedTo;
    SplitFacts(ds, kept, lost);
    forall i | 0 <= i < |lost| ensures now[i][..bytes] == orig[lost[i]][..bytes] {
      forall c | 0 <= c < bytes ensures now[i][c] == orig[lost[i]][c] {
        RebuildsByte(rows, d, b, ds, ps, kept, lost, fecNos, orig, data, fec, ins, was, now, bytes, i, c);
      }
    }
  }

  lemma RebuildsByte(rows: Matrix, d: Matrix, b: Matrix, ds: nat, ps: nat, kept: seq<nat>, lost: seq<nat>,
                     fecNos: seq<nat>, orig: seq<seq<Gf>>, data: seq<seq<Gf>>, fec: seq<seq<Gf>>,
                     ins: seq<seq<Gf>>, was: seq<seq<Gf>>, now: seq<seq<Gf>>, bytes: nat, i: nat, c: nat)
    requires IsShape(ds, ps) && IsSplit(ds, kept, lost) && IsChoice(ps, fecNos) && |fecNos| == |lost|
    requires IsMatrix(d, ds, ds) && IsMatrix(b, ds, ds) && IsMatrix(rows, |lost|, ds)
    requires IsDecodeMatrix(d, ds, ps, kept, lost, fecNos) && IsRecipe(rows, d, b, ds, lost)
    requires |orig| == |data| == |ins| == ds && |fec| == |lost| == |was| == |now|
    requires Long(orig, bytes) && Long(data, bytes) && Long(fec, bytes) && Long(ins, bytes) && Long(was, bytes)
    requires Long(now, bytes)
    requires Agrees(ds, ps, orig, data, fec, kept, fecNos, bytes)
    requires forall q :: 0 <= q < |kept| ==> ins[q] == data[kept[q]]
    requires forall q :: |kept| <= q < ds ==> ins[q] == fec[q - |kept|]
    requires CodedTo(now, was, ins, rows, bytes, ds, 0)
    requires i < |lost| && c < bytes
    ensures now[i][c] == orig[lost[i]][c]
  {
    hide Add, Mul, Dot, ParityRow, Inverse;
    var x, sub := Slice(orig, c), Slice(ins, c);
    forall q | 0 <= q < |kept| ensures sub[q] == x[kept[q]] {
      assert data[kept[q]][..bytes][c] == orig[kept[q]][..bytes][c];
    }
    DecodeRow(d, b, ds, ps, kept, lost, fecNos, x, sub, lost[i]);
    FirstCoefficient(d, b, ds, ps, kept, lost, fecNos, i);
    assert now[i][c] == Partial(rows[i], sub, ds, was[i][c]);
    AddZero(Dot(rows[i], sub, ds));
  }

  /** The buffers the recipe reads: kept data shards, then parity shards. */
  ghost predicate IsSub(sub: seq<array<Gf>>, data: seq<array<Gf>>, decFec: seq<array<Gf>>, kept: seq<nat>)
    requires Bounded(kept, |data|) && |sub| == |kept| + |decFec|
  {
    KeptShards(sub, data, kept, |kept|) && ParityShards(sub, |kept|, decFec, |decFec|)
  }

  lemma SubIsApart(sub: seq<array<Gf>>, outputs: seq<array<Gf>>, data: seq<array<Gf>>, decFec: seq<array<Gf>>,
                   kept: seq<nat>, lost: seq<nat>, bytes: nat)
    requires IsSplit(|data|, kept, lost) && |sub| == |kept| + |decFec| && IsSub(sub, data, decFec, kept)
    requires |outputs| == |lost| && forall q :: 0 <= q < |lost| ==> outputs[q] == data[lost[q]]
    requires Separate(data) && Disjoint(data, decFec) && Roomy(data, bytes) && Roomy(decFec, bytes)
    ensures Separate(outputs) && Disjoint(outputs, sub) && Roomy(sub, bytes) && Roomy(outputs, bytes)
    ensures forall q :: 0 <= q < |kept| ==> data[kept[q]] !in outputs
    ensures forall q :: 0 <= q < |outputs| ==> outputs[q] in data
  {
    forall o, q | 0 <= o < |outputs| && 0 <= q < |kept| ensures outputs[o] != data[kept[q]] {
      assert data[lost[o]] != data[kept[q]];
    }
    forall o, q | 0 <= o < |outputs| && 0 <= q < |sub| ensures outputs[o] != sub[q] {
      if q >= |kept| {
        assert sub[q] == decFec[q - |kept|];
      }
    }
    forall q | 0 <= q < |sub| ensures sub[q].Length >= bytes {
      if q >= |kept| {
        assert sub[q] == decFec[q - |kept|];
      }
    }
  }

  /** Applies the rebuilding rows to the shards at hand. */
  method ApplyRecipe(t: Tables, ds: nat, ps: nat, data: seq<array<Gf>>, bytes: nat, decFec: seq<array<Gf>>,
                     ghost fecNos: seq<nat>, lost: seq<nat>, ghost kept: seq<nat>, ghost orig: seq<seq<Gf>>, m: seq<Gf>,
                     sub: seq<array<Gf>>, outputs: seq<array<Gf>>, ghost d: Matrix, ghost b: Matrix)
    requires t.Valid() && IsShape(ds, ps) && IsSplit(ds, kept, lost) && IsChoice(ps, fecNos)
    requires |data| == ds == |sub| == |orig| && |decFec| == |fecNos| == |lost| == |outputs|
    requires Separate(data) && Disjoint(data, decFec) && Roomy(data, bytes) && Roomy(decFec, bytes) && Long(orig, bytes)
    requires IsSub(sub, data, decFec, kept)
    requires forall q :: 0 <= q < |lost| ==> outputs[q] == data[lost[q]]
    requires IsMatrix(d, ds, ds) && IsMatrix(b, ds, ds) && |m| >= |lost| * ds
    requires IsDecodeMatrix(d, ds, ps, kept, lost, fecNos) && IsRecipe(RowsOf(m, |lost|, ds), d, b, ds, lost)
    modifies data
    ensures forall q :: 0 <= q < |kept| ==> data[kept[q]][..] == old(data[kept[q]][..])
    ensures old(Agrees(ds, ps, orig, Contents(data), Contents(decFec), kept, fecNos, bytes)) ==>
      forall i :: 0 <= i < |data| ==> data[i][..bytes] == orig[i][..bytes]
  {
    hide RowsOf, Tables.Valid, IsDecodeMatrix, Agrees, CodedTo, IsRecipe, Disjoint, Separate, IsSplit, IsSub;
    SplitFacts(ds, kept, lost);
    SubIsApart(sub, outputs, data, decFec, kept, lost, bytes);
    ghost var values, fecs, ins, was := Contents(data), Contents(decFec), Contents(sub), Contents(outputs);
    SubValues(sub, data, decFec, kept);
    CodeSomeShards(t, m, sub, outputs, ds, |lost|, bytes);
    ghost var now := Contents(outputs);
    if Agrees(ds, ps, orig, values, fecs, kept, fecNos, bytes) {
      RecipeRebuilds(RowsOf(m, |lost|, ds), d, b, ds, ps, kept, lost, fecNos, orig, values, fecs, ins, was, now, bytes);
      forall i | 0 <= i < |data| ensures data[i][..bytes] == orig[i][..bytes] {
        KeptOrLost(ds, kept, lost, i);
        if i in lost {
          var q :| 0 <= q < |lost| && lost[q] == i;
          assert now[q] == data[i][..];
        } else {
          var q :| 0 <= q < |kept| && kept[q] == i;
          KeptAgrees(ds, ps, orig, values, fecs, kept, fecNos, bytes, q);
          assert values[i] == data[i][..];
        }
      }
    }
  }

  lemma KeptOrLost(ds: nat, kept: seq<nat>, lost: seq<nat>, i: nat)
    requires IsSplit(ds, kept, lost) && i < ds
    ensures i in kept || i in lost
  {
  }

  lemma KeptAgrees(ds: nat, ps: nat, orig: seq<seq<Gf>>, data: seq<seq<Gf>>, fec: seq<seq<Gf>>,
                   kept: seq<nat>, fecNos: seq<nat>, bytes: nat, q: nat)
    requires IsShape(ds, ps) && Bounded(kept, ds) && Bounded(fecNos, ps)
    requires |orig| == |data| == ds && |fec| == |fecNos|
    requires Long(orig, bytes) && Long(data, bytes) && Long(fec, bytes)
    requires Agrees(ds, ps, orig, data, fec, kept, fecNos, bytes) && q < |kept|
    ensures data[kept[q]][..bytes] == orig[kept[q]][..bytes]
  {
  }

  lemma SubValues(sub: seq<array<Gf>>, data: seq<array<Gf>>, decFec: seq<array<Gf>>, kept: seq<nat>)
    requires Bounded(kept, |data|) && |sub| == |kept| + |decFec| && IsSub(sub, data, decFec, kept)
    ensures forall q :: 0 <= q < |kept| ==> Contents(sub)[q] == Contents(data)[kept[q]]
    ensures forall q :: |kept| <= q < |sub| ==> Contents(sub)[q] == Contents(decFec)[q - |kept|]
  {
  }

  /** Gathers the shards at hand and inverts the rows of the generator that made them. */
  method InvertDecode(t: Tables, rs: Coder, data: seq<array<Gf>>, decFec: seq<array<Gf>>, fecNos: seq<nat>,
                      lost: seq<nat>, matrix: array<Gf>, ghost kept: seq<nat>)
    returns (sub: seq<array<Gf>>, ghost d: Matrix)
    requires t.Valid() && rs.Valid() && |data| == rs.dataShards
    requires IsSplit(rs.dataShards, kept, lost) && IsChoice(rs.parityShards, fecNos) && |decFec| == |fecNos| == |lost|
    requires matrix.Length >= rs.dataShards * rs.dataShards && |kept| + |lost| == rs.dataShards && Bounded(kept, |data|)
    requires IsShape(rs.dataShards, rs.parityShards)
    modifies matrix
    ensures IsMatrix(d, rs.dataShards, rs.dataShards)
    ensures IsDecodeMatrix(d, rs.dataShards, rs.parityShards, kept, lost, fecNos)
    ensures Inverse(d, RowsOf(matrix[..], rs.dataShards, rs.dataShards), rs.dataShards)
    ensures |sub| == rs.dataShards && IsSub(sub, data, decFec, kept)
  {
    hide RowsOf, Coder.Valid, Tables.Valid, IsDecodeMatrix, Inverse, Singular, ParityRows, KeptRows, IsChoice, IsSplit;
    var ds, ps := rs.dataShards, rs.parityShards;
    var keptShards := TakeKept(rs, data, lost, matrix, kept);
    ghost var upper := RowsOf(matrix[..], ds, ds);
    sub := TakeParity(rs, decFec, fecNos, matrix, keptShards);
    d := RowsOf(matrix[..], ds, ds);
    IsDecode(d, upper, ds, ps, kept, lost, fecNos);
    DecodeNotSingular(d, ds, ps, kept, lost, fecNos);
    var err := InvertMat(t, matrix, ds);
    SubIsBoth(sub, keptShards, data, decFec, kept);
  }

  lemma SubIsBoth(sub: seq<array<Gf>>, keptShards: seq<array<Gf>>, data: seq<array<Gf>>, decFec: seq<array<Gf>>,
                  kept: seq<nat>)
    requires Bounded(kept, |data|) && |sub| == |kept| + |decFec| && sub[..|kept|] == keptShards
    requires |keptShards| == |kept| && KeptShards(keptShards, data, kept, |kept|)
    requires ParityShards(sub, |kept|, decFec, |decFec|)
    ensures IsSub(sub, data, decFec, kept)
  {
    assert forall q :: 0 <= q < |kept| ==> sub[q] == sub[..|kept|][q];
  }

  /** Repairs the lost shards of one group, given as many parity shards. */
  method ReedSolomonDecode(t: Tables, rs: Coder, data: seq<array<Gf>>, block_size: nat, decFec: seq<array<Gf>>,
                           fecNos: seq<nat>, erased: array<nat>, nr: nat, ghost kept: seq<nat>, ghost lost: seq<nat>,
                           ghost orig: seq<seq<Gf>>)
    returns (r: int)
    requires t.Valid() && rs.Valid() && |data| == rs.dataShards && nr <= erased.Length
    requires IsSplit(rs.dataShards, kept, lost) && IsChoice(rs.parityShards, fecNos)
    requires SameEntries(lost, erased[..nr]) && Sortable(erased[..nr])
    requires |decFec| == |fecNos| == nr
    requires Separate(data) && Disjoint(data, decFec) && Roomy(data, block_size) && Roomy(decFec, block_size)
    requires |orig| == rs.dataShards && Long(orig, block_size)
    modifies data, erased
    ensures r == 0
    ensures forall q :: 0 <= q < |kept| ==> data[kept[q]][..] == old(data[kept[q]][..])
    ensures old(Agrees(rs.dataShards, rs.parityShards, orig, Contents(data), Contents(decFec), kept, fecNos,
      block_size)) ==>
      forall i :: 0 <= i < |data| ==> data[i][..block_size] == orig[i][..block_size]
  {
    hide RowsOf, Coder.Valid, Tables.Valid, IsDecodeMatrix, Agrees, IsRecipe, Inverse, Disjoint, Separate, Roomy,
      IsChoice, Long, IsSub, SameEntries, Sortable, Ascending, Distinct;
    CoderShape(rs);
    var ds, ps := rs.dataShards, rs.parityShards;
    LostDistinct(lost, ds, kept);
    SortLost(erased, nr, lost);
    var sorted := erased[..nr];
    SplitFacts(ds, kept, sorted);
    DecodeRoom(ds);
    var matrix := new Gf[DATA_SHARDS_MAX * DATA_SHARDS_MAX](_ => 0);
    var sub, d := InvertDecode(t, rs, data, decFec, fecNos, sorted, matrix, kept);
    ghost var b := RowsOf(matrix[..], ds, ds);
    var outputs := GatherRows(matrix, ds, data, sorted);
    IsRecipeFrom(matrix[..], d, b, ds, sorted);
    ApplyRecipe(t, ds, ps, data, block_size, decFec, fecNos, sorted, kept, orig, matrix[..], sub, outputs, d, b);
    r := 0;
  }

  lemma LostDistinct(lost: seq<nat>, ds: nat, kept: seq<nat>)
    requires IsSplit(ds, kept, lost)
    ensures Ascending(lost) && Distinct(lost)
  {
  }

  lemma IsRecipeFrom(m: seq<Gf>, d: Matrix, b: Matrix, ds: nat, lost: seq<nat>)
    requires |m| >= ds * ds && |lost| <= ds && Bounded(lost, ds)
    requires IsMatrix(d, ds, ds) && IsMatrix(b, ds, ds) && Inverse(d, b, ds)
    requires forall q :: 0 <= q < |lost| ==> RowsOf(m, ds, ds)[q] == b[lost[q]]
    ensures |m| >= |lost| * ds && IsRecipe(RowsOf(m, |lost|, ds), d, b, ds, lost)
  {
    hide RowsOf, Inverse;
    MulMonotone(|lost|, ds, ds);
    forall q | 0 <= q < |lost| ensures RowsOf(m, |lost|, ds)[q] == b[lost[q]] {
      RowsPrefix(m, |lost|, ds, ds, q);
    }
  }
}
