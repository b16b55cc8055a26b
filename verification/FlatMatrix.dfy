/** Matrices stored row by row in a byte buffer, as the coder keeps them. */
module FlatMatrix {
  import opened GaloisField
  import opened LinearAlgebra
  import opened GfTables

  lemma Fits(r: nat, n: nat, k: nat)
    requires r < n
    ensures r * k + k <= n * k
  {
    MulMonotone(r + 1, n, k);
  }

  function Segment(s: seq<Gf>, r: nat, k: nat): (v: Vector)
    requires r * k + k <= |s|
    ensures |v| == k
  {
    s[r * k..r * k + k]
  }

  /** The n rows of k entries at the start of a buffer. */
  function RowsOf(s: seq<Gf>, n: nat, k: nat): (m: Matrix)
    requires |s| >= n * k
    ensures |m| == n
    ensures forall r :: 0 <= r < n ==> |m[r]| == k
  {
    seq(n, r requires 0 <= r < n => Fits(r, n, k); Segment(s, r, k))
  }

  lemma At(s: seq<Gf>, n: nat, k: nat, r: nat, c: nat)
    requires |s| >= n * k && r < n && c < k
    ensures r * k + c < n * k
    ensures RowsOf(s, n, k)[r][c] == s[r * k + c]
  {
    Fits(r, n, k);
  }

  /** Only row r differs. */
  lemma RowsAfter(s: seq<Gf>, s': seq<Gf>, n: nat, k: nat, r: nat, row: Vector)
    requires |s| == |s'| >= n * k && r < n && |row| == k
    requires r * k + k <= |s|
    requires forall i :: 0 <= i < |s| && !(r * k <= i < r * k + k) ==> s'[i] == s[i]
    requires s'[r * k..r * k + k] == row
    ensures RowsOf(s', n, k) == RowsOf(s, n, k)[r := row]
  {
    forall q | 0 <= q < n && q != r ensures RowsOf(s', n, k)[q] == RowsOf(s, n, k)[q] {
      Fits(q, n, k);
      if q < r {
        Fits(q, r, k);
      } else {
        Fits(r, q, k);
      }
      assert s'[q * k..q * k + k] == s[q * k..q * k + k];
    }
  }

  function WithEntry(m: Matrix, r: nat, c: nat, v: Gf): (m': Matrix)
    requires r < |m| && c < |m[r]|
  {
    var row: Vector := m[r][c := v];
    m[r := row]
  }

  method SetEntry(src: array<Gf>, n: nat, k: nat, r: nat, c: nat, v: Gf)
    requires src.Length >= n * k && r < n && c < k
    modifies src
    ensures RowsOf(src[..], n, k) == WithEntry(old(RowsOf(src[..], n, k)), r, c, v)
  {
    ghost var s := src[..];
    Fits(r, n, k);
    At(s, n, k, r, c);
    src[r * k + c] := v;
    assert src[..][r * k..r * k + k] == s[r * k..r * k + k][c := v];
    RowsAfter(s, src[..], n, k, r, s[r * k..r * k + k][c := v]);
  }

  method GetEntry(src: array<Gf>, n: nat, k: nat, r: nat, c: nat) returns (v: Gf)
    requires src.Length >= n * k && r < n && c < k
    ensures v == RowsOf(src[..], n, k)[r][c]
  {
    At(src[..], n, k, r, c);
    v := src[r * k + c];
  }

  /** u + c w, entry by entry */
  function AddScaled(u: Vector, c: Gf, w: Vector): Vector
    requires |u| == |w|
  {
    seq(|u|, j requires 0 <= j < |u| => Add(u[j], Mul(c, w[j])))
  }

  /** Adds c times a stretch of one buffer to a stretch of another. */
  method AddMul(t: Tables, dst: array<Gf>, d: nat, src: array<Gf>, s: nat, c: Gf, sz: nat)
    requires t.Valid()
    requires d + sz <= dst.Length && s + sz <= src.Length
    requires dst != src || d + sz <= s || s + sz <= d
    modifies dst
    ensures dst[d..d + sz] == AddScaled(old(dst[d..d + sz]), c, old(src[s..s + sz]))
    ensures forall i :: 0 <= i < dst.Length && !(d <= i < d + sz) ==> dst[i] == old(dst[i])
  {
    hide Add, Mul, Tables.Valid, AddScaled;
    ghost var u := dst[d..d + sz];
    ghost var w := src[s..s + sz];
    if c != 0 {
      for j := 0 to sz
        invariant forall i :: 0 <= i < dst.Length && !(d <= i < d + j) ==> dst[i] == old(dst[i])
        invariant forall i :: d <= i < d + j ==> dst[i] == Add(u[i - d], Mul(c, w[i - d]))
      {
        assert src[s + j] == w[j];
        dst[d + j] := Add(dst[d + j], t.Times(c, src[s + j]));
      }
      assert dst[d..d + sz] == AddScaled(u, c, w) by {
        ScaledEntries(dst[d..d + sz], u, c, w);
      }
    } else {
      AddNothing(u, w);
    }
  }

  lemma ScaledEntries(v: Vector, u: Vector, c: Gf, w: Vector)
    requires |v| == |u| == |w|
    requires forall j :: 0 <= j < |v| ==> v[j] == Add(u[j], Mul(c, w[j]))
    ensures v == AddScaled(u, c, w)
  {
  }

  lemma AddNothing(u: Vector, w: Vector)
    requires |u| == |w|
    ensures AddScaled(u, 0, w) == u
  {
    hide Add, Mul;
    forall j | 0 <= j < |u| ensures AddScaled(u, 0, w)[j] == u[j] {
      MulZero(w[j]);
      AddZero(u[j]);
    }
  }

  /** Adds c times row p to row r. */
  method AddMulRow(t: Tables, src: array<Gf>, n: nat, k: nat, r: nat, p: nat, c: Gf)
    requires t.Valid() && src.Length >= n * k && r < n && p < n && r != p
    modifies src
    ensures var m := old(RowsOf(src[..], n, k));
      RowsOf(src[..], n, k) == m[r := AddScaled(m[r], c, m[p])]
  {
    ghost var s := src[..];
    Fits(r, n, k);
    Fits(p, n, k);
    if r < p {
      Fits(r, p, k);
    } else {
      Fits(p, r, k);
    }
    AddMul(t, src, r * k, src, p * k, c, k);
    RowsAfter(s, src[..], n, k, r, src[r * k..r * k + k]);
  }
}
