/** Emulation prevention: how a raw byte sequence payload is packed into a NAL unit and unpacked again. */
module NalBytes {
  import opened Basics

  /** The number of zero bytes seen in a row, after one more byte. */
  function Zeros(count: nat, x: Byte): nat
  {
    if x == 0 then count + 1 else 0
  }

  /** Packs a payload, given the number of zero bytes just before it. */
  function Packed(x: seq<Byte>, count: nat): seq<Byte>
    decreases |x|
  {
    if x == [] then []
    else if count == 2 && x[0] <= 3 then [3, x[0]] + Packed(x[1..], Zeros(0, x[0]))
    else [x[0]] + Packed(x[1..], Zeros(count, x[0]))
  }

  /** Unpacks a NAL unit, or fails if it contains a forbidden sequence. */
  function Unpacked(y: seq<Byte>, count: nat): Option<seq<Byte>>
    decreases |y|
  {
    if y == [] then Some([])
    else if count == 2 && y[0] < 3 then None
    else if count == 2 && y[0] == 3 then
      if |y| == 1 then Some([])
      else if y[1] > 3 then None
      else Prepended(y[1], Unpacked(y[2..], Zeros(0, y[1])))
    else Prepended(y[0], Unpacked(y[1..], Zeros(count, y[0])))
  }

  function Prepended(x: Byte, rest: Option<seq<Byte>>): Option<seq<Byte>>
  {
    match rest
    case None => None
    case Some(s) => Some([x] + s)
  }

  /** How many of the bytes are read: a final 3 after two zeros is left. */
  function Used(y: seq<Byte>, count: nat): nat
    decreases |y|
  {
    if y == [] then 0
    else if count == 2 && y[0] == 3 then
      if |y| == 1 then 0 else 2 + Used(y[2..], Zeros(0, y[1]))
    else 1 + Used(y[1..], Zeros(count, y[0]))
  }

  // ----- the laws

  /** Unpacking undoes packing, for every payload, and reads all of it. */
  lemma {:induction false} UnpackPacked(x: seq<Byte>, count: nat)
    requires count <= 2
    ensures Unpacked(Packed(x, count), count) == Some(x)
    ensures Used(Packed(x, count), count) == |Packed(x, count)|
    decreases |x|
  {
    var y := Packed(x, count);
    if x == [] {
    } else if count == 2 && x[0] <= 3 {
      UnpackPacked(x[1..], Zeros(0, x[0]));
      assert y[0] == 3 && y[1] == x[0] && y[2..] == Packed(x[1..], Zeros(0, x[0]));
      assert [x[0]] + x[1..] == x;
    } else {
      UnpackPacked(x[1..], Zeros(count, x[0]));
      assert y[0] == x[0] && y[1..] == Packed(x[1..], Zeros(count, x[0]));
      assert [x[0]] + x[1..] == x;
    }
  }

  /** A NAL unit ends in the bytes that stand for a zero word at the very end. */
  predicate EndsInZeroWord(y: seq<Byte>)
  {
    |y| >= 3 && y[|y| - 3] == 0 && y[|y| - 2] == 0 && y[|y| - 1] == 3
  }

  /** The bytes end, after count zeros, in a 3 that is preceded by two zeros. */
  predicate Dangling(y: seq<Byte>, count: nat)
    decreases |y|
  {
    if y == [] then false
    else if count == 2 && y[0] == 3 then |y| == 1 || Dangling(y[2..], Zeros(0, y[1]))
    else Dangling(y[1..], Zeros(count, y[0]))
  }

  /** Packing undoes unpacking, exactly if there is no dangling 3 at the end. */
  lemma {:induction false} PackUnpacked(y: seq<Byte>, count: nat)
    requires count <= 2 && Unpacked(y, count).Some?
    ensures Packed(Unpacked(y, count).value, count) == y <==> !Dangling(y, count)
    ensures Dangling(y, count) ==> y != [] && Packed(Unpacked(y, count).value, count) == y[..|y| - 1]
    decreases |y|
  {
    if y == [] {
    } else if count == 2 && y[0] == 3 {
      if |y| > 1 {
        var rest := y[2..];
        PackUnpacked(rest, Zeros(0, y[1]));
        var x := Unpacked(y, count).value;
        assert x[0] == y[1] && x[1..] == Unpacked(rest, Zeros(0, y[1])).value;
        assert y == [3, y[1]] + rest;
      }
    } else {
      var rest := y[1..];
      PackUnpacked(rest, Zeros(count, y[0]));
      var x := Unpacked(y, count).value;
      assert x[0] == y[0] && x[1..] == Unpacked(rest, Zeros(count, y[0])).value;
      assert y == [y[0]] + rest;
    }
  }

  /** Zeros in front, as many as counted. */
  function WithZeros(count: nat, y: seq<Byte>): seq<Byte>
    requires count <= 2
  {
    (if count == 0 then [] else if count == 1 then [0] else [0, 0]) + y
  }

  /** What happens at the end of a sequence does not depend on what lies before a byte other than zero. */
  lemma CutEnd(a: seq<Byte>, t: seq<Byte>)
    requires a != [] && a[|a| - 1] != 0 && t != []
    ensures EndsInZeroWord(a + t) <==> EndsInZeroWord(t)
  {
    var s := a + t;
    assert s[|a| - 1] != 0;
    assert forall i :: 0 <= i < |t| ==> s[|a| + i] == t[i];
  }

  lemma AcceptedRest(y: seq<Byte>, count: nat)
    requires count <= 2 && Unpacked(y, count).Some? && y != []
    ensures count == 2 ==> y[0] >= 3
    ensures count == 2 && y[0] == 3 && |y| > 1 ==> y[1] <= 3 && Unpacked(y[2..], Zeros(0, y[1])).Some?
    ensures !(count == 2 && y[0] == 3) ==> Unpacked(y[1..], Zeros(count, y[0])).Some?
  {
  }

  lemma DropEnd(y: seq<Byte>)
    requires |y| > 1 && y[0] == 3
    ensures EndsInZeroWord(WithZeros(2, y)) <==> EndsInZeroWord(WithZeros(Zeros(0, y[1]), y[2..]))
  {
    hide EndsInZeroWord;
    var rest := y[2..];
    if y[1] == 0 {
      assert WithZeros(2, y) == [0, 0, 3] + WithZeros(1, rest);
      CutEnd([0, 0, 3], WithZeros(1, rest));
    } else if rest != [] {
      assert WithZeros(0, rest) == rest;
      assert WithZeros(2, y) == [0, 0, 3, y[1]] + rest;
      CutEnd([0, 0, 3, y[1]], rest);
    } else {
      assert WithZeros(2, y) == [0, 0, 3, y[1]] && WithZeros(0, rest) == [];
      LastWord(0, 0, 3, y[1]);
    }
  }

  lemma LastWord(a: Byte, b: Byte, c: Byte, d: Byte)
    requires b != 0 || c != 0
    ensures !EndsInZeroWord([a, b, c, d]) && !EndsInZeroWord([])
  {
  }

  lemma KeepEnd(y: seq<Byte>, count: nat)
    requires y != [] && count <= 2 && !(count == 2 && y[0] <= 3)
    ensures EndsInZeroWord(WithZeros(count, y)) <==> EndsInZeroWord(WithZeros(Zeros(count, y[0]), y[1..]))
  {
    hide EndsInZeroWord;
    var rest := y[1..];
    if y[0] == 0 {
      assert WithZeros(count, y) == WithZeros(count + 1, rest);
    } else if rest != [] {
      assert WithZeros(0, rest) == rest;
      assert WithZeros(count, y) == WithZeros(count, [y[0]]) + rest;
      CutEnd(WithZeros(count, [y[0]]), rest);
    } else {
      assert y == [y[0]] && WithZeros(0, rest) == [];
      OneByte(count, y[0]);
    }
  }

  lemma OneByte(count: nat, x: Byte)
    requires count <= 2 && !(count == 2 && x == 3)
    ensures !EndsInZeroWord(WithZeros(count, [x])) && !EndsInZeroWord([])
  {
  }

  /** In an accepted unit the dangling 3 is just the final zero word. */
  lemma {:induction false} DanglingIs(y: seq<Byte>, count: nat)
    requires count <= 2 && Unpacked(y, count).Some?
    ensures Dangling(y, count) <==> EndsInZeroWord(WithZeros(count, y))
    decreases |y|
  {
    hide Unpacked, EndsInZeroWord, WithZeros;
    if y == [] {
      ZerosOnly(count);
    } else {
      AcceptedRest(y, count);
      if count == 2 && y[0] == 3 {
        if |y| == 1 {
          assert y == [3];
          ZeroWord();
        } else {
          DanglingIs(y[2..], Zeros(0, y[1]));
          DropEnd(y);
        }
      } else {
        DanglingIs(y[1..], Zeros(count, y[0]));
        KeepEnd(y, count);
      }
    }
  }

  lemma ZerosOnly(count: nat)
    requires count <= 2
    ensures !EndsInZeroWord(WithZeros(count, []))
  {
  }

  lemma ZeroWord()
    ensures EndsInZeroWord(WithZeros(2, [3]))
  {
    assert WithZeros(2, [3]) == [0, 0, 3];
  }

  /** Packing an unpacked NAL unit gives it back, exactly if it does not end in the bytes 0, 0, 3. */
  lemma Reencode(y: seq<Byte>)
    requires Unpacked(y, 0).Some?
    ensures Packed(Unpacked(y, 0).value, 0) == y <==> !EndsInZeroWord(y)
  {
    PackUnpacked(y, 0);
    DanglingIs(y, 0);
    assert WithZeros(0, y) == y;
  }

  /** Such a unit: 0, 0, 3 is unpacked to two zeros, and these are packed without the 3. */
  lemma ZeroWordLost()
    ensures Unpacked([0, 0, 3], 0) == Some([0, 0]) && Packed([0, 0], 0) == [0, 0]
  {
    var y: seq<Byte> := [0, 0, 3];
    var x: seq<Byte> := [0, 0];
    var none: seq<Byte> := [];
    assert y[1..] == [0, 3] && y[1..][1..] == [3];
    assert Unpacked([3], 2) == Some(none);
    assert Unpacked(y[1..], 1) == Prepended(0, Unpacked(y[1..][1..], 2));
    assert [0] + none == [0] && [0] + [0] == x;
    assert Unpacked(y, 0) == Prepended(0, Unpacked(y[1..], 1));
    assert x[1..] == [0] && x[1..][1..] == none;
    assert Packed(none, 2) == none;
    assert Packed(x[1..], 1) == [0];
  }

  /** No start code, and no other forbidden sequence, lies at any position. */
  predicate Clean(s: seq<Byte>)
  {
    forall i :: 0 <= i < |s| - 2 ==> !(s[i] == 0 && s[i + 1] == 0 && s[i + 2] < 3)
  }

  lemma CleanJoin(a: seq<Byte>, t: seq<Byte>)
    requires a != [] && a[|a| - 1] != 0 && Clean(a) && Clean(t)
    ensures Clean(a + t)
  {
    var s := a + t;
    forall i | 0 <= i < |s| - 2 ensures !(s[i] == 0 && s[i + 1] == 0 && s[i + 2] < 3) {
      if i >= |a| {
        assert s[i] == t[i - |a|] && s[i + 1] == t[i + 1 - |a|] && s[i + 2] == t[i + 2 - |a|];
      } else if i + 2 < |a| {
        assert s[i] == a[i] && s[i + 1] == a[i + 1] && s[i + 2] == a[i + 2];
      } else {
        assert s[|a| - 1] != 0;
      }
    }
  }

  /** A packed payload contains no forbidden sequence. */
  lemma {:induction false} PackedClean(x: seq<Byte>, count: nat)
    requires count <= 2
    ensures Clean(WithZeros(count, Packed(x, count)))
    decreases |x|
  {
    if x != [] {
      var rest := x[1..];
      if count == 2 && x[0] <= 3 {
        var c := Zeros(0, x[0]);
        PackedClean(rest, c);
        if x[0] == 0 {
          assert WithZeros(2, Packed(x, 2)) == [0, 0, 3] + WithZeros(c, Packed(rest, c));
          CleanJoin([0, 0, 3], WithZeros(c, Packed(rest, c)));
        } else {
          assert WithZeros(2, Packed(x, 2)) == [0, 0, 3, x[0]] + WithZeros(c, Packed(rest, c));
          CleanJoin([0, 0, 3, x[0]], WithZeros(c, Packed(rest, c)));
        }
      } else {
        var c := Zeros(count, x[0]);
        PackedClean(rest, c);
        if x[0] == 0 {
          assert WithZeros(count, Packed(x, count)) == WithZeros(c, Packed(rest, c));
        } else {
          assert WithZeros(count, Packed(x, count)) == WithZeros(count, [x[0]]) + WithZeros(c, Packed(rest, c));
          CleanJoin(WithZeros(count, [x[0]]), WithZeros(c, Packed(rest, c)));
        }
      }
    }
  }

  /** A payload in which no zero byte follows another is packed as it is. */
  lemma {:induction false} PackedApart(x: seq<Byte>, count: nat)
    requires count <= 1 && (count == 1 && x != [] ==> x[0] != 0)
    requires forall i :: 0 <= i < |x| - 1 && x[i] == 0 ==> x[i + 1] != 0
    ensures Packed(x, count) == x
    decreases |x|
  {
    if x != [] {
      PackedApart(x[1..], Zeros(count, x[0]));
      assert [x[0]] + x[1..] == x;
    }
  }

  /** The most that packing can add: one byte for every two, not counting the first. */
  lemma {:induction false} PackedLength(x: seq<Byte>, count: nat)
    requires count <= 2
    ensures |x| <= |Packed(x, count)|
    ensures x != [] ==> |Packed(x, count)| <= |x| + (|x| + count - 1) / 2
    decreases |x|
  {
    if x != [] {
      PackedLength(x[1..], if count == 2 && x[0] <= 3 then Zeros(0, x[0]) else Zeros(count, x[0]));
    }
  }

  function ZeroBytes(n: nat): seq<Byte>
  {
    if n == 0 then [] else [0] + ZeroBytes(n - 1)
  }

  /** Zero bytes reach the bound. */
  lemma {:induction false} PackedZeros(n: nat, count: nat)
    requires count <= 2 && n > 0
    ensures |ZeroBytes(n)| == n && |Packed(ZeroBytes(n), count)| == n + (n + count - 1) / 2
    decreases n
  {
    assert ZeroBytes(n)[1..] == ZeroBytes(n - 1);
    if n == 1 {
      assert Packed([], 1) == [] && Packed([], count + 1) == [];
    } else {
      PackedZeros(n - 1, if count == 2 then 1 else count + 1);
    }
  }

  /**
   Four thirds of the payload, rounded up, are enough for every payload of the length, except for 9 bytes and for 11
   or more.
   */
  lemma FourThirdsTooSmall(n: nat)
    ensures (forall x: seq<Byte> :: |x| == n ==> |Packed(x, 0)| <= (4 * n + 2) / 3) <==> !(n == 9 || n >= 11)
  {
    hide Packed, ZeroBytes;
    if n == 9 || n >= 11 {
      PackedZeros(n, 0);
    } else {
      forall x: seq<Byte> | |x| == n ensures |Packed(x, 0)| <= (4 * n + 2) / 3 {
        PackedLength(x, 0);
        if n == 0 {
          NothingPacked();
        }
      }
    }
  }

  // ----- the loops

  /** How many zero bytes in a row have been read, counted as packing counts them. */
  function ZerosAfter(x: seq<Byte>, count: nat): nat
    decreases |x|
  {
    if x == [] then count
    else ZerosAfter(x[1..], Zeros(if count == 2 && x[0] <= 3 then 0 else count, x[0]))
  }

  lemma {:induction false} ZerosSmall(x: seq<Byte>, count: nat)
    requires count <= 2
    ensures ZerosAfter(x, count) <= 2
    decreases |x|
  {
    if x != [] {
      ZerosSmall(x[1..], Zeros(if count == 2 && x[0] <= 3 then 0 else count, x[0]));
    }
  }

  lemma {:induction false} PackedSnoc(x: seq<Byte>, b: Byte, count: nat)
    requires count <= 2
    ensures ZerosAfter(x + [b], count) ==
      Zeros(if ZerosAfter(x, count) == 2 && b <= 3 then 0 else ZerosAfter(x, count), b)
    ensures Packed(x + [b], count) == Packed(x, count) + if ZerosAfter(x, count) == 2 && b <= 3 then [3, b] else [b]
    decreases |x|
  {
    if x == [] {
      assert x + [b] == [b] && [b][1..] == [];
      assert Packed([], Zeros(0, b)) == [] && Packed([], Zeros(count, b)) == [];
    } else {
      assert (x + [b])[0] == x[0] && (x + [b])[1..] == x[1..] + [b];
      PackedSnoc(x[1..], b, Zeros(if count == 2 && x[0] <= 3 then 0 else count, x[0]));
    }
  }

  /** The bytes are packed within the size, up to a last pair of bytes that may take one more. */
  predicate PacksWithin(rbsp: seq<Byte>, nal_size: nat)
  {
    rbsp == [] || |Packed(rbsp[..|rbsp| - 1], 0)| < nal_size
  }

  lemma {:induction false} PackedGrows(x: seq<Byte>, n: nat)
    requires n <= |x|
    ensures |Packed(x[..n], 0)| <= |Packed(x, 0)|
    decreases |x| - n
  {
    if n < |x| {
      assert x[..n + 1] == x[..n] + [x[n]];
      PackedSnoc(x[..n], x[n], 0);
      PackedGrows(x, n + 1);
    } else {
      assert x[..n] == x;
    }
  }

  /** Exactly one place is left, and after two zeros comes a byte up to 3, for which the loop needs two. */
  predicate PairAtEnd(rbsp: seq<Byte>, i: nat, nal_size: nat)
    requires i < |rbsp|
  {
    |Packed(rbsp[..i], 0)| + 1 == nal_size && ZerosAfter(rbsp[..i], 0) == 2 && rbsp[i] <= 3
  }

  /** The loop, which only tests for one free place, writes the byte just behind the size. */
  predicate Overruns(rbsp: seq<Byte>, nal_size: nat)
  {
    exists i :: 0 <= i < |rbsp| && PairAtEnd(rbsp, i, nal_size)
  }

  lemma PackedNext(rbsp: seq<Byte>, i: nat)
    requires i < |rbsp|
    ensures var pair := ZerosAfter(rbsp[..i], 0) == 2 && rbsp[i] <= 3;
      && Packed(rbsp[..i + 1], 0) == Packed(rbsp[..i], 0) + (if pair then [3, rbsp[i]] else [rbsp[i]])
      && ZerosAfter(rbsp[..i + 1], 0) == Zeros(if pair then 0 else ZerosAfter(rbsp[..i], 0), rbsp[i]) <= 2
  {
    assert rbsp[..i + 1] == rbsp[..i] + [rbsp[i]];
    assert rbsp[..i + 1][..i] == rbsp[..i];
    PackedSnoc(rbsp[..i], rbsp[i], 0);
    ZerosSmall(rbsp[..i + 1], 0);
  }

  /** The packed beginnings of the payload step over the size: one is a byte longer, and none just as long. */
  lemma OverrunIs(rbsp: seq<Byte>, nal_size: nat)
    ensures Overruns(rbsp, nal_size) <==>
      && (exists i :: 0 <= i <= |rbsp| && |Packed(rbsp[..i], 0)| == nal_size + 1)
      && !(exists i :: 0 <= i <= |rbsp| && |Packed(rbsp[..i], 0)| == nal_size)
  {
    hide Packed, ZerosAfter;
    NothingPacked();
    assert rbsp[..0] == [];
    if i :| 0 <= i < |rbsp| && PairAtEnd(rbsp, i, nal_size) {
      PackedNext(rbsp, i);
      forall k | 0 <= k <= |rbsp| ensures |Packed(rbsp[..k], 0)| != nal_size {
        if k <= i {
          assert rbsp[..i][..k] == rbsp[..k];
          PackedGrows(rbsp[..i], k);
        } else {
          assert rbsp[..k][..i + 1] == rbsp[..i + 1];
          PackedGrows(rbsp[..k], i + 1);
        }
      }
      assert |Packed(rbsp[..i + 1], 0)| == nal_size + 1;
    }
    if i :| 0 <= i <= |rbsp| && |Packed(rbsp[..i], 0)| == nal_size + 1 {
      PackedNext(rbsp, i - 1);
      assert |Packed(rbsp[..i - 1], 0)| != nal_size ==> PairAtEnd(rbsp, i - 1, nal_size);
    }
  }

  /** If the loop succeeds, the result is longer than the size exactly if it has been overrun. */
  lemma OverrunResult(rbsp: seq<Byte>, nal_size: nat)
    requires PacksWithin(rbsp, nal_size)
    ensures |Packed(rbsp, 0)| <= nal_size + 1
    ensures |Packed(rbsp, 0)| == nal_size + 1 <==> Overruns(rbsp, nal_size)
  {
    hide Packed, ZerosAfter;
    NothingPacked();
    var n := |rbsp|;
    if n > 0 {
      PackedNext(rbsp, n - 1);
      assert rbsp[..n] == rbsp;
      if |Packed(rbsp, 0)| == nal_size + 1 {
        assert PairAtEnd(rbsp, n - 1, nal_size);
      }
      if i :| 0 <= i < n && PairAtEnd(rbsp, i, nal_size) {
        PackedNext(rbsp, i);
        PackedGrows(rbsp, i + 1);
      }
    }
  }

  /** Nine zero bytes and the size the documentation asks for, 12: accepted, with a result of 13 bytes. */
  lemma NineZeros()
    ensures |ZeroBytes(9)| == 9 && PacksWithin(ZeroBytes(9), 12) && Overruns(ZeroBytes(9), 12)
    ensures |Packed(ZeroBytes(9), 0)| == 13
  {
    hide Packed, ZerosAfter, ZeroBytes;
    PackedZeros(9, 0);
    PackedZeros(8, 0);
    ZerosPrefix(9, 8);
    OverrunResult(ZeroBytes(9), 12);
  }

  /** Ten zero bytes and the same size: refused, but only after the overrun. */
  lemma TenZeros()
    ensures |ZeroBytes(10)| == 10 && !PacksWithin(ZeroBytes(10), 12) && Overruns(ZeroBytes(10), 12)
  {
    hide Packed, ZerosAfter, ZeroBytes;
    PackedZeros(10, 0);
    PackedZeros(9, 0);
    ZerosPrefix(10, 9);
    NineZeros();
    var i :| 0 <= i < 9 && PairAtEnd(ZeroBytes(9), i, 12);
    assert ZeroBytes(9)[..i] == ZeroBytes(10)[..i];
    assert PairAtEnd(ZeroBytes(10), i, 12);
  }

  lemma {:induction false} ZerosPrefix(n: nat, m: nat)
    requires m <= n
    ensures |ZeroBytes(n)| == n && ZeroBytes(n)[..m] == ZeroBytes(m)
    decreases n
  {
    if m > 0 {
      ZerosPrefix(n - 1, m - 1);
      assert ZeroBytes(n)[..m] == [0] + ZeroBytes(n - 1)[..m - 1];
    } else if n > 0 {
      ZerosPrefix(n - 1, 0);
    }
  }

  /**
   A payload of at most three quarters of the size, the cap that the writer of units applies, cannot overrun: true of
   the payloads of a given length exactly if that is not 9, nor 11 or more.
   */
  lemma CapPreventsOverrun(n: nat)
    ensures (forall x: seq<Byte>, size: nat :: |x| == n && n <= size * 3 / 4 ==> !Overruns(x, size)) <==>
      !(n == 9 || n >= 11)
  {
    hide Packed, ZerosAfter, ZeroBytes, OnesAndZeros;
    if n == 9 || n >= 11 {
      var size := (4 * n + 2) / 3;
      MostlyZeros(n, size);
      var x := OnesAndZeros(size % 3, n - size % 3);
      assert |x| == n && n <= size * 3 / 4 && Overruns(x, size);
    } else {
      forall x: seq<Byte>, size: nat | |x| == n && n <= size * 3 / 4 ensures !Overruns(x, size) {
        if i :| 0 <= i < |x| && PairAtEnd(x, i, size) {
          PackedNext(x, i);
          PackedLength(x[..i + 1], 0);
        }
      }
    }
  }

  /** Up to two bytes of ones, and zeros: a payload that overruns. */
  function OnesAndZeros(t: nat, n: nat): seq<Byte>
  {
    if t == 0 then ZeroBytes(n) else [255] + OnesAndZeros(t - 1, n)
  }

  lemma {:induction false} OnesFirst(t: nat, n: nat, m: nat)
    requires m <= n
    ensures |OnesAndZeros(t, n)| == t + n && OnesAndZeros(t, n)[..t + m] == OnesAndZeros(t, m)
    ensures |Packed(OnesAndZeros(t, m), 0)| == t + |Packed(ZeroBytes(m), 0)|
    ensures ZerosAfter(OnesAndZeros(t, m), 0) == ZerosAfter(ZeroBytes(m), 0)
    ensures forall i :: t <= i < t + n ==> OnesAndZeros(t, n)[i] == 0
    decreases t
  {
    ZerosPrefix(n, m);
    ZeroByteIs(n);
    if t > 0 {
      OnesFirst(t - 1, n, m);
      var x := OnesAndZeros(t, m);
      assert x[1..] == OnesAndZeros(t - 1, m);
      assert OnesAndZeros(t, n)[..t + m] == [255] + OnesAndZeros(t - 1, n)[..t - 1 + m];
    }
  }

  lemma {:induction false} ZeroByteIs(n: nat)
    ensures |ZeroBytes(n)| == n && forall i :: 0 <= i < n ==> ZeroBytes(n)[i] == 0
    decreases n
  {
    if n > 0 {
      ZeroByteIs(n - 1);
    }
  }

  lemma {:induction false} ZerosInRow(m: nat)
    ensures ZerosAfter(ZeroBytes(m), 2) == if m % 2 == 0 then 2 else 1
    ensures m > 0 ==> ZerosAfter(ZeroBytes(m), 1) == if m % 2 == 0 then 1 else 2
    ensures m > 1 ==> ZerosAfter(ZeroBytes(m), 0) == if m % 2 == 0 then 2 else 1
    decreases m
  {
    if m > 0 {
      assert ZeroBytes(m)[1..] == ZeroBytes(m - 1);
      ZerosInRow(m - 1);
    }
  }

  lemma MostlyZeros(n: nat, size: nat)
    requires n == 9 || n >= 11
    requires size == (4 * n + 2) / 3
    ensures size % 3 <= n && |OnesAndZeros(size % 3, n - size % 3)| == n
    ensures n <= size * 3 / 4 && Overruns(OnesAndZeros(size % 3, n - size % 3), size)
  {
    hide Packed, ZerosAfter, ZeroBytes, OnesAndZeros;
    var t, q := size % 3, size / 3;
    assert 2 * q < n - t;
    var x, i := OnesAndZeros(t, n - t), t + 2 * q;
    OnesFirst(t, n - t, 2 * q);
    PackedZeros(2 * q, 0);
    ZerosInRow(2 * q);
    assert PairAtEnd(x, i, size);
  }

  /**
   Packs a payload into the first bytes of nal_buf.  Fails if the bytes do not fit into nal_size, up to a last pair of
   bytes.  Only what the size allows is written, and one byte more exactly if the size is overrun.
   */
  method RbspToNal(rbsp: seq<Byte>, nal_buf: array<Byte>, nal_size: nat) returns (ok: bool, size: nat)
    requires nal_size <= nal_buf.Length && (nal_size == nal_buf.Length ==> !Overruns(rbsp, nal_size))
    modifies nal_buf
    ensures ok <==> PacksWithin(rbsp, nal_size)
    ensures ok ==> size <= nal_buf.Length && nal_buf[..size] == Packed(rbsp, 0)
    ensures forall k :: nal_size <= k < nal_buf.Length && !(k == nal_size && Overruns(rbsp, nal_size)) ==>
      nal_buf[k] == old(nal_buf[k])
  {
    hide Packed, ZerosAfter, Overruns;
    var j, count := 0, 0;
    assert rbsp[..0] == [];
    NothingPacked();
    for i := 0 to |rbsp|
      invariant j <= nal_size + 1 && j <= nal_buf.Length && nal_buf[..j] == Packed(rbsp[..i], 0)
      invariant j > nal_size ==> Overruns(rbsp, nal_size)
      invariant count == ZerosAfter(rbsp[..i], 0) <= 2
      invariant i > 0 ==> PacksWithin(rbsp[..i], nal_size)
      invariant forall k :: nal_size <= k < nal_buf.Length && !(k == nal_size && Overruns(rbsp, nal_size)) ==>
        nal_buf[k] == old(nal_buf[k])
    {
      assert rbsp[..i + 1][..i] == rbsp[..i];
      if j >= nal_size {
        TooLong(rbsp, i, nal_size);
        return false, 0;
      }
      PackedNext(rbsp, i);
      PairOverruns(rbsp, i, nal_size);
      ghost var done := nal_buf[..j];
      if count == 2 && rbsp[i] <= 3 {
        nal_buf[j] := 3;
        j := j + 1;
        count := 0;
      }
      nal_buf[j] := rbsp[i];
      if rbsp[i] == 0 {
        count := count + 1;
      } else {
        count := 0;
      }
      j := j + 1;
      assert nal_buf[..j] == done + nal_buf[|done|..j];
    }
    assert rbsp[..|rbsp|] == rbsp;
    ok, size := true, j;
  }

  lemma PairOverruns(rbsp: seq<Byte>, i: nat, nal_size: nat)
    requires i < |rbsp|
    ensures PairAtEnd(rbsp, i, nal_size) ==> Overruns(rbsp, nal_size)
  {
    hide Packed, ZerosAfter;
  }

  lemma NothingPacked()
    ensures Packed([], 0) == [] && ZerosAfter([], 0) == 0
  {
  }

  lemma TooLong(rbsp: seq<Byte>, i: nat, nal_size: nat)
    requires i < |rbsp| && |Packed(rbsp[..i], 0)| >= nal_size
    ensures !PacksWithin(rbsp, nal_size)
  {
    hide Packed;
    var short := rbsp[..|rbsp| - 1];
    assert short[..i] == rbsp[..i];
    PackedGrows(short, i);
  }

  /** Unpacks a NAL unit into rbsp_buf; used is the number of bytes read. */
  method NalToRbsp(nal: seq<Byte>, rbsp_buf: array<Byte>, rbsp_size: nat) returns (ok: bool, size: nat, used: nat)
    requires rbsp_size <= rbsp_buf.Length
    modifies rbsp_buf
    ensures ok <==> Unpacked(nal, 0).Some? && |Unpacked(nal, 0).value| <= rbsp_size
    ensures ok ==> size <= rbsp_buf.Length && rbsp_buf[..size] == Unpacked(nal, 0).value && used == Used(nal, 0)
  {
    hide Unpacked, Used;
    var i, j, count := 0, 0, 0;
    assert nal[0..] == nal;
    while i < |nal|
      invariant i <= |nal| && j <= rbsp_size && count <= 2
      invariant Rest(nal, rbsp_buf[..j], i, count)
      decreases |nal| - i
    {
      UnpackStep(nal, i, count);
      if count == 2 && nal[i] < 3 {
        return false, 0, 0;
      }
      ghost var i0, count0 := i, count;
      if count == 2 && nal[i] == 3 {
        if i < |nal| - 1 && nal[i + 1] > 3 {
          return false, 0, 0;
        }
        if i == |nal| - 1 {
          break;
        }
        i := i + 1;
        count := 0;
      }
      if j >= rbsp_size {
        RestTooLong(nal, rbsp_buf[..j], i0, count0, i, count);
        return false, 0, 0;
      }
      ghost var done := rbsp_buf[..j];
      rbsp_buf[j] := nal[i];
      if nal[i] == 0 {
        count := count + 1;
      } else {
        count := 0;
      }
      j := j + 1;
      assert rbsp_buf[..j] == done + [nal[i]];
      RestNext(nal, done, i0, count0, i, count);
      i := i + 1;
    }
    RestEnd(nal, rbsp_buf[..j], i, count);
    ok, size, used := true, j, i;
  }

  /** What has been unpacked so far, and what the bytes from i on still give. */
  ghost predicate Rest(nal: seq<Byte>, done: seq<Byte>, i: nat, count: nat)
  {
    && i <= |nal|
    && (Unpacked(nal, 0).Some? <==> Unpacked(nal[i..], count).Some?)
    && (Unpacked(nal, 0).Some? ==> Unpacked(nal, 0).value == done + Unpacked(nal[i..], count).value)
    && Used(nal, 0) == i + Used(nal[i..], count)
  }

  lemma UnpackStep(nal: seq<Byte>, i: nat, count: nat)
    requires i < |nal|
    ensures count == 2 && nal[i] < 3 ==> Unpacked(nal[i..], count).None?
    ensures count == 2 && nal[i] == 3 && i + 1 < |nal| && nal[i + 1] > 3 ==> Unpacked(nal[i..], count).None?
  {
  }

  lemma RestNext(nal: seq<Byte>, done: seq<Byte>, i0: nat, count0: nat, i: nat, count: nat)
    requires Rest(nal, done, i0, count0) && i0 <= i < |nal|
    requires if count0 == 2 && nal[i0] == 3 then i == i0 + 1 && nal[i] <= 3 && count == Zeros(0, nal[i])
             else i == i0 && !(count0 == 2 && nal[i] < 3) && count == Zeros(count0, nal[i])
    ensures Rest(nal, done + [nal[i]], i + 1, count)
  {
    var y := nal[i0..];
    if count0 == 2 && nal[i0] == 3 {
      assert y[1] == nal[i] && y[2..] == nal[i + 1..];
    } else {
      assert y[1..] == nal[i + 1..];
    }
    if Unpacked(nal, 0).Some? {
      var t := Unpacked(nal[i + 1..], count).value;
      assert done + ([nal[i]] + t) == done + [nal[i]] + t;
    }
  }

  lemma RestTooLong(nal: seq<Byte>, done: seq<Byte>, i0: nat, count0: nat, i: nat, count: nat)
    requires Rest(nal, done, i0, count0) && i0 <= i < |nal|
    requires if count0 == 2 && nal[i0] == 3 then i == i0 + 1 && nal[i] <= 3 else i == i0 && !(count0 == 2 && nal[i] < 3)
    ensures Unpacked(nal, 0).Some? ==> |Unpacked(nal, 0).value| > |done|
  {
    hide Unpacked, Used, Rest;
    RestNext(nal, done, i0, count0, i, if count0 == 2 && nal[i0] == 3 then Zeros(0, nal[i]) else Zeros(count0, nal[i]));
    RestValue(nal, done + [nal[i]], i + 1, if count0 == 2 &&
      nal[i0] == 3 then Zeros(0, nal[i]) else Zeros(count0, nal[i]));
  }

  lemma RestValue(nal: seq<Byte>, done: seq<Byte>, i: nat, count: nat)
    requires Rest(nal, done, i, count)
    ensures Unpacked(nal, 0).Some? ==> |Unpacked(nal, 0).value| >= |done|
  {
  }

  lemma RestEnd(nal: seq<Byte>, done: seq<Byte>, i: nat, count: nat)
    requires Rest(nal, done, i, count)
    requires i == |nal| || (i + 1 == |nal| && count == 2 && nal[i] == 3)
    ensures Unpacked(nal, 0) == Some(done) && Used(nal, 0) == i
  {
    if i == |nal| {
      assert nal[i..] == [];
    }
    assert done + [] == done;
  }
}
