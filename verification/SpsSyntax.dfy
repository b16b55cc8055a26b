/** A sequence parameter set as a list of syntax elements, and reading and writing one element of a list. */
module SpsSyntax {
  import opened BitXor
  import opened NalBytes
  import opened BitCodes
  import opened BitStream

  datatype Element = U(n: nat, u: nat) | Ue(ue: nat) | Se(se: int)

  /** The value can be written with its code. */
  predicate Fits(e: Element)
  {
    match e
    case U(n, u) => u < Two(n)
    case Ue(ue) => ue <= UE_MAX
    case Se(se) => SeNumber(se) <= UE_MAX
  }

  predicate AllFit(els: seq<Element>)
  {
    forall i :: 0 <= i < |els| ==> Fits(els[i])
  }

  function Code(e: Element): seq<bool>
  {
    match e
    case U(n, u) => Binary(n, u)
    case Ue(ue) => if ue <= UE_MAX then UeCode(ue) else []
    case Se(se) => if SeNumber(se) <= UE_MAX then UeCode(SeNumber(se)) else []
  }

  function Codes(els: seq<Element>): seq<bool>
    decreases |els|
  {
    if els == [] then [] else Code(els[0]) + Codes(els[1..])
  }

  lemma {:induction false} CodesAppend(a: seq<Element>, b: seq<Element>)
    ensures Codes(a + b) == Codes(a) + Codes(b)
    decreases |a|
  {
    hide Code;
    if a == [] {
      assert a + b == b;
    } else {
      assert (a + b)[0] == a[0] && (a + b)[1..] == a[1..] + b;
      CodesAppend(a[1..], b);
    }
  }

  lemma CodesOne(e: Element)
    ensures Codes([e]) == Code(e)
  {
    hide Code;
    assert [e][1..] == [];
    assert Codes([]) == [];
  }

  // ----- writing

  /** The elements have been written from position start on, as far as there was room. */
  ghost predicate Put(now: seq<bool>, was: seq<bool>, start: nat, pos: nat, els: seq<Element>)
  {
    pos == start + |Codes(els)| && Wrote(now, was, start, Codes(els))
  }

  lemma PutMore(next: seq<bool>, now: seq<bool>, was: seq<bool>, start: nat, pos: nat, els: seq<Element>, e: Element)
    requires Put(now, was, start, pos, els) && Wrote(next, now, pos, Code(e))
    ensures Put(next, was, start, pos + |Code(e)|, els + [e])
  {
    hide Code, Codes, Wrote;
    CodesAppend(els, [e]);
    CodesOne(e);
    WroteMore(next, now, was, start, Codes(els), Code(e));
  }

  method PutU1(b: Bs, v: nat, ghost was: seq<bool>, ghost start: nat, ghost els: seq<Element>)
    requires b.Valid() && Put(b.Stream(), was, start, b.Pos(), els)
    modifies b, b.buf
    ensures b.Valid() && Put(b.Stream(), was, start, b.Pos(), els + [U(1, v)])
  {
    hide Wrote, Put, Bits;
    ghost var now, pos := b.Stream(), b.Pos();
    b.WriteU1(v);
    OneBit(v);
    PutMore(b.Stream(), now, was, start, pos, els, U(1, v));
  }

  lemma OneBit(v: nat)
    ensures Code(U(1, v)) == [v % 2 == 1]
  {
    assert Binary(1, v) == Binary(0, v / 2) + [v % 2 == 1];
  }

  method PutU(b: Bs, n: nat, v: nat, ghost was: seq<bool>, ghost start: nat, ghost els: seq<Element>)
    requires b.Valid() && Put(b.Stream(), was, start, b.Pos(), els)
    modifies b, b.buf
    ensures b.Valid() && Put(b.Stream(), was, start, b.Pos(), els + [U(n, v)]) && b.Pos() == old(b.Pos()) + n
  {
    hide Wrote, Put, Bits;
    ghost var now, pos := b.Stream(), b.Pos();
    b.WriteU(n, v);
    PutMore(b.Stream(), now, was, start, pos, els, U(n, v));
  }

  method PutU8(b: Bs, v: nat, ghost was: seq<bool>, ghost start: nat, ghost els: seq<Element>)
    requires b.Valid() && Put(b.Stream(), was, start, b.Pos(), els)
    modifies b, b.buf
    ensures b.Valid() && Put(b.Stream(), was, start, b.Pos(), els + [U(8, v)])
  {
    hide Wrote, Put, Bits;
    ghost var now, pos := b.Stream(), b.Pos();
    b.WriteU8(v);
    PutMore(b.Stream(), now, was, start, pos, els, U(8, v));
  }

  method PutUe(b: Bs, v: nat, ghost was: seq<bool>, ghost start: nat, ghost els: seq<Element>)
    requires b.Valid() && Put(b.Stream(), was, start, b.Pos(), els) && v <= UE_MAX
    modifies b, b.buf
    ensures b.Valid() && Put(b.Stream(), was, start, b.Pos(), els + [Ue(v)])
  {
    hide Wrote, Put, Bits, UeCode;
    ghost var now, pos := b.Stream(), b.Pos();
    b.WriteUe(v);
    PutMore(b.Stream(), now, was, start, pos, els, Ue(v));
  }

  method PutSe(b: Bs, v: int, ghost was: seq<bool>, ghost start: nat, ghost els: seq<Element>)
    requires b.Valid() && Put(b.Stream(), was, start, b.Pos(), els) && SeNumber(v) <= UE_MAX
    modifies b, b.buf
    ensures b.Valid() && Put(b.Stream(), was, start, b.Pos(), els + [Se(v)])
  {
    hide Wrote, Put, Bits, UeCode;
    ghost var now, pos := b.Stream(), b.Pos();
    b.WriteSe(v);
    PutMore(b.Stream(), now, was, start, pos, els, Se(v));
  }

  // ----- reading

  /** The elements from number i on come next. */
  ghost predicate Coming(bits: seq<bool>, pos: nat, els: seq<Element>, i: nat)
  {
    i <= |els| && AllFit(els) && Has(bits, pos, Codes(els[i..]))
  }

  lemma ComingNext(bits: seq<bool>, pos: nat, els: seq<Element>, i: nat)
    requires Coming(bits, pos, els, i) && i < |els|
    ensures Fits(els[i]) && Has(bits, pos, Code(els[i])) && Coming(bits, pos + |Code(els[i])|, els, i + 1)
  {
    hide Code, Has;
    assert els[i..][0] == els[i] && els[i..][1..] == els[i + 1..];
    HasPart(bits, pos, Code(els[i]), Codes(els[i + 1..]));
  }

  /** After the first list, the second. */
  lemma ComingRest(bits: seq<bool>, pos: nat, a: seq<Element>, b: seq<Element>)
    requires Coming(bits, pos, a + b, |a|)
    ensures Coming(bits, pos, b, 0)
  {
    hide Codes, Has;
    assert (a + b)[|a|..] == b && b[0..] == b;
    assert forall i :: 0 <= i < |b| ==> b[i] == (a + b)[|a| + i];
  }

  method GetU1(b: Bs, ghost els: seq<Element>, ghost i: nat) returns (r: nat)
    requires b.Valid()
    modifies b
    ensures b.Valid() && b.Stream() == old(b.Stream())
    ensures Coming(b.Stream(), old(b.Pos()), els, i) && i < |els| && els[i].U? && els[i].n == 1 ==>
      r == els[i].u && Coming(b.Stream(), b.Pos(), els, i + 1)
  {
    hide Coming, Has, Bits, Number, Two, Binary, Codes;
    ghost var bits, pos := b.Stream(), b.Pos();
    r := b.ReadU1();
    if Coming(bits, pos, els, i) && i < |els| && els[i].U? && els[i].n == 1 {
      ComingNext(bits, pos, els, i);
      UValue(bits, pos, 1, els[i].u);
      OneTaken(bits, pos);
    }
  }

  lemma UValue(bits: seq<bool>, pos: nat, n: nat, u: nat)
    requires Has(bits, pos, Binary(n, u)) && u < Two(n)
    ensures Number(Taken(bits, pos, n)) == u
  {
    hide Number, Two, Binary, Has;
    HasTaken(bits, pos, Binary(n, u));
    NumberBinary(n, u);
  }

  lemma OneTaken(bits: seq<bool>, pos: nat)
    ensures Number(Taken(bits, pos, 1)) == Digit(At(bits, pos))
  {
    assert Taken(bits, pos, 1) == [At(bits, pos)];
    NumberNext([], At(bits, pos));
    assert [] + [At(bits, pos)] == [At(bits, pos)];
    NoNumber();
  }

  method GetU(b: Bs, n: nat, ghost els: seq<Element>, ghost i: nat) returns (r: nat)
    requires b.Valid()
    modifies b
    ensures b.Valid() && b.Stream() == old(b.Stream())
    ensures Coming(b.Stream(), old(b.Pos()), els, i) && i < |els| && els[i].U? && els[i].n == n ==>
      r == els[i].u && Coming(b.Stream(), b.Pos(), els, i + 1)
  {
    hide Coming, Has, Bits, Number, Two, Binary, Codes, Taken;
    ghost var bits, pos := b.Stream(), b.Pos();
    r := b.ReadU(n);
    if Coming(bits, pos, els, i) && i < |els| && els[i].U? && els[i].n == n {
      ComingNext(bits, pos, els, i);
      UValue(bits, pos, n, els[i].u);
    }
  }

  method GetU8(b: Bs, ghost els: seq<Element>, ghost i: nat) returns (r: nat)
    requires b.Valid()
    modifies b
    ensures b.Valid() && b.Stream() == old(b.Stream())
    ensures Coming(b.Stream(), old(b.Pos()), els, i) && i < |els| && els[i].U? && els[i].n == 8 ==>
      r == els[i].u && Coming(b.Stream(), b.Pos(), els, i + 1)
  {
    hide Coming, Has, Bits, Number, Two, Binary, Codes, Taken;
    ghost var bits, pos := b.Stream(), b.Pos();
    r := b.ReadU8();
    if Coming(bits, pos, els, i) && i < |els| && els[i].U? && els[i].n == 8 {
      ComingNext(bits, pos, els, i);
      UValue(bits, pos, 8, els[i].u);
    }
  }

  method GetUe(b: Bs, ghost els: seq<Element>, ghost i: nat) returns (r: nat)
    requires b.Valid()
    modifies b
    ensures b.Valid() && b.Stream() == old(b.Stream())
    ensures Coming(b.Stream(), old(b.Pos()), els, i) && i < |els| && els[i].Ue? ==>
      r == els[i].ue && Coming(b.Stream(), b.Pos(), els, i + 1)
  {
    hide Coming, Has, Bits, Codes, UeCode;
    ghost var bits, pos := b.Stream(), b.Pos();
    ghost var v: nat := 0;
    if Coming(bits, pos, els, i) && i < |els| && els[i].Ue? {
      ComingNext(bits, pos, els, i);
      v := els[i].ue;
    }
    r := b.ReadUe(v);
  }

  method GetSe(b: Bs, ghost els: seq<Element>, ghost i: nat) returns (r: int)
    requires b.Valid()
    modifies b
    ensures b.Valid() && b.Stream() == old(b.Stream())
    ensures Coming(b.Stream(), old(b.Pos()), els, i) && i < |els| && els[i].Se? ==>
      r == els[i].se && Coming(b.Stream(), b.Pos(), els, i + 1)
  {
    hide Coming, Has, Bits, Codes, UeCode;
    ghost var bits, pos := b.Stream(), b.Pos();
    ghost var v: int := 0;
    if Coming(bits, pos, els, i) && i < |els| && els[i].Se? {
      ComingNext(bits, pos, els, i);
      v := els[i].se;
    }
    r := b.ReadSe(v);
  }

  method Skip(b: Bs, n: nat, ghost els: seq<Element>, ghost i: nat)
    requires b.Valid()
    modifies b
    ensures b.Valid() && b.Stream() == old(b.Stream())
    ensures Coming(b.Stream(), old(b.Pos()), els, i) && i < |els| && els[i].U? && els[i].n == n ==>
      Coming(b.Stream(), b.Pos(), els, i + 1)
  {
    hide Coming, Has, Bits, Codes, Binary, Two;
    ghost var bits, pos := b.Stream(), b.Pos();
    b.SkipU(n);
    if Coming(bits, pos, els, i) && i < |els| && els[i].U? && els[i].n == n {
      ComingNext(bits, pos, els, i);
    }
  }
}
