/** A parameter set that the decoder cannot pass on: its unit has no emulation bytes, and is too long for the room. */
module LongSet {
  import opened Basics
  import opened BitXor
  import opened NalBytes
  import opened BitCodes
  import opened ZeroRuns
  import opened SpsSyntax
  import opened Sps
  import opened SpsRuns
  import opened NalUnit

  // ----- no eight zero bits in a row

  predicate Dense(bits: seq<bool>, r: Run)
    decreases |bits|
  {
    bits == [] || (NextBit(r, bits[0]).zeros < 8 && Dense(bits[1..], NextBit(r, bits[0])))
  }

  lemma {:induction false} DenseAppend(a: seq<bool>, b: seq<bool>, r: Run)
    requires Dense(a, r) && Dense(b, Scan(a, r))
    ensures Dense(a + b, r)
    decreases |a|
  {
    hide NextBit;
    if a == [] {
      assert a + b == b;
    } else {
      assert (a + b)[0] == a[0] && (a + b)[1..] == a[1..] + b;
      DenseAppend(a[1..], b, NextBit(r, a[0]));
    }
  }

  lemma {:induction false} DensePrefix(bits: seq<bool>, k: nat, r: Run)
    requires Dense(bits, r) && 0 < k <= |bits|
    ensures Scan(bits[..k], r).zeros < 8
    decreases k
  {
    hide NextBit;
    var next := NextBit(r, bits[0]);
    assert bits[..k][0] == bits[0] && bits[..k][1..] == bits[1..][..k - 1];
    if k > 1 {
      DensePrefix(bits[1..], k - 1, next);
    } else {
      assert bits[..k][1..] == [];
    }
  }

  lemma {:induction false} DenseShort(bits: seq<bool>, r: Run)
    requires r.zeros + |bits| < 8
    ensures Dense(bits, r) && Scan(bits, r).zeros <= r.zeros + |bits|
    decreases |bits|
  {
    if bits != [] {
      DenseShort(bits[1..], NextBit(r, bits[0]));
    }
  }

  lemma DenseOne(bits: seq<bool>, k: nat, r: Run)
    requires k < |bits| <= k + 8 && bits[k] && r.zeros + k < 8
    ensures Dense(bits, r) && Scan(bits, r).zeros <= |bits| - k - 1
    ensures bits[|bits| - 1] ==> Scan(bits, r).zeros == 0
  {
    hide Scan, Dense;
    assert bits == (bits[..k] + [bits[k]]) + bits[k + 1..];
    DenseShort(bits[..k], r);
    var t := Scan(bits[..k], r);
    ScanBit(true, t);
    DenseBit(t);
    ScanAppend(bits[..k], [bits[k]], r);
    DenseAppend(bits[..k], [bits[k]], r);
    DenseShort(bits[k + 1..], NextBit(t, true));
    ScanAppend(bits[..k] + [bits[k]], bits[k + 1..], r);
    DenseAppend(bits[..k] + [bits[k]], bits[k + 1..], r);
    var n := |bits| - 1;
    assert bits == bits[..n] + [bits[n]];
    ScanAppend(bits[..n], [bits[n]], r);
    ScanBit(bits[n], Scan(bits[..n], r));
  }

  lemma DenseBit(r: Run)
    ensures Dense([true], r)
  {
    assert [true][1..] == [];
    assert Dense([], NextBit(r, true));
  }

  /** Bytes without eight zero bits in a row are not zero, and packing leaves them alone. */
  lemma DenseBytes(x: seq<Byte>)
    requires Dense(Bits(x), Run(0, 0))
    ensures Packed(x, 0) == x
  {
    hide Dense, Scan, Bits;
    forall i | 0 <= i < |x| ensures x[i] != 0 {
      RunNext(x, i);
      var k := ScanByte(x[i], RunAt(x, i));
      BitsPrefix(x, i + 1);
      ZeroRuns.BitCount(x);
      DensePrefix(Bits(x), 8 * (i + 1), Run(0, 0));
    }
    PackedApart(x, 0);
  }

  // ----- elements

  /** The coded elements are dense, end in at most so many zeros, and have so many bits. */
  ghost predicate DenseTo(els: seq<Element>, zeros: nat, bits: nat)
  {
    Dense(Codes(els), Run(0, 0)) && Scan(Codes(els), Run(0, 0)).zeros <= zeros && |Codes(els)| == bits
  }

  lemma DenseMore(els: seq<Element>, zeros: nat, bits: nat, e: Element, k: nat) returns (r: seq<Element>)
    requires DenseTo(els, zeros, bits) && k < |Code(e)| <= k + 8 && Code(e)[k] && zeros + k < 8
    ensures r == els + [e] && DenseTo(r, |Code(e)| - k - 1, bits + |Code(e)|)
    ensures Code(e)[|Code(e)| - 1] ==> DenseTo(r, 0, bits + |Code(e)|)
  {
    hide Codes, Code, Scan, Dense;
    r := els + [e];
    CodesAppend(els, [e]);
    CodesOne(e);
    CodesMore(els, e);
    var t := Scan(Codes(els), Run(0, 0));
    DenseOne(Code(e), k, t);
    DenseAppend(Codes(els), Code(e), Run(0, 0));
  }

  lemma DenseFew(els: seq<Element>, zeros: nat, bits: nat, n: nat, u: nat) returns (r: seq<Element>)
    requires DenseTo(els, zeros, bits) && zeros + n < 8
    ensures r == els + [U(n, u)] && DenseTo(r, zeros + n, bits + n)
  {
    hide Codes, Scan, Dense, Binary;
    var e := U(n, u);
    r := els + [e];
    CodesAppend(els, [e]);
    CodesOne(e);
    CodesMore(els, e);
    var t := Scan(Codes(els), Run(0, 0));
    DenseShort(Code(e), t);
    DenseAppend(Codes(els), Code(e), Run(0, 0));
  }

  /** A field with a one at the given place, and perhaps at the end. */
  lemma DenseField(els: seq<Element>, zeros: nat, bits: nat, n: nat, u: nat, k: nat) returns (r: seq<Element>)
    requires DenseTo(els, zeros, bits) && k < n <= k + 8 && Shifted(u, n - 1 - k) % 2 == 1 && zeros + k < 8
    ensures r == els + [U(n, u)] && DenseTo(r, n - 1 - k, bits + n)
  {
    hide Codes, Scan, Dense, Binary, Shifted, DenseTo;
    BinaryAt(n, u, k);
    r := DenseMore(els, zeros, bits, U(n, u), k);
  }

  lemma ShortCodes()
    ensures UeCode(0) == [true] && UeCode(1) == [false, true, false]
  {
    assert Binary(1, 1) == Binary(0, 0) + [true];
    assert Binary(2, 1) == Binary(1, 0) + [true];
    assert Binary(3, 2) == Binary(2, 1) + [false];
  }

  lemma LongCode()
    ensures |UeCode(254)| == 15 && UeCode(254)[7] && UeCode(254)[14]
  {
    UeParts(254);
    assert Binary(15, 255) == Binary(14, 127) + [true];
  }

  lemma DenseNumber(els: seq<Element>, zeros: nat, bits: nat, e: Element, v: nat) returns (r: seq<Element>)
    requires DenseTo(els, zeros, bits) && v <= 1 && Code(e) == UeCode(v) && zeros + v < 8
    ensures r == els + [e] && DenseTo(r, v, bits + 1 + 2 * v)
  {
    hide Codes, Code, UeCode, DenseTo;
    ShortCodes();
    r := DenseMore(els, zeros, bits, e, v);
  }

  // ----- the set

  const OFFSETS: nat := 254

  /** A set of the Main profile at level 3.1 whose picture order counts repeat after 254 frames. */
  function ManyOffsets(): ParameterSet
  {
    ParameterSet(Head(77, 0, 0, 0, 0, 0, 1, 31, 0), NoHigh(), Order(0, 1, 0, 0, 0, 0, OFFSETS, seq(OFFSETS, _ => 1)),
                 Frame(1, 0, 0, 0, 1, 0, 0), Crop(0, 0, 0, 0, 0), 0, NoVui(), NoHrd())
  }

  lemma HeaderDense(nal_ref_idc: nat)
    ensures DenseTo(UnitHeader(nal_ref_idc), 0, 8)
  {
    assert DenseTo([], 0, 0);
    hide DenseTo;
    var r := DenseFew([], 0, 0, 1, 0);
    r := DenseFew(r, 1, 1, 2, nal_ref_idc);
    r := DenseField(r, 3, 3, 5, NAL_UNIT_TYPE_SPS, 4);
    assert r == UnitHeader(nal_ref_idc);
  }

  /** The six constraint flags, and two bits of zero. */
  function ConstraintFlags(): seq<Element>
  {
    [U(1, 0), U(1, 0), U(1, 0), U(1, 0), U(1, 0), U(1, 1), U(2, 0)]
  }

  lemma HeadParts()
    ensures HeadElements(ManyOffsets().head) == [U(8, 77)] + ConstraintFlags() + [U(8, 31)] + [Ue(0)]
  {
  }

  lemma SomeBits()
    ensures Shifted(77, 0) % 2 == 1 && Shifted(31, 4) % 2 == 1
  {
    assert Shifted(31, 4) == Shifted(15, 3) == Shifted(7, 2) == Shifted(3, 1) == 1;
  }

  lemma ManyOffsetsHead(els: seq<Element>) returns (r: seq<Element>)
    requires DenseTo(els, 0, 8)
    ensures r == els + HeadElements(ManyOffsets().head) && DenseTo(r, 0, 33)
  {
    hide DenseTo, HeadElements, ManyOffsets, Shifted, ConstraintFlags;
    HeadParts();
    SomeBits();
    r := DenseField(els, 0, 8, 8, 77, 7);
    r := FlagsDense(r);
    r := DenseField(r, 2, 24, 8, 31, 3);
    r := DenseNumber(r, 4, 32, Ue(0), 0);
  }

  lemma FlagsDense(els: seq<Element>) returns (r: seq<Element>)
    requires DenseTo(els, 0, 16)
    ensures r == els + ConstraintFlags() && DenseTo(r, 2, 24)
  {
    hide DenseTo;
    r := els;
    r := DenseFew(r, 0, 16, 1, 0);
    r := DenseFew(r, 1, 17, 1, 0);
    r := DenseFew(r, 2, 18, 1, 0);
    r := DenseFew(r, 3, 19, 1, 0);
    r := DenseFew(r, 4, 20, 1, 0);
    r := DenseField(r, 5, 21, 1, 1, 0);
    r := DenseFew(r, 0, 22, 2, 0);
  }

  lemma {:induction false} OffsetsDense(els: seq<Element>, bits: nat, n: nat) returns (r: seq<Element>)
    requires DenseTo(els, 1, bits)
    ensures r == els + Offsets(seq(n, _ => 1)) && DenseTo(r, 1, bits + 3 * n)
    decreases n
  {
    hide DenseTo;
    if n == 0 {
      r := els;
    } else {
      r := OffsetsDense(els, bits, n - 1);
      assert Offsets(seq(n, _ => 1)) == Offsets(seq(n - 1, _ => 1)) + [Se(1)];
      r := DenseNumber(r, 1, bits + 3 * (n - 1), Se(1), 1);
    }
  }

  lemma ManyOffsetsOrder(els: seq<Element>) returns (r: seq<Element>)
    requires DenseTo(els, 0, 33)
    ensures r == els + OrderElements(ManyOffsets().order) && DenseTo(r, 1, 817)
  {
    var start := [Ue(0), Ue(1), U(1, 0), Se(0), Se(0), Ue(254)];
    assert OrderElements(ManyOffsets().order) == start + Offsets(seq(OFFSETS, _ => 1));
    hide DenseTo, Offsets, OrderElements, ManyOffsets;
    r := OrderStartDense(els);
    DenseWeaker(r, 0, 1, 55);
    r := OffsetsDense(r, 55, OFFSETS);
  }

  lemma OrderStartDense(els: seq<Element>) returns (r: seq<Element>)
    requires DenseTo(els, 0, 33)
    ensures r == els + [Ue(0), Ue(1), U(1, 0), Se(0), Se(0), Ue(254)] && DenseTo(r, 0, 55)
  {
    hide DenseTo, UeCode;
    r := DenseNumber(els, 0, 33, Ue(0), 0);
    r := DenseNumber(r, 0, 34, Ue(1), 1);
    r := DenseFew(r, 1, 37, 1, 0);
    r := DenseNumber(r, 2, 38, Se(0), 0);
    r := DenseNumber(r, 0, 39, Se(0), 0);
    LongCode();
    r := DenseMore(r, 0, 40, Ue(254), 7);
  }

  lemma DenseWeaker(els: seq<Element>, zeros: nat, zeros': nat, bits: nat)
    requires DenseTo(els, zeros, bits) && zeros <= zeros'
    ensures DenseTo(els, zeros', bits)
  {
  }

  function FrameStart(): seq<Element> { [Ue(1), U(1, 0), Ue(0), Ue(0)] }
  function LastFlags(): seq<Element> { [U(1, 1), U(1, 0), U(1, 0), U(1, 0)] }

  lemma EndParts()
    ensures var s := ManyOffsets();
      FrameElements(s.frame) + (CropElements(s.crop) + FlagElements(s)) == FrameStart() + LastFlags()
  {
    var s := ManyOffsets();
    assert FrameElements(s.frame) == FrameStart() + [U(1, 1), U(1, 0)];
    assert CropElements(s.crop) == [U(1, 0)] && FlagElements(s) == [U(1, 0)];
    hide FrameElements, CropElements, FlagElements, FrameStart;
    assert [U(1, 1), U(1, 0)] + ([U(1, 0)] + [U(1, 0)]) == LastFlags();
  }

  lemma FrameStartDense(els: seq<Element>) returns (r: seq<Element>)
    requires DenseTo(els, 1, 817)
    ensures r == els + FrameStart() && DenseTo(r, 0, 823)
  {
    hide DenseTo;
    r := DenseNumber(els, 1, 817, Ue(1), 1);
    r := DenseFew(r, 1, 820, 1, 0);
    r := DenseNumber(r, 2, 821, Ue(0), 0);
    r := DenseNumber(r, 0, 822, Ue(0), 0);
  }

  lemma LastFlagsDense(els: seq<Element>) returns (r: seq<Element>)
    requires DenseTo(els, 0, 823)
    ensures r == els + LastFlags() && DenseTo(r, 3, 827)
  {
    hide DenseTo;
    r := DenseField(els, 0, 823, 1, 1, 0);
    r := DenseFew(r, 0, 824, 1, 0);
    r := DenseFew(r, 1, 825, 1, 0);
    r := DenseFew(r, 2, 826, 1, 0);
  }

  lemma ManyOffsetsEnd(els: seq<Element>) returns (r: seq<Element>)
    requires DenseTo(els, 1, 817)
    ensures var s := ManyOffsets();
      r == els + (FrameElements(s.frame) + (CropElements(s.crop) + FlagElements(s))) && DenseTo(r, 3, 827)
  {
    hide DenseTo, FrameStart, LastFlags, FrameElements, CropElements, FlagElements, ManyOffsets;
    EndParts();
    r := FrameStartDense(els);
    r := LastFlagsDense(r);
  }

  lemma {:induction false} ZeroesDense(els: seq<Element>, bits: nat, n: nat)
    requires DenseTo(els, 0, bits) && n < 8
    ensures DenseTo(els + Zeroes(n), n, bits + n)
    decreases n
  {
    hide DenseTo;
    if n == 0 {
      assert els + Zeroes(0) == els;
    } else {
      ZeroesDense(els, bits, n - 1);
      var r := DenseFew(els + Zeroes(n - 1), n - 1, bits + n - 1, 1, 0);
      assert r == els + Zeroes(n);
    }
  }

  lemma ManyOffsetsParts()
    ensures var s := ManyOffsets();
      Elements(s) == HeadElements(s.head) +
        (OrderElements(s.order) + (FrameElements(s.frame) + (CropElements(s.crop) + FlagElements(s))))
  {
    hide HeadElements, OrderElements, FrameElements, CropElements, FlagElements;
    var none: seq<Element> := [];
    assert forall e: seq<Element> :: none + e == e;
  }

  lemma ManyOffsetsUnit(nal_ref_idc: nat)
    ensures |Payload(nal_ref_idc, ManyOffsets())| == 104 && Packed(Payload(nal_ref_idc, ManyOffsets()), 0) ==
      Payload(nal_ref_idc, ManyOffsets())
  {
    hide DenseTo, HeadElements, OrderElements, FrameElements, CropElements, FlagElements, Elements, ManyOffsets, Bits,
      BytesOf, Codes, Zeroes, Packed;
    var s := ManyOffsets();
    HeaderDense(nal_ref_idc);
    var head := ManyOffsetsHead(UnitHeader(nal_ref_idc));
    var order := ManyOffsetsOrder(head);
    var all := ManyOffsetsEnd(order);
    ManyOffsetsParts();
    assert all == UnitHeader(nal_ref_idc) + Elements(s);
    var stop := DenseField(all, 3, 827, 1, 1, 0);
    assert |Codes(stop)| == 828 by { BitsCounted(stop, 0, 828); }
    ZeroesDense(stop, 828, 4);
    TrailingIs(all, 4);
    var e := UnitElements(nal_ref_idc, s);
    assert e == stop + Zeroes(4);
    DenseIs(e, 4, 832);
    DenseBytes(Payload(nal_ref_idc, s));
    ZeroRuns.BitCount(Payload(nal_ref_idc, s));
  }

  lemma BitsCounted(els: seq<Element>, zeros: nat, bits: nat)
    requires DenseTo(els, zeros, bits)
    ensures |Codes(els)| == bits
  {
  }

  lemma DenseIs(els: seq<Element>, zeros: nat, bits: nat)
    requires DenseTo(els, zeros, bits)
    ensures Dense(Codes(els), Run(0, 0)) && |Codes(els)| == bits
  {
  }

  lemma ManyOffsetsWellFormed()
    ensures WellFormed(ManyOffsets()) && PatchedVisibly(ManyOffsets()) == ManyOffsets()
  {
    var s := ManyOffsets();
    ManyOffsetsParts();
    Powers();
    hide Two;
    JoinedFit(CropElements(s.crop), FlagElements(s));
    JoinedFit(FrameElements(s.frame), CropElements(s.crop) + FlagElements(s));
    JoinedFit(OrderElements(s.order), FrameElements(s.frame) + (CropElements(s.crop) + FlagElements(s)));
    JoinedFit(HeadElements(s.head),
      OrderElements(s.order) + (FrameElements(s.frame) + (CropElements(s.crop) + FlagElements(s))));
  }

  /** Its unit has 104 bytes, and cannot be written again in the room that the decoder leaves. */
  lemma TooLongForDecoder(nal_ref_idc: nat)
    ensures var s := ManyOffsets();
      var unit := Packed(Payload(nal_ref_idc, s), 0);
      && WellFormed(s) && PatchedVisibly(s) == s && |unit| == 104
      && |Payload(nal_ref_idc, s)| > (|unit| + SPS_FIXUP_ROOM) * 3 / 4
  {
    hide WellFormed, PatchedVisibly, ManyOffsets, Payload, Packed;
    ManyOffsetsWellFormed();
    ManyOffsetsUnit(nal_ref_idc);
  }
}
