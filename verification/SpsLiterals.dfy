/**
 The coded form of particular parameter sets, bit by bit and byte by byte: what stands in which place does not follow
 from reading undoing writing.
 */
module SpsLiterals {
  import opened Basics
  import opened BitXor
  import opened NalBytes
  import opened BitCodes
  import opened SpsSyntax
  import opened Sps
  import opened SpsWriter
  import opened SpsRuns
  import opened NalUnit
  import opened Spelling

  // ----- what a code looks like

  /** The first codes: 1, 010, 011, 00100; and the signed numbers that they stand for. */
  lemma FirstCodes()
    ensures UeCode(0) == [true] && UeCode(1) == [false, true, false] && UeCode(2) == [false, true, true]
    ensures UeCode(3) == [false, false, true, false, false]
    ensures Code(Se(0)) == UeCode(0) && Code(Se(1)) == UeCode(1) && Code(Se(-1)) == UeCode(2)
    ensures Code(Se(2)) == UeCode(3) && Code(Se(-2)) == UeCode(4)
  {
    assert Binary(1, 1) == Binary(0, 0) + [true];
    assert Binary(2, 1) == Binary(1, 0) + [true];
    assert Binary(3, 2) == Binary(2, 1) + [false];
    assert Binary(3, 3) == Binary(2, 1) + [true];
    assert Binary(3, 1) == Binary(2, 0) + [true];
    assert Binary(2, 0) == Binary(1, 0) + [false];
    assert Binary(4, 2) == Binary(3, 1) + [false];
    assert Binary(5, 4) == Binary(4, 2) + [false];
  }

  /** The profiles for which chroma and depths are coded. */
  lemma HighProfiles(profile_idc: nat)
    ensures HighProfile(profile_idc) <==> profile_idc in {100, 110, 122, 144}
  {
  }

  // ----- the first four bytes

  function FirstFields(nal_ref_idc: nat, h: Head): seq<Element>
  {
    [U(1, 0), U(2, nal_ref_idc), U(5, 7), U(8, h.profile_idc), U(1, h.constraint_set0_flag),
     U(1, h.constraint_set1_flag), U(1, h.constraint_set2_flag), U(1, h.constraint_set3_flag),
     U(1, h.constraint_set4_flag), U(1, h.constraint_set5_flag), U(2, 0), U(8, h.level_idc)]
  }

  /** The value of the byte that the constraint flags fill. */
  function FlagByte(h: Head): nat
  {
    128 * h.constraint_set0_flag + 64 * h.constraint_set1_flag + 32 * h.constraint_set2_flag
    + 16 * h.constraint_set3_flag + 8 * h.constraint_set4_flag + 4 * h.constraint_set5_flag
  }

  predicate FirstFieldsFit(h: Head)
  {
    && h.profile_idc < 256 && h.level_idc < 256 && h.constraint_set0_flag < 2 && h.constraint_set1_flag < 2
    && h.constraint_set2_flag < 2 && h.constraint_set3_flag < 2 && h.constraint_set4_flag < 2
    && h.constraint_set5_flag < 2
  }

  lemma HeadFits(s: ParameterSet)
    requires AllFit(Elements(s))
    ensures FirstFieldsFit(s.head)
  {
    hide HighElements, OrderElements, FrameElements, CropElements, FlagElements, AllFit, HighProfile;
    var h, l := s.head, HeadElements(s.head);
    PartsFit(l, (if HighProfile(h.profile_idc) then HighElements(s.high) else [])
       + (OrderElements(s.order) + (FrameElements(s.frame) + (CropElements(s.crop) + FlagElements(s)))));
    SmallPowers();
    hide Two;
    FitsIn(l, U(8, h.profile_idc));
    FitsIn(l, U(8, h.level_idc));
    FitsIn(l, U(1, h.constraint_set0_flag));
    FitsIn(l, U(1, h.constraint_set1_flag));
    FitsIn(l, U(1, h.constraint_set2_flag));
    FitsIn(l, U(1, h.constraint_set3_flag));
    FitsIn(l, U(1, h.constraint_set4_flag));
    FitsIn(l, U(1, h.constraint_set5_flag));
  }

  lemma FirstFieldsCode(nal_ref_idc: nat, h: Head, l: seq<Element>)
    requires nal_ref_idc < 4 && FirstFieldsFit(h) && l == FirstFields(nal_ref_idc, h)
    ensures |Codes(l)| == 32
    ensures Number(Codes(l)) ==
      0x100_0000 * (32 * nal_ref_idc + 7) + 0x1_0000 * h.profile_idc + 0x100 * FlagByte(h) + h.level_idc
  {
    SmallPowers();
    hide Two, Spelt, Codes, Binary, AllFit;
    SpeltNothing(l);
    NextU(l, 0, 0, 0, 1, 0, 2);
    NextU(l, 1, 0, 1, 2, nal_ref_idc, 4);
    NextU(l, 2, nal_ref_idc, 3, 5, 7, 0x20);
    var v := 32 * nal_ref_idc + 7;
    NextU(l, 3, v, 8, 8, h.profile_idc, 0x100);
    v := 0x100 * v + h.profile_idc;
    NextU(l, 4, v, 16, 1, h.constraint_set0_flag, 2);
    v := 2 * v + h.constraint_set0_flag;
    NextU(l, 5, v, 17, 1, h.constraint_set1_flag, 2);
    v := 2 * v + h.constraint_set1_flag;
    NextU(l, 6, v, 18, 1, h.constraint_set2_flag, 2);
    v := 2 * v + h.constraint_set2_flag;
    NextU(l, 7, v, 19, 1, h.constraint_set3_flag, 2);
    v := 2 * v + h.constraint_set3_flag;
    NextU(l, 8, v, 20, 1, h.constraint_set4_flag, 2);
    v := 2 * v + h.constraint_set4_flag;
    NextU(l, 9, v, 21, 1, h.constraint_set5_flag, 2);
    v := 2 * v + h.constraint_set5_flag;
    NextU(l, 10, v, 22, 2, 0, 4);
    NextU(l, 11, 4 * v, 24, 8, h.level_idc, 0x100);
    v := 0x400 * v + h.level_idc;
    assert v == 0x100_0000 * (32 * nal_ref_idc + 7) + 0x1_0000 * h.profile_idc + 0x100 * FlagByte(h) + h.level_idc;
    SpeltIs(l, v, 32);
  }

  lemma SpeltIs(l: seq<Element>, v: nat, n: nat)
    requires Spelt(l, |l|, v, n)
    ensures |Codes(l)| == n && Number(Codes(l)) == v
  {
    hide Codes, Number;
    assert l[..|l|] == l;
  }

  lemma FirstFieldsFirst(nal_ref_idc: nat, s: ParameterSet)
    ensures FirstFields(nal_ref_idc, s.head) <= UnitElements(nal_ref_idc, s)
  {
    hide HighElements, OrderElements, FrameElements, CropElements, FlagElements, Trailing, Codes;
    var l := FirstFields(nal_ref_idc, s.head);
    assert UnitHeader(nal_ref_idc) + HeadElements(s.head) == l + [Ue(s.head.seq_parameter_set_id)];
  }

  lemma FirstFour(x: seq<Byte>, l: seq<Element>, rest: seq<Element>)
    requires Bits(x) == Codes(l + rest) && |Codes(l)| == 32
    ensures |x| >= 4 && Value(x[..4]) == Number(Codes(l))
  {
    hide Codes, Number, Bits;
    CodesAppend(l, rest);
    BitCount(x);
    BitsPrefix(x, 4);
    NumberBits(x[..4]);
    assert Bits(x)[..32] == Codes(l);
  }

  lemma FourBytes(x: seq<Byte>)
    requires |x| >= 4
    ensures Value(x[..4]) == 0x100_0000 * (x[0] as nat) + 0x1_0000 * (x[1] as nat) + 0x100 * (x[2] as nat) + x[3] as nat
  {
    var y := ValueNext([], x[0]);
    y := ValueNext(y, x[1]);
    y := ValueNext(y, x[2]);
    y := ValueNext(y, x[3]);
    assert y == x[..4];
  }

  /** The first four bytes of every unit: header, profile, constraint flags and level. */
  lemma FirstBytes(nal_ref_idc: nat, s: ParameterSet)
    requires nal_ref_idc < 4 && AllFit(Elements(s))
    ensures var x, h := Payload(nal_ref_idc, s), s.head;
      && |x| >= 4 && x[0] == 32 * nal_ref_idc + 7 && x[1] == h.profile_idc && x[3] == h.level_idc
      && x[2] == 128 * h.constraint_set0_flag + 64 * h.constraint_set1_flag + 32 * h.constraint_set2_flag
        + 16 * h.constraint_set3_flag + 8 * h.constraint_set4_flag + 4 * h.constraint_set5_flag
  {
    hide Bits, BytesOf, Codes, UnitElements, Elements, FirstFields, Number, Value;
    var x, h := Payload(nal_ref_idc, s), s.head;
    var l, e := FirstFields(nal_ref_idc, h), UnitElements(nal_ref_idc, s);
    HeadFits(s);
    FirstFieldsCode(nal_ref_idc, h, l);
    FirstFieldsFirst(nal_ref_idc, s);
    assert e == l + e[|l|..];
    FirstFour(x, l, e[|l|..]);
    FourBytes(x);
  }

  // ----- sets of the Baseline profile

  /** A Baseline set at level 3.1 with one reference frame, of (w + 1) times (h + 1) macroblocks. */
  function PlainSet(w: nat, h: nat): ParameterSet
  {
    ParameterSet(Head(66, 0, 0, 0, 0, 0, 0, 31, 0), NoHigh(), Order(0, 2, 0, 0, 0, 0, 0, []),
                 Frame(1, 0, w, h, 1, 0, 1), Crop(0, 0, 0, 0, 0), 0, NoVui(), NoHrd())
  }

  lemma HeaderCode()
    ensures Codes(UnitHeader(3)) == Binary(8, 0x67)
  {
    var l := UnitHeader(3);
    SmallPowers();
    hide Two, Spelt, Codes, Binary, AllFit;
    SpeltNothing(l);
    NextU(l, 0, 0, 0, 1, 0, 2);
    NextU(l, 1, 0, 1, 2, 3, 4);
    NextU(l, 2, 3, 3, 5, 7, 0x20);
    SpeltAll(l, 0x67, 8);
  }

  lemma OneFlag(b: nat)
    requires b < 2
    ensures Codes([U(1, b)]) == [b == 1] && AllFit([U(1, b)])
  {
    Powers();
    hide Codes;
    CodesOne(U(1, b));
    assert Binary(1, b) == Binary(0, b / 2) + [b % 2 == 1];
  }

  lemma Join(a: seq<Element>, b: seq<Element>)
    requires AllFit(a) && AllFit(b)
    ensures Codes(a + b) == Codes(a) + Codes(b) && AllFit(a + b)
  {
    hide Codes, Fits;
    CodesAppend(a, b);
    JoinedFit(a, b);
  }

  lemma HighParts(s: ParameterSet)
    requires HighProfile(s.head.profile_idc)
    ensures Elements(s) ==
      HeadElements(s.head) + (HighElements(s.high)
        + (OrderElements(s.order) + (FrameElements(s.frame) + (CropElements(s.crop) + FlagElements(s)))))
  {
    hide HeadElements, HighElements, OrderElements, FrameElements, CropElements, FlagElements;
  }

  lemma NothingCoded()
    ensures Codes([]) == []
  {
  }

  lemma {:induction false} ZeroesCode(n: nat)
    ensures Codes(Zeroes(n)) == seq(n, _ => false)
    decreases n
  {
    hide Codes;
    if n == 0 {
      NothingCoded();
      assert Zeroes(0) == [];
    } else {
      ZeroesCode(n - 1);
      assert Zeroes(n) == Zeroes(n - 1) + [U(1, 0)];
      CodesAppend(Zeroes(n - 1), [U(1, 0)]);
      OneFlag(0);
    }
  }

  /** The payload is the header, the code of the set, the stop bit and zeros up to the end of the byte. */
  lemma WholePayload(s: ParameterSet, pad: nat)
    requires pad < 8 && (9 + |Codes(Elements(s))| + pad) % 8 == 0
    ensures Bits(Payload(3, s)) == Binary(8, 0x67) + (Codes(Elements(s)) + ([true] + seq(pad, _ => false)))
  {
    hide Codes, Bits, BytesOf, Binary, Elements, UnitHeader, Zeroes;
    var e := UnitHeader(3) + Elements(s);
    HeaderCode();
    CodesAppend(UnitHeader(3), Elements(s));
    CodesAppend(e, [U(1, 1)]);
    OneFlag(1);
    PaddingIs(|Codes(e + [U(1, 1)])|, pad);
    TrailingIs(e, pad);
    CodesAppend(e + [U(1, 1)], Zeroes(pad));
    ZeroesCode(pad);
  }

  /**
   The bits of a plain set of any size: header, profile, flags and level; then id, frame numbers, order type 2, one
   reference frame and no gaps; the width, the height; and the flags for frames, inference, cropping and VUI.
   */
  lemma PlainBits(w: nat, h: nat)
    requires w <= UE_MAX && h <= UE_MAX
    ensures WellFormed(PlainSet(w, h))
    ensures Bits(Payload(3, PlainSet(w, h))) ==
      Binary(8, 0x67)
      + ((Binary(24, 0x42001F)
      + (Binary(9, 0x1B4)
      + (UeCode(w) + (UeCode(h) + Binary(4, 0xC)))))
      + ([true] + seq(Padding(46 + |UeCode(w)| + |UeCode(h)|), _ => false)))
  {
    hide Codes, Binary, UeCode, Payload, AllFit, Bits;
    var s := PlainSet(w, h);
    PlainParts(w, h);
    var a, b, c := PlainHead(), PlainMiddle(), PlainEnd();
    PlainHeadCode(a);
    PlainMiddleCode(b);
    PlainEndCode(c);
    OneNumber(w);
    OneNumber(h);
    hide PlainHead, PlainMiddle, PlainEnd, Elements;
    Join([Ue(h)], c);
    Join([Ue(w)], [Ue(h)] + c);
    Join(b, [Ue(w)] + ([Ue(h)] + c));
    Join(a, b + ([Ue(w)] + ([Ue(h)] + c)));
    var pad := Padding(46 + |UeCode(w)| + |UeCode(h)|);
    PaddedTo(46 + |UeCode(w)| + |UeCode(h)|);
    WholePayload(s, pad);
  }

  function PlainHead(): seq<Element>
  {
    [U(8, 66), U(1, 0), U(1, 0), U(1, 0), U(1, 0), U(1, 0), U(1, 0), U(2, 0), U(8, 31)]
  }

  function PlainMiddle(): seq<Element> { [Ue(0), Ue(0), Ue(2), Ue(1), U(1, 0)] }
  function PlainEnd(): seq<Element> { [U(1, 1), U(1, 1), U(1, 0), U(1, 0)] }

  lemma PlainParts(w: nat, h: nat)
    ensures Elements(PlainSet(w, h)) == PlainHead() + (PlainMiddle() + ([Ue(w)] + ([Ue(h)] + PlainEnd())))
  {
    var s := PlainSet(w, h);
    assert HeadElements(s.head) == PlainHead() + [Ue(0)] && OrderElements(s.order) == [Ue(0), Ue(2)];
    assert FrameElements(s.frame) == [Ue(1), U(1, 0)] + ([Ue(w)] + ([Ue(h)] + [U(1, 1), U(1, 1)]));
    assert CropElements(s.crop) == [U(1, 0)] && FlagElements(s) == [U(1, 0)];
    hide HeadElements, OrderElements, FrameElements, CropElements, FlagElements, PlainHead;
    assert [Ue(0)] + ([Ue(0), Ue(2)] + [Ue(1), U(1, 0)]) == PlainMiddle();
    assert [U(1, 1), U(1, 1)] + ([U(1, 0)] + [U(1, 0)]) == PlainEnd();
  }

  lemma PlainHeadCode(l: seq<Element>)
    requires l == PlainHead()
    ensures Codes(l) == Binary(24, 0x42001F) && AllFit(l)
  {
    SmallPowers();
    hide Two, Spelt, Codes, Binary, AllFit;
    SpeltNothing(l);
    NextU(l, 0, 0, 0, 8, 66, 0x100);
    NextU(l, 1, 0x42, 8, 1, 0, 2);
    NextU(l, 2, 0x84, 9, 1, 0, 2);
    NextU(l, 3, 0x108, 10, 1, 0, 2);
    NextU(l, 4, 0x210, 11, 1, 0, 2);
    NextU(l, 5, 0x420, 12, 1, 0, 2);
    NextU(l, 6, 0x840, 13, 1, 0, 2);
    NextU(l, 7, 0x1080, 14, 2, 0, 4);
    NextU(l, 8, 0x4200, 16, 8, 31, 0x100);
    SpeltAll(l, 0x42001F, 24);
  }

  lemma PlainMiddleCode(l: seq<Element>)
    requires l == PlainMiddle()
    ensures Codes(l) == Binary(9, 0x1B4) && AllFit(l)
  {
    SmallPowers();
    hide Two, Spelt, Codes, Binary, AllFit;
    SpeltNothing(l);
    NextUe(l, 0, 0, 0, 0, 0, 2);
    NextUe(l, 1, 1, 1, 0, 0, 2);
    NextUe(l, 2, 3, 2, 2, 1, 8);
    NextUe(l, 3, 0x1B, 5, 1, 1, 8);
    NextU(l, 4, 0xDA, 8, 1, 0, 2);
    SpeltAll(l, 0x1B4, 9);
  }

  lemma PlainEndCode(l: seq<Element>)
    requires l == PlainEnd()
    ensures Codes(l) == Binary(4, 0xC) && AllFit(l)
  {
    SmallPowers();
    hide Two, Spelt, Codes, Binary, AllFit;
    SpeltNothing(l);
    NextU(l, 0, 0, 0, 1, 1, 2);
    NextU(l, 1, 1, 1, 1, 1, 2);
    NextU(l, 2, 3, 2, 1, 0, 2);
    NextU(l, 3, 6, 3, 1, 0, 2);
    SpeltAll(l, 0xC, 4);
  }

  lemma OneNumber(x: nat)
    requires x <= UE_MAX
    ensures Codes([Ue(x)]) == UeCode(x) && AllFit([Ue(x)])
  {
    hide Codes, UeCode;
    CodesOne(Ue(x));
  }

  /** The unit of a set for 1280 times 720 points. */
  function Unit720(): seq<Byte>
  {
    [0x67, 0x42, 0x00, 0x1F, 0xDA, 0x01, 0x40, 0x16, 0xE4]
  }

  lemma PlainUnit()
    ensures WellFormed(PlainSet(79, 44)) && Packed(Payload(3, PlainSet(79, 44)), 0) == Unit720()
  {
    hide Payload, Packed, WellFormed, Bits, PlainSet, UeCode, Binary, Padding, Unit720;
    PlainBits(79, 44);
    Payload720(Payload(3, PlainSet(79, 44)));
    Packed720();
  }

  lemma Packed720()
    ensures Packed(Unit720(), 0) == Unit720()
  {
    hide Packed;
    PackedApart(Unit720(), 0);
  }

  lemma Payload720(x: seq<Byte>)
    requires Bits(x) ==
      Binary(8, 0x67)
      + ((Binary(24, 0x42001F) + (Binary(9, 0x1B4) + (UeCode(79) + (UeCode(44) + Binary(4, 0xC)))))
      + ([true] + seq(Padding(46 + |UeCode(79)| + |UeCode(44)|), _ => false)))
    ensures x == Unit720()
  {
    hide UeCode, Binary, Bits, Value, Number;
    SmallPowers();
    hide Two;
    CodeIs(79, 6);
    CodeIs(44, 5);
    var e := [true] + seq(Padding(46 + |UeCode(79)| + |UeCode(44)|), _ => false);
    assert e == [true, false, false];
    Numbers720(UeCode(79), UeCode(44), e);
    NumberBits(x);
    NumberBits(Unit720());
    Value720();
    BitCount(x);
    BitCount(Unit720());
    SameBits(Bits(x), Bits(Unit720()));
    BytesOfBits(x);
    BytesOfBits(Unit720());
  }

  lemma Numbers720(w: seq<bool>, h: seq<bool>, e: seq<bool>)
    requires IsSpell(w, 80, 13) && IsSpell(h, 45, 11) && e == [true, false, false]
    ensures IsSpell(
      Binary(8, 0x67) + ((Binary(24, 0x42001F) + (Binary(9, 0x1B4) + (w + (h + Binary(4, 0xC))))) + e),
      0x67_4200_1FDA_0140_16E4, 72)
  {
    MorePowers();
    hide Number, Binary, Two;
    BinarySpell(8, 0x67);
    BinarySpell(24, 0x42001F);
    BinarySpell(9, 0x1B4);
    BinarySpell(4, 0xC);
    BinarySpell(3, 4);
    ThreeBits();
    hide IsSpell;
    var b := Binary(4, 0xC);
    SpellBoth(h, 45, 11, b, 12, 4, 0x10);
    SpellBoth(w, 80, 13, h + b, 0x2DC, 15, 0x8000);
    SpellBoth(Binary(9, 0x1B4), 0x1B4, 9, w + (h + b), 0x28_02DC, 28, 0x1000_0000);
    var a := Binary(9, 0x1B4) + (w + (h + b));
    SpellBoth(Binary(24, 0x42001F), 0x42001F, 24, a, 0x1B_4028_02DC, 37, 0x20_0000_0000);
    SpellBoth(Binary(24, 0x42001F) + a, 0x840_03FB_4028_02DC, 61, e, 4, 3, 8);
    SpellBoth(Binary(8, 0x67), 0x67, 8, (Binary(24, 0x42001F) + a) + e, 0x4200_1FDA_0140_16E4, 64,
      0x1_0000_0000_0000_0000);
  }

  lemma ThreeBits()
    ensures Binary(3, 4) == [true, false, false]
  {
    assert Binary(1, 1) == Binary(0, 0) + [true];
    assert Binary(2, 2) == Binary(1, 1) + [false];
    assert Binary(3, 4) == Binary(2, 2) + [false];
  }

  lemma MorePowers()
    ensures Two(3) == 8 && Two(4) == 0x10 && Two(8) == 0x100 && Two(9) == 0x200 && Two(15) == 0x8000
    ensures Two(24) == 0x100_0000 && Two(28) == 0x1000_0000 && Two(37) == 0x20_0000_0000
    ensures Two(64) == 0x1_0000_0000_0000_0000
  {
    SmallPowers();
    LargePowers();
    hide Two;
    TwoSum(16, 8);
    TwoSum(16, 12);
    TwoSum(32, 5);
    TwoSum(32, 32);
  }

  lemma Value720()
    ensures Value(Unit720()) == 0x67_4200_1FDA_0140_16E4
  {
    var x := ValueNext([], 0x67);
    x := ValueNext(x, 0x42);
    x := ValueNext(x, 0x00);
    x := ValueNext(x, 0x1F);
    x := ValueNext(x, 0xDA);
    x := ValueNext(x, 0x01);
    x := ValueNext(x, 0x40);
    x := ValueNext(x, 0x16);
    x := ValueNext(x, 0xE4);
    assert x == Unit720();
  }
}
