/**
 Two parameter sets of the high profiles, bit by bit: one that uses all of the syntax, with values that differ from each
 other, and one that takes the branches which that one does not.
 */
module FullSets {
  import opened Basics
  import opened BitXor
  import opened NalBytes
  import opened BitCodes
  import opened SpsSyntax
  import opened Sps
  import opened NalUnit
  import opened Spelling
  import opened SpsLiterals

  lemma FlagParts(s: ParameterSet)
    requires s.vui_parameters_present_flag == 1
    ensures FlagElements(s) ==
      [U(1, 1)] + (AspectElements(s.vui.aspect) + (VideoElements(s.vui.video) + (TimingElements(s.vui.timing)
        + (UseElements(s.vui, s.hrd) + RestrictionElements(s.vui.restriction)))))
  {
    hide AspectElements, VideoElements, TimingElements, UseElements, RestrictionElements;
  }

  /** A High set with everything that the syntax has room for. */
  function FullSet(): ParameterSet
  {
    ParameterSet(Head(100, 1, 0, 1, 0, 1, 0, 41, 7), High(3, 1, 1, 2, 0, 1), Order(4, 1, 0, 1, 3, -5, 2, [6, -7]),
                 Frame(8, 1, 39, 29, 0, 1, 0), Crop(1, 9, 10, 11, 12), 1, FullVui(), FullHrd())
  }

  function FullVui(): Vui
  {
    Vui(Aspect(1, 255, 13, 14, 1, 0), Video(1, 5, 0, 1, 15, 16, 17), Timing(1, 18, 19, 1, 1001, 60000, 0), 1, 1, 1,
        Restriction(0, 1, 0, 28, 29, 30, 31, 32, 33))
  }

  function FullHrd(): Hrd
  {
    Hrd(1, 2, 3, [Schedule(20, 21, 1), Schedule(22, 23, 0)], 24, 25, 26, 27)
  }

  lemma FullHeadCode(l: seq<Element>)
    requires l == [U(8, 100), U(1, 1), U(1, 0), U(1, 1), U(1, 0), U(1, 1), U(1, 0), U(2, 0), U(8, 41), Ue(7)]
    ensures Codes(l) == Binary(31, 0x32541488) && AllFit(l)
  {
    SmallPowers();
    hide Two, Spelt, Codes, Binary, AllFit;
    SpeltNothing(l);
    NextU(l, 0, 0, 0, 8, 100, 0x100);
    NextU(l, 1, 0x64, 8, 1, 1, 2);
    NextU(l, 2, 0xC9, 9, 1, 0, 2);
    NextU(l, 3, 0x192, 10, 1, 1, 2);
    NextU(l, 4, 0x325, 11, 1, 0, 2);
    NextU(l, 5, 0x64A, 12, 1, 1, 2);
    NextU(l, 6, 0xC95, 13, 1, 0, 2);
    NextU(l, 7, 0x192A, 14, 2, 0, 4);
    NextU(l, 8, 0x64A8, 16, 8, 41, 0x100);
    NextUe(l, 9, 0x64A829, 24, 7, 3, 0x80);
    SpeltAll(l, 0x32541488, 31);
  }

  lemma FullHighCode(l: seq<Element>)
    requires l == [Ue(3), U(1, 1), Ue(1), Ue(2), U(1, 0), U(1, 1), U(1, 0), U(1, 0), U(1, 0), U(1, 0), U(1, 0),
                   U(1, 0), U(1, 0), U(1, 0)]
    ensures Codes(l) == Binary(22, 0x94D00) && AllFit(l)
  {
    SmallPowers();
    hide Two, Spelt, Codes, Binary, AllFit;
    SpeltNothing(l);
    NextUe(l, 0, 0, 0, 3, 2, 0x20);
    NextU(l, 1, 4, 5, 1, 1, 2);
    NextUe(l, 2, 9, 6, 1, 1, 8);
    NextUe(l, 3, 0x4A, 9, 2, 1, 8);
    NextU(l, 4, 0x253, 12, 1, 0, 2);
    NextU(l, 5, 0x4A6, 13, 1, 1, 2);
    NextU(l, 6, 0x94D, 14, 1, 0, 2);
    NextU(l, 7, 0x129A, 15, 1, 0, 2);
    NextU(l, 8, 0x2534, 16, 1, 0, 2);
    NextU(l, 9, 0x4A68, 17, 1, 0, 2);
    NextU(l, 10, 0x94D0, 18, 1, 0, 2);
    NextU(l, 11, 0x129A0, 19, 1, 0, 2);
    NextU(l, 12, 0x25340, 20, 1, 0, 2);
    NextU(l, 13, 0x4A680, 21, 1, 0, 2);
    SpeltAll(l, 0x94D00, 22);
  }

  lemma FullOrderCode(l: seq<Element>)
    requires l == [Ue(4), Ue(1), U(1, 1), Se(3), Se(-5), Ue(2), Se(6), Se(-7)]
    ensures Codes(l) == Binary(38, 0xA_A616C60F) && AllFit(l)
  {
    SmallPowers();
    hide Two, Spelt, Codes, Binary, AllFit;
    SpeltNothing(l);
    NextUe(l, 0, 0, 0, 4, 2, 0x20);
    NextUe(l, 1, 5, 5, 1, 1, 8);
    NextU(l, 2, 0x2A, 8, 1, 1, 2);
    NextSe(l, 3, 0x55, 9, 3, 5, 2, 0x20);
    NextSe(l, 4, 0xAA6, 14, -5, 10, 3, 0x80);
    NextUe(l, 5, 0x5530B, 21, 2, 1, 8);
    NextSe(l, 6, 0x2A985B, 24, 6, 11, 3, 0x80);
    NextSe(l, 7, 0x154C2D8C, 31, -7, 14, 3, 0x80);
    SpeltAll(l, 0xA_A616C60F, 38);
  }

  lemma FullFrameCode(l: seq<Element>)
    requires l == [Ue(8), U(1, 1), Ue(39), Ue(29), U(1, 0), U(1, 1), U(1, 0)]
    ensures Codes(l) == Binary(31, 0x98280F2) && AllFit(l)
  {
    SmallPowers();
    hide Two, Spelt, Codes, Binary, AllFit;
    SpeltNothing(l);
    NextUe(l, 0, 0, 0, 8, 3, 0x80);
    NextU(l, 1, 9, 7, 1, 1, 2);
    NextUe(l, 2, 0x13, 8, 39, 5, 0x800);
    NextUe(l, 3, 0x9828, 19, 29, 4, 0x200);
    NextU(l, 4, 0x130501E, 28, 1, 0, 2);
    NextU(l, 5, 0x260A03C, 29, 1, 1, 2);
    NextU(l, 6, 0x4C14079, 30, 1, 0, 2);
    SpeltAll(l, 0x98280F2, 31);
  }

  lemma FullCropCode(l: seq<Element>)
    requires l == [U(1, 1), Ue(9), Ue(10), Ue(11), Ue(12)]
    ensures Codes(l) == Binary(29, 0x1142C60D) && AllFit(l)
  {
    SmallPowers();
    hide Two, Spelt, Codes, Binary, AllFit;
    SpeltNothing(l);
    NextU(l, 0, 0, 0, 1, 1, 2);
    NextUe(l, 1, 1, 1, 9, 3, 0x80);
    NextUe(l, 2, 0x8A, 8, 10, 3, 0x80);
    NextUe(l, 3, 0x450B, 15, 11, 3, 0x80);
    NextUe(l, 4, 0x22858C, 22, 12, 3, 0x80);
    SpeltAll(l, 0x1142C60D, 29);
  }

  lemma FullAspectCode(l: seq<Element>)
    requires l == [U(1, 1), U(8, 255), U(16, 13), U(16, 14), U(1, 1), U(1, 0)]
    ensures Codes(l) == Binary(43, 0x7FC_0034003A) && AllFit(l)
  {
    SmallPowers();
    hide Two, Spelt, Codes, Binary, AllFit;
    SpeltNothing(l);
    NextU(l, 0, 0, 0, 1, 1, 2);
    NextU(l, 1, 1, 1, 8, 255, 0x100);
    NextU(l, 2, 0x1FF, 9, 16, 13, 0x10000);
    NextU(l, 3, 0x1FF000D, 25, 16, 14, 0x10000);
    NextU(l, 4, 0x1FF_000D000E, 41, 1, 1, 2);
    NextU(l, 5, 0x3FE_001A001D, 42, 1, 0, 2);
    SpeltAll(l, 0x7FC_0034003A, 43);
  }

  lemma FullVideoCode(l: seq<Element>)
    requires l == [U(1, 1), U(3, 5), U(1, 0), U(1, 1), U(8, 15), U(8, 16), U(8, 17)]
    ensures Codes(l) == Binary(30, 0x350F1011) && AllFit(l)
  {
    SmallPowers();
    hide Two, Spelt, Codes, Binary, AllFit;
    SpeltNothing(l);
    NextU(l, 0, 0, 0, 1, 1, 2);
    NextU(l, 1, 1, 1, 3, 5, 8);
    NextU(l, 2, 0xD, 4, 1, 0, 2);
    NextU(l, 3, 0x1A, 5, 1, 1, 2);
    NextU(l, 4, 0x35, 6, 8, 15, 0x100);
    NextU(l, 5, 0x350F, 14, 8, 16, 0x100);
    NextU(l, 6, 0x350F10, 22, 8, 17, 0x100);
    SpeltAll(l, 0x350F1011, 30);
  }

  lemma FullTimingCode(l: seq<Element>)
    requires l == [U(1, 1), Ue(18), Ue(19), U(1, 1), U(32, 1001), U(32, 60000), U(1, 0)]
    ensures Codes(l) == Binary(85, 0x109852_000007D2_0001D4C0) && AllFit(l)
  {
    SmallPowers();
    hide Two, Spelt, Codes, Binary, AllFit;
    SpeltNothing(l);
    NextU(l, 0, 0, 0, 1, 1, 2);
    NextUe(l, 1, 1, 1, 18, 4, 0x200);
    NextUe(l, 2, 0x213, 10, 19, 4, 0x200);
    NextU(l, 3, 0x42614, 19, 1, 1, 2);
    NextU(l, 4, 0x84C29, 20, 32, 1001, 0x1_00000000);
    NextU(l, 5, 0x84C29_000003E9, 52, 32, 60000, 0x1_00000000);
    NextU(l, 6, 0x84C29_000003E9_0000EA60, 84, 1, 0, 2);
    SpeltAll(l, 0x109852_000007D2_0001D4C0, 85);
  }

  lemma FullHrdCode(l: seq<Element>)
    requires l == [Ue(1), U(4, 2), U(4, 3), Ue(20), Ue(21), U(1, 1), Ue(22), Ue(23), U(1, 0), U(5, 24), U(5, 25),
                   U(5, 26), U(5, 27)]
    ensures Codes(l) == Binary(69, 0x8_8C2A1685_C30C675B) && AllFit(l)
  {
    SmallPowers();
    hide Two, Spelt, Codes, Binary, AllFit;
    SpeltNothing(l);
    NextUe(l, 0, 0, 0, 1, 1, 8);
    NextU(l, 1, 2, 3, 4, 2, 0x10);
    NextU(l, 2, 0x22, 7, 4, 3, 0x10);
    NextUe(l, 3, 0x223, 11, 20, 4, 0x200);
    NextUe(l, 4, 0x44615, 20, 21, 4, 0x200);
    NextU(l, 5, 0x88C2A16, 29, 1, 1, 2);
    NextUe(l, 6, 0x1118542D, 30, 22, 4, 0x200);
    NextUe(l, 7, 0x22_30A85A17, 39, 23, 4, 0x200);
    NextU(l, 8, 0x4461_50B42E18, 48, 1, 0, 2);
    NextU(l, 9, 0x88C2_A1685C30, 49, 5, 24, 0x20);
    NextU(l, 10, 0x111854_2D0B8618, 54, 5, 25, 0x20);
    NextU(l, 11, 0x2230A85_A170C319, 59, 5, 26, 0x20);
    NextU(l, 12, 0x446150B4_2E18633A, 64, 5, 27, 0x20);
    SpeltAll(l, 0x8_8C2A1685_C30C675B, 69);
  }

  lemma FullRestrictionCode(l: seq<Element>)
    requires l == [U(1, 0), U(1, 1), U(1, 0), Ue(28), Ue(29), Ue(30), Ue(31), Ue(32), Ue(33)]
    ensures Codes(l) == Binary(63, 0x20E8783E_08010822) && AllFit(l)
  {
    SmallPowers();
    hide Two, Spelt, Codes, Binary, AllFit;
    SpeltNothing(l);
    NextU(l, 0, 0, 0, 1, 0, 2);
    NextU(l, 1, 0, 1, 1, 1, 2);
    NextU(l, 2, 1, 2, 1, 0, 2);
    NextUe(l, 3, 2, 3, 28, 4, 0x200);
    NextUe(l, 4, 0x41D, 12, 29, 4, 0x200);
    NextUe(l, 5, 0x83A1E, 21, 30, 4, 0x200);
    NextUe(l, 6, 0x10743C1F, 30, 31, 5, 0x800);
    NextUe(l, 7, 0x83_A1E0F820, 41, 32, 5, 0x800);
    NextUe(l, 8, 0x41D0F_07C10021, 52, 33, 5, 0x800);
    SpeltAll(l, 0x20E8783E_08010822, 63);
  }

  /** A set that uses all of the syntax, bit by bit. */
  lemma FullBits()
    ensures WellFormed(FullSet())
    ensures Bits(Payload(3, FullSet())) ==
      Binary(8, 0x67)  // header
      + ((Binary(31, 0x32541488)  // profile, constraints, level, id
      + (Binary(22, 0x94D00)  // chroma and depths
      + (Binary(38, 0xA_A616C60F)  // order of pictures
      + (Binary(31, 0x98280F2)  // reference frames and size
      + (Binary(29, 0x1142C60D)  // cropping
      + ([true]  // VUI parameters
      + (Binary(43, 0x7FC_0034003A)  // aspect ratio and overscan
      + (Binary(30, 0x350F1011)  // video signal
      + (Binary(85, 0x109852_000007D2_0001D4C0)  // chroma location and timing
      // the two uses of the HRD, and low delay
      + ((([true] + Binary(69, 0x8_8C2A1685_C30C675B)) + (([true] + Binary(69, 0x8_8C2A1685_C30C675B)) + [true]))
      + Binary(63, 0x20E8783E_08010822)))))))))))  // pictures and restrictions
      + [true, false, false, false, false, false])  // stop bit
  {
    hide HeadElements, HighElements, OrderElements, FrameElements, CropElements, FlagElements, Elements, FullSet, Codes,
      Binary, Payload, AllFit, Defaults, HighProfile, Zeroes, Bits;
    var s := FullSet();
    FullStart(s);
    FullFlags(s);
    HighParts(s);
    var a, k, o := HeadElements(s.head), HighElements(s.high), OrderElements(s.order);
    var f, p, g := FrameElements(s.frame), CropElements(s.crop), FlagElements(s);
    Join(p, g);
    Join(f, p + g);
    Join(o, f + (p + g));
    Join(k, o + (f + (p + g)));
    Join(a, k + (o + (f + (p + g))));
    WholePayload(s, 5);
    assert seq(5, _ => false) == [false, false, false, false, false];
  }

  lemma FullStart(s: ParameterSet)
    requires s == FullSet()
    ensures HighProfile(s.head.profile_idc) && s.head.seq_parameter_set_id < SPS_TABLE && Defaults(s)
    ensures Codes(HeadElements(s.head)) == Binary(31, 0x32541488) && AllFit(HeadElements(s.head))
    ensures Codes(HighElements(s.high)) == Binary(22, 0x94D00) && AllFit(HighElements(s.high))
    ensures Codes(OrderElements(s.order)) == Binary(38, 0xA_A616C60F) && AllFit(OrderElements(s.order))
    ensures Codes(FrameElements(s.frame)) == Binary(31, 0x98280F2) && AllFit(FrameElements(s.frame))
    ensures Codes(CropElements(s.crop)) == Binary(29, 0x1142C60D) && AllFit(CropElements(s.crop))
  {
    hide Codes, Binary, AllFit;
    FullHeadCode(HeadElements(s.head));
    FullHighCode(HighElements(s.high));
    FullOrderCode(OrderElements(s.order));
    FullFrameCode(FrameElements(s.frame));
    FullCropCode(CropElements(s.crop));
  }

  lemma FullVuiParts(v: Vui)
    requires v == FullVui()
    ensures Codes(AspectElements(v.aspect)) == Binary(43, 0x7FC_0034003A) && AllFit(AspectElements(v.aspect))
    ensures Codes(VideoElements(v.video)) == Binary(30, 0x350F1011) && AllFit(VideoElements(v.video))
    ensures Codes(TimingElements(v.timing)) == Binary(85, 0x109852_000007D2_0001D4C0)
    ensures AllFit(TimingElements(v.timing))
    ensures Codes(RestrictionElements(v.restriction)) == Binary(63, 0x20E8783E_08010822)
    ensures AllFit(RestrictionElements(v.restriction))
  {
    hide Codes, Binary, AllFit;
    FullAspectCode(AspectElements(v.aspect));
    FullVideoCode(VideoElements(v.video));
    FullTimingCode(TimingElements(v.timing));
    FullRestrictionCode(RestrictionElements(v.restriction));
  }

  lemma FullHrdParts()
    ensures Codes(HrdElements(FullHrd())) == Binary(69, 0x8_8C2A1685_C30C675B) && AllFit(HrdElements(FullHrd()))
  {
    hide Codes, Binary, AllFit;
    var a, b := Schedule(20, 21, 1), Schedule(22, 23, 0);
    assert [a, b][..1] == [a] && [a][..0] == [];
    assert ScheduleElements([a]) == OneSchedule(a);
    assert ScheduleElements([a, b]) == OneSchedule(a) + OneSchedule(b);
    FullHrdCode(HrdElements(FullHrd()));
  }

  lemma FullIs(s: ParameterSet)
    requires s == FullSet()
    ensures s.vui == FullVui() && s.hrd == FullHrd() && s.vui_parameters_present_flag == 1
  {
  }

  lemma FullUse(v: Vui, hrd: Hrd)
    requires v == FullVui()
    ensures var h := HrdElements(hrd); UseElements(v, hrd) == ([U(1, 1)] + h) + (([U(1, 1)] + h) + [U(1, 1)])
  {
    hide HrdElements;
  }

  lemma FullFlags(s: ParameterSet)
    requires s == FullSet()
    ensures AllFit(FlagElements(s))
    ensures Codes(FlagElements(s)) ==
      [true]
      + (Binary(43, 0x7FC_0034003A)
      + (Binary(30, 0x350F1011)
      + (Binary(85, 0x109852_000007D2_0001D4C0)
      + ((([true] + Binary(69, 0x8_8C2A1685_C30C675B)) + (([true] + Binary(69, 0x8_8C2A1685_C30C675B)) + [true]))
      + Binary(63, 0x20E8783E_08010822)))))
  {
    hide AspectElements, VideoElements, TimingElements, UseElements, RestrictionElements, HrdElements, FlagElements,
      Codes, Binary, AllFit, FullSet, FullVui, FullHrd;
    var v, h := s.vui, HrdElements(s.hrd);
    FullIs(s);
    FullVuiParts(v);
    FullHrdParts();
    OneFlag(1);
    OneFlag(0);
    var a, i, t := AspectElements(v.aspect), VideoElements(v.video), TimingElements(v.timing);
    var u, r := UseElements(v, s.hrd), RestrictionElements(v.restriction);
    FlagParts(s);
    FullUse(v, s.hrd);
    Join([U(1, 1)], h);
    Join([U(1, 1)] + h, [U(1, 1)]);
    Join([U(1, 1)] + h, ([U(1, 1)] + h) + [U(1, 1)]);
    Join(u, r);
    Join(t, u + r);
    Join(i, t + (u + r));
    Join(a, i + (t + (u + r)));
    Join([U(1, 1)], a + (i + (t + (u + r))));
  }

  /** A High 10 set that takes the other branches. */
  function OtherSet(): ParameterSet
  {
    ParameterSet(Head(110, 0, 0, 0, 0, 0, 0, 30, 1), High(1, 0, 0, 4, 1, 0), Order(3, 0, 2, 0, 0, 0, 0, []),
                 Frame(5, 0, 19, 14, 1, 0, 1), Crop(0, 0, 0, 0, 0), 1, OtherVui(), OtherHrd())
  }

  function OtherVui(): Vui
  {
    Vui(Aspect(1, 6, 0, 0, 0, 0), Video(1, 1, 1, 0, 0, 0, 0), Timing(0, 0, 0, 0, 0, 0, 0), 0, 1, 0,
        Restriction(1, 0, 0, 0, 0, 0, 0, 0, 0))
  }

  function OtherHrd(): Hrd
  {
    Hrd(0, 8, 9, [Schedule(10, 11, 1)], 12, 13, 15, 16)
  }

  lemma OtherHeadCode(l: seq<Element>)
    requires l == [U(8, 110), U(1, 0), U(1, 0), U(1, 0), U(1, 0), U(1, 0), U(1, 0), U(2, 0), U(8, 30), Ue(1)]
    ensures Codes(l) == Binary(27, 0x37000F2) && AllFit(l)
  {
    SmallPowers();
    hide Two, Spelt, Codes, Binary, AllFit;
    SpeltNothing(l);
    NextU(l, 0, 0, 0, 8, 110, 0x100);
    NextU(l, 1, 0x6E, 8, 1, 0, 2);
    NextU(l, 2, 0xDC, 9, 1, 0, 2);
    NextU(l, 3, 0x1B8, 10, 1, 0, 2);
    NextU(l, 4, 0x370, 11, 1, 0, 2);
    NextU(l, 5, 0x6E0, 12, 1, 0, 2);
    NextU(l, 6, 0xDC0, 13, 1, 0, 2);
    NextU(l, 7, 0x1B80, 14, 2, 0, 4);
    NextU(l, 8, 0x6E00, 16, 8, 30, 0x100);
    NextUe(l, 9, 0x6E001E, 24, 1, 1, 8);
    SpeltAll(l, 0x37000F2, 27);
  }

  lemma OtherHighCode(l: seq<Element>)
    requires l == [Ue(1), Ue(0), Ue(4), U(1, 1), U(1, 0)]
    ensures Codes(l) == Binary(11, 0x296) && AllFit(l)
  {
    SmallPowers();
    hide Two, Spelt, Codes, Binary, AllFit;
    SpeltNothing(l);
    NextUe(l, 0, 0, 0, 1, 1, 8);
    NextUe(l, 1, 2, 3, 0, 0, 2);
    NextUe(l, 2, 5, 4, 4, 2, 0x20);
    NextU(l, 3, 0xA5, 9, 1, 1, 2);
    NextU(l, 4, 0x14B, 10, 1, 0, 2);
    SpeltAll(l, 0x296, 11);
  }

  lemma OtherOrderCode(l: seq<Element>)
    requires l == [Ue(3), Ue(0), Ue(2)]
    ensures Codes(l) == Binary(9, 0x4B) && AllFit(l)
  {
    SmallPowers();
    hide Two, Spelt, Codes, Binary, AllFit;
    SpeltNothing(l);
    NextUe(l, 0, 0, 0, 3, 2, 0x20);
    NextUe(l, 1, 4, 5, 0, 0, 2);
    NextUe(l, 2, 9, 6, 2, 1, 8);
    SpeltAll(l, 0x4B, 9);
  }

  lemma OtherFrameCode(l: seq<Element>)
    requires l == [Ue(5), U(1, 0), Ue(19), Ue(14), U(1, 1), U(1, 1)]
    ensures Codes(l) == Binary(24, 0x30283F) && AllFit(l)
  {
    SmallPowers();
    hide Two, Spelt, Codes, Binary, AllFit;
    SpeltNothing(l);
    NextUe(l, 0, 0, 0, 5, 2, 0x20);
    NextU(l, 1, 6, 5, 1, 0, 2);
    NextUe(l, 2, 0xC, 6, 19, 4, 0x200);
    NextUe(l, 3, 0x1814, 15, 14, 3, 0x80);
    NextU(l, 4, 0xC0A0F, 22, 1, 1, 2);
    NextU(l, 5, 0x18141F, 23, 1, 1, 2);
    SpeltAll(l, 0x30283F, 24);
  }

  lemma OtherCropCode(l: seq<Element>)
    requires l == [U(1, 0)]
    ensures Codes(l) == Binary(1, 0) && AllFit(l)
  {
    SmallPowers();
    hide Two, Spelt, Codes, Binary, AllFit;
    SpeltNothing(l);
    NextU(l, 0, 0, 0, 1, 0, 2);
    SpeltAll(l, 0, 1);
  }

  lemma OtherAspectCode(l: seq<Element>)
    requires l == [U(1, 1), U(8, 6), U(1, 0)]
    ensures Codes(l) == Binary(10, 0x20C) && AllFit(l)
  {
    SmallPowers();
    hide Two, Spelt, Codes, Binary, AllFit;
    SpeltNothing(l);
    NextU(l, 0, 0, 0, 1, 1, 2);
    NextU(l, 1, 1, 1, 8, 6, 0x100);
    NextU(l, 2, 0x106, 9, 1, 0, 2);
    SpeltAll(l, 0x20C, 10);
  }

  lemma OtherVideoCode(l: seq<Element>)
    requires l == [U(1, 1), U(3, 1), U(1, 1), U(1, 0)]
    ensures Codes(l) == Binary(6, 0x26) && AllFit(l)
  {
    SmallPowers();
    hide Two, Spelt, Codes, Binary, AllFit;
    SpeltNothing(l);
    NextU(l, 0, 0, 0, 1, 1, 2);
    NextU(l, 1, 1, 1, 3, 1, 8);
    NextU(l, 2, 9, 4, 1, 1, 2);
    NextU(l, 3, 0x13, 5, 1, 0, 2);
    SpeltAll(l, 0x26, 6);
  }

  lemma OtherTimingCode(l: seq<Element>)
    requires l == [U(1, 0), U(1, 0)]
    ensures Codes(l) == Binary(2, 0) && AllFit(l)
  {
    SmallPowers();
    hide Two, Spelt, Codes, Binary, AllFit;
    SpeltNothing(l);
    NextU(l, 0, 0, 0, 1, 0, 2);
    NextU(l, 1, 0, 1, 1, 0, 2);
    SpeltAll(l, 0, 2);
  }

  lemma OtherHrdCode(l: seq<Element>)
    requires l == [Ue(0), U(4, 8), U(4, 9), Ue(10), Ue(11), U(1, 1), U(5, 12), U(5, 13), U(5, 15), U(5, 16)]
    ensures Codes(l) == Binary(44, 0xC48_B19635F0) && AllFit(l)
  {
    SmallPowers();
    hide Two, Spelt, Codes, Binary, AllFit;
    SpeltNothing(l);
    NextUe(l, 0, 0, 0, 0, 0, 2);
    NextU(l, 1, 1, 1, 4, 8, 0x10);
    NextU(l, 2, 0x18, 5, 4, 9, 0x10);
    NextUe(l, 3, 0x189, 9, 10, 3, 0x80);
    NextUe(l, 4, 0xC48B, 16, 11, 3, 0x80);
    NextU(l, 5, 0x62458C, 23, 1, 1, 2);
    NextU(l, 6, 0xC48B19, 24, 5, 12, 0x20);
    NextU(l, 7, 0x1891632C, 29, 5, 13, 0x20);
    NextU(l, 8, 0x3_122C658D, 34, 5, 15, 0x20);
    NextU(l, 9, 0x62_458CB1AF, 39, 5, 16, 0x20);
    SpeltAll(l, 0xC48_B19635F0, 44);
  }

  lemma OtherRestrictionCode(l: seq<Element>)
    requires l == [U(1, 1), U(1, 0)]
    ensures Codes(l) == Binary(2, 2) && AllFit(l)
  {
    SmallPowers();
    hide Two, Spelt, Codes, Binary, AllFit;
    SpeltNothing(l);
    NextU(l, 0, 0, 0, 1, 1, 2);
    NextU(l, 1, 1, 1, 1, 0, 2);
    SpeltAll(l, 2, 2);
  }

  /** A set that takes the other branches, bit by bit. */
  lemma OtherBits()
    ensures WellFormed(OtherSet())
    ensures Bits(Payload(3, OtherSet())) ==
      Binary(8, 0x67)  // header
      + ((Binary(27, 0x37000F2)  // profile, constraints, level, id
      + (Binary(11, 0x296)  // chroma and depths
      + (Binary(9, 0x4B)  // order of pictures
      + (Binary(24, 0x30283F)  // reference frames and size
      + (Binary(1, 0)  // cropping
      + ([true]  // VUI parameters
      + (Binary(10, 0x20C)  // aspect ratio and overscan
      + (Binary(6, 0x26)  // video signal
      + (Binary(2, 0)  // chroma location and timing
      // the two uses of the HRD, and low delay
      + (([false] + (([true] + Binary(44, 0xC48_B19635F0)) + [false]))
      + Binary(2, 2)))))))))))  // pictures and restrictions
      + [true, false, false, false])  // stop bit
  {
    hide HeadElements, HighElements, OrderElements, FrameElements, CropElements, FlagElements, Elements, OtherSet,
      Codes, Binary, Payload, AllFit, Defaults, HighProfile, Zeroes, Bits;
    var s := OtherSet();
    OtherStart(s);
    OtherFlags(s);
    HighParts(s);
    var a, k, o := HeadElements(s.head), HighElements(s.high), OrderElements(s.order);
    var f, p, g := FrameElements(s.frame), CropElements(s.crop), FlagElements(s);
    Join(p, g);
    Join(f, p + g);
    Join(o, f + (p + g));
    Join(k, o + (f + (p + g)));
    Join(a, k + (o + (f + (p + g))));
    WholePayload(s, 3);
    assert seq(3, _ => false) == [false, false, false];
  }

  lemma OtherStart(s: ParameterSet)
    requires s == OtherSet()
    ensures HighProfile(s.head.profile_idc) && s.head.seq_parameter_set_id < SPS_TABLE && Defaults(s)
    ensures Codes(HeadElements(s.head)) == Binary(27, 0x37000F2) && AllFit(HeadElements(s.head))
    ensures Codes(HighElements(s.high)) == Binary(11, 0x296) && AllFit(HighElements(s.high))
    ensures Codes(OrderElements(s.order)) == Binary(9, 0x4B) && AllFit(OrderElements(s.order))
    ensures Codes(FrameElements(s.frame)) == Binary(24, 0x30283F) && AllFit(FrameElements(s.frame))
    ensures Codes(CropElements(s.crop)) == Binary(1, 0) && AllFit(CropElements(s.crop))
  {
    hide Codes, Binary, AllFit;
    OtherHeadCode(HeadElements(s.head));
    OtherHighCode(HighElements(s.high));
    OtherOrderCode(OrderElements(s.order));
    OtherFrameCode(FrameElements(s.frame));
    OtherCropCode(CropElements(s.crop));
  }

  lemma OtherVuiParts(v: Vui)
    requires v == OtherVui()
    ensures Codes(AspectElements(v.aspect)) == Binary(10, 0x20C) && AllFit(AspectElements(v.aspect))
    ensures Codes(VideoElements(v.video)) == Binary(6, 0x26) && AllFit(VideoElements(v.video))
    ensures Codes(TimingElements(v.timing)) == Binary(2, 0) && AllFit(TimingElements(v.timing))
    ensures Codes(RestrictionElements(v.restriction)) == Binary(2, 2)
    ensures AllFit(RestrictionElements(v.restriction))
  {
    hide Codes, Binary, AllFit;
    OtherAspectCode(AspectElements(v.aspect));
    OtherVideoCode(VideoElements(v.video));
    OtherTimingCode(TimingElements(v.timing));
    OtherRestrictionCode(RestrictionElements(v.restriction));
  }

  lemma OtherHrdParts()
    ensures Codes(HrdElements(OtherHrd())) == Binary(44, 0xC48_B19635F0) && AllFit(HrdElements(OtherHrd()))
  {
    hide Codes, Binary, AllFit;
    var a := Schedule(10, 11, 1);
    assert [a][..0] == [] && ScheduleElements([a]) == OneSchedule(a);
    OtherHrdCode(HrdElements(OtherHrd()));
  }

  lemma OtherIs(s: ParameterSet)
    requires s == OtherSet()
    ensures s.vui == OtherVui() && s.hrd == OtherHrd() && s.vui_parameters_present_flag == 1
  {
  }

  lemma OtherUse(v: Vui, hrd: Hrd)
    requires v == OtherVui()
    ensures var h := HrdElements(hrd); UseElements(v, hrd) == [U(1, 0)] + (([U(1, 1)] + h) + [U(1, 0)])
  {
    hide HrdElements;
  }

  lemma OtherFlags(s: ParameterSet)
    requires s == OtherSet()
    ensures AllFit(FlagElements(s))
    ensures Codes(FlagElements(s)) ==
      [true]
      + (Binary(10, 0x20C)
      + (Binary(6, 0x26)
      + (Binary(2, 0)
      + (([false] + (([true] + Binary(44, 0xC48_B19635F0)) + [false]))
      + Binary(2, 2)))))
  {
    hide AspectElements, VideoElements, TimingElements, UseElements, RestrictionElements, HrdElements, FlagElements,
      Codes, Binary, AllFit, OtherSet, OtherVui, OtherHrd;
    var v, h := s.vui, HrdElements(s.hrd);
    OtherIs(s);
    OtherVuiParts(v);
    OtherHrdParts();
    OneFlag(1);
    OneFlag(0);
    var a, i, t := AspectElements(v.aspect), VideoElements(v.video), TimingElements(v.timing);
    var u, r := UseElements(v, s.hrd), RestrictionElements(v.restriction);
    FlagParts(s);
    OtherUse(v, s.hrd);
    Join([U(1, 1)], h);
    Join([U(1, 1)] + h, [U(1, 0)]);
    Join([U(1, 0)], ([U(1, 1)] + h) + [U(1, 0)]);
    Join(u, r);
    Join(t, u + r);
    Join(i, t + (u + r));
    Join(a, i + (t + (u + r)));
    Join([U(1, 1)], a + (i + (t + (u + r))));
  }
}
