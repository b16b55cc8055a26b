/**
 The runs of zero bits in a coded parameter set: only the timing, the sample aspect ratio and the end of the HRD
 parameters have long ones, so that three quarters of a size are a safe cap for the payload to be packed into it.
 */
module SpsRuns {
  import opened Basics
  import opened BitXor
  import opened NalBytes
  import opened BitCodes
  import opened ZeroRuns
  import opened SpsSyntax
  import opened Sps

  /** The run at the end of the coded elements, with all gains, is below the bound. */
  ghost predicate RunsTo(els: seq<Element>, zeros: nat, gain: nat)
  {
    Below(Scan(Codes(els), Run(0, 0)), Run(zeros, gain))
  }

  lemma RunsToNothing()
    ensures RunsTo([], 0, 0)
  {
  }

  lemma RunsBelow(els: seq<Element>, zeros: nat, gain: nat, zeros': nat, gain': nat)
    requires RunsTo(els, zeros, gain) && zeros <= zeros' && Below(Run(zeros, gain), Run(zeros', gain'))
    ensures RunsTo(els, zeros', gain')
  {
    hide Gain, Scan, Codes, WorthAfter;
    var r, a, b := Scan(Codes(els), Run(0, 0)), Run(zeros, gain), Run(zeros', gain');
    forall m: nat | zeros' + m <= 75 ensures WorthAfter(r, m) <= WorthAfter(b, m) {
      assert WorthAfter(r, m) <= WorthAfter(a, m);
    }
  }

  lemma RunsWeaker(els: seq<Element>, zeros: nat, gain: nat, zeros': nat, gain': nat)
    requires RunsTo(els, zeros, gain) && zeros <= zeros' && gain <= gain'
    ensures RunsTo(els, zeros', gain')
  {
    hide RunsTo;
    RunsBelow(els, zeros, gain, zeros', gain');
  }

  lemma CodesMore(els: seq<Element>, e: Element)
    ensures Scan(Codes(els + [e]), Run(0, 0)) == Scan(Code(e), Scan(Codes(els), Run(0, 0)))
  {
    hide Codes, Code, Scan;
    CodesAppend(els, [e]);
    CodesOne(e);
    ScanAppend(Codes(els), Code(e), Run(0, 0));
  }

  /** One more field of n bits. */
  lemma PlusU(els: seq<Element>, zeros: nat, gain: nat, n: nat, u: nat) returns (r: seq<Element>)
    requires RunsTo(els, zeros, gain) && zeros + n <= 75
    ensures r == els + [U(n, u)] && RunsTo(r, zeros + n, gain)
  {
    hide Codes, Scan, Below, Binary;
    r := els + [U(n, u)];
    CodesMore(els, U(n, u));
    BelowBits(Binary(n, u), Scan(Codes(els), Run(0, 0)), Run(zeros, gain));
  }

  /** One more field that ends in a one. */
  lemma PlusOdd(els: seq<Element>, zeros: nat, gain: nat, n: nat, u: nat) returns (r: seq<Element>)
    requires RunsTo(els, zeros, gain) && 0 < n && zeros + n <= 75 && u % 2 == 1
    ensures r == els + [U(n, u)] && RunsTo(r, 0, gain + Gain(zeros + n - 1))
  {
    hide Codes, Scan, Below, Gain;
    r := els + [U(n, u)];
    CodesMore(els, U(n, u));
    assert Binary(n, u)[n - 1];
    hide Binary;
    BelowOne(Binary(n, u), n - 1, Scan(Codes(els), Run(0, 0)), Run(zeros, gain));
  }

  lemma PlusFlag(els: seq<Element>, zeros: nat, gain: nat, u: nat) returns (r: seq<Element>)
    requires RunsTo(els, zeros, gain) && zeros < 75 && Fits(U(1, u))
    ensures r == els + [U(1, u)] && if u == 0 then RunsTo(r, zeros + 1, gain) else RunsTo(r, 0, gain + Gain(zeros))
  {
    hide RunsTo, Gain;
    Powers();
    hide Two;
    if u == 0 {
      r := PlusU(els, zeros, gain, 1, u);
    } else {
      r := PlusOdd(els, zeros, gain, 1, u);
    }
  }

  /** The number of zeros with which the code of a number starts. */
  function Leading(v: nat): nat
    requires v <= UE_MAX
  {
    LengthIs(v + 1);
    Length(v + 1) - 1
  }

  /** One more number. */
  lemma PlusCode(els: seq<Element>, zeros: nat, gain: nat, l: nat, e: Element, v: nat) returns (r: seq<Element>)
    requires RunsTo(els, zeros, gain) && zeros + l < 75 && l <= 15
    requires v <= UE_MAX && Leading(v) <= l && Code(e) == UeCode(v)
    ensures r == els + [e] && RunsTo(r, l, gain + Gain(zeros + l))
  {
    hide Codes, Code, Scan, Below, UeCode, Length, Gain;
    r := els + [e];
    CodesMore(els, e);
    UeParts(v);
    var k := Leading(v);
    BelowOne(UeCode(v), k, Scan(Codes(els), Run(0, 0)), Run(zeros, gain));
    GainMonotone(zeros + k, zeros + l);
    RunsWeaker(r, k, gain + Gain(zeros + k), l, gain + Gain(zeros + l));
  }

  lemma AnyLeading(v: nat)
    requires v <= UE_MAX
    ensures Leading(v) <= 15 && (v < 32 ==> Leading(v) <= 5)
  {
    LengthIs(v + 1);
  }

  lemma PlusUe(els: seq<Element>, zeros: nat, gain: nat, v: nat) returns (r: seq<Element>)
    requires RunsTo(els, zeros, gain) && zeros < 60 && Fits(Ue(v))
    ensures r == els + [Ue(v)] && RunsTo(r, 15, gain + Gain(zeros + 15))
  {
    hide RunsTo, Gain, UeCode, Leading;
    AnyLeading(v);
    r := PlusCode(els, zeros, gain, 15, Ue(v), v);
  }

  lemma PlusSmallUe(els: seq<Element>, zeros: nat, gain: nat, v: nat) returns (r: seq<Element>)
    requires RunsTo(els, zeros, gain) && zeros < 70 && v < 32
    ensures r == els + [Ue(v)] && RunsTo(r, 5, gain + Gain(zeros + 5))
  {
    hide RunsTo, Gain, UeCode, Leading;
    AnyLeading(v);
    r := PlusCode(els, zeros, gain, 5, Ue(v), v);
  }

  lemma PlusSe(els: seq<Element>, zeros: nat, gain: nat, v: int) returns (r: seq<Element>)
    requires RunsTo(els, zeros, gain) && zeros < 60 && Fits(Se(v))
    ensures r == els + [Se(v)] && RunsTo(r, 15, gain + Gain(zeros + 15))
  {
    hide RunsTo, Gain, UeCode, Leading;
    AnyLeading(SeNumber(v));
    r := PlusCode(els, zeros, gain, 15, Se(v), SeNumber(v));
  }

  lemma FitsIn(els: seq<Element>, e: Element)
    requires AllFit(els) && e in els
    ensures Fits(e)
  {
  }

  lemma FitAmong(els: seq<Element>, part: seq<Element>)
    requires AllFit(els) && forall e :: e in part ==> e in els
    ensures AllFit(part)
  {
    forall i | 0 <= i < |part| ensures Fits(part[i]) {
      assert part[i] in els;
    }
  }

  // ----- the parts of a parameter set

  lemma HeadRuns(els: seq<Element>, h: Head) returns (r: seq<Element>)
    requires RunsTo(els, 0, 0) && h.seq_parameter_set_id < SPS_TABLE
    ensures r == els + HeadElements(h) && RunsTo(r, 5, 0)
  {
    hide RunsTo;
    r := PlusU(els, 0, 0, 8, h.profile_idc);
    r := PlusU(r, 8, 0, 1, h.constraint_set0_flag);
    r := PlusU(r, 9, 0, 1, h.constraint_set1_flag);
    r := PlusU(r, 10, 0, 1, h.constraint_set2_flag);
    r := PlusU(r, 11, 0, 1, h.constraint_set3_flag);
    r := PlusU(r, 12, 0, 1, h.constraint_set4_flag);
    r := PlusU(r, 13, 0, 1, h.constraint_set5_flag);
    r := PlusU(r, 14, 0, 2, 0);
    r := PlusU(r, 16, 0, 8, h.level_idc);
    r := PlusSmallUe(r, 24, 0, h.seq_parameter_set_id);
  }

  function ChromaElements(h: High): seq<Element>
  {
    [Ue(h.chroma_format_idc)] +
      if h.chroma_format_idc == 3 then [U(1, h.residual_colour_transform_flag)] else []
  }

  lemma ChromaRuns(els: seq<Element>, h: High) returns (r: seq<Element>)
    requires RunsTo(els, 15, 0) && Fits(Ue(h.chroma_format_idc))
    ensures r == els + ChromaElements(h) && RunsTo(r, 16, 0)
  {
    hide RunsTo, Fits;
    r := PlusUe(els, 15, 0, h.chroma_format_idc);
    if h.chroma_format_idc == 3 {
      r := PlusU(r, 15, 0, 1, h.residual_colour_transform_flag);
    } else {
      RunsWeaker(r, 15, 0, 16, 0);
    }
  }

  function DepthElements(h: High): seq<Element>
  {
    [Ue(h.bit_depth_luma_minus8), Ue(h.bit_depth_chroma_minus8), U(1, h.qpprime_y_zero_transform_bypass_flag),
     U(1, h.seq_scaling_matrix_present_flag)]
  }

  lemma DepthRuns(els: seq<Element>, h: High) returns (r: seq<Element>)
    requires RunsTo(els, 16, 0) && AllFit(DepthElements(h))
    ensures r == els + DepthElements(h)
    ensures if h.seq_scaling_matrix_present_flag == 0 then RunsTo(r, 17, 0) else RunsTo(r, 0, 0)
  {
    hide RunsTo, Fits;
    FitsIn(DepthElements(h), Ue(h.bit_depth_luma_minus8));
    FitsIn(DepthElements(h), Ue(h.bit_depth_chroma_minus8));
    FitsIn(DepthElements(h), U(1, h.seq_scaling_matrix_present_flag));
    hide AllFit;
    r := PlusUe(els, 16, 0, h.bit_depth_luma_minus8);
    r := PlusUe(r, 15, 0, h.bit_depth_chroma_minus8);
    r := PlusU(r, 15, 0, 1, h.qpprime_y_zero_transform_bypass_flag);
    r := PlusFlag(r, 16, 0, h.seq_scaling_matrix_present_flag);
  }

  lemma HighRuns(els: seq<Element>, h: High) returns (r: seq<Element>)
    requires RunsTo(els, 15, 0) && AllFit(HighElements(h))
    ensures r == els + HighElements(h) && RunsTo(r, 17, 0)
  {
    hide RunsTo, Fits;
    var all := HighElements(h);
    var lists := if h.seq_scaling_matrix_present_flag != 0 then NoLists() else [];
    FitsIn(all, Ue(h.chroma_format_idc));
    assert all == ChromaElements(h) + DepthElements(h) + lists by {
      hide NoLists;
    }
    FitAmong(all, DepthElements(h));
    hide AllFit, HighElements, ChromaElements, DepthElements, NoLists;
    r := ChromaRuns(els, h);
    r := DepthRuns(r, h);
    assert r == els + (ChromaElements(h) + DepthElements(h));
    if h.seq_scaling_matrix_present_flag != 0 {
      r := NoListsRuns(r);
      RunsWeaker(r, 8, 0, 17, 0);
    }
  }

  lemma NoListsRuns(els: seq<Element>) returns (r: seq<Element>)
    requires RunsTo(els, 0, 0)
    ensures r == els + NoLists() && RunsTo(r, 8, 0)
  {
    hide RunsTo;
    r := els;
    var i: nat := 0;
    while i < 8
      invariant i <= 8 && r == els + NoLists()[..i] && RunsTo(r, i, 0)
    {
      r := PlusU(r, i, 0, 1, 0);
      i := i + 1;
    }
  }

  lemma {:induction false} OffsetsRuns(els: seq<Element>, s: seq<int>) returns (r: seq<Element>)
    requires RunsTo(els, 15, 0) && AllFit(Offsets(s))
    ensures r == els + Offsets(s) && RunsTo(r, 15, 0)
    decreases |s|
  {
    hide RunsTo, Fits;
    if s == [] {
      r := els;
    } else {
      var n := |s| - 1;
      assert Offsets(s) == Offsets(s[..n]) + [Se(s[n])];
      FitsIn(Offsets(s), Se(s[n]));
      assert forall i :: 0 <= i < n ==> Offsets(s[..n])[i] == Offsets(s)[i];
      r := OffsetsRuns(els, s[..n]);
      hide AllFit, Offsets;
      r := PlusSe(r, 15, 0, s[n]);
    }
  }

  lemma OrderRuns(els: seq<Element>, o: Order) returns (r: seq<Element>)
    requires RunsTo(els, 17, 0) && AllFit(OrderElements(o))
    ensures r == els + OrderElements(o) && RunsTo(r, 15, 0)
  {
    hide RunsTo, Fits, Offsets;
    var all := OrderElements(o);
    FitsIn(all, Ue(o.log2_max_frame_num_minus4));
    FitsIn(all, Ue(o.pic_order_cnt_type));
    r := PlusUe(els, 17, 0, o.log2_max_frame_num_minus4);
    r := PlusUe(r, 15, 0, o.pic_order_cnt_type);
    if o.pic_order_cnt_type == 0 {
      FitsIn(all, Ue(o.log2_max_pic_order_cnt_lsb_minus4));
      r := PlusUe(r, 15, 0, o.log2_max_pic_order_cnt_lsb_minus4);
    } else if o.pic_order_cnt_type == 1 {
      FitsIn(all, Se(o.offset_for_non_ref_pic));
      FitsIn(all, Se(o.offset_for_top_to_bottom_field));
      FitsIn(all, Ue(o.num_ref_frames_in_pic_order_cnt_cycle));
      FitAmong(all, Offsets(o.offset_for_ref_frame));
      hide AllFit;
      r := PlusU(r, 15, 0, 1, o.delta_pic_order_always_zero_flag);
      r := PlusSe(r, 16, 0, o.offset_for_non_ref_pic);
      r := PlusSe(r, 15, 0, o.offset_for_top_to_bottom_field);
      r := PlusUe(r, 15, 0, o.num_ref_frames_in_pic_order_cnt_cycle);
      r := OffsetsRuns(r, o.offset_for_ref_frame);
    }
  }

  lemma FrameRuns(els: seq<Element>, f: Frame) returns (r: seq<Element>)
    requires RunsTo(els, 15, 0) && AllFit(FrameElements(f))
    ensures r == els + FrameElements(f) && RunsTo(r, 18, 0)
  {
    hide RunsTo, Fits;
    var all := FrameElements(f);
    FitsIn(all, Ue(f.num_ref_frames));
    FitsIn(all, Ue(f.pic_width_in_mbs_minus1));
    FitsIn(all, Ue(f.pic_height_in_map_units_minus1));
    hide AllFit;
    r := PlusUe(els, 15, 0, f.num_ref_frames);
    r := PlusU(r, 15, 0, 1, f.gaps_in_frame_num_value_allowed_flag);
    r := PlusUe(r, 16, 0, f.pic_width_in_mbs_minus1);
    r := PlusUe(r, 15, 0, f.pic_height_in_map_units_minus1);
    r := PlusU(r, 15, 0, 1, f.frame_mbs_only_flag);
    if f.frame_mbs_only_flag == 0 {
      r := PlusU(r, 16, 0, 1, f.mb_adaptive_frame_field_flag);
    } else {
      RunsWeaker(r, 16, 0, 17, 0);
    }
    r := PlusU(r, 17, 0, 1, f.direct_8x8_inference_flag);
  }

  lemma CropRuns(els: seq<Element>, c: Crop) returns (r: seq<Element>)
    requires RunsTo(els, 18, 0) && AllFit(CropElements(c))
    ensures r == els + CropElements(c) && RunsTo(r, 19, 0)
  {
    hide RunsTo, Fits;
    var all := CropElements(c);
    r := PlusU(els, 18, 0, 1, c.frame_cropping_flag);
    if c.frame_cropping_flag != 0 {
      FitsIn(all, Ue(c.frame_crop_left_offset));
      FitsIn(all, Ue(c.frame_crop_right_offset));
      FitsIn(all, Ue(c.frame_crop_top_offset));
      FitsIn(all, Ue(c.frame_crop_bottom_offset));
      hide AllFit;
      r := PlusUe(r, 19, 0, c.frame_crop_left_offset);
      r := PlusUe(r, 15, 0, c.frame_crop_right_offset);
      r := PlusUe(r, 15, 0, c.frame_crop_top_offset);
      r := PlusUe(r, 15, 0, c.frame_crop_bottom_offset);
      RunsWeaker(r, 15, 0, 19, 0);
    }
  }

  // ----- the VUI parameters

  lemma AspectRuns(els: seq<Element>, a: Aspect) returns (r: seq<Element>)
    requires RunsTo(els, 0, 0) && AllFit(AspectElements(a))
    ensures r == els + AspectElements(a) && RunsTo(r, 33, 0)
  {
    hide RunsTo, Fits;
    var all := AspectElements(a);
    FitsIn(all, U(1, a.aspect_ratio_info_present_flag));
    FitsIn(all, U(1, a.overscan_info_present_flag));
    hide AllFit;
    r := PlusFlag(els, 0, 0, a.aspect_ratio_info_present_flag);
    if a.aspect_ratio_info_present_flag != 0 {
      if a.aspect_ratio_idc == SAR_Extended {
        r := PlusOdd(r, 0, 0, 8, a.aspect_ratio_idc);
        r := PlusU(r, 0, 0, 16, a.sar_width);
        r := PlusU(r, 16, 0, 16, a.sar_height);
      } else {
        r := PlusU(r, 0, 0, 8, a.aspect_ratio_idc);
        RunsWeaker(r, 8, 0, 32, 0);
      }
    } else {
      RunsWeaker(r, 1, 0, 32, 0);
    }
    r := PlusFlag(r, 32, 0, a.overscan_info_present_flag);
    if a.overscan_info_present_flag != 0 {
      r := PlusU(r, 0, 0, 1, a.overscan_appropriate_flag);
      RunsWeaker(r, 1, 0, 33, 0);
    }
  }

  lemma VideoRuns(els: seq<Element>, v: Video) returns (r: seq<Element>)
    requires RunsTo(els, 33, 0) && AllFit(VideoElements(v))
    ensures r == els + VideoElements(v) && RunsTo(r, 34, 0)
  {
    hide RunsTo, Fits;
    FitsIn(VideoElements(v), U(1, v.video_signal_type_present_flag));
    hide AllFit;
    r := PlusFlag(els, 33, 0, v.video_signal_type_present_flag);
    if v.video_signal_type_present_flag != 0 {
      r := PlusU(r, 0, 0, 3, v.video_format);
      r := PlusU(r, 3, 0, 1, v.video_full_range_flag);
      r := PlusU(r, 4, 0, 1, v.colour_description_present_flag);
      if v.colour_description_present_flag != 0 {
        r := PlusU(r, 5, 0, 8, v.colour_primaries);
        r := PlusU(r, 13, 0, 8, v.transfer_characteristics);
        r := PlusU(r, 21, 0, 8, v.matrix_coefficients);
      } else {
        RunsWeaker(r, 5, 0, 29, 0);
      }
      RunsWeaker(r, 29, 0, 34, 0);
    }
  }

  lemma TimingRuns(els: seq<Element>, t: Timing) returns (r: seq<Element>)
    requires RunsTo(els, 34, 0) && AllFit(TimingElements(t))
    ensures r == els + TimingElements(t) && RunsTo(r, 65, 0)
  {
    hide RunsTo, Fits;
    var all := TimingElements(t);
    FitsIn(all, U(1, t.chroma_loc_info_present_flag));
    FitsIn(all, U(1, t.timing_info_present_flag));
    r := PlusFlag(els, 34, 0, t.chroma_loc_info_present_flag);
    if t.chroma_loc_info_present_flag != 0 {
      FitsIn(all, Ue(t.chroma_sample_loc_type_top_field));
      FitsIn(all, Ue(t.chroma_sample_loc_type_bottom_field));
      r := PlusUe(r, 0, 0, t.chroma_sample_loc_type_top_field);
      r := PlusUe(r, 15, 0, t.chroma_sample_loc_type_bottom_field);
      RunsWeaker(r, 15, 0, 35, 0);
    }
    hide AllFit;
    r := PlusFlag(r, 35, 0, t.timing_info_present_flag);
    if t.timing_info_present_flag != 0 {
      r := PlusU(r, 0, 0, 32, t.num_units_in_tick);
      r := PlusU(r, 32, 0, 32, t.time_scale);
      r := PlusU(r, 64, 0, 1, t.fixed_frame_rate_flag);
    } else {
      RunsWeaker(r, 36, 0, 65, 0);
    }
  }

  lemma {:induction false} SchedulesRuns(els: seq<Element>, s: seq<Schedule>, gain: nat) returns (r: seq<Element>)
    requires RunsTo(els, 16, gain) && AllFit(ScheduleElements(s))
    ensures r == els + ScheduleElements(s) && RunsTo(r, 16, gain)
    decreases |s|
  {
    hide RunsTo, Fits;
    if s == [] {
      r := els;
    } else {
      var t, x := s[..|s| - 1], s[|s| - 1];
      var all := ScheduleElements(s);
      assert all == ScheduleElements(t) + OneSchedule(x);
      FitsIn(all, Ue(x.bit_rate_value_minus1));
      FitsIn(all, Ue(x.cpb_size_value_minus1));
      FitAmong(all, ScheduleElements(t));
      r := SchedulesRuns(els, t, gain);
      hide AllFit, ScheduleElements;
      r := PlusUe(r, 16, gain, x.bit_rate_value_minus1);
      r := PlusUe(r, 15, gain, x.cpb_size_value_minus1);
      r := PlusU(r, 15, gain, 1, x.cbr_flag);
    }
  }

  lemma HrdRuns(els: seq<Element>, h: Hrd, gain: nat) returns (r: seq<Element>)
    requires RunsTo(els, 0, gain) && AllFit(HrdElements(h)) && h.cpb_cnt_minus1 < SCHEDULES_MAX
    ensures r == els + HrdElements(h) && RunsTo(r, 36, gain)
  {
    hide RunsTo, Fits, ScheduleElements;
    FitAmong(HrdElements(h), ScheduleElements(h.schedules));
    hide AllFit;
    r := PlusSmallUe(els, 0, gain, h.cpb_cnt_minus1);
    r := PlusU(r, 5, gain, 4, h.bit_rate_scale);
    r := PlusU(r, 9, gain, 4, h.cpb_size_scale);
    RunsWeaker(r, 13, gain, 16, gain);
    r := SchedulesRuns(r, h.schedules, gain);
    r := PlusU(r, 16, gain, 5, h.initial_cpb_removal_delay_length_minus1);
    r := PlusU(r, 21, gain, 5, h.cpb_removal_delay_length_minus1);
    r := PlusU(r, 26, gain, 5, h.dpb_output_delay_length_minus1);
    r := PlusU(r, 31, gain, 5, h.time_offset_length);
  }

  lemma UseRuns(els: seq<Element>, v: Vui, h: Hrd) returns (r: seq<Element>)
    requires RunsTo(els, 65, 0) && AllFit(UseElements(v, h))
    requires v.nal_hrd_parameters_present_flag != 0 || v.vcl_hrd_parameters_present_flag != 0 ==> HrdComplete(h)
    ensures r == els + UseElements(v, h) && RunsTo(r, 67, 1)
  {
    hide RunsTo, Fits, HrdElements;
    var all := UseElements(v, h);
    var nal, vcl := v.nal_hrd_parameters_present_flag, v.vcl_hrd_parameters_present_flag;
    FitsIn(all, U(1, nal));
    FitsIn(all, U(1, vcl));
    if nal != 0 || vcl != 0 {
      FitAmong(all, HrdElements(h));
    }
    hide AllFit;
    r := PlusFlag(els, 65, 0, nal);
    var zeros, gain := 66, 0;
    if nal != 0 {
      r := HrdRuns(r, h, 2);
      zeros, gain := 36, 2;
    }
    assert r == els + ([U(1, nal)] + if nal != 0 then HrdElements(h) else []);
    r := PlusFlag(r, zeros, gain, vcl);
    zeros := zeros + 1;
    if vcl != 0 {
      r := HrdRuns(r, h, 2);
      zeros, gain := 36, 2;
    }
    if nal != 0 || vcl != 0 {
      r := PlusU(r, zeros, gain, 1, v.low_delay_hrd_flag);
      RunsWeaker(r, zeros + 1, gain, 38, 2);
      RunsBelow(r, 38, 2, 67, 1);
    } else {
      RunsWeaker(r, 67, 0, 67, 1);
    }
  }

  function Limits(x: Restriction): seq<Element>
  {
    [U(1, x.motion_vectors_over_pic_boundaries_flag), Ue(x.max_bytes_per_pic_denom), Ue(x.max_bits_per_mb_denom),
     Ue(x.log2_max_mv_length_horizontal), Ue(x.log2_max_mv_length_vertical), Ue(x.num_reorder_frames),
     Ue(x.max_dec_frame_buffering)]
  }

  lemma LimitsRuns(els: seq<Element>, x: Restriction) returns (r: seq<Element>)
    requires RunsTo(els, 0, 3) && AllFit(Limits(x))
    ensures r == els + Limits(x) && RunsTo(r, 15, 3)
  {
    hide RunsTo, Fits;
    var all := Limits(x);
    FitsIn(all, Ue(x.max_bytes_per_pic_denom));
    FitsIn(all, Ue(x.max_bits_per_mb_denom));
    FitsIn(all, Ue(x.log2_max_mv_length_horizontal));
    FitsIn(all, Ue(x.log2_max_mv_length_vertical));
    FitsIn(all, Ue(x.num_reorder_frames));
    FitsIn(all, Ue(x.max_dec_frame_buffering));
    hide AllFit;
    r := PlusU(els, 0, 3, 1, x.motion_vectors_over_pic_boundaries_flag);
    r := PlusUe(r, 1, 3, x.max_bytes_per_pic_denom);
    r := PlusUe(r, 15, 3, x.max_bits_per_mb_denom);
    r := PlusUe(r, 15, 3, x.log2_max_mv_length_horizontal);
    r := PlusUe(r, 15, 3, x.log2_max_mv_length_vertical);
    r := PlusUe(r, 15, 3, x.num_reorder_frames);
    r := PlusUe(r, 15, 3, x.max_dec_frame_buffering);
  }

  lemma RestrictionRuns(els: seq<Element>, x: Restriction) returns (r: seq<Element>)
    requires RunsTo(els, 67, 1) && AllFit(RestrictionElements(x))
    ensures r == els + RestrictionElements(x) && RunsTo(r, 69, 1)
  {
    hide RunsTo, Fits;
    var all := RestrictionElements(x);
    var flags := [U(1, x.pic_struct_present_flag), U(1, x.bitstream_restriction_flag)];
    FitsIn(all, flags[1]);
    assert all == flags + if x.bitstream_restriction_flag != 0 then Limits(x) else [];
    r := PlusU(els, 67, 1, 1, x.pic_struct_present_flag);
    r := PlusFlag(r, 68, 1, x.bitstream_restriction_flag);
    assert r == els + flags;
    if x.bitstream_restriction_flag != 0 {
      FitAmong(all, Limits(x));
      hide AllFit, Limits, RestrictionElements;
      r := LimitsRuns(r, x);
      RunsBelow(r, 15, 3, 69, 1);
    }
  }

  lemma VuiRuns(els: seq<Element>, v: Vui, h: Hrd) returns (r: seq<Element>)
    requires RunsTo(els, 0, 0) && AllFit(VuiElements(v, h))
    requires v.nal_hrd_parameters_present_flag != 0 || v.vcl_hrd_parameters_present_flag != 0 ==> HrdComplete(h)
    ensures r == els + VuiElements(v, h) && RunsTo(r, 69, 1)
  {
    hide RunsTo, Fits, AllFit, AspectElements, VideoElements, TimingElements, UseElements, RestrictionElements;
    var all := VuiElements(v, h);
    FitAmong(all, AspectElements(v.aspect));
    FitAmong(all, VideoElements(v.video));
    FitAmong(all, TimingElements(v.timing));
    FitAmong(all, UseElements(v, h));
    FitAmong(all, RestrictionElements(v.restriction));
    r := AspectRuns(els, v.aspect);
    r := VideoRuns(r, v.video);
    r := TimingRuns(r, v.timing);
    r := UseRuns(r, v, h);
    r := RestrictionRuns(r, v.restriction);
  }

  lemma FlagRuns(els: seq<Element>, s: ParameterSet) returns (r: seq<Element>)
    requires RunsTo(els, 19, 0) && AllFit(FlagElements(s)) && (UsesHrd(s) ==> HrdComplete(s.hrd))
    ensures r == els + FlagElements(s) && RunsTo(r, 69, 1)
  {
    hide RunsTo, Fits, VuiElements;
    var all := FlagElements(s);
    FitsIn(all, U(1, s.vui_parameters_present_flag));
    r := PlusFlag(els, 19, 0, s.vui_parameters_present_flag);
    if s.vui_parameters_present_flag != 0 {
      FitAmong(all, VuiElements(s.vui, s.hrd));
      hide AllFit;
      r := VuiRuns(r, s.vui, s.hrd);
    } else {
      RunsWeaker(r, 20, 0, 69, 1);
    }
  }

  /** After a whole parameter set, the run is worth no more than 69 zeros after a gain of one. */
  lemma ElementsRuns(els: seq<Element>, s: ParameterSet) returns (r: seq<Element>)
    requires RunsTo(els, 0, 0) && Writable(s) && s.head.seq_parameter_set_id < SPS_TABLE
    ensures r == els + Elements(s) && RunsTo(r, 69, 1)
  {
    hide RunsTo, Fits, AllFit, HeadElements, HighElements, OrderElements, FrameElements, CropElements, FlagElements;
    var all := Elements(s);
    FitAmong(all, OrderElements(s.order));
    FitAmong(all, FrameElements(s.frame));
    FitAmong(all, CropElements(s.crop));
    FitAmong(all, FlagElements(s));
    r := HeadRuns(els, s.head);
    RunsWeaker(r, 5, 0, 15, 0);
    if HighProfile(s.head.profile_idc) {
      FitAmong(all, HighElements(s.high));
      r := HighRuns(r, s.high);
    } else {
      RunsWeaker(r, 15, 0, 17, 0);
    }
    assert r == els + (HeadElements(s.head) + if HighProfile(s.head.profile_idc) then HighElements(s.high) else []);
    r := OrderRuns(r, s.order);
    r := FrameRuns(r, s.frame);
    r := CropRuns(r, s.crop);
    r := FlagRuns(r, s);
  }
}
