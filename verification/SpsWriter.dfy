/** Writing a sequence parameter set, field by field. */
module SpsWriter {
  import opened BitCodes
  import opened BitStream
  import opened SpsSyntax
  import opened Sps

  method WriteHead(b: Bs, h: Head, ghost was: seq<bool>, ghost start: nat, ghost e0: seq<Element>)
    returns (ghost els: seq<Element>)
    requires b.Valid() && Put(b.Stream(), was, start, b.Pos(), e0) && AllFit(HeadElements(h))
    modifies b, b.buf
    ensures b.Valid() && els == e0 + HeadElements(h) && Put(b.Stream(), was, start, b.Pos(), els)
  {
    hide Put, Bits;
    els := e0;
    PutU8(b, h.profile_idc, was, start, els);
    els := els + [U(8, h.profile_idc)];
    PutU1(b, h.constraint_set0_flag, was, start, els);
    els := els + [U(1, h.constraint_set0_flag)];
    PutU1(b, h.constraint_set1_flag, was, start, els);
    els := els + [U(1, h.constraint_set1_flag)];
    PutU1(b, h.constraint_set2_flag, was, start, els);
    els := els + [U(1, h.constraint_set2_flag)];
    PutU1(b, h.constraint_set3_flag, was, start, els);
    els := els + [U(1, h.constraint_set3_flag)];
    PutU1(b, h.constraint_set4_flag, was, start, els);
    els := els + [U(1, h.constraint_set4_flag)];
    PutU1(b, h.constraint_set5_flag, was, start, els);
    els := els + [U(1, h.constraint_set5_flag)];
    PutU(b, 2, 0, was, start, els);
    els := els + [U(2, 0)];
    PutU8(b, h.level_idc, was, start, els);
    els := els + [U(8, h.level_idc)];
    assert Fits(HeadElements(h)[9]);
    PutUe(b, h.seq_parameter_set_id, was, start, els);
    els := els + [Ue(h.seq_parameter_set_id)];
    assert els == e0 + HeadElements(h);
  }

  method WriteNoLists(b: Bs, ghost was: seq<bool>, ghost start: nat, ghost e0: seq<Element>)
    returns (ghost els: seq<Element>)
    requires b.Valid() && Put(b.Stream(), was, start, b.Pos(), e0)
    modifies b, b.buf
    ensures b.Valid() && els == e0 + NoLists() && Put(b.Stream(), was, start, b.Pos(), els)
  {
    hide Put, Bits;
    els := e0;
    for i := 0 to 8
      invariant b.Valid() && els == e0 + NoLists()[..i] && Put(b.Stream(), was, start, b.Pos(), els)
    {
      PutU1(b, 0, was, start, els);
      els := els + [U(1, 0)];
      assert NoLists()[..i + 1] == NoLists()[..i] + [U(1, 0)];
    }
    assert NoLists()[..8] == NoLists();
  }

  method WriteHigh(b: Bs, h: High, ghost was: seq<bool>, ghost start: nat, ghost e0: seq<Element>)
    returns (ghost els: seq<Element>)
    requires b.Valid() && Put(b.Stream(), was, start, b.Pos(), e0) && AllFit(HighElements(h))
    modifies b, b.buf
    ensures b.Valid() && els == e0 + HighElements(h) && Put(b.Stream(), was, start, b.Pos(), els)
  {
    hide Put, Bits, NoLists;
    ghost var g, k := HighElements(h), if h.chroma_format_idc == 3 then 2 else 1;
    els := e0;
    assert Fits(g[0]) && Fits(g[k]) && Fits(g[k + 1]);
    PutUe(b, h.chroma_format_idc, was, start, els);
    els := els + [Ue(h.chroma_format_idc)];
    if h.chroma_format_idc == 3 {
      PutU1(b, h.residual_colour_transform_flag, was, start, els);
      els := els + [U(1, h.residual_colour_transform_flag)];
    }
    PutUe(b, h.bit_depth_luma_minus8, was, start, els);
    els := els + [Ue(h.bit_depth_luma_minus8)];
    PutUe(b, h.bit_depth_chroma_minus8, was, start, els);
    els := els + [Ue(h.bit_depth_chroma_minus8)];
    PutU1(b, h.qpprime_y_zero_transform_bypass_flag, was, start, els);
    els := els + [U(1, h.qpprime_y_zero_transform_bypass_flag)];
    PutU1(b, h.seq_scaling_matrix_present_flag, was, start, els);
    els := els + [U(1, h.seq_scaling_matrix_present_flag)];
    if h.seq_scaling_matrix_present_flag != 0 {
      els := WriteNoLists(b, was, start, els);
    }
    HighJoined(els, e0, h);
  }

  lemma HighJoined(els: seq<Element>, e0: seq<Element>, h: High)
    requires els == e0 + [Ue(h.chroma_format_idc)] +
      (if h.chroma_format_idc == 3 then [U(1, h.residual_colour_transform_flag)] else [])
      + [Ue(h.bit_depth_luma_minus8)] + [Ue(h.bit_depth_chroma_minus8)] + [U(1, h.qpprime_y_zero_transform_bypass_flag)]
      + [U(1, h.seq_scaling_matrix_present_flag)] + (if h.seq_scaling_matrix_present_flag != 0 then NoLists() else [])
    ensures els == e0 + HighElements(h)
  {
    hide NoLists;
  }

  method WriteOffsets(b: Bs, s: seq<int>, n: nat, ghost was: seq<bool>, ghost start: nat, ghost e0: seq<Element>)
    returns (ghost els: seq<Element>)
    requires b.Valid() && Put(b.Stream(), was, start, b.Pos(), e0) && AllFit(Offsets(s)) && n == |s|
    modifies b, b.buf
    ensures b.Valid() && els == e0 + Offsets(s) && Put(b.Stream(), was, start, b.Pos(), els)
  {
    hide Put, Bits;
    els := e0;
    for i := 0 to n
      invariant b.Valid() && els == e0 + Offsets(s)[..i] && Put(b.Stream(), was, start, b.Pos(), els)
    {
      assert Fits(Offsets(s)[i]);
      PutSe(b, s[i], was, start, els);
      els := els + [Se(s[i])];
      assert Offsets(s)[..i + 1] == Offsets(s)[..i] + [Se(s[i])];
    }
    assert Offsets(s)[..n] == Offsets(s);
  }

  lemma PartsFit(a: seq<Element>, b: seq<Element>)
    requires AllFit(a + b)
    ensures AllFit(a) && AllFit(b)
  {
    forall i | 0 <= i < |a| ensures Fits(a[i]) {
      assert (a + b)[i] == a[i];
    }
    forall i | 0 <= i < |b| ensures Fits(b[i]) {
      assert (a + b)[|a| + i] == b[i];
    }
  }

  method WriteOrder(b: Bs, o: Order, ghost was: seq<bool>, ghost start: nat, ghost e0: seq<Element>)
    returns (ghost els: seq<Element>)
    requires b.Valid() && Put(b.Stream(), was, start, b.Pos(), e0) && AllFit(OrderElements(o))
    requires |o.offset_for_ref_frame| == o.num_ref_frames_in_pic_order_cnt_cycle
    modifies b, b.buf
    ensures b.Valid() && els == e0 + OrderElements(o) && Put(b.Stream(), was, start, b.Pos(), els)
  {
    hide Put, Bits, Offsets;
    ghost var g := OrderElements(o);
    els := e0;
    assert Fits(g[0]) && Fits(g[1]);
    PutUe(b, o.log2_max_frame_num_minus4, was, start, els);
    els := els + [Ue(o.log2_max_frame_num_minus4)];
    PutUe(b, o.pic_order_cnt_type, was, start, els);
    els := els + [Ue(o.pic_order_cnt_type)];
    if o.pic_order_cnt_type == 0 {
      assert Fits(g[2]);
      PutUe(b, o.log2_max_pic_order_cnt_lsb_minus4, was, start, els);
      els := els + [Ue(o.log2_max_pic_order_cnt_lsb_minus4)];
    } else if o.pic_order_cnt_type == 1 {
      assert Fits(g[3]) && Fits(g[4]) && Fits(g[5]);
      PutU1(b, o.delta_pic_order_always_zero_flag, was, start, els);
      els := els + [U(1, o.delta_pic_order_always_zero_flag)];
      PutSe(b, o.offset_for_non_ref_pic, was, start, els);
      els := els + [Se(o.offset_for_non_ref_pic)];
      PutSe(b, o.offset_for_top_to_bottom_field, was, start, els);
      els := els + [Se(o.offset_for_top_to_bottom_field)];
      PutUe(b, o.num_ref_frames_in_pic_order_cnt_cycle, was, start, els);
      els := els + [Ue(o.num_ref_frames_in_pic_order_cnt_cycle)];
      assert g == g[..6] + Offsets(o.offset_for_ref_frame);
      PartsFit(g[..6], Offsets(o.offset_for_ref_frame));
      els := WriteOffsets(b, o.offset_for_ref_frame, o.num_ref_frames_in_pic_order_cnt_cycle, was, start, els);
    }
    assert els == e0 + OrderElements(o);
  }

  method WriteFrame(b: Bs, f: Frame, ghost was: seq<bool>, ghost start: nat, ghost e0: seq<Element>)
    returns (ghost els: seq<Element>)
    requires b.Valid() && Put(b.Stream(), was, start, b.Pos(), e0) && AllFit(FrameElements(f))
    modifies b, b.buf
    ensures b.Valid() && els == e0 + FrameElements(f) && Put(b.Stream(), was, start, b.Pos(), els)
  {
    hide Put, Bits;
    ghost var g := FrameElements(f);
    els := e0;
    assert Fits(g[0]) && Fits(g[2]) && Fits(g[3]);
    PutUe(b, f.num_ref_frames, was, start, els);
    els := els + [Ue(f.num_ref_frames)];
    PutU1(b, f.gaps_in_frame_num_value_allowed_flag, was, start, els);
    els := els + [U(1, f.gaps_in_frame_num_value_allowed_flag)];
    PutUe(b, f.pic_width_in_mbs_minus1, was, start, els);
    els := els + [Ue(f.pic_width_in_mbs_minus1)];
    PutUe(b, f.pic_height_in_map_units_minus1, was, start, els);
    els := els + [Ue(f.pic_height_in_map_units_minus1)];
    PutU1(b, f.frame_mbs_only_flag, was, start, els);
    els := els + [U(1, f.frame_mbs_only_flag)];
    if f.frame_mbs_only_flag == 0 {
      PutU1(b, f.mb_adaptive_frame_field_flag, was, start, els);
      els := els + [U(1, f.mb_adaptive_frame_field_flag)];
    }
    PutU1(b, f.direct_8x8_inference_flag, was, start, els);
    els := els + [U(1, f.direct_8x8_inference_flag)];
    assert els == e0 + FrameElements(f);
  }

  method WriteCrop(b: Bs, c: Crop, ghost was: seq<bool>, ghost start: nat, ghost e0: seq<Element>)
    returns (ghost els: seq<Element>)
    requires b.Valid() && Put(b.Stream(), was, start, b.Pos(), e0) && AllFit(CropElements(c))
    modifies b, b.buf
    ensures b.Valid() && els == e0 + CropElements(c) && Put(b.Stream(), was, start, b.Pos(), els)
  {
    hide Put, Bits;
    ghost var g := CropElements(c);
    els := e0;
    PutU1(b, c.frame_cropping_flag, was, start, els);
    els := els + [U(1, c.frame_cropping_flag)];
    if c.frame_cropping_flag != 0 {
      assert Fits(g[1]) && Fits(g[2]) && Fits(g[3]) && Fits(g[4]);
      PutUe(b, c.frame_crop_left_offset, was, start, els);
      els := els + [Ue(c.frame_crop_left_offset)];
      PutUe(b, c.frame_crop_right_offset, was, start, els);
      els := els + [Ue(c.frame_crop_right_offset)];
      PutUe(b, c.frame_crop_top_offset, was, start, els);
      els := els + [Ue(c.frame_crop_top_offset)];
      PutUe(b, c.frame_crop_bottom_offset, was, start, els);
      els := els + [Ue(c.frame_crop_bottom_offset)];
    }
    assert els == e0 + CropElements(c);
  }

  method WriteAspect(b: Bs, a: Aspect, ghost was: seq<bool>, ghost start: nat, ghost e0: seq<Element>)
    returns (ghost els: seq<Element>)
    requires b.Valid() && Put(b.Stream(), was, start, b.Pos(), e0)
    modifies b, b.buf
    ensures b.Valid() && els == e0 + AspectElements(a) && Put(b.Stream(), was, start, b.Pos(), els)
  {
    hide Put, Bits;
    els := e0;
    PutU1(b, a.aspect_ratio_info_present_flag, was, start, els);
    els := els + [U(1, a.aspect_ratio_info_present_flag)];
    if a.aspect_ratio_info_present_flag != 0 {
      PutU8(b, a.aspect_ratio_idc, was, start, els);
      els := els + [U(8, a.aspect_ratio_idc)];
      if a.aspect_ratio_idc == SAR_Extended {
        PutU(b, 16, a.sar_width, was, start, els);
        els := els + [U(16, a.sar_width)];
        PutU(b, 16, a.sar_height, was, start, els);
        els := els + [U(16, a.sar_height)];
      }
    }
    PutU1(b, a.overscan_info_present_flag, was, start, els);
    els := els + [U(1, a.overscan_info_present_flag)];
    if a.overscan_info_present_flag != 0 {
      PutU1(b, a.overscan_appropriate_flag, was, start, els);
      els := els + [U(1, a.overscan_appropriate_flag)];
    }
    assert els == e0 + AspectElements(a);
  }

  method WriteVideo(b: Bs, v: Video, ghost was: seq<bool>, ghost start: nat, ghost e0: seq<Element>)
    returns (ghost els: seq<Element>)
    requires b.Valid() && Put(b.Stream(), was, start, b.Pos(), e0)
    modifies b, b.buf
    ensures b.Valid() && els == e0 + VideoElements(v) && Put(b.Stream(), was, start, b.Pos(), els)
  {
    hide Put, Bits;
    els := e0;
    PutU1(b, v.video_signal_type_present_flag, was, start, els);
    els := els + [U(1, v.video_signal_type_present_flag)];
    if v.video_signal_type_present_flag != 0 {
      PutU(b, 3, v.video_format, was, start, els);
      els := els + [U(3, v.video_format)];
      PutU1(b, v.video_full_range_flag, was, start, els);
      els := els + [U(1, v.video_full_range_flag)];
      PutU1(b, v.colour_description_present_flag, was, start, els);
      els := els + [U(1, v.colour_description_present_flag)];
      if v.colour_description_present_flag != 0 {
        PutU8(b, v.colour_primaries, was, start, els);
        els := els + [U(8, v.colour_primaries)];
        PutU8(b, v.transfer_characteristics, was, start, els);
        els := els + [U(8, v.transfer_characteristics)];
        PutU8(b, v.matrix_coefficients, was, start, els);
        els := els + [U(8, v.matrix_coefficients)];
      }
    }
    assert els == e0 + VideoElements(v);
  }

  method WriteTiming(b: Bs, t: Timing, ghost was: seq<bool>, ghost start: nat, ghost e0: seq<Element>)
    returns (ghost els: seq<Element>)
    requires b.Valid() && Put(b.Stream(), was, start, b.Pos(), e0) && AllFit(TimingElements(t))
    modifies b, b.buf
    ensures b.Valid() && els == e0 + TimingElements(t) && Put(b.Stream(), was, start, b.Pos(), els)
  {
    hide Put, Bits;
    ghost var g := TimingElements(t);
    els := e0;
    PutU1(b, t.chroma_loc_info_present_flag, was, start, els);
    els := els + [U(1, t.chroma_loc_info_present_flag)];
    if t.chroma_loc_info_present_flag != 0 {
      assert Fits(g[1]) && Fits(g[2]);
      PutUe(b, t.chroma_sample_loc_type_top_field, was, start, els);
      els := els + [Ue(t.chroma_sample_loc_type_top_field)];
      PutUe(b, t.chroma_sample_loc_type_bottom_field, was, start, els);
      els := els + [Ue(t.chroma_sample_loc_type_bottom_field)];
    }
    PutU1(b, t.timing_info_present_flag, was, start, els);
    els := els + [U(1, t.timing_info_present_flag)];
    if t.timing_info_present_flag != 0 {
      PutU(b, 32, t.num_units_in_tick, was, start, els);
      els := els + [U(32, t.num_units_in_tick)];
      PutU(b, 32, t.time_scale, was, start, els);
      els := els + [U(32, t.time_scale)];
      PutU1(b, t.fixed_frame_rate_flag, was, start, els);
      els := els + [U(1, t.fixed_frame_rate_flag)];
    }
    assert els == e0 + TimingElements(t);
  }

  method WriteSchedule(b: Bs, s: Schedule, ghost was: seq<bool>, ghost start: nat, ghost e0: seq<Element>)
    returns (ghost els: seq<Element>)
    requires b.Valid() && Put(b.Stream(), was, start, b.Pos(), e0) && AllFit(OneSchedule(s))
    modifies b, b.buf
    ensures b.Valid() && els == e0 + OneSchedule(s) && Put(b.Stream(), was, start, b.Pos(), els)
  {
    hide Put, Bits;
    els := e0;
    assert Fits(OneSchedule(s)[0]) && Fits(OneSchedule(s)[1]);
    PutUe(b, s.bit_rate_value_minus1, was, start, els);
    els := els + [Ue(s.bit_rate_value_minus1)];
    PutUe(b, s.cpb_size_value_minus1, was, start, els);
    els := els + [Ue(s.cpb_size_value_minus1)];
    PutU1(b, s.cbr_flag, was, start, els);
    els := els + [U(1, s.cbr_flag)];
    assert els == e0 + OneSchedule(s);
  }

  lemma {:induction false} SchedulesFit(s: seq<Schedule>, i: nat)
    requires AllFit(ScheduleElements(s)) && i < |s|
    ensures AllFit(OneSchedule(s[i]))
    decreases |s|
  {
    hide AllFit, OneSchedule;
    PartsFit(ScheduleElements(s[..|s| - 1]), OneSchedule(s[|s| - 1]));
    if i < |s| - 1 {
      SchedulesFit(s[..|s| - 1], i);
    }
  }

  lemma SchedulesNext(s: seq<Schedule>, i: nat)
    requires i < |s|
    ensures ScheduleElements(s[..i + 1]) == ScheduleElements(s[..i]) + OneSchedule(s[i])
  {
    assert s[..i + 1][..i] == s[..i];
  }

  method WriteSchedules(b: Bs, s: seq<Schedule>, cpb_cnt_minus1: nat, ghost was: seq<bool>, ghost start: nat,
                        ghost e0: seq<Element>)
    returns (ghost els: seq<Element>)
    requires b.Valid() && Put(b.Stream(), was, start, b.Pos(), e0) && AllFit(ScheduleElements(s))
    requires |s| == cpb_cnt_minus1 + 1
    modifies b, b.buf
    ensures b.Valid() && els == e0 + ScheduleElements(s) && Put(b.Stream(), was, start, b.Pos(), els)
  {
    hide Put, Bits, AllFit, OneSchedule, ScheduleElements;
    els := e0;
    var SchedSelIdx := 0;
    assert s[..0] == [];
    NoSchedules();
    while SchedSelIdx <= cpb_cnt_minus1
      invariant SchedSelIdx <= cpb_cnt_minus1 + 1
      invariant b.Valid() && els == e0 + ScheduleElements(s[..SchedSelIdx]) && Put(b.Stream(), was, start, b.Pos(), els)
    {
      SchedulesFit(s, SchedSelIdx);
      SchedulesNext(s, SchedSelIdx);
      els := WriteSchedule(b, s[SchedSelIdx], was, start, els);
      SchedSelIdx := SchedSelIdx + 1;
    }
    assert s[..SchedSelIdx] == s;
  }

  lemma NoSchedules()
    ensures ScheduleElements([]) == []
  {
  }

  method WriteHrd(b: Bs, h: Hrd, ghost was: seq<bool>, ghost start: nat, ghost e0: seq<Element>)
    returns (ghost els: seq<Element>)
    requires b.Valid() && Put(b.Stream(), was, start, b.Pos(), e0) && AllFit(HrdElements(h)) && HrdComplete(h)
    modifies b, b.buf
    ensures b.Valid() && els == e0 + HrdElements(h) && Put(b.Stream(), was, start, b.Pos(), els)
  {
    hide Put, Bits, ScheduleElements;
    ghost var g := HrdElements(h);
    ghost var s, tail := ScheduleElements(h.schedules), [U(5, h.initial_cpb_removal_delay_length_minus1),
      U(5, h.cpb_removal_delay_length_minus1), U(5, h.dpb_output_delay_length_minus1), U(5, h.time_offset_length)];
    els := e0;
    assert Fits(g[0]);
    PutUe(b, h.cpb_cnt_minus1, was, start, els);
    els := els + [Ue(h.cpb_cnt_minus1)];
    PutU(b, 4, h.bit_rate_scale, was, start, els);
    els := els + [U(4, h.bit_rate_scale)];
    PutU(b, 4, h.cpb_size_scale, was, start, els);
    els := els + [U(4, h.cpb_size_scale)];
    assert g == g[..3] + s + tail;
    PartsFit(g[..3] + s, tail);
    PartsFit(g[..3], s);
    els := WriteSchedules(b, h.schedules, h.cpb_cnt_minus1, was, start, els);
    PutU(b, 5, h.initial_cpb_removal_delay_length_minus1, was, start, els);
    els := els + [U(5, h.initial_cpb_removal_delay_length_minus1)];
    PutU(b, 5, h.cpb_removal_delay_length_minus1, was, start, els);
    els := els + [U(5, h.cpb_removal_delay_length_minus1)];
    PutU(b, 5, h.dpb_output_delay_length_minus1, was, start, els);
    els := els + [U(5, h.dpb_output_delay_length_minus1)];
    PutU(b, 5, h.time_offset_length, was, start, els);
    els := els + [U(5, h.time_offset_length)];
    assert els == e0 + HrdElements(h);
  }

  method WriteRestriction(b: Bs, r: Restriction, ghost was: seq<bool>, ghost start: nat, ghost e0: seq<Element>)
    returns (ghost els: seq<Element>)
    requires b.Valid() && Put(b.Stream(), was, start, b.Pos(), e0) && AllFit(RestrictionElements(r))
    modifies b, b.buf
    ensures b.Valid() && els == e0 + RestrictionElements(r) && Put(b.Stream(), was, start, b.Pos(), els)
  {
    hide Put, Bits;
    ghost var g := RestrictionElements(r);
    els := e0;
    PutU1(b, r.pic_struct_present_flag, was, start, els);
    els := els + [U(1, r.pic_struct_present_flag)];
    PutU1(b, r.bitstream_restriction_flag, was, start, els);
    els := els + [U(1, r.bitstream_restriction_flag)];
    if r.bitstream_restriction_flag != 0 {
      assert Fits(g[3]) && Fits(g[4]) && Fits(g[5]) && Fits(g[6]) && Fits(g[7]) && Fits(g[8]);
      PutU1(b, r.motion_vectors_over_pic_boundaries_flag, was, start, els);
      els := els + [U(1, r.motion_vectors_over_pic_boundaries_flag)];
      PutUe(b, r.max_bytes_per_pic_denom, was, start, els);
      els := els + [Ue(r.max_bytes_per_pic_denom)];
      PutUe(b, r.max_bits_per_mb_denom, was, start, els);
      els := els + [Ue(r.max_bits_per_mb_denom)];
      PutUe(b, r.log2_max_mv_length_horizontal, was, start, els);
      els := els + [Ue(r.log2_max_mv_length_horizontal)];
      PutUe(b, r.log2_max_mv_length_vertical, was, start, els);
      els := els + [Ue(r.log2_max_mv_length_vertical)];
      PutUe(b, r.num_reorder_frames, was, start, els);
      els := els + [Ue(r.num_reorder_frames)];
      PutUe(b, r.max_dec_frame_buffering, was, start, els);
      els := els + [Ue(r.max_dec_frame_buffering)];
    }
    assert els == e0 + RestrictionElements(r);
  }

  method WriteUse(b: Bs, v: Vui, h: Hrd, ghost was: seq<bool>, ghost start: nat, ghost e0: seq<Element>)
    returns (ghost els: seq<Element>)
    requires b.Valid() && Put(b.Stream(), was, start, b.Pos(), e0) && AllFit(UseElements(v, h))
    requires v.nal_hrd_parameters_present_flag != 0 || v.vcl_hrd_parameters_present_flag != 0 ==> HrdComplete(h)
    modifies b, b.buf
    ensures b.Valid() && els == e0 + UseElements(v, h) && Put(b.Stream(), was, start, b.Pos(), els)
  {
    hide Put, Bits, HrdElements, AllFit;
    ghost var n := [U(1, v.nal_hrd_parameters_present_flag)] + if v.nal_hrd_parameters_present_flag != 0 then
      HrdElements(h) else [];
    ghost var c := [U(1, v.vcl_hrd_parameters_present_flag)] + if v.vcl_hrd_parameters_present_flag != 0 then
      HrdElements(h) else [];
    ghost var d := if v.nal_hrd_parameters_present_flag != 0 ||
      v.vcl_hrd_parameters_present_flag != 0 then [U(1, v.low_delay_hrd_flag)] else [];
    assert UseElements(v, h) == n + (c + d);
    PartsFit(n, c + d);
    PartsFit(c, d);
    els := e0;
    PutU1(b, v.nal_hrd_parameters_present_flag, was, start, els);
    els := els + [U(1, v.nal_hrd_parameters_present_flag)];
    if v.nal_hrd_parameters_present_flag != 0 {
      PartsFit([U(1, v.nal_hrd_parameters_present_flag)], HrdElements(h));
      els := WriteHrd(b, h, was, start, els);
    }
    assert els == e0 + n;
    PutU1(b, v.vcl_hrd_parameters_present_flag, was, start, els);
    els := els + [U(1, v.vcl_hrd_parameters_present_flag)];
    if v.vcl_hrd_parameters_present_flag != 0 {
      PartsFit([U(1, v.vcl_hrd_parameters_present_flag)], HrdElements(h));
      els := WriteHrd(b, h, was, start, els);
    }
    assert els == e0 + n + c;
    if v.nal_hrd_parameters_present_flag != 0 || v.vcl_hrd_parameters_present_flag != 0 {
      PutU1(b, v.low_delay_hrd_flag, was, start, els);
      els := els + [U(1, v.low_delay_hrd_flag)];
    }
    assert els == e0 + n + c + d;
    assert e0 + n + c + d == e0 + (n + (c + d));
  }

  method WriteVui(b: Bs, v: Vui, h: Hrd, ghost was: seq<bool>, ghost start: nat, ghost e0: seq<Element>)
    returns (ghost els: seq<Element>)
    requires b.Valid() && Put(b.Stream(), was, start, b.Pos(), e0) && AllFit(VuiElements(v, h))
    requires v.nal_hrd_parameters_present_flag != 0 || v.vcl_hrd_parameters_present_flag != 0 ==> HrdComplete(h)
    modifies b, b.buf
    ensures b.Valid() && els == e0 + VuiElements(v, h) && Put(b.Stream(), was, start, b.Pos(), els)
  {
    hide Put, Bits, AspectElements, VideoElements, TimingElements, UseElements, RestrictionElements, AllFit;
    ghost var a, i, t, u, r := AspectElements(v.aspect), VideoElements(v.video), TimingElements(v.timing),
      UseElements(v, h),
      RestrictionElements(v.restriction);
    PartsFit(a, i + (t + (u + r)));
    PartsFit(i, t + (u + r));
    PartsFit(t, u + r);
    PartsFit(u, r);
    els := WriteAspect(b, v.aspect, was, start, e0);
    els := WriteVideo(b, v.video, was, start, els);
    els := WriteTiming(b, v.timing, was, start, els);
    els := WriteUse(b, v, h, was, start, els);
    els := WriteRestriction(b, v.restriction, was, start, els);
    assert e0 + a + i + t + u + r == e0 + (a + (i + (t + (u + r))));
  }

  method WriteFlag(b: Bs, s: ParameterSet, ghost was: seq<bool>, ghost start: nat, ghost e0: seq<Element>)
    returns (ghost els: seq<Element>)
    requires b.Valid() && Put(b.Stream(), was, start, b.Pos(), e0) && AllFit(FlagElements(s))
    requires UsesHrd(s) ==> HrdComplete(s.hrd)
    modifies b, b.buf
    ensures b.Valid() && els == e0 + FlagElements(s) && Put(b.Stream(), was, start, b.Pos(), els)
  {
    hide Put, Bits, VuiElements, AllFit;
    els := e0;
    PutU1(b, s.vui_parameters_present_flag, was, start, els);
    els := els + [U(1, s.vui_parameters_present_flag)];
    if s.vui_parameters_present_flag != 0 {
      PartsFit([U(1, s.vui_parameters_present_flag)], VuiElements(s.vui, s.hrd));
      els := WriteVui(b, s.vui, s.hrd, was, start, els);
    }
    assert els == e0 + FlagElements(s);
  }

  lemma Joined<T>(e: seq<T>, a: seq<T>, h: seq<T>, o: seq<T>, f: seq<T>, c: seq<T>, g: seq<T>)
    ensures e + a + h + o + f + c + g == e + (a + (h + (o + (f + (c + g)))))
  {
  }

  /** Writes the whole parameter set. */
  method WriteSeqParameterSet(b: Bs, s: ParameterSet, ghost was: seq<bool>, ghost start: nat, ghost e0: seq<Element>)
    returns (ghost els: seq<Element>)
    requires b.Valid() && Put(b.Stream(), was, start, b.Pos(), e0) && Writable(s)
    modifies b, b.buf
    ensures b.Valid() && els == e0 + Elements(s) && Put(b.Stream(), was, start, b.Pos(), els)
  {
    hide Put, Bits, HeadElements, HighElements, OrderElements, FrameElements, CropElements, FlagElements, AllFit;
    ghost var a, h := HeadElements(s.head), if HighProfile(s.head.profile_idc) then HighElements(s.high) else [];
    ghost var o, f, c, g := OrderElements(s.order), FrameElements(s.frame), CropElements(s.crop), FlagElements(s);
    PartsFit(a, h + (o + (f + (c + g))));
    PartsFit(h, o + (f + (c + g)));
    PartsFit(o, f + (c + g));
    PartsFit(f, c + g);
    PartsFit(c, g);
    els := WriteHead(b, s.head, was, start, e0);
    if HighProfile(s.head.profile_idc) {
      els := WriteHigh(b, s.high, was, start, els);
    } else {
      assert els + h == els;
    }
    els := WriteOrder(b, s.order, was, start, els);
    els := WriteFrame(b, s.frame, was, start, els);
    els := WriteCrop(b, s.crop, was, start, els);
    els := WriteFlag(b, s, was, start, els);
    Joined(e0, a, h, o, f, c, g);
  }
}
