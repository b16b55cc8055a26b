/** The sequence parameter set: its fields, the syntax that codes them, and the writer and reader of that syntax. */
module Sps {
  import opened BitXor
  import opened NalBytes
  import opened BitCodes
  import opened BitStream
  import opened SpsSyntax

  const SAR_Extended: nat := 255

  // The sizes of the tables and arrays that the fields index.
  const SPS_TABLE: nat := 32
  const OFFSETS_MAX: nat := 256
  const SCHEDULES_MAX: nat := 32

  datatype Head = Head(profile_idc: nat, constraint_set0_flag: nat, constraint_set1_flag: nat,
                       constraint_set2_flag: nat,
                       constraint_set3_flag: nat, constraint_set4_flag: nat, constraint_set5_flag: nat,
                       level_idc: nat, seq_parameter_set_id: nat)

  /** The fields of the high profiles; there are no scaling lists, even when the matrix is present. */
  datatype High = High(chroma_format_idc: nat, residual_colour_transform_flag: nat, bit_depth_luma_minus8: nat,
                       bit_depth_chroma_minus8: nat, qpprime_y_zero_transform_bypass_flag: nat,
                       seq_scaling_matrix_present_flag: nat)

  datatype Order = Order(log2_max_frame_num_minus4: nat, pic_order_cnt_type: nat,
                         log2_max_pic_order_cnt_lsb_minus4: nat,
                         delta_pic_order_always_zero_flag: nat, offset_for_non_ref_pic: int,
                         offset_for_top_to_bottom_field: int,
                         num_ref_frames_in_pic_order_cnt_cycle: nat, offset_for_ref_frame: seq<int>)

  datatype Frame = Frame(num_ref_frames: nat, gaps_in_frame_num_value_allowed_flag: nat, pic_width_in_mbs_minus1: nat,
                         pic_height_in_map_units_minus1: nat, frame_mbs_only_flag: nat,
                         mb_adaptive_frame_field_flag: nat,
                         direct_8x8_inference_flag: nat)

  datatype Crop = Crop(frame_cropping_flag: nat, frame_crop_left_offset: nat, frame_crop_right_offset: nat,
                       frame_crop_top_offset: nat, frame_crop_bottom_offset: nat)

  datatype Aspect = Aspect(aspect_ratio_info_present_flag: nat, aspect_ratio_idc: nat, sar_width: nat, sar_height: nat,
                           overscan_info_present_flag: nat, overscan_appropriate_flag: nat)

  datatype Video = Video(video_signal_type_present_flag: nat, video_format: nat, video_full_range_flag: nat,
                         colour_description_present_flag: nat, colour_primaries: nat, transfer_characteristics: nat,
                         matrix_coefficients: nat)

  datatype Timing = Timing(chroma_loc_info_present_flag: nat, chroma_sample_loc_type_top_field: nat,
                           chroma_sample_loc_type_bottom_field: nat, timing_info_present_flag: nat,
                           num_units_in_tick: nat, time_scale: nat, fixed_frame_rate_flag: nat)

  datatype Schedule = Schedule(bit_rate_value_minus1: nat, cpb_size_value_minus1: nat, cbr_flag: nat)

  datatype Hrd = Hrd(cpb_cnt_minus1: nat, bit_rate_scale: nat, cpb_size_scale: nat, schedules: seq<Schedule>,
                     initial_cpb_removal_delay_length_minus1: nat, cpb_removal_delay_length_minus1: nat,
                     dpb_output_delay_length_minus1: nat, time_offset_length: nat)

  datatype Restriction = Restriction(pic_struct_present_flag: nat, bitstream_restriction_flag: nat,
                                     motion_vectors_over_pic_boundaries_flag: nat, max_bytes_per_pic_denom: nat,
                                     max_bits_per_mb_denom: nat, log2_max_mv_length_horizontal: nat,
                                     log2_max_mv_length_vertical: nat, num_reorder_frames: nat,
                                       max_dec_frame_buffering: nat)

  datatype Vui = Vui(aspect: Aspect, video: Video, timing: Timing, nal_hrd_parameters_present_flag: nat,
                     vcl_hrd_parameters_present_flag: nat, low_delay_hrd_flag: nat, restriction: Restriction)

  /** The structure has one set of HRD parameters, which both uses in the VUI parameters share. */
  datatype ParameterSet = ParameterSet(head: Head, high: High, order: Order, frame: Frame, crop: Crop,
                                       vui_parameters_present_flag: nat, vui: Vui, hrd: Hrd)

  function NoHigh(): High { High(1, 0, 0, 0, 0, 0) }
  function NoHrd(): Hrd { Hrd(0, 0, 0, [], 0, 0, 0, 0) }
  function NoVui(): Vui
  {
    Vui(Aspect(0, 0, 0, 0, 0, 0), Video(0, 0, 0, 0, 0, 0, 0), Timing(0, 0, 0, 0, 0, 0, 0), 0, 0, 0,
        Restriction(0, 0, 0, 0, 0, 0, 0, 0, 0))
  }

  predicate HighProfile(profile_idc: nat)
  {
    profile_idc == 100 || profile_idc == 110 || profile_idc == 122 || profile_idc == 144
  }

  // ----- the syntax

  function HeadElements(h: Head): seq<Element>
  {
    [U(8, h.profile_idc), U(1, h.constraint_set0_flag), U(1, h.constraint_set1_flag), U(1, h.constraint_set2_flag),
     U(1, h.constraint_set3_flag), U(1, h.constraint_set4_flag), U(1, h.constraint_set5_flag), U(2, 0),
     U(8, h.level_idc), Ue(h.seq_parameter_set_id)]
  }

  function NoLists(): seq<Element>
  {
    [U(1, 0), U(1, 0), U(1, 0), U(1, 0), U(1, 0), U(1, 0), U(1, 0), U(1, 0)]
  }

  function HighElements(h: High): seq<Element>
  {
    [Ue(h.chroma_format_idc)]
    + (if h.chroma_format_idc == 3 then [U(1, h.residual_colour_transform_flag)] else [])
    + [Ue(h.bit_depth_luma_minus8), Ue(h.bit_depth_chroma_minus8), U(1, h.qpprime_y_zero_transform_bypass_flag),
       U(1, h.seq_scaling_matrix_present_flag)]
    + (if h.seq_scaling_matrix_present_flag != 0 then NoLists() else [])
  }

  function Offsets(s: seq<int>): seq<Element>
  {
    seq(|s|, i requires 0 <= i < |s| => Se(s[i]))
  }

  function OrderElements(o: Order): seq<Element>
  {
    [Ue(o.log2_max_frame_num_minus4), Ue(o.pic_order_cnt_type)]
    + if o.pic_order_cnt_type == 0 then [Ue(o.log2_max_pic_order_cnt_lsb_minus4)]
      else if o.pic_order_cnt_type == 1 then
        [U(1, o.delta_pic_order_always_zero_flag), Se(o.offset_for_non_ref_pic), Se(o.offset_for_top_to_bottom_field),
         Ue(o.num_ref_frames_in_pic_order_cnt_cycle)] + Offsets(o.offset_for_ref_frame)
      else []
  }

  function FrameElements(f: Frame): seq<Element>
  {
    [Ue(f.num_ref_frames), U(1, f.gaps_in_frame_num_value_allowed_flag), Ue(f.pic_width_in_mbs_minus1),
     Ue(f.pic_height_in_map_units_minus1), U(1, f.frame_mbs_only_flag)]
    + (if f.frame_mbs_only_flag == 0 then [U(1, f.mb_adaptive_frame_field_flag)] else [])
    + [U(1, f.direct_8x8_inference_flag)]
  }

  function CropElements(c: Crop): seq<Element>
  {
    [U(1, c.frame_cropping_flag)]
    + if c.frame_cropping_flag != 0 then
        [Ue(c.frame_crop_left_offset), Ue(c.frame_crop_right_offset), Ue(c.frame_crop_top_offset),
          Ue(c.frame_crop_bottom_offset)]
      else []
  }

  function AspectElements(a: Aspect): seq<Element>
  {
    [U(1, a.aspect_ratio_info_present_flag)]
    + (if a.aspect_ratio_info_present_flag != 0 then
         [U(8, a.aspect_ratio_idc)]
         + if a.aspect_ratio_idc == SAR_Extended then [U(16, a.sar_width), U(16, a.sar_height)] else []
       else [])
    + [U(1, a.overscan_info_present_flag)]
    + if a.overscan_info_present_flag != 0 then [U(1, a.overscan_appropriate_flag)] else []
  }

  function VideoElements(v: Video): seq<Element>
  {
    [U(1, v.video_signal_type_present_flag)]
    + if v.video_signal_type_present_flag != 0 then
        [U(3, v.video_format), U(1, v.video_full_range_flag), U(1, v.colour_description_present_flag)]
        + if v.colour_description_present_flag != 0 then
            [U(8, v.colour_primaries), U(8, v.transfer_characteristics), U(8, v.matrix_coefficients)]
          else []
      else []
  }

  function TimingElements(t: Timing): seq<Element>
  {
    [U(1, t.chroma_loc_info_present_flag)]
    + (if t.chroma_loc_info_present_flag != 0 then
         [Ue(t.chroma_sample_loc_type_top_field), Ue(t.chroma_sample_loc_type_bottom_field)]
       else [])
    + [U(1, t.timing_info_present_flag)]
    + if t.timing_info_present_flag != 0 then
        [U(32, t.num_units_in_tick), U(32, t.time_scale), U(1, t.fixed_frame_rate_flag)]
      else []
  }

  function ScheduleElements(s: seq<Schedule>): seq<Element>
    decreases |s|
  {
    if s == [] then [] else ScheduleElements(s[..|s| - 1]) + OneSchedule(s[|s| - 1])
  }

  function OneSchedule(s: Schedule): seq<Element>
  {
    [Ue(s.bit_rate_value_minus1), Ue(s.cpb_size_value_minus1), U(1, s.cbr_flag)]
  }

  function HrdElements(h: Hrd): seq<Element>
  {
    [Ue(h.cpb_cnt_minus1), U(4, h.bit_rate_scale), U(4, h.cpb_size_scale)]
    + ScheduleElements(h.schedules)
    + [U(5, h.initial_cpb_removal_delay_length_minus1), U(5, h.cpb_removal_delay_length_minus1),
       U(5, h.dpb_output_delay_length_minus1), U(5, h.time_offset_length)]
  }

  function RestrictionElements(r: Restriction): seq<Element>
  {
    [U(1, r.pic_struct_present_flag), U(1, r.bitstream_restriction_flag)]
    + if r.bitstream_restriction_flag != 0 then
        [U(1, r.motion_vectors_over_pic_boundaries_flag), Ue(r.max_bytes_per_pic_denom), Ue(r.max_bits_per_mb_denom),
         Ue(r.log2_max_mv_length_horizontal), Ue(r.log2_max_mv_length_vertical), Ue(r.num_reorder_frames),
         Ue(r.max_dec_frame_buffering)]
      else []
  }

  function UseElements(v: Vui, h: Hrd): seq<Element>
  {
    ([U(1, v.nal_hrd_parameters_present_flag)] + if v.nal_hrd_parameters_present_flag != 0 then HrdElements(h) else [])
    + (([U(1, v.vcl_hrd_parameters_present_flag)] + if v.vcl_hrd_parameters_present_flag != 0 then HrdElements(h)
      else [])
       + if v.nal_hrd_parameters_present_flag != 0 ||
         v.vcl_hrd_parameters_present_flag != 0 then [U(1, v.low_delay_hrd_flag)] else [])
  }

  function VuiElements(v: Vui, h: Hrd): seq<Element>
  {
    AspectElements(v.aspect) +
      (VideoElements(v.video) + (TimingElements(v.timing) + (UseElements(v, h) + RestrictionElements(v.restriction))))
  }

  function FlagElements(s: ParameterSet): seq<Element>
  {
    [U(1, s.vui_parameters_present_flag)] + if s.vui_parameters_present_flag != 0 then VuiElements(s.vui, s.hrd) else []
  }

  function Elements(s: ParameterSet): seq<Element>
  {
    HeadElements(s.head)
    + ((if HighProfile(s.head.profile_idc) then HighElements(s.high) else [])
       + (OrderElements(s.order) + (FrameElements(s.frame) + (CropElements(s.crop) + FlagElements(s)))))
  }

  // ----- fields that are not coded have their default values

  predicate HighDefaults(h: High)
  {
    h.chroma_format_idc != 3 ==> h.residual_colour_transform_flag == 0
  }

  predicate OrderDefaults(o: Order)
  {
    && (o.pic_order_cnt_type != 0 ==> o.log2_max_pic_order_cnt_lsb_minus4 == 0)
    && (o.pic_order_cnt_type != 1 ==>
          o.delta_pic_order_always_zero_flag == 0 && o.offset_for_non_ref_pic == 0 &&
            o.offset_for_top_to_bottom_field == 0
          && o.num_ref_frames_in_pic_order_cnt_cycle == 0)
    && |o.offset_for_ref_frame| == o.num_ref_frames_in_pic_order_cnt_cycle <= OFFSETS_MAX
  }

  predicate FrameDefaults(f: Frame)
  {
    f.frame_mbs_only_flag != 0 ==> f.mb_adaptive_frame_field_flag == 0
  }

  predicate CropDefaults(c: Crop)
  {
    c.frame_cropping_flag == 0 ==>
      c.frame_crop_left_offset == c.frame_crop_right_offset == c.frame_crop_top_offset == c.frame_crop_bottom_offset ==
        0
  }

  predicate AspectDefaults(a: Aspect)
  {
    && (a.aspect_ratio_info_present_flag == 0 ==> a.aspect_ratio_idc == 0)
    && (a.aspect_ratio_idc != SAR_Extended ==> a.sar_width == a.sar_height == 0)
    && (a.overscan_info_present_flag == 0 ==> a.overscan_appropriate_flag == 0)
  }

  predicate VideoDefaults(v: Video)
  {
    && (v.video_signal_type_present_flag == 0 ==>
      v.video_format == v.video_full_range_flag == v.colour_description_present_flag == 0)
    && (v.colour_description_present_flag == 0 ==>
      v.colour_primaries == v.transfer_characteristics == v.matrix_coefficients == 0)
  }

  predicate TimingDefaults(t: Timing)
  {
    && (t.chroma_loc_info_present_flag == 0 ==>
          t.chroma_sample_loc_type_top_field == t.chroma_sample_loc_type_bottom_field == 0)
    && (t.timing_info_present_flag == 0 ==> t.num_units_in_tick == t.time_scale == t.fixed_frame_rate_flag == 0)
  }

  predicate HrdComplete(h: Hrd)
  {
    |h.schedules| == h.cpb_cnt_minus1 + 1 <= SCHEDULES_MAX
  }

  predicate RestrictionDefaults(r: Restriction)
  {
    r.bitstream_restriction_flag == 0 ==>
      r.motion_vectors_over_pic_boundaries_flag == r.max_bytes_per_pic_denom == r.max_bits_per_mb_denom
      == r.log2_max_mv_length_horizontal == r.log2_max_mv_length_vertical == r.num_reorder_frames ==
        r.max_dec_frame_buffering == 0
  }

  predicate UseDefaults(v: Vui, h: Hrd)
  {
    if v.nal_hrd_parameters_present_flag == 0 &&
      v.vcl_hrd_parameters_present_flag == 0 then v.low_delay_hrd_flag == 0 && h == NoHrd()
    else HrdComplete(h)
  }

  predicate VuiDefaults(v: Vui, h: Hrd)
  {
    && AspectDefaults(v.aspect) && VideoDefaults(v.video) && TimingDefaults(v.timing)
    && UseDefaults(v, h) && RestrictionDefaults(v.restriction)
  }

  predicate Defaults(s: ParameterSet)
  {
    && (if HighProfile(s.head.profile_idc) then HighDefaults(s.high) else s.high == NoHigh())
    && OrderDefaults(s.order) && FrameDefaults(s.frame) && CropDefaults(s.crop)
    && (if s.vui_parameters_present_flag != 0 then VuiDefaults(s.vui, s.hrd) else s.vui == NoVui() && s.hrd == NoHrd())
  }

  /** Every value fits its code and the table it indexes, and what is not coded has its default. */
  predicate WellFormed(s: ParameterSet)
  {
    AllFit(Elements(s)) && Defaults(s) && s.head.seq_parameter_set_id < SPS_TABLE
  }

  /** Every value fits its code, and the lists have the lengths that are coded: enough to be written. */
  predicate Writable(s: ParameterSet)
  {
    && AllFit(Elements(s))
    && |s.order.offset_for_ref_frame| == s.order.num_ref_frames_in_pic_order_cnt_cycle <= OFFSETS_MAX
    && (UsesHrd(s) ==> HrdComplete(s.hrd))
  }

  predicate UsesHrd(s: ParameterSet)
  {
    && s.vui_parameters_present_flag != 0
    && (s.vui.nal_hrd_parameters_present_flag != 0 || s.vui.vcl_hrd_parameters_present_flag != 0)
  }

  lemma WellFormedWritable(s: ParameterSet)
    requires WellFormed(s)
    ensures Writable(s)
  {
    hide AllFit, Elements, HighDefaults, FrameDefaults, CropDefaults, AspectDefaults, VideoDefaults, TimingDefaults,
      RestrictionDefaults;
  }
}
