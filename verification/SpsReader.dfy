/**
 Reading a sequence parameter set.  If the elements of a set with the right defaults come next, the result is that
 set.
 */
module SpsReader {
  import opened BitCodes
  import opened BitStream
  import opened SpsSyntax
  import opened Sps

  method ReadHead(b: Bs, ghost want: Head, ghost rest: seq<Element>) returns (h: Head)
    requires b.Valid()
    modifies b
    ensures b.Valid() && b.Stream() == old(b.Stream())
    ensures Coming(b.Stream(), old(b.Pos()), HeadElements(want) + rest, 0) ==>
      h == want && Coming(b.Stream(), b.Pos(), rest, 0)
  {
    hide Coming, Bits;
    ghost var g := HeadElements(want);
    ghost var els := g + rest;
    var profile_idc := GetU8(b, els, 0);
    var c0 := GetU1(b, els, 1);
    var c1 := GetU1(b, els, 2);
    var c2 := GetU1(b, els, 3);
    var c3 := GetU1(b, els, 4);
    var c4 := GetU1(b, els, 5);
    var c5 := GetU1(b, els, 6);
    Skip(b, 2, els, 7);
    var level_idc := GetU8(b, els, 8);
    var id := GetUe(b, els, 9);
    h := Head(profile_idc, c0, c1, c2, c3, c4, c5, level_idc, id);
    if Coming(b.Stream(), b.Pos(), els, 10) {
      ComingRest(b.Stream(), b.Pos(), g, rest);
    }
  }

  /** Reads eight flags; a set flag would be followed by a scaling list. */
  method ReadNoLists(b: Bs, ghost els: seq<Element>, ghost k: nat) returns (ok: bool)
    requires b.Valid() && k + 8 <= |els| && els[k..k + 8] == NoLists()
    modifies b
    ensures b.Valid() && b.Stream() == old(b.Stream())
    ensures Coming(b.Stream(), old(b.Pos()), els, k) ==> ok && Coming(b.Stream(), b.Pos(), els, k + 8)
  {
    hide Coming, Bits;
    ghost var good := Coming(b.Stream(), b.Pos(), els, k);
    ok := true;
    for i := 0 to 8
      invariant b.Valid() && b.Stream() == old(b.Stream())
      invariant good ==> ok && Coming(b.Stream(), b.Pos(), els, k + i)
    {
      assert els[k + i] == els[k..k + 8][i];
      var flag := GetU1(b, els, k + i);
      if flag != 0 {
        ok := false;
      }
    }
  }

  method ReadHigh(b: Bs, ghost want: High, ghost rest: seq<Element>) returns (h: High, ok: bool)
    requires b.Valid()
    modifies b
    ensures b.Valid() && b.Stream() == old(b.Stream())
    ensures Coming(b.Stream(), old(b.Pos()), HighElements(want) + rest, 0) && HighDefaults(want) ==>
      ok && h == want && Coming(b.Stream(), b.Pos(), rest, 0)
  {
    hide Coming, Bits, NoLists;
    ghost var g := HighElements(want);
    ghost var els := g + rest;
    ghost var good := Coming(b.Stream(), b.Pos(), els, 0) && HighDefaults(want);
    ghost var i := 1;
    ok := true;
    var chroma_format_idc := GetUe(b, els, 0);
    var residual := 0;
    if chroma_format_idc == 3 {
      residual := GetU1(b, els, 1);
      i := 2;
    }
    var luma := GetUe(b, els, i);
    var chroma := GetUe(b, els, i + 1);
    var bypass := GetU1(b, els, i + 2);
    var matrix := GetU1(b, els, i + 3);
    h := High(chroma_format_idc, residual, luma, chroma, bypass, matrix);
    assert good ==> h == want && Coming(b.Stream(), b.Pos(), els, i + 4);
    EightFlags();
    if matrix != 0 {
      assert good ==> els[i + 4..i + 12] == NoLists();
      ok := ReadLists(b, els, i + 4, good);
      i := i + 8;
    }
    if good {
      ComingRest(b.Stream(), b.Pos(), g, rest);
    }
  }

  method ReadLists(b: Bs, ghost els: seq<Element>, ghost k: nat, ghost good: bool) returns (ok: bool)
    requires b.Valid() && (good ==> k + 8 <= |els| && els[k..k + 8] == NoLists() && Coming(b.Stream(), b.Pos(), els, k))
    modifies b
    ensures b.Valid() && b.Stream() == old(b.Stream())
    ensures good ==> ok && Coming(b.Stream(), b.Pos(), els, k + 8)
  {
    hide Coming, Bits, NoLists;
    ghost var list, from := els, k;
    if !good {
      list, from := NoLists(), 0;
      EightFlags();
    }
    ok := ReadNoLists(b, list, from);
  }

  lemma EightFlags()
    ensures |NoLists()| == 8 && NoLists()[0..8] == NoLists()
  {
  }

  /** Reads as many signed numbers as the count says. */
  method ReadOffsets(b: Bs, n: nat, ghost want: seq<int>, ghost els: seq<Element>, ghost k: nat, ghost good: bool)
    returns (s: seq<int>)
    requires b.Valid()
    requires good ==>
      |want| == n && k + n <= |els| && els[k..k + n] == Offsets(want) && Coming(b.Stream(), b.Pos(), els, k)
    modifies b
    ensures b.Valid() && b.Stream() == old(b.Stream())
    ensures good ==> s == want && Coming(b.Stream(), b.Pos(), els, k + n)
  {
    hide Coming, Bits;
    s := [];
    for i := 0 to n
      invariant b.Valid() && b.Stream() == old(b.Stream()) && |s| == i
      invariant good ==> s == want[..i] && Coming(b.Stream(), b.Pos(), els, k + i)
    {
      assert good ==> els[k + i] == els[k..k + n][i] == Offsets(want)[i];
      var x := GetSe(b, els, k + i);
      s := s + [x];
    }
  }

  method ReadOrder(b: Bs, ghost want: Order, ghost rest: seq<Element>) returns (o: Order)
    requires b.Valid()
    modifies b
    ensures b.Valid() && b.Stream() == old(b.Stream())
    ensures Coming(b.Stream(), old(b.Pos()), OrderElements(want) + rest, 0) && OrderDefaults(want) ==>
      o == want && Coming(b.Stream(), b.Pos(), rest, 0)
  {
    hide Coming, Bits, Offsets;
    ghost var g := OrderElements(want);
    ghost var els := g + rest;
    ghost var good := Coming(b.Stream(), b.Pos(), els, 0) && OrderDefaults(want);
    var log2_max_frame_num := GetUe(b, els, 0);
    var pic_order_cnt_type := GetUe(b, els, 1);
    var lsb, zero_flag, n, offsets := 0, 0, 0, [];
    var non_ref: int, bottom: int := 0, 0;
    if pic_order_cnt_type == 0 {
      lsb := GetUe(b, els, 2);
    } else if pic_order_cnt_type == 1 {
      zero_flag := GetU1(b, els, 2);
      non_ref := GetSe(b, els, 3);
      bottom := GetSe(b, els, 4);
      n := GetUe(b, els, 5);
      OffsetsSize(want.offset_for_ref_frame);
      assert good ==> els[6..6 + n] == Offsets(want.offset_for_ref_frame);
      offsets := ReadOffsets(b, n, want.offset_for_ref_frame, els, 6, good);
    }
    o := Order(log2_max_frame_num, pic_order_cnt_type, lsb, zero_flag, non_ref, bottom, n, offsets);
    OffsetsSize(want.offset_for_ref_frame);
    if good {
      ComingRest(b.Stream(), b.Pos(), g, rest);
    }
  }

  lemma OffsetsSize(s: seq<int>)
    ensures |Offsets(s)| == |s|
  {
  }

  method ReadFrame(b: Bs, ghost want: Frame, ghost rest: seq<Element>) returns (f: Frame)
    requires b.Valid()
    modifies b
    ensures b.Valid() && b.Stream() == old(b.Stream())
    ensures Coming(b.Stream(), old(b.Pos()), FrameElements(want) + rest, 0) && FrameDefaults(want) ==>
      f == want && Coming(b.Stream(), b.Pos(), rest, 0)
  {
    hide Coming, Bits;
    ghost var g := FrameElements(want);
    ghost var els := g + rest;
    ghost var good := Coming(b.Stream(), b.Pos(), els, 0) && FrameDefaults(want);
    var num_ref_frames := GetUe(b, els, 0);
    var gaps := GetU1(b, els, 1);
    var width := GetUe(b, els, 2);
    var height := GetUe(b, els, 3);
    var frame_mbs_only_flag := GetU1(b, els, 4);
    var adaptive := 0;
    ghost var i := 5;
    if frame_mbs_only_flag == 0 {
      adaptive := GetU1(b, els, 5);
      i := 6;
    }
    var direct := GetU1(b, els, i);
    f := Frame(num_ref_frames, gaps, width, height, frame_mbs_only_flag, adaptive, direct);
    if good {
      ComingRest(b.Stream(), b.Pos(), g, rest);
    }
  }

  method ReadCrop(b: Bs, ghost want: Crop, ghost rest: seq<Element>) returns (c: Crop)
    requires b.Valid()
    modifies b
    ensures b.Valid() && b.Stream() == old(b.Stream())
    ensures Coming(b.Stream(), old(b.Pos()), CropElements(want) + rest, 0) && CropDefaults(want) ==>
      c == want && Coming(b.Stream(), b.Pos(), rest, 0)
  {
    hide Coming, Bits;
    ghost var g := CropElements(want);
    ghost var els := g + rest;
    ghost var good := Coming(b.Stream(), b.Pos(), els, 0) && CropDefaults(want);
    var frame_cropping_flag := GetU1(b, els, 0);
    var left, right, top, bottom := 0, 0, 0, 0;
    if frame_cropping_flag != 0 {
      left := GetUe(b, els, 1);
      right := GetUe(b, els, 2);
      top := GetUe(b, els, 3);
      bottom := GetUe(b, els, 4);
    }
    c := Crop(frame_cropping_flag, left, right, top, bottom);
    if good {
      ComingRest(b.Stream(), b.Pos(), g, rest);
    }
  }

  method ReadAspect(b: Bs, ghost want: Aspect, ghost rest: seq<Element>) returns (a: Aspect)
    requires b.Valid()
    modifies b
    ensures b.Valid() && b.Stream() == old(b.Stream())
    ensures Coming(b.Stream(), old(b.Pos()), AspectElements(want) + rest, 0) && AspectDefaults(want) ==>
      a == want && Coming(b.Stream(), b.Pos(), rest, 0)
  {
    hide Coming, Bits;
    ghost var g := AspectElements(want);
    ghost var els := g + rest;
    ghost var good := Coming(b.Stream(), b.Pos(), els, 0) && AspectDefaults(want);
    ghost var i := 1;
    var present := GetU1(b, els, 0);
    var aspect_ratio_idc, sar_width, sar_height, appropriate := 0, 0, 0, 0;
    if present != 0 {
      aspect_ratio_idc := GetU8(b, els, 1);
      i := 2;
      if aspect_ratio_idc == SAR_Extended {
        sar_width := GetU(b, 16, els, 2);
        sar_height := GetU(b, 16, els, 3);
        i := 4;
      }
    }
    var overscan := GetU1(b, els, i);
    i := i + 1;
    if overscan != 0 {
      appropriate := GetU1(b, els, i);
    }
    a := Aspect(present, aspect_ratio_idc, sar_width, sar_height, overscan, appropriate);
    if good {
      ComingRest(b.Stream(), b.Pos(), g, rest);
    }
  }

  method ReadVideo(b: Bs, ghost want: Video, ghost rest: seq<Element>) returns (v: Video)
    requires b.Valid()
    modifies b
    ensures b.Valid() && b.Stream() == old(b.Stream())
    ensures Coming(b.Stream(), old(b.Pos()), VideoElements(want) + rest, 0) && VideoDefaults(want) ==>
      v == want && Coming(b.Stream(), b.Pos(), rest, 0)
  {
    hide Coming, Bits;
    ghost var g := VideoElements(want);
    ghost var els := g + rest;
    ghost var good := Coming(b.Stream(), b.Pos(), els, 0) && VideoDefaults(want);
    var present := GetU1(b, els, 0);
    var video_format, full_range, colour, primaries, transfer, matrix := 0, 0, 0, 0, 0, 0;
    if present != 0 {
      video_format := GetU(b, 3, els, 1);
      full_range := GetU1(b, els, 2);
      colour := GetU1(b, els, 3);
      if colour != 0 {
        primaries := GetU8(b, els, 4);
        transfer := GetU8(b, els, 5);
        matrix := GetU8(b, els, 6);
      }
    }
    v := Video(present, video_format, full_range, colour, primaries, transfer, matrix);
    if good {
      ComingRest(b.Stream(), b.Pos(), g, rest);
    }
  }

  method ReadTiming(b: Bs, ghost want: Timing, ghost rest: seq<Element>) returns (t: Timing)
    requires b.Valid()
    modifies b
    ensures b.Valid() && b.Stream() == old(b.Stream())
    ensures Coming(b.Stream(), old(b.Pos()), TimingElements(want) + rest, 0) && TimingDefaults(want) ==>
      t == want && Coming(b.Stream(), b.Pos(), rest, 0)
  {
    hide Coming, Bits;
    ghost var g := TimingElements(want);
    ghost var els := g + rest;
    ghost var good := Coming(b.Stream(), b.Pos(), els, 0) && TimingDefaults(want);
    ghost var i := 1;
    var chroma_loc := GetU1(b, els, 0);
    var top, bottom, units, scale, fixed := 0, 0, 0, 0, 0;
    if chroma_loc != 0 {
      top := GetUe(b, els, 1);
      bottom := GetUe(b, els, 2);
      i := 3;
    }
    var timing := GetU1(b, els, i);
    i := i + 1;
    if timing != 0 {
      units := GetU(b, 32, els, i);
      scale := GetU(b, 32, els, i + 1);
      fixed := GetU1(b, els, i + 2);
    }
    t := Timing(chroma_loc, top, bottom, timing, units, scale, fixed);
    if good {
      ComingRest(b.Stream(), b.Pos(), g, rest);
    }
  }

  // ----- HRD parameters

  lemma {:induction false} ScheduleAt(s: seq<Schedule>, i: nat)
    requires i < |s|
    ensures |ScheduleElements(s)| == 3 * |s|
    ensures ScheduleElements(s)[3 * i..3 * i + 3] == OneSchedule(s[i])
    decreases |s|
  {
    var n := |s| - 1;
    ScheduleCount(s[..n]);
    assert s[..n] + [s[n]] == s;
    if i < n {
      ScheduleAt(s[..n], i);
      assert ScheduleElements(s)[3 * i..3 * i + 3] == ScheduleElements(s[..n])[3 * i..3 * i + 3];
    }
  }

  lemma {:induction false} ScheduleCount(s: seq<Schedule>)
    ensures |ScheduleElements(s)| == 3 * |s|
    decreases |s|
  {
    if s != [] {
      ScheduleCount(s[..|s| - 1]);
    }
  }

  method ReadSchedules(b: Bs, cpb_cnt_minus1: nat, ghost want: seq<Schedule>, ghost els: seq<Element>, ghost k: nat,
                       ghost good: bool)
    returns (s: seq<Schedule>)
    requires b.Valid()
    requires good ==>
      |want| == cpb_cnt_minus1 + 1 && k + 3 * |want| <= |els| && els[k..k + 3 * |want|] == ScheduleElements(want)
    requires good ==> Coming(b.Stream(), b.Pos(), els, k)
    modifies b
    ensures b.Valid() && b.Stream() == old(b.Stream())
    ensures good ==> s == want && Coming(b.Stream(), b.Pos(), els, k + 3 * |want|)
  {
    hide Coming, Bits, ScheduleElements;
    s := [];
    var SchedSelIdx := 0;
    while SchedSelIdx <= cpb_cnt_minus1
      invariant SchedSelIdx <= cpb_cnt_minus1 + 1
      invariant b.Valid() && b.Stream() == old(b.Stream()) && |s| == SchedSelIdx
      invariant good ==> s == want[..SchedSelIdx] && Coming(b.Stream(), b.Pos(), els, k + 3 * SchedSelIdx)
    {
      ghost var i := k + 3 * SchedSelIdx;
      if good {
        ScheduleAt(want, SchedSelIdx);
        ThreeAt(els, k, ScheduleElements(want), 3 * SchedSelIdx, want[SchedSelIdx]);
      }
      var rate := GetUe(b, els, i);
      var size := GetUe(b, els, i + 1);
      var flag := GetU1(b, els, i + 2);
      s := s + [Schedule(rate, size, flag)];
      SchedSelIdx := SchedSelIdx + 1;
    }
  }

  lemma ThreeAt(els: seq<Element>, k: nat, g: seq<Element>, j: nat, s: Schedule)
    requires k + |g| <= |els| && els[k..k + |g|] == g && j + 3 <= |g| && g[j..j + 3] == OneSchedule(s)
    ensures els[k + j] == Ue(s.bit_rate_value_minus1) && els[k + j + 1] == Ue(s.cpb_size_value_minus1)
    ensures els[k + j + 2] == U(1, s.cbr_flag)
  {
    var t := els[k..k + |g|];
    assert t[j] == els[k + j] && t[j + 1] == els[k + j + 1] && t[j + 2] == els[k + j + 2];
    assert g[j..j + 3][0] == g[j] && g[j..j + 3][1] == g[j + 1] && g[j..j + 3][2] == g[j + 2];
  }

  method ReadHrd(b: Bs, ghost want: Hrd, ghost rest: seq<Element>) returns (h: Hrd)
    requires b.Valid()
    modifies b
    ensures b.Valid() && b.Stream() == old(b.Stream())
    ensures Coming(b.Stream(), old(b.Pos()), HrdElements(want) + rest, 0) && HrdComplete(want) ==>
      h == want && Coming(b.Stream(), b.Pos(), rest, 0)
  {
    hide Coming, Bits, ScheduleElements;
    ghost var g := HrdElements(want);
    ghost var els := g + rest;
    ghost var good := Coming(b.Stream(), b.Pos(), els, 0) && HrdComplete(want);
    ScheduleCount(want.schedules);
    HrdParts(want, rest);
    var cpb_cnt_minus1 := GetUe(b, els, 0);
    var bit_rate_scale := GetU(b, 4, els, 1);
    var cpb_size_scale := GetU(b, 4, els, 2);
    var schedules := ReadSchedules(b, cpb_cnt_minus1, want.schedules, els, 3, good);
    ghost var i := 3 + 3 * |want.schedules|;
    var initial := GetU(b, 5, els, i);
    var removal := GetU(b, 5, els, i + 1);
    var output := GetU(b, 5, els, i + 2);
    var offset := GetU(b, 5, els, i + 3);
    h := Hrd(cpb_cnt_minus1, bit_rate_scale, cpb_size_scale, schedules, initial, removal, output, offset);
    if good {
      ComingRest(b.Stream(), b.Pos(), g, rest);
    }
  }

  lemma HrdParts(h: Hrd, rest: seq<Element>)
    ensures var els, n := HrdElements(h) + rest, 3 * |h.schedules|;
      && |HrdElements(h)| == n + 7
      && els[0] == Ue(h.cpb_cnt_minus1) && els[1] == U(4, h.bit_rate_scale) && els[2] == U(4, h.cpb_size_scale)
      && els[3..3 + n] == ScheduleElements(h.schedules)
      && els[3 + n] == U(5, h.initial_cpb_removal_delay_length_minus1)
      && els[4 + n] == U(5, h.cpb_removal_delay_length_minus1)
      && els[5 + n] == U(5, h.dpb_output_delay_length_minus1) && els[6 + n] == U(5, h.time_offset_length)
  {
    hide ScheduleElements;
    ScheduleCount(h.schedules);
  }

  method ReadRestriction(b: Bs, ghost want: Restriction, ghost rest: seq<Element>) returns (r: Restriction)
    requires b.Valid()
    modifies b
    ensures b.Valid() && b.Stream() == old(b.Stream())
    ensures Coming(b.Stream(), old(b.Pos()), RestrictionElements(want) + rest, 0) && RestrictionDefaults(want) ==>
      r == want && Coming(b.Stream(), b.Pos(), rest, 0)
  {
    hide Coming, Bits;
    ghost var g := RestrictionElements(want);
    ghost var els := g + rest;
    ghost var good := Coming(b.Stream(), b.Pos(), els, 0) && RestrictionDefaults(want);
    var pic_struct := GetU1(b, els, 0);
    var present := GetU1(b, els, 1);
    var vectors, bytes, bits, horizontal, vertical, reorder, buffering := 0, 0, 0, 0, 0, 0, 0;
    if present != 0 {
      vectors := GetU1(b, els, 2);
      bytes := GetUe(b, els, 3);
      bits := GetUe(b, els, 4);
      horizontal := GetUe(b, els, 5);
      vertical := GetUe(b, els, 6);
      reorder := GetUe(b, els, 7);
      buffering := GetUe(b, els, 8);
    }
    r := Restriction(pic_struct, present, vectors, bytes, bits, horizontal, vertical, reorder, buffering);
    if good {
      ComingRest(b.Stream(), b.Pos(), g, rest);
    }
  }

  /** One flag and, if it is set, HRD parameters, which replace those read before. */
  method ReadUse(b: Bs, before: Hrd, ghost flag: nat, ghost want: Hrd, ghost rest: seq<Element>)
    returns (present: nat, h: Hrd)
    requires b.Valid()
    modifies b
    ensures b.Valid() && b.Stream() == old(b.Stream())
    ensures Coming(b.Stream(), old(b.Pos()), [U(1, flag)] + (if flag != 0 then HrdElements(want) else []) + rest, 0) ==>
      (flag != 0 ==> HrdComplete(want)) ==>
      present == flag && h == (if flag != 0 then want else before) && Coming(b.Stream(), b.Pos(), rest, 0)
  {
    hide Coming, Bits, HrdElements;
    ghost var g := if flag != 0 then HrdElements(want) else [];
    ghost var els := [U(1, flag)] + g + rest;
    ghost var good := Coming(b.Stream(), b.Pos(), els, 0) && (flag != 0 ==> HrdComplete(want));
    present := GetU1(b, els, 0);
    h := before;
    assert els == [U(1, flag)] + (g + rest);
    if good {
      ComingRest(b.Stream(), b.Pos(), [U(1, flag)], g + rest);
    }
    if present != 0 {
      h := ReadHrd(b, want, rest);
    } else {
      assert good ==> g + rest == rest;
    }
  }

  lemma Nested<T>(a: seq<T>, b: seq<T>, c: seq<T>)
    ensures (a + b) + c == a + (b + c)
  {
  }

  method ReadVui(b: Bs, ghost want: Vui, ghost wantHrd: Hrd, ghost rest: seq<Element>) returns (v: Vui, h: Hrd)
    requires b.Valid()
    modifies b
    ensures b.Valid() && b.Stream() == old(b.Stream())
    ensures Coming(b.Stream(), old(b.Pos()), VuiElements(want, wantHrd) + rest, 0) && VuiDefaults(want, wantHrd) ==>
      v == want && h == wantHrd && Coming(b.Stream(), b.Pos(), rest, 0)
  {
    hide Coming, Bits, AspectElements, VideoElements, TimingElements, UseElements, RestrictionElements;
    hide AspectDefaults, VideoDefaults, TimingDefaults, RestrictionDefaults, UseDefaults;
    ghost var a, i, t, u, r := AspectElements(want.aspect), VideoElements(want.video), TimingElements(want.timing),
      UseElements(want, wantHrd), RestrictionElements(want.restriction);
    Nested(a, i + (t + (u + r)), rest);
    Nested(i, t + (u + r), rest);
    Nested(t, u + r, rest);
    Nested(u, r, rest);
    var aspect := ReadAspect(b, want.aspect, (i + (t + (u + r))) + rest);
    var video := ReadVideo(b, want.video, (t + (u + r)) + rest);
    var timing := ReadTiming(b, want.timing, (u + r) + rest);
    var nal, vcl, delay;
    nal, vcl, delay, h := ReadUses(b, want, wantHrd, r + rest);
    var restriction := ReadRestriction(b, want.restriction, rest);
    v := Vui(aspect, video, timing, nal, vcl, delay, restriction);
  }

  method ReadUses(b: Bs, ghost want: Vui, ghost wantHrd: Hrd, ghost rest: seq<Element>)
    returns (nal: nat, vcl: nat, delay: nat, h: Hrd)
    requires b.Valid()
    modifies b
    ensures b.Valid() && b.Stream() == old(b.Stream())
    ensures Coming(b.Stream(), old(b.Pos()), UseElements(want, wantHrd) + rest, 0) && UseDefaults(want, wantHrd) ==>
      && nal == want.nal_hrd_parameters_present_flag && vcl == want.vcl_hrd_parameters_present_flag
      && delay == want.low_delay_hrd_flag && h == wantHrd && Coming(b.Stream(), b.Pos(), rest, 0)
  {
    hide Coming, Bits, HrdElements;
    ghost var nf, vf := want.nal_hrd_parameters_present_flag, want.vcl_hrd_parameters_present_flag;
    ghost var n := [U(1, nf)] + if nf != 0 then HrdElements(wantHrd) else [];
    ghost var c := [U(1, vf)] + if vf != 0 then HrdElements(wantHrd) else [];
    ghost var d := if nf != 0 || vf != 0 then [U(1, want.low_delay_hrd_flag)] else [];
    ghost var good := Coming(b.Stream(), b.Pos(), UseElements(want, wantHrd) + rest, 0) && UseDefaults(want, wantHrd);
    assert UseElements(want, wantHrd) == n + (c + d);
    Nested(n, c + d, rest);
    Nested(c, d, rest);
    h := NoHrd();
    nal, h := ReadUse(b, h, nf, wantHrd, (c + d) + rest);
    vcl, h := ReadUse(b, h, vf, wantHrd, d + rest);
    delay := 0;
    if nal != 0 || vcl != 0 {
      delay := GetU1(b, d + rest, 0);
      if good {
        ComingRest(b.Stream(), b.Pos(), d, rest);
      }
    } else {
      assert good ==> d + rest == rest;
    }
  }

  method ReadFlag(b: Bs, ghost want: ParameterSet, ghost rest: seq<Element>) returns (present: nat, v: Vui, h: Hrd)
    requires b.Valid()
    modifies b
    ensures b.Valid() && b.Stream() == old(b.Stream())
    ensures Coming(b.Stream(), old(b.Pos()), FlagElements(want) + rest, 0) && Defaults(want) ==>
      present == want.vui_parameters_present_flag && v == want.vui && h == want.hrd &&
        Coming(b.Stream(), b.Pos(), rest, 0)
  {
    hide Coming, Bits, VuiElements, VuiDefaults, HighDefaults, OrderDefaults, FrameDefaults, CropDefaults;
    ghost var flag := want.vui_parameters_present_flag;
    ghost var g := if flag != 0 then VuiElements(want.vui, want.hrd) else [];
    ghost var good := Coming(b.Stream(), b.Pos(), FlagElements(want) + rest, 0) && Defaults(want);
    Nested([U(1, flag)], g, rest);
    present := GetU1(b, FlagElements(want) + rest, 0);
    v, h := NoVui(), NoHrd();
    if good {
      ComingRest(b.Stream(), b.Pos(), [U(1, flag)], g + rest);
    }
    if present != 0 {
      v, h := ReadVui(b, want.vui, want.hrd, rest);
    } else {
      assert good ==> g + rest == rest;
    }
  }

  /** Reads the whole parameter set; not ok means that a scaling list was announced. */
  method ReadSeqParameterSet(b: Bs, ghost want: ParameterSet, ghost rest: seq<Element>)
    returns (s: ParameterSet, ok: bool)
    requires b.Valid()
    modifies b
    ensures b.Valid() && b.Stream() == old(b.Stream())
    ensures Coming(b.Stream(), old(b.Pos()), Elements(want) + rest, 0) && Defaults(want) ==>
      ok && s == want && Coming(b.Stream(), b.Pos(), rest, 0)
  {
    hide Coming, Bits, HeadElements, HighElements, OrderElements, FrameElements, CropElements, FlagElements;
    hide HighDefaults, OrderDefaults, FrameDefaults, CropDefaults, VuiDefaults;
    ghost var a, k := HeadElements(want.head), if HighProfile(want.head.profile_idc) then HighElements(want.high)
      else [];
    ghost var o, f, c, g := OrderElements(want.order), FrameElements(want.frame), CropElements(want.crop),
      FlagElements(want);
    Nested(a, k + (o + (f + (c + g))), rest);
    Nested(k, o + (f + (c + g)), rest);
    Nested(o, f + (c + g), rest);
    Nested(f, c + g, rest);
    Nested(c, g, rest);
    var head := ReadHead(b, want.head, (k + (o + (f + (c + g)))) + rest);
    var high;
    high, ok := NoHigh(), true;
    if HighProfile(head.profile_idc) {
      high, ok := ReadHigh(b, want.high, (o + (f + (c + g))) + rest);
    } else {
      assert k == [] ==> k + ((o + (f + (c + g))) + rest) == (o + (f + (c + g))) + rest;
    }
    var order := ReadOrder(b, want.order, (f + (c + g)) + rest);
    var frame := ReadFrame(b, want.frame, (c + g) + rest);
    var crop := ReadCrop(b, want.crop, g + rest);
    var present, vui, hrd := ReadFlag(b, want, rest);
    s := ParameterSet(head, high, order, frame, crop, present, vui, hrd);
  }
}
