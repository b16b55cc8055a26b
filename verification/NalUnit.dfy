/** NAL units that carry a sequence parameter set: writing one, reading one, and that reading undoes writing. */
module NalUnit {
  import opened Basics
  import opened BitXor
  import opened NalBytes
  import opened BitCodes
  import opened BitStream
  import opened SpsSyntax
  import opened Sps
  import opened SpsWriter
  import opened SpsReader
  import opened ZeroRuns
  import opened SpsRuns

  const NAL_UNIT_TYPE_SPS: nat := 7

  function UnitHeader(nal_ref_idc: nat): seq<Element>
  {
    [U(1, 0), U(2, nal_ref_idc), U(5, NAL_UNIT_TYPE_SPS)]
  }

  function Zeroes(n: nat): seq<Element>
  {
    seq(n, _ => U(1, 0))
  }

  /** The stop bit, and zeros up to the end of the byte. */
  function Trailing(n: nat): seq<Element>
  {
    [U(1, 1)] + Zeroes(n)
  }

  /** The number of zeros that fill up the last byte. */
  function Padding(n: nat): nat
  {
    (8 - n % 8) % 8
  }

  /** All elements of the unit. */
  function UnitElements(nal_ref_idc: nat, s: ParameterSet): seq<Element>
  {
    UnitHeader(nal_ref_idc) + Elements(s) +
      Trailing(Padding(|Codes(UnitHeader(nal_ref_idc) + Elements(s) + [U(1, 1)])|))
  }

  /** The raw bytes of the unit. */
  function Payload(nal_ref_idc: nat, s: ParameterSet): (rbsp: seq<Byte>)
    ensures Bits(rbsp) == Codes(UnitElements(nal_ref_idc, s))
  {
    var e := UnitHeader(nal_ref_idc) + Elements(s);
    FilledUp(e, Padding(|Codes(e + [U(1, 1)])|));
    var bits := Codes(UnitElements(nal_ref_idc, s));
    BitsOfBytes(bits);
    BytesOf(bits)
  }

  lemma {:induction false} ZeroesLength(n: nat)
    ensures |Codes(Zeroes(n))| == n
  {
    if n == 0 {
      assert Zeroes(0) == [];
    } else {
      assert Zeroes(n)[1..] == Zeroes(n - 1);
      ZeroesLength(n - 1);
    }
  }

  /** A filled unit has whole bytes, and only the right number of zeros fills it. */
  lemma FilledUp(e: seq<Element>, n: nat)
    requires n < 8
    ensures |Codes(e + Trailing(n))| % 8 == 0 <==> n == Padding(|Codes(e + [U(1, 1)])|)
    ensures |Codes(e + Trailing(n))| == |Codes(e + [U(1, 1)])| + n
  {
    hide Codes, Zeroes, Trailing, Padding;
    TrailingIs(e, n);
    CodesAppend(e + [U(1, 1)], Zeroes(n));
    ZeroesLength(n);
    PaddingIs(|Codes(e + [U(1, 1)])|, n);
  }

  lemma TrailingIs(e: seq<Element>, n: nat)
    ensures e + Trailing(n) == (e + [U(1, 1)]) + Zeroes(n)
  {
  }

  lemma PaddingIs(k: nat, n: nat)
    requires n < 8
    ensures (k + n) % 8 == 0 <==> n == Padding(k)
  {
  }

  lemma HeaderFits(nal_ref_idc: nat)
    requires nal_ref_idc < 4
    ensures AllFit(UnitHeader(nal_ref_idc))
  {
    Powers();
    hide Two;
  }

  lemma TrailingFits(n: nat)
    ensures AllFit(Trailing(n))
  {
    Powers();
    hide Two;
  }

  lemma JoinedFit(a: seq<Element>, b: seq<Element>)
    requires AllFit(a) && AllFit(b)
    ensures AllFit(a + b)
  {
    hide Fits;
  }

  /** Writes the stop bit and the zeros after it. */
  method WriteTrailingBits(b: Bs, ghost was: seq<bool>, ghost start: nat, ghost e0: seq<Element>) returns (ghost n: nat)
    requires b.Valid() && Put(b.Stream(), was, start, b.Pos(), e0)
    modifies b, b.buf
    ensures b.Valid() && b.ByteAligned() && n < 8 && Put(b.Stream(), was, start, b.Pos(), e0 + Trailing(n))
  {
    hide Put, Bits, Trailing, Bs.Stream;
    PutU(b, 1, 1, was, start, e0);
    n := 0;
    JustStop(e0);
    ghost var end := b.Pos() + b.bits_left % 8;
    BitsToByte(b.p, b.bits_left, end);
    while !b.ByteAligned()
      invariant b.Valid() && b.Pos() + 7 - n >= end >= b.Pos() && end % 8 == 0
      invariant b.ByteAligned() <==> b.Pos() == end
      invariant Put(b.Stream(), was, start, b.Pos(), e0 + Trailing(n))
      decreases end - b.Pos()
    {
      PutU(b, 1, 0, was, start, e0 + Trailing(n));
      BitsToByte(b.p, b.bits_left, end);
      OneMoreZero(e0, n);
      n := n + 1;
    }
  }

  /** The end of the current byte is reached where a byte is whole. */
  lemma BitsToByte(p: nat, bits_left: nat, end: nat)
    requires 1 <= bits_left <= 8
    ensures (8 * p + (8 - bits_left) + bits_left % 8) % 8 == 0
    ensures end % 8 == 0 && end - 8 < 8 * p + (8 - bits_left) <= end ==>
      (bits_left == 8 <==> 8 * p + (8 - bits_left) == end)
  {
  }

  lemma JustStop(e0: seq<Element>)
    ensures e0 + [U(1, 1)] == e0 + Trailing(0)
  {
    assert [U(1, 1)] + Zeroes(0) == [U(1, 1)];
  }

  lemma OneMoreZero(e0: seq<Element>, n: nat)
    ensures e0 + Trailing(n) + [U(1, 0)] == e0 + Trailing(n + 1)
  {
    assert Zeroes(n) + [U(1, 0)] == Zeroes(n + 1);
  }

  /** Reads past the stop bit to the end of the byte. */
  method ReadTrailingBits(b: Bs)
    requires b.Valid()
    modifies b
    ensures b.Valid() && b.ByteAligned() && b.Pos() <= old(b.Pos()) + 8
  {
    b.SkipU(1);
    while !b.ByteAligned()
      invariant b.Valid() && b.Pos() + (if b.ByteAligned() then 0 else b.bits_left) <= old(b.Pos()) + 8
      decreases if b.ByteAligned() then 0 else b.bits_left
    {
      b.SkipU(1);
    }
  }

  // ----- writing

  /** Writes header, parameter set and trailing bits. */
  method WriteUnit(b: Bs, nal_ref_idc: nat, s: ParameterSet, ghost was: seq<bool>)
    requires b.Valid() && b.Stream() == was && b.Pos() == 0 && Writable(s)
    modifies b, b.buf
    ensures b.Valid() && b.ByteAligned() && Put(b.Stream(), was, 0, b.Pos(), UnitElements(nal_ref_idc, s))
  {
    hide Put, Bits, Elements, Writable, Trailing, Codes, Padding, Bs.Stream;
    PutNothing(was);
    PutU(b, 1, 0, was, 0, []);
    assert [] + [U(1, 0)] == [U(1, 0)];
    PutU(b, 2, nal_ref_idc, was, 0, [U(1, 0)]);
    assert [U(1, 0)] + [U(2, nal_ref_idc)] == [U(1, 0), U(2, nal_ref_idc)];
    PutU(b, 5, NAL_UNIT_TYPE_SPS, was, 0, [U(1, 0), U(2, nal_ref_idc)]);
    assert [U(1, 0), U(2, nal_ref_idc)] + [U(5, NAL_UNIT_TYPE_SPS)] == UnitHeader(nal_ref_idc);
    ghost var els := WriteSeqParameterSet(b, s, was, 0, UnitHeader(nal_ref_idc));
    ghost var n := WriteTrailingBits(b, was, 0, els);
    PutLength(b.Stream(), was, b.Pos(), els + Trailing(n));
    FilledUp(els, n);
  }

  lemma PutNothing(was: seq<bool>)
    ensures Put(was, was, 0, 0, [])
  {
  }

  lemma PutLength(now: seq<bool>, was: seq<bool>, pos: nat, els: seq<Element>)
    requires Put(now, was, 0, pos, els)
    ensures |Codes(els)| == pos
  {
  }

  /** What lies before the position is the payload. */
  lemma PutPayload(bytes: seq<Byte>, was: seq<bool>, p: nat, nal_ref_idc: nat, s: ParameterSet)
    requires p <= |bytes| && Put(Bits(bytes), was, 0, 8 * p, UnitElements(nal_ref_idc, s))
    ensures bytes[..p] == Payload(nal_ref_idc, s)
  {
    hide Bits, Codes, UnitElements, BytesOf;
    BitsPrefix(bytes, p);
    assert Bits(bytes[..p]) == Codes(UnitElements(nal_ref_idc, s));
    BytesOfBits(bytes[..p]);
    BytesOfBits(Payload(nal_ref_idc, s));
  }

  /** The payload and its packed form are taken for the given size. */
  predicate Taken(rbsp: seq<Byte>, size: nat)
  {
    |rbsp| <= size * 3 / 4 && PacksWithin(rbsp, size)
  }

  /** The size is overrun in packing, which needs a payload within three quarters of the size. */
  predicate WritesBehind(rbsp: seq<Byte>, size: nat)
  {
    |rbsp| <= size * 3 / 4 && Overruns(rbsp, size)
  }

  lemma {:induction false} ZeroesRuns(els: seq<Element>, n: nat)
    requires RunsTo(els, 0, 3) && n <= 75
    ensures RunsTo(els + Zeroes(n), n, 3)
    decreases n
  {
    hide RunsTo;
    if n == 0 {
      assert els + Zeroes(0) == els;
    } else {
      ZeroesRuns(els, n - 1);
      var r := PlusU(els + Zeroes(n - 1), n - 1, 3, 1, 0);
      assert r == els + Zeroes(n);
    }
  }

  lemma TrailingRuns(els: seq<Element>, n: nat)
    requires RunsTo(els, 69, 1) && n < 8
    ensures RunsTo(els + Trailing(n), 7, 3)
  {
    hide RunsTo;
    var r := PlusOdd(els, 69, 1, 1, 1);
    ZeroesRuns(r, n);
    TrailingIs(els, n);
    RunsWeaker(els + Trailing(n), n, 3, 7, 3);
  }

  lemma HeaderRuns(nal_ref_idc: nat)
    ensures RunsTo(UnitHeader(nal_ref_idc), 0, 0)
  {
    hide RunsTo;
    RunsToNothing();
    var r := PlusU([], 0, 0, 1, 0);
    r := PlusU(r, 1, 0, 2, nal_ref_idc);
    r := PlusOdd(r, 3, 0, 5, NAL_UNIT_TYPE_SPS);
    assert r == UnitHeader(nal_ref_idc);
  }

  lemma HeaderByte(rbsp: seq<Byte>, nal_ref_idc: nat, rest: seq<Element>)
    requires Bits(rbsp) == Codes(UnitHeader(nal_ref_idc) + rest)
    ensures rbsp != [] && rbsp[0] != 0
  {
    hide Codes, Bits;
    var a := [U(1, 0), U(2, nal_ref_idc)];
    assert UnitHeader(nal_ref_idc) + rest == a + [U(5, NAL_UNIT_TYPE_SPS)] + rest;
    CodesAppend(a + [U(5, NAL_UNIT_TYPE_SPS)], rest);
    CodesAppend(a, [U(5, NAL_UNIT_TYPE_SPS)]);
    CodesAppend([U(1, 0)], [U(2, nal_ref_idc)]);
    assert a == [U(1, 0)] + [U(2, nal_ref_idc)];
    CodesOne(U(1, 0));
    CodesOne(U(2, nal_ref_idc));
    CodesOne(U(5, NAL_UNIT_TYPE_SPS));
    assert Binary(5, NAL_UNIT_TYPE_SPS)[4];
    hide Binary;
    BitCount(rbsp);
    BitsAt(rbsp, 0, 7);
    BinaryZero(8);
  }

  /** In the payload of a parameter set no runs of zeros gain more than a whole byte on one in three. */
  lemma PayloadRuns(nal_ref_idc: nat, s: ParameterSet)
    requires Writable(s) && s.head.seq_parameter_set_id < SPS_TABLE
    ensures var x := Payload(nal_ref_idc, s); x != [] && x[0] != 0 && Worth(Scan(Bits(x), Run(0, 0))) <= 3
  {
    hide Writable, Elements, Codes, Bits, BytesOf, UnitHeader, Trailing, Scan, Padding;
    var h, e := UnitHeader(nal_ref_idc), Elements(s);
    var n := Padding(|Codes(h + e + [U(1, 1)])|);
    PaddedTo(|Codes(h + e + [U(1, 1)])|);
    HeaderRuns(nal_ref_idc);
    var r := ElementsRuns(h, s);
    TrailingRuns(r, n);
    assert h + e + Trailing(n) == h + (e + Trailing(n));
    HeaderByte(Payload(nal_ref_idc, s), nal_ref_idc, e + Trailing(n));
    var t := Scan(Bits(Payload(nal_ref_idc, s)), Run(0, 0));
    assert WorthAfter(t, 0) <= WorthAfter(Run(7, 3), 0);
  }

  /**
   For parameter sets the three-quarter cap is all that counts: a payload within three quarters of the size is packed
   within the size, and never overruns it.
   */
  lemma CapIsEnough(nal_ref_idc: nat, s: ParameterSet, size: nat)
    requires Writable(s) && s.head.seq_parameter_set_id < SPS_TABLE
    ensures var rbsp := Payload(nal_ref_idc, s);
      (Taken(rbsp, size) <==> |rbsp| <= size * 3 / 4) && !WritesBehind(rbsp, size)
    ensures |Packed(Payload(nal_ref_idc, s), 0)| <= (4 * |Payload(nal_ref_idc, s)| + 2) / 3
  {
    hide Writable, Payload, PacksWithin, Overruns, Scan, Bits, Packed;
    var rbsp := Payload(nal_ref_idc, s);
    PayloadRuns(nal_ref_idc, s);
    if |rbsp| <= size * 3 / 4 {
      ZeroRuns.CapSuffices(rbsp, size);
    }
    PackedInFourThirds(rbsp, |rbsp|);
    assert rbsp[..|rbsp|] == rbsp;
  }

  /**
   Writes a parameter set as a NAL unit; -1 if the payload does not fit into three quarters of the size, or its
   packed form into the size.
   */
  method WriteNalUnit(nal_ref_idc: nat, s: ParameterSet, buf: array<Byte>, size: nat) returns (r: int)
    requires Writable(s) && size <= buf.Length && (size == buf.Length ==> !WritesBehind(Payload(nal_ref_idc, s), size))
    modifies buf
    ensures var rbsp := Payload(nal_ref_idc, s);
      if Taken(rbsp, size) then 0 <= r <= buf.Length && buf[..r] == Packed(rbsp, 0) else r == -1
    ensures forall k :: size <= k < buf.Length && !(k == size && WritesBehind(Payload(nal_ref_idc, s), size)) ==>
      buf[k] == old(buf[k])
  {
    hide Bits, Codes, Writable, Packed, PacksWithin, UnitElements, Payload, Put, Overruns;
    var rbsp_buf := new Byte[size](_ => 0);
    var rbsp_size := size * 3 / 4;
    var b := new Bs(rbsp_buf, rbsp_size);
    ghost var was := b.Stream();
    WriteUnit(b, nal_ref_idc, s, was);
    PayloadLength(b.Stream(), was, b.Pos(), nal_ref_idc, s);
    if b.Overrun() {
      return -1;
    }
    PutPayload(rbsp_buf[..rbsp_size], was, b.p, nal_ref_idc, s);
    rbsp_size := b.p;
    assert rbsp_buf[..rbsp_size] == Payload(nal_ref_idc, s) by {
      assert rbsp_buf[..b.end][..rbsp_size] == rbsp_buf[..rbsp_size];
    }
    var ok, nal_size := RbspToNal(rbsp_buf[..rbsp_size], buf, size);
    r := if ok then nal_size else -1;
  }

  lemma PayloadLength(now: seq<bool>, was: seq<bool>, pos: nat, nal_ref_idc: nat, s: ParameterSet)
    requires Put(now, was, 0, pos, UnitElements(nal_ref_idc, s))
    ensures 8 * |Payload(nal_ref_idc, s)| == pos
  {
    hide UnitElements, Codes, Bits, BytesOf;
    PutLength(now, was, pos, UnitElements(nal_ref_idc, s));
    assert |Bits(Payload(nal_ref_idc, s))| == pos;
  }

  // ----- reading

  lemma UnitComing(nal_ref_idc: nat, s: ParameterSet)
    requires nal_ref_idc < 4 && WellFormed(s)
    ensures Coming(Bits(Payload(nal_ref_idc, s)), 0,
                   UnitHeader(nal_ref_idc) +
                     (Elements(s) + Trailing(Padding(|Codes(UnitHeader(nal_ref_idc) + Elements(s) + [U(1, 1)])|))), 0)
  {
    hide Bits, Codes, Elements, Trailing, Fits, Payload, Padding;
    var n := Padding(|Codes(UnitHeader(nal_ref_idc) + Elements(s) + [U(1, 1)])|);
    var a, e, t := UnitHeader(nal_ref_idc), Elements(s), Trailing(n);
    HeaderFits(nal_ref_idc);
    TrailingFits(n);
    JoinedFit(e, t);
    JoinedFit(a, e + t);
    assert a + e + t == a + (e + t);
    assert (a + (e + t))[0..] == a + (e + t);
    var bits := Bits(Payload(nal_ref_idc, s));
    assert bits[0..0 + |bits|] == bits;
  }

  /** Reads a NAL unit that carries a parameter set; -1 for one that cannot be read, or carries something else. */
  method ReadNalUnit(buf: seq<Byte>, ghost wantRef: nat, ghost want: ParameterSet)
    returns (r: int, nal_ref_idc: nat, nal_unit_type: nat, s: ParameterSet)
    ensures wantRef < 4 && WellFormed(want) && buf == Packed(Payload(wantRef, want), 0) ==>
      r == |buf| && nal_ref_idc == wantRef && nal_unit_type == NAL_UNIT_TYPE_SPS && s == want
    ensures r == -1 || (Unpacked(buf, 0).Some? && r == Used(buf, 0) && nal_unit_type == NAL_UNIT_TYPE_SPS)
  {
    hide Bits, Codes, Elements, Packed, Unpacked, Payload, Coming, Trailing, WellFormed, Padding, Used;
    nal_ref_idc, nal_unit_type := 0, 0;
    s := Empty();
    var rbsp_buf := new Byte[|buf|](_ => 0);
    ghost var good := wantRef < 4 && WellFormed(want) && buf == Packed(Payload(wantRef, want), 0);
    ghost var n := Padding(|Codes(UnitHeader(wantRef) + Elements(want) + [U(1, 1)])|);
    ghost var trailing := Trailing(n);
    if good {
      UnpackPacked(Payload(wantRef, want), 0);
      PackedLength(Payload(wantRef, want), 0);
      UnitComing(wantRef, want);
    }
    var ok, rbsp_size, nal_size := NalToRbsp(buf, rbsp_buf, |buf|);
    if !ok {
      return -1, 0, 0, s;
    }
    var b := new Bs(rbsp_buf, rbsp_size);
    ghost var els := UnitHeader(wantRef) + (Elements(want) + trailing);
    assert good ==> Coming(b.Stream(), b.Pos(), els, 0);
    Skip(b, 1, els, 0);
    nal_ref_idc := GetU(b, 2, els, 1);
    nal_unit_type := GetU(b, 5, els, 2);
    if nal_unit_type != NAL_UNIT_TYPE_SPS {
      return -1, nal_ref_idc, nal_unit_type, s;
    }
    if good {
      ComingRest(b.Stream(), b.Pos(), UnitHeader(wantRef), Elements(want) + trailing);
      DefaultsOf(want);
    }
    var fine;
    s, fine := ReadSeqParameterSet(b, want, trailing);
    if !fine {
      return -1, nal_ref_idc, nal_unit_type, s;
    }
    if good {
      StopComing(b.Stream(), b.Pos(), n);
    }
    ReadTrailingBits(b);
    if b.Overrun() {
      return -1, nal_ref_idc, nal_unit_type, s;
    }
    r := nal_size;
  }

  function Empty(): ParameterSet
  {
    ParameterSet(Head(0, 0, 0, 0, 0, 0, 0, 0, 0), NoHigh(), Order(0, 0, 0, 0, 0, 0, 0, []), Frame(0, 0, 0, 0, 0, 0, 0),
                 Crop(0, 0, 0, 0, 0), 0, NoVui(), NoHrd())
  }

  lemma DefaultsOf(s: ParameterSet)
    requires WellFormed(s)
    ensures Defaults(s)
  {
  }

  lemma WellFormedTable(s: ParameterSet)
    requires WellFormed(s)
    ensures s.head.seq_parameter_set_id < SPS_TABLE
  {
  }

  lemma StopComing(bits: seq<bool>, pos: nat, n: nat)
    requires Coming(bits, pos, Trailing(n), 0)
    ensures pos + 1 <= |bits|
  {
    hide Codes, Zeroes, Binary;
    ComingNext(bits, pos, Trailing(n), 0);
  }

  /** A parameter set survives being written to a NAL unit and read back. */
  method WriteThenRead(nal_ref_idc: nat, s: ParameterSet, buf: array<Byte>, size: nat)
    returns (w: int, r: int, nal_ref_idc': nat, s': ParameterSet)
    requires WellFormed(s) && nal_ref_idc < 4 && size <= buf.Length
    modifies buf
    ensures w >= 0 <==> |Payload(nal_ref_idc, s)| <= size * 3 / 4
    ensures w >= 0 ==> r == w && nal_ref_idc' == nal_ref_idc && s' == s
    ensures w >= 0 ==> w <= size && Clean(buf[..w])
  {
    hide Payload, WellFormed, Writable, Packed, Clean, Taken, WritesBehind;
    WellFormedWritable(s);
    WellFormedTable(s);
    CapIsEnough(nal_ref_idc, s, size);
    TakenLength(Payload(nal_ref_idc, s), size);
    r, nal_ref_idc', s' := -1, 0, Empty();
    w := WriteNalUnit(nal_ref_idc, s, buf, size);
    if w >= 0 {
      PackedClean(Payload(nal_ref_idc, s), 0);
      assert WithZeros(0, buf[..w]) == buf[..w];
      var kind;
      r, nal_ref_idc', kind, s' := ReadNalUnit(buf[..w], nal_ref_idc, s);
    }
  }

  // ----- patching a unit

  /** The change the video decoder makes to a parameter set before passing it on. */
  function Patched(s: ParameterSet): ParameterSet
  {
    s.(frame := s.frame.(num_ref_frames := 1),
       vui := s.vui.(restriction := s.vui.restriction.(max_dec_frame_buffering := 1)))
  }

  /** What of the change can be seen in the coded unit. */
  function PatchedVisibly(s: ParameterSet): ParameterSet
  {
    if s.vui_parameters_present_flag != 0 && s.vui.restriction.bitstream_restriction_flag != 0 then Patched(s)
    else s.(frame := s.frame.(num_ref_frames := 1))
  }

  /**
   What a reader of the patched unit finds: one reference frame, one frame of buffering where buffering is coded, and
   every other field as it was.
   */
  lemma PatchedFields(s: ParameterSet)
    ensures var t := PatchedVisibly(s);
      && t.frame.num_ref_frames == 1
      && t == s.(frame := t.frame, vui := t.vui) && t.frame == s.frame.(num_ref_frames := 1)
      && (s.vui_parameters_present_flag == 0 || s.vui.restriction.bitstream_restriction_flag == 0 ==> t.vui == s.vui)
      && (s.vui_parameters_present_flag != 0 && s.vui.restriction.bitstream_restriction_flag != 0 ==>
        && t.vui.restriction.max_dec_frame_buffering == 1
        && t.vui == s.vui.(restriction := t.vui.restriction)
        && t.vui.restriction == s.vui.restriction.(max_dec_frame_buffering := 1))
  {
  }

  lemma PatchedElements(s: ParameterSet)
    ensures Elements(Patched(s)) == Elements(PatchedVisibly(s))
  {
    hide HeadElements, HighElements, OrderElements, FrameElements, CropElements, AspectElements, VideoElements,
      TimingElements, UseElements;
    SameUse(s.vui, Patched(s).vui, s.hrd);
  }

  lemma SameUse(v: Vui, w: Vui, h: Hrd)
    requires w == v.(restriction := w.restriction)
    ensures UseElements(v, h) == UseElements(w, h)
  {
  }

  lemma FrameFits(f: Frame)
    requires AllFit(FrameElements(f))
    ensures AllFit(FrameElements(f.(num_ref_frames := 1)))
  {
    hide Fits;
    var g, g' := FrameElements(f), FrameElements(f.(num_ref_frames := 1));
    assert Fits(Ue(1)) by { SmallFits(); }
    forall i | 0 <= i < |g'| ensures Fits(g'[i]) {
      assert i > 0 ==> g'[i] == g[i];
    }
  }

  lemma SmallFits()
    ensures Fits(Ue(1))
  {
  }

  lemma RestrictionFits(r: Restriction)
    requires AllFit(RestrictionElements(r))
    ensures AllFit(RestrictionElements(r.(max_dec_frame_buffering := 1)))
  {
    hide Fits;
    var g, g' := RestrictionElements(r), RestrictionElements(r.(max_dec_frame_buffering := 1));
    assert Fits(Ue(1)) by { SmallFits(); }
    forall i | 0 <= i < |g'| ensures Fits(g'[i]) {
      assert i < 8 ==> g'[i] == g[i];
    }
  }

  /** The visible change keeps a parameter set well-formed. */
  lemma PatchedWellFormed(s: ParameterSet)
    requires WellFormed(s)
    ensures WellFormed(PatchedVisibly(s))
  {
    hide HeadElements, HighElements, OrderElements, FrameElements, CropElements, VuiElements, AllFit;
    hide HighDefaults, OrderDefaults, CropDefaults, VuiDefaults;
    var t := PatchedVisibly(s);
    var a, k := HeadElements(s.head), if HighProfile(s.head.profile_idc) then HighElements(s.high) else [];
    var o, f, c, g := OrderElements(s.order), FrameElements(s.frame), CropElements(s.crop), FlagElements(s);
    PartsFit(a, k + (o + (f + (c + g))));
    PartsFit(k, o + (f + (c + g)));
    PartsFit(o, f + (c + g));
    PartsFit(f, c + g);
    PartsFit(c, g);
    FrameFits(s.frame);
    FlagFits(s);
    var f', g' := FrameElements(t.frame), FlagElements(t);
    JoinedFit(c, g');
    JoinedFit(f', c + g');
    JoinedFit(o, f' + (c + g'));
    JoinedFit(k, o + (f' + (c + g')));
    JoinedFit(a, k + (o + (f' + (c + g'))));
    PatchedDefaults(s);
  }

  lemma FlagFits(s: ParameterSet)
    requires AllFit(FlagElements(s))
    ensures AllFit(FlagElements(PatchedVisibly(s)))
  {
    hide AspectElements, VideoElements, TimingElements, UseElements, RestrictionElements, AllFit;
    if s.vui_parameters_present_flag != 0 && s.vui.restriction.bitstream_restriction_flag != 0 {
      var v, h, d := s.vui, s.hrd, [U(1, s.vui_parameters_present_flag)];
      var a, i, t, u, r := AspectElements(v.aspect), VideoElements(v.video), TimingElements(v.timing),
        UseElements(v, h),
        RestrictionElements(v.restriction);
      PartsFit(d, a + (i + (t + (u + r))));
      PartsFit(a, i + (t + (u + r)));
      PartsFit(i, t + (u + r));
      PartsFit(t, u + r);
      PartsFit(u, r);
      RestrictionFits(v.restriction);
      SameUse(v, Patched(s).vui, h);
      var r' := RestrictionElements(Patched(s).vui.restriction);
      JoinedFit(u, r');
      JoinedFit(t, u + r');
      JoinedFit(i, t + (u + r'));
      JoinedFit(a, i + (t + (u + r')));
      JoinedFit(d, a + (i + (t + (u + r'))));
    }
  }

  lemma PatchedDefaults(s: ParameterSet)
    requires Defaults(s)
    ensures Defaults(PatchedVisibly(s))
  {
    hide HighDefaults, OrderDefaults, CropDefaults, AspectDefaults, VideoDefaults, TimingDefaults;
  }

  /**
   Reads a unit, changes the parameter set and writes it again.  What a decoder then reads is the old set with one
   reference frame and, if it says anything about frame buffering, with one frame of buffering.
   */
  method PatchUnit(unit: seq<Byte>, buf: array<Byte>, size: nat, ghost nal_ref_idc: nat, ghost s: ParameterSet)
    returns (w: int)
    requires WellFormed(s) && nal_ref_idc < 4 && size <= buf.Length && unit == Packed(Payload(nal_ref_idc, s), 0)
    modifies buf
    ensures var rbsp := Payload(nal_ref_idc, PatchedVisibly(s));
      if |rbsp| <= size * 3 / 4 then 0 <= w <= size && buf[..w] == Packed(rbsp, 0) else w == -1
    ensures WellFormed(PatchedVisibly(s))
  {
    hide Payload, WellFormed, Packed, Elements, Patched, Taken, WritesBehind;
    var r, ref, kind, old_ := ReadNalUnit(unit, nal_ref_idc, s);
    PatchedWellFormed(s);
    PatchedElements(s);
    WellFormedWritable(PatchedVisibly(s));
    SamePayload(nal_ref_idc, Patched(s), PatchedVisibly(s));
    PatchedWritable(s);
    WellFormedTable(PatchedVisibly(s));
    CapIsEnough(nal_ref_idc, PatchedVisibly(s), size);
    TakenLength(Payload(nal_ref_idc, PatchedVisibly(s)), size);
    w := WriteNalUnit(ref, Patched(old_), buf, size);
  }

  lemma SamePayload(nal_ref_idc: nat, s: ParameterSet, t: ParameterSet)
    requires Elements(s) == Elements(t)
    ensures Payload(nal_ref_idc, s) == Payload(nal_ref_idc, t)
  {
    hide Elements, Codes, Bits, BytesOf, Trailing;
  }

  lemma PatchedWritable(s: ParameterSet)
    requires Writable(PatchedVisibly(s)) && Elements(Patched(s)) == Elements(PatchedVisibly(s))
    ensures Writable(Patched(s))
  {
    hide Elements, AllFit;
  }

  // ----- the size the decoder passes

  /** How many bytes longer than the old unit the decoder allows the new one to be. */
  const SPS_FIXUP_ROOM: nat := 32

  method CopyInto(dst: array<Byte>, at: nat, src: seq<Byte>)
    requires at + |src| <= dst.Length
    modifies dst
    ensures dst[..at + |src|] == old(dst[..at]) + src && dst[at + |src|..] == old(dst[at + |src|..])
  {
    for i := 0 to |src|
      invariant dst[..at] == old(dst[..at]) && dst[at..at + i] == src[..i] && dst[at + i..] == old(dst[at + i..])
    {
      dst[at + i] := src[i];
      assert dst[at..at + i + 1] == dst[at..at + i] + [src[i]];
    }
    assert dst[..at + |src|] == dst[..at] + dst[at..at + |src|];
  }

  /**
   Puts a patched unit behind its start code into the output from offset on, and returns the new offset.  The result
   of the writer is added to the offset unchecked, also when it is -1.
   */
  method WriteSpsNalu(data: seq<Byte>, outBuffer: array<Byte>, offset: nat, ghost nal_ref_idc: nat,
                      ghost s: ParameterSet)
    returns (offset': int)
    requires |data| >= 4 && WellFormed(s) && nal_ref_idc < 4
    requires data[if data[2] == 1 then 3 else 4..] == Packed(Payload(nal_ref_idc, s), 0)
    requires offset + |data| + SPS_FIXUP_ROOM <= outBuffer.Length
    modifies outBuffer
    ensures var start := if data[2] == 1 then 3 else 4;
      var rbsp := Payload(nal_ref_idc, PatchedVisibly(s));
      if |rbsp| <= (|data| - start + SPS_FIXUP_ROOM) * 3 / 4 then
        && offset' == offset + start + |Packed(rbsp, 0)| <= outBuffer.Length
        && outBuffer[..offset'] == old(outBuffer[..offset]) + data[..start] + Packed(rbsp, 0)
      else offset' == offset + start - 1
  {
    hide Payload, WellFormed, Packed, PatchedVisibly;
    var start := if data[2] == 1 then 3 else 4;
    var size := |data| - start + SPS_FIXUP_ROOM;
    CopyInto(outBuffer, offset, data[..start]);
    ghost var before := outBuffer[..offset + start];
    assert |data[..start]| == start;
    var place := new Byte[size](_ => 0);
    var w := PatchUnit(data[start..], place, size, nal_ref_idc, s);
    if w >= 0 {
      CopyInto(outBuffer, offset + start, place[..w]);
      assert |place[..w]| == w;
    }
    offset' := offset + start + w;
  }

  lemma TakenLength(rbsp: seq<Byte>, size: nat)
    ensures Taken(rbsp, size) ==> |Packed(rbsp, 0)| <= if WritesBehind(rbsp, size) then size + 1 else size
  {
    hide Packed, PacksWithin, Overruns;
    if Taken(rbsp, size) {
      OverrunResult(rbsp, size);
    }
  }

  lemma CodeLength(v: nat)
    requires v <= UE_MAX
    ensures |UeCode(v)| >= 1 && |UeCode(1)| == 3
  {
    hide Binary;
    LengthIs(v + 1);
    LengthIs(2);
  }

  /** A number replaced by one makes a list of elements at most two bits longer. */
  lemma OneLonger(a: seq<Element>, v: nat, b: seq<Element>)
    requires v <= UE_MAX
    ensures |Codes(a + [Ue(1)] + b)| <= |Codes(a + [Ue(v)] + b)| + 2
  {
    hide Codes, UeCode;
    CodesAppend(a + [Ue(1)], b);
    CodesAppend(a + [Ue(v)], b);
    CodesAppend(a, [Ue(1)]);
    CodesAppend(a, [Ue(v)]);
    CodesOne(Ue(1));
    CodesOne(Ue(v));
    CodeLength(v);
  }

  function FewFrames(s: ParameterSet): ParameterSet
  {
    s.(frame := s.frame.(num_ref_frames := 1))
  }

  lemma FewFramesLonger(s: ParameterSet)
    requires s.frame.num_ref_frames <= UE_MAX
    ensures |Codes(Elements(FewFrames(s)))| <= |Codes(Elements(s))| + 2
  {
    hide Codes, HeadElements, HighElements, OrderElements, CropElements, FlagElements, VuiElements, FrameElements;
    var t := FewFrames(s);
    var a := HeadElements(s.head) +
      ((if HighProfile(s.head.profile_idc) then HighElements(s.high) else []) + OrderElements(s.order));
    FrameStart(s.frame);
    var f := FrameElements(s.frame)[1..];
    var b := f + (CropElements(s.crop) + FlagElements(s));
    SameFlags(s);
    assert Elements(s) == a + [Ue(s.frame.num_ref_frames)] + b;
    assert Elements(t) == a + [Ue(1)] + b;
    OneLonger(a, s.frame.num_ref_frames, b);
  }

  lemma FrameStart(f: Frame)
    ensures FrameElements(f) != [] && FrameElements(f) == [Ue(f.num_ref_frames)] + FrameElements(f)[1..]
    ensures FrameElements(f.(num_ref_frames := 1)) == [Ue(1)] + FrameElements(f)[1..]
  {
  }

  lemma SameFlags(s: ParameterSet)
    ensures FlagElements(FewFrames(s)) == FlagElements(s)
  {
    hide VuiElements;
  }

  /** The elements in front of the last number of a set that says how frames are buffered. */
  function BeforeBuffering(s: ParameterSet): seq<Element>
  {
    HeadElements(s.head)
    + ((if HighProfile(s.head.profile_idc) then HighElements(s.high) else [])
       + (OrderElements(s.order) + (FrameElements(s.frame) + (CropElements(s.crop) + FlagsBeforeBuffering(s)))))
  }

  function FlagsBeforeBuffering(s: ParameterSet): seq<Element>
  {
    var v, r := s.vui, s.vui.restriction;
    [U(1, s.vui_parameters_present_flag)]
    + (AspectElements(v.aspect) +
      (VideoElements(v.video) + (TimingElements(v.timing) + (UseElements(v, s.hrd) + Restrictions(r)))))
  }

  function Restrictions(r: Restriction): seq<Element>
  {
    [U(1, r.pic_struct_present_flag), U(1, r.bitstream_restriction_flag),
     U(1, r.motion_vectors_over_pic_boundaries_flag),
     Ue(r.max_bytes_per_pic_denom), Ue(r.max_bits_per_mb_denom), Ue(r.log2_max_mv_length_horizontal),
     Ue(r.log2_max_mv_length_vertical), Ue(r.num_reorder_frames)]
  }

  predicate SaysBuffering(s: ParameterSet)
  {
    s.vui_parameters_present_flag != 0 && s.vui.restriction.bitstream_restriction_flag != 0
  }

  lemma FlagsEnd(s: ParameterSet)
    requires SaysBuffering(s)
    ensures FlagElements(s) == FlagsBeforeBuffering(s) + [Ue(s.vui.restriction.max_dec_frame_buffering)]
  {
    hide AspectElements, VideoElements, TimingElements, UseElements;
    var v, r := s.vui, s.vui.restriction;
    assert RestrictionElements(r) == Restrictions(r) + [Ue(r.max_dec_frame_buffering)];
    hide RestrictionElements, Restrictions;
  }

  lemma ElementsEnd(s: ParameterSet)
    requires SaysBuffering(s)
    ensures Elements(s) == BeforeBuffering(s) + [Ue(s.vui.restriction.max_dec_frame_buffering)]
  {
    hide HeadElements, HighElements, OrderElements, FrameElements, CropElements, FlagElements, FlagsBeforeBuffering;
    FlagsEnd(s);
  }

  lemma SameBefore(s: ParameterSet)
    ensures BeforeBuffering(Patched(s)) == BeforeBuffering(FewFrames(s))
  {
    hide HeadElements, HighElements, OrderElements, FrameElements, CropElements, AspectElements, VideoElements,
      TimingElements, UseElements;
    SameUse(s.vui, Patched(s).vui, s.hrd);
  }

  lemma LittleBufferingLonger(s: ParameterSet)
    requires SaysBuffering(s) ==> s.vui.restriction.max_dec_frame_buffering <= UE_MAX
    ensures |Codes(Elements(PatchedVisibly(s)))| <= |Codes(Elements(FewFrames(s)))| + 2
  {
    hide Codes, Elements, BeforeBuffering;
    if SaysBuffering(s) {
      var t, x := FewFrames(s), s.vui.restriction.max_dec_frame_buffering;
      ElementsEnd(Patched(s));
      ElementsEnd(t);
      SameBefore(s);
      var a := BeforeBuffering(t);
      assert a + [Ue(x)] + [] == a + [Ue(x)] && a + [Ue(1)] + [] == a + [Ue(1)];
      OneLonger(a, x, []);
    }
  }

  lemma PayloadBytes(nal_ref_idc: nat, s: ParameterSet)
    ensures |Payload(nal_ref_idc, s)| == (8 + |Codes(Elements(s))|) / 8 + 1
  {
    hide Codes, Bits, Elements, Padding, Trailing, BytesOf, UnitHeader;
    var e := UnitHeader(nal_ref_idc) + Elements(s);
    PaddedTo(|Codes(e + [U(1, 1)])|);
    FilledUp(e, Padding(|Codes(e + [U(1, 1)])|));
    CodesAppend(UnitHeader(nal_ref_idc), Elements(s));
    HeaderBits(nal_ref_idc);
    CodesAppend(e, [U(1, 1)]);
    CodesOne(U(1, 1));
    BitCount(Payload(nal_ref_idc, s));
  }

  lemma HeaderBits(nal_ref_idc: nat)
    ensures |Codes(UnitHeader(nal_ref_idc))| == 8 && |Code(U(1, 1))| == 1
  {
    hide Binary, Codes;
    var a, b, c := [U(1, 0)], [U(2, nal_ref_idc)], [U(5, NAL_UNIT_TYPE_SPS)];
    assert UnitHeader(nal_ref_idc) == a + b + c;
    CodesAppend(a + b, c);
    CodesAppend(a, b);
    CodesOne(a[0]);
    CodesOne(b[0]);
    CodesOne(c[0]);
  }

  lemma PaddedTo(n: nat)
    ensures Padding(n) < 8 && n + Padding(n) == (n + 7) / 8 * 8
  {
  }

  /** The patched set takes at most one byte more. */
  lemma PatchedLength(nal_ref_idc: nat, s: ParameterSet)
    requires WellFormed(s)
    ensures |Payload(nal_ref_idc, PatchedVisibly(s))| <= |Payload(nal_ref_idc, s)| + 1
  {
    hide Payload, Codes, Elements, WellFormed;
    FieldsFit(s);
    FewFramesLonger(s);
    LittleBufferingLonger(s);
    PayloadBytes(nal_ref_idc, s);
    PayloadBytes(nal_ref_idc, PatchedVisibly(s));
  }

  lemma FieldsFit(s: ParameterSet)
    requires WellFormed(s)
    ensures s.frame.num_ref_frames <= UE_MAX
    ensures SaysBuffering(s) ==> s.vui.restriction.max_dec_frame_buffering <= UE_MAX
  {
    hide HeadElements, HighElements, OrderElements, FrameElements, CropElements, FlagElements, BeforeBuffering, AllFit,
      Defaults, Fits;
    var k := if HighProfile(s.head.profile_idc) then HighElements(s.high) else [];
    var o, f, g := OrderElements(s.order), FrameElements(s.frame), CropElements(s.crop) + FlagElements(s);
    PartsFit(HeadElements(s.head), k + (o + (f + g)));
    PartsFit(k, o + (f + g));
    PartsFit(o, f + g);
    PartsFit(f, g);
    FramesFit(s.frame);
    if SaysBuffering(s) {
      ElementsEnd(s);
      PartsFit(BeforeBuffering(s), [Ue(s.vui.restriction.max_dec_frame_buffering)]);
      OneFits(s.vui.restriction.max_dec_frame_buffering);
    }
  }

  lemma FramesFit(f: Frame)
    requires AllFit(FrameElements(f))
    ensures f.num_ref_frames <= UE_MAX
  {
    assert FrameElements(f)[0] == Ue(f.num_ref_frames);
  }

  lemma OneFits(v: nat)
    requires AllFit([Ue(v)])
    ensures v <= UE_MAX
  {
    assert Fits([Ue(v)][0]);
  }

  /**
   What the decoder's size means: with the room of 32 bytes, a patched payload of up to 93 bytes is always taken.  Of a
   unit without emulation bytes, a payload that keeps its length is taken exactly up to 96 bytes.
   */
  lemma DecoderRoom(nal_ref_idc: nat, s: ParameterSet)
    requires WellFormed(s)
    ensures var rbsp := Payload(nal_ref_idc, PatchedVisibly(s));
      var unit := Packed(Payload(nal_ref_idc, s), 0);
      var size := |unit| + SPS_FIXUP_ROOM;
      && (|rbsp| <= 93 ==> |rbsp| <= size * 3 / 4)
      && (|rbsp| == |unit| ==> (|rbsp| <= size * 3 / 4 <==> |rbsp| <= 96))
  {
    hide Payload, WellFormed, Packed, PatchedVisibly;
    PatchedLength(nal_ref_idc, s);
    PackedLength(Payload(nal_ref_idc, s), 0);
  }
}
