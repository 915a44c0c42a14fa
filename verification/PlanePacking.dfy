/** A video frame through a ring slot: the worker packs the rows of a strided
    source tightly into the payload, the client checks every field again and
    unpacks them, and what it delivers is the source picture. */
module PlanePacking {
  import opened Arithmetic
  import opened Basics
  import opened CheckedArithmetic
  import opened Depacketizing
  import opened RingSlots
  import opened VideoFrames

  datatype VideoStart = VideoStart(width: u32, height: u32, format: PixelFormat, mode: ScanMode)

  /** Memory a source plane points to, or a null pointer. */
  datatype SourcePlane = SourcePlane(memory: Option<seq<u8>>, lineSize: u64)

  /** What the receive library hands over; its format is the pixel format that
      maps to it, if any does. */
  datatype SourceFrame = SourceFrame(
    width: u32,
    height: u32,
    format: Option<PixelFormat>,
    interlaced: bool,
    secondField: bool,
    rtpTimestamp: u32,
    receiveTimestamp: u64,
    planes: seq<SourcePlane>)

  function FormatCode(f: PixelFormat): u32 {
    match f
    case UYVY => 0
    case RGB8 => 1
    case YUV422RFC4175PG2BE10 => 2
    case YUV422RFC4175PG2BE12 => 3
    case YUV444RFC4175PG4BE10 => 4
    case YUV444RFC4175PG2BE12 => 5
    case RGBRFC4175PG4BE10 => 6
    case RGBRFC4175PG2BE12 => 7
    case YUV422PLANAR8 => 8
    case YUV422PLANAR10LE => 9
    case YUV422PLANAR12LE => 10
    case YUV422PLANAR16LE => 11
    case YUV444PLANAR10LE => 12
    case YUV444PLANAR12LE => 13
    case YUV420PLANAR8 => 14
    case BGRA => 15
    case ARGB => 16
    case V210 => 17
    case Y210 => 18
  }

  function ScanCode(m: ScanMode): u32 {
    match m
    case Progressive => 0
    case Interlaced => 1
    case PsF => 2
  }

  function DecodeScan(raw: u32): Option<ScanMode> {
    if raw == 0 then Some(Progressive)
    else if raw == 1 then Some(Interlaced)
    else if raw == 2 then Some(PsF)
    else None
  }

  // ---- field flags -----------------------------------------------------------------

  const INTERLACED: u32 := 1
  const SECOND_FIELD: u32 := 2
  const FIELD_FLAGS_MASK: u32 := 3

  predicate FlagSet(flags: u32, flag: u32)
    requires flag == INTERLACED || flag == SECOND_FIELD
  {
    flags / flag % 2 == 1
  }

  function FieldFlags(mode: ScanMode, f: SourceFrame): Option<u32> {
    if f.interlaced != (mode != Progressive) || (!f.interlaced && f.secondField) then None
    else
      Some((if f.interlaced then INTERLACED else 0) + if f.secondField then SECOND_FIELD else 0)
  }

  predicate FieldFlagsConsistent(mode: ScanMode, flags: u32) {
    && flags <= FIELD_FLAGS_MASK
    && match mode
       case Progressive => !FlagSet(flags, INTERLACED) && !FlagSet(flags, SECOND_FIELD)
       case Interlaced => FlagSet(flags, INTERLACED)
       case PsF => FlagSet(flags, INTERLACED)
  }

  /** The reader's check passes exactly the flags some source frame gives, and
      reads the second field back from them. */
  lemma FieldFlagsRoundTrip(mode: ScanMode, flags: u32)
    ensures FieldFlagsConsistent(mode, flags) <==>
            exists f: SourceFrame :: FieldFlags(mode, f) == Some(flags)
    ensures forall f: SourceFrame :: FieldFlags(mode, f) == Some(flags) ==>
              FlagSet(flags, SECOND_FIELD) == f.secondField && FlagSet(flags, INTERLACED) == f.interlaced
  {
    if FieldFlagsConsistent(mode, flags) {
      var f := SourceFrame(0, 0, None, flags % 2 == 1, flags / 2 == 1, 0, 0, []);
      assert FieldFlags(mode, f) == Some(flags);
    }
  }

  // ---- what is accepted and what it means ----------------------------------------------

  /** A source plane whose rows can be read: the library's own promise about the
      memory behind a pointer it hands out. */
  ghost predicate Backed(s: SourcePlane, plane: Plane) {
    s.memory.Some? && s.lineSize >= plane.active ==>
      |s.memory.value| >= (plane.rows - 1) * s.lineSize + plane.active
  }

  ghost predicate SourceBacked(f: SourceFrame, planes: seq<Plane>) {
    |f.planes| == MAX_PLANES && |planes| <= MAX_PLANES &&
    forall i :: 0 <= i < |planes| ==> Backed(f.planes[i], planes[i])
  }

  ghost predicate PlaneReadable(s: SourcePlane, plane: Plane) {
    s.memory.Some? && s.lineSize >= plane.active
  }

  ghost predicate Accepted(cfg: VideoStart, f: SourceFrame, capacity: nat) {
    && f.width == cfg.width && f.height == cfg.height && f.format == Some(cfg.format)
    && FieldFlags(cfg.mode, f).Some?
    && Layout(cfg.width, cfg.height, cfg.format).Some?
    && var planes := Layout(cfg.width, cfg.height, cfg.format).value;
       && |f.planes| == MAX_PLANES && |planes| <= MAX_PLANES
       && (forall i :: 0 <= i < |planes| ==> PlaneReadable(f.planes[i], planes[i]))
       && TotalSize(planes) <= capacity
  }

  /** The byte of the source picture at a place. */
  ghost function SourceByte(f: SourceFrame, planes: seq<Plane>, p: nat, row: nat, b: nat): u8
    requires SourceBacked(f, planes) && InPlane(planes, p, row, b) && PlaneReadable(f.planes[p], planes[p])
  {
    RowsGrow(f.planes[p].lineSize, row, planes[p].rows - 1);
    f.planes[p].memory.value[row * f.planes[p].lineSize + b]
  }

  /** Every byte of the picture lies in the buffer where the layout puts it. */
  ghost predicate Packed(f: SourceFrame, planes: seq<Plane>, payload: seq<u8>)
    requires SourceBacked(f, planes)
    requires forall i :: 0 <= i < |planes| ==> PlaneReadable(f.planes[i], planes[i])
  {
    forall p, row, b :: InPlane(planes, p, row, b) ==>
      Address(planes, p, row, b) < |payload| &&
      payload[Address(planes, p, row, b)] == SourceByte(f, planes, p, row, b)
  }

  lemma PlanesInU64(planes: seq<Plane>, p: nat)
    requires Contiguous(planes) && p < |planes| && TotalSize(planes) < TWO_64
    ensures planes[p].offset + planes[p].Size() <= TotalSize(planes)
    ensures planes[p].active * planes[p].rows == planes[p].Size() > 0
    ensures planes[p].active <= planes[p].Size() < TWO_64
    ensures planes[p].offset < TWO_64
  {
    hide TotalSize;
    EndsIncrease(planes, p, p);
    RowsGrow(planes[p].active, 1, planes[p].rows);
    assert planes[p].offset + planes[p].Size() <= TotalSize(planes);
  }

  function PlaneMetaOf(planes: seq<Plane>, p: nat): PlaneMeta
    requires Contiguous(planes) && TotalSize(planes) < TWO_64
  {
    if p < |planes| then
      PlanesInU64(planes, p);
      PlaneMeta(planes[p].offset, planes[p].Size(), planes[p].active)
    else NO_PLANE
  }

  ghost function MetadataOf(cfg: VideoStart, f: SourceFrame, planes: seq<Plane>): (m: Metadata)
    requires Contiguous(planes) && TotalSize(planes) < TWO_64 && |planes| <= MAX_PLANES
    requires FieldFlags(cfg.mode, f).Some?
    ensures |m.planes| == MAX_PLANES
  {
    Metadata(VideoMedium, FormatCode(cfg.format), f.width, f.height, 0, 0, 0, f.rtpTimestamp, f.receiveTimestamp,
             |planes|, ScanCode(cfg.mode), FieldFlags(cfg.mode, f).value,
             [PlaneMetaOf(planes, 0), PlaneMetaOf(planes, 1), PlaneMetaOf(planes, 2), PlaneMetaOf(planes, 3)])
  }

  lemma LayoutFits(w: nat, h: nat, format: PixelFormat)
    requires Layout(w, h, format).Some?
    ensures Contiguous(Layout(w, h, format).value) && |Layout(w, h, format).value| <= MAX_PLANES
  {
  }

  /** The slot capacity the client asks for: the size of its own frame. */
  function SlotCapacity(cfg: VideoStart): Option<nat> {
    match Layout(cfg.width, cfg.height, cfg.format)
    case None => None
    case Some(planes) => Some(TotalSize(planes))
  }

  // ---- the worker packs ----------------------------------------------------------------

  /** The row loop of one plane. */
  method PackPlane(payload: array<u8>, f: SourceFrame, planes: seq<Plane>, p: nat)
    requires Contiguous(planes) && TotalSize(planes) <= payload.Length && SourceBacked(f, planes)
    requires p < |planes| && PlaneReadable(f.planes[p], planes[p])
    modifies payload
    ensures forall q, row, b :: InPlane(planes, q, row, b) ==>
              && Address(planes, q, row, b) < payload.Length
              && payload[Address(planes, q, row, b)] ==
                 if q == p then SourceByte(f, planes, q, row, b) else old(payload[..])[Address(planes, q, row, b)]
    ensures forall k :: TotalSize(planes) <= k < payload.Length ==> payload[k] == old(payload[k])
  {
    hide TotalSize;
    hide Contiguous;
    forall q, row, b | InPlane(planes, q, row, b)
      ensures Address(planes, q, row, b) < payload.Length
    {
      AddressInjective(planes, q, row, b, q, row, b);
    }
    for row := 0 to planes[p].rows
      invariant forall q, r, b :: InPlane(planes, q, r, b) ==>
                  payload[Address(planes, q, r, b)] ==
                  if q == p && r < row then SourceByte(f, planes, q, r, b)
                  else old(payload[..])[Address(planes, q, r, b)]
      invariant forall k :: TotalSize(planes) <= k < payload.Length ==> payload[k] == old(payload[k])
    {
      var bytes := SourceRow(f, planes, p, row);
      CopyRow(payload, planes, p, row, bytes);
    }
  }

  method SourceRow(f: SourceFrame, planes: seq<Plane>, p: nat, row: nat) returns (bytes: seq<u8>)
    requires SourceBacked(f, planes) && p < |planes| && row < planes[p].rows
    requires PlaneReadable(f.planes[p], planes[p])
    ensures |bytes| == planes[p].active
    ensures forall b :: 0 <= b < |bytes| ==> bytes[b] == SourceByte(f, planes, p, row, b)
  {
    RowsGrow(f.planes[p].lineSize, row, planes[p].rows - 1);
    var start := row * f.planes[p].lineSize;
    bytes := f.planes[p].memory.value[start..start + planes[p].active];
  }

  lemma LayoutSmall(w: u32, h: u32, format: PixelFormat, p: nat)
    requires Layout(w, h, format).Some? && p < |Layout(w, h, format).value|
    ensures Layout(w, h, format).value[p].active < TWO_64 && Layout(w, h, format).value[p].rows < TWO_64
  {
  }

  lemma PrefixLaidOut(planes: seq<Plane>, p: nat)
    requires Contiguous(planes) && p < |planes|
    ensures Contiguous(planes[..p + 1])
  {
    assert planes[..p + 1][0] == planes[0];
  }

  lemma PrefixContiguous(planes: seq<Plane>, p: nat)
    requires Contiguous(planes) && p < |planes|
    ensures Contiguous(planes[..p + 1])
    ensures TotalSize(planes[..p + 1]) == planes[p].offset + planes[p].Size() <= TotalSize(planes)
    ensures planes[p].offset == TotalSize(planes[..p])
  {
    PlaneEnds(planes, p);
    PrefixLaidOut(planes, p);
    if p > 0 {
      PlaneEnds(planes, p - 1);
    }
    hide TotalSize;
    EndsIncrease(planes, p, p);
  }

  ghost predicate ReadableBefore(f: SourceFrame, planes: seq<Plane>, p: nat)
    requires |f.planes| == MAX_PLANES && p <= |planes| <= MAX_PLANES
  {
    forall i :: 0 <= i < p ==> PlaneReadable(f.planes[i], planes[i])
  }

  /** One more plane packed. */
  method PackNextPlane(payload: array<u8>, f: SourceFrame, planes: seq<Plane>, p: nat)
    requires Contiguous(planes) && p < |planes| && SourceBacked(f, planes)
    requires planes[p].offset + planes[p].Size() <= payload.Length
    requires ReadableBefore(f, planes, p + 1) && Packed(f, planes[..p], payload[..])
    modifies payload
    ensures Packed(f, planes[..p + 1], payload[..])
    ensures forall k :: planes[p].offset + planes[p].Size() <= k < payload.Length ==> payload[k] == old(payload[k])
  {
    hide TotalSize;
    PrefixContiguous(planes, p);
    ghost var before, longer := planes[..p], planes[..p + 1];
    PackPlane(payload, f, planes[..p + 1], p);
    forall q, row, b | InPlane(longer, q, row, b)
      ensures Address(longer, q, row, b) < payload.Length
      ensures payload[..][Address(longer, q, row, b)] == SourceByte(f, longer, q, row, b)
    {
      if q < p {
        assert InPlane(before, q, row, b);
        assert Address(before, q, row, b) == Address(longer, q, row, b);
        assert SourceByte(f, before, q, row, b) == SourceByte(f, longer, q, row, b);
      }
    }
  }

  /** Accepts exactly the source frames of this configuration whose rows are all
      there, as long as they fit, and packs them without gaps. */
  method CopyPlanesToPayload(payload: array<u8>, cfg: VideoStart, f: SourceFrame) returns (r: Option<(u64, Metadata)>)
    requires payload.Length < TWO_64 && |f.planes| == MAX_PLANES
    requires Layout(cfg.width, cfg.height, cfg.format).Some? ==>
               SourceBacked(f, Layout(cfg.width, cfg.height, cfg.format).value)
    modifies payload
    ensures r.Some? <==> Accepted(cfg, f, payload.Length)
    ensures r.Some? ==>
              var planes := Layout(cfg.width, cfg.height, cfg.format).value;
              && Contiguous(planes)
              && r.value == (TotalSize(planes), MetadataOf(cfg, f, planes))
              && Packed(f, planes, payload[..])
              && forall k :: TotalSize(planes) <= k < payload.Length ==> payload[k] == old(payload[k])
  {
    hide TotalSize, Layout, Packed, PlaneReadable, Accepted, MetadataOf, MetaIs, Contiguous, FieldFlags, Plane.Size;
    if f.width != cfg.width || f.height != cfg.height || f.format != Some(cfg.format) {
      RefusedFields(cfg, f, payload.Length);
      return None;
    }
    var flags := FieldFlags(cfg.mode, f);
    if flags.None? {
      RefusedFields(cfg, f, payload.Length);
      return None;
    }
    var layout := Layout(f.width, f.height, cfg.format);
    if layout.None? {
      RefusedFields(cfg, f, payload.Length);
      return None;
    }
    var planes := layout.value;
    LayoutFits(f.width, f.height, cfg.format);
    var metas := [NO_PLANE, NO_PLANE, NO_PLANE, NO_PLANE];
    var offset: u64 := 0;
    NothingPacked(f, planes, payload[..]);
    for p := 0 to |planes|
      invariant |metas| == MAX_PLANES && offset == TotalSize(planes[..p]) <= payload.Length
      invariant forall i :: 0 <= i < p ==> MetaIs(metas[i], planes[i])
      invariant forall i :: p <= i < MAX_PLANES ==> metas[i] == NO_PLANE
      invariant ReadableBefore(f, planes, p) && Packed(f, planes[..p], payload[..])
      invariant forall k :: offset <= k < payload.Length ==> payload[k] == old(payload[k])
    {
      LayoutSmall(f.width, f.height, cfg.format, p);
      PrefixContiguous(planes, p);
      PlaneNotEmpty(planes, p);
      var ok := PlaneIsReadable(f.planes[p], planes[p]);
      if !ok {
        RefusedPlane(cfg, f, payload.Length, p);
        return None;
      }
      MulU64Exactly(planes[p].active, planes[p].rows);
      var size := MulU64(planes[p].active, planes[p].rows);
      if size.None? {
        RefusedPlane(cfg, f, payload.Length, p);
        return None;
      }
      var next := AddU64(offset, size.value);
      if next.None? || next.value > payload.Length {
        RefusedPlane(cfg, f, payload.Length, p);
        return None;
      }
      PackNextPlane(payload, f, planes, p);
      metas := metas[p := PlaneMeta(offset, size.value, planes[p].active)];
      assert MetaIs(metas[p], planes[p]) by { MetaMade(metas[p], planes[p]); }
      offset := next.value;
    }
    assert planes[..|planes|] == planes;
    AcceptedAll(cfg, f, payload.Length, metas);
    r := Some((offset, Metadata(VideoMedium, FormatCode(cfg.format), f.width, f.height, 0, 0, 0, f.rtpTimestamp,
                                f.receiveTimestamp, |planes|, ScanCode(cfg.mode), flags.value, metas)));
  }

  lemma RefusedFields(cfg: VideoStart, f: SourceFrame, capacity: nat)
    requires f.width != cfg.width || f.height != cfg.height || f.format != Some(cfg.format) ||
             FieldFlags(cfg.mode, f).None? || Layout(cfg.width, cfg.height, cfg.format).None?
    ensures !Accepted(cfg, f, capacity)
  {
    hide Layout, FieldFlags;
  }

  lemma RefusedPlane(cfg: VideoStart, f: SourceFrame, capacity: nat, p: nat)
    requires Layout(cfg.width, cfg.height, cfg.format).Some? && |f.planes| == MAX_PLANES
    requires var planes := Layout(cfg.width, cfg.height, cfg.format).value;
             p < |planes| <= MAX_PLANES && Contiguous(planes) &&
             (!PlaneReadable(f.planes[p], planes[p]) || planes[p].offset + planes[p].Size() > capacity)
    ensures !Accepted(cfg, f, capacity)
  {
    hide Layout, FieldFlags, TotalSize, Contiguous;
    EndsIncrease(Layout(cfg.width, cfg.height, cfg.format).value, p, p);
  }

  lemma PlaneNotEmpty(planes: seq<Plane>, p: nat)
    requires Contiguous(planes) && p < |planes|
    ensures planes[p].active > 0 && planes[p].rows > 0
    ensures planes[p].active * planes[p].rows == planes[p].Size()
  {
  }

  lemma MetaMade(m: PlaneMeta, plane: Plane)
    requires m.offset == plane.offset && m.size == plane.Size() && m.lineSize == plane.active
    ensures MetaIs(m, plane)
  {
  }

  lemma AcceptedAll(cfg: VideoStart, f: SourceFrame, capacity: nat, metas: seq<PlaneMeta>)
    requires f.width == cfg.width && f.height == cfg.height && f.format == Some(cfg.format)
    requires FieldFlags(cfg.mode, f).Some? && Layout(cfg.width, cfg.height, cfg.format).Some?
    requires |f.planes| == |metas| == MAX_PLANES && capacity < TWO_64
    requires var planes := Layout(cfg.width, cfg.height, cfg.format).value;
             && Contiguous(planes) && |planes| <= MAX_PLANES && TotalSize(planes) <= capacity
             && ReadableBefore(f, planes, |planes|)
             && (forall i :: 0 <= i < |planes| ==> MetaIs(metas[i], planes[i]))
             && (forall i :: |planes| <= i < MAX_PLANES ==> metas[i] == NO_PLANE)
    ensures Accepted(cfg, f, capacity)
    ensures var planes := Layout(cfg.width, cfg.height, cfg.format).value;
            MetadataOf(cfg, f, planes) ==
            Metadata(VideoMedium, FormatCode(cfg.format), f.width, f.height, 0, 0, 0, f.rtpTimestamp, f.receiveTimestamp,
                     |planes|, ScanCode(cfg.mode), FieldFlags(cfg.mode, f).value, metas)
  {
    hide Layout, FieldFlags, TotalSize, Contiguous, PlaneReadable, Plane.Size;
    var planes := Layout(cfg.width, cfg.height, cfg.format).value;
    assert metas == [PlaneMetaOf(planes, 0), PlaneMetaOf(planes, 1), PlaneMetaOf(planes, 2), PlaneMetaOf(planes, 3)];
  }

  ghost predicate MetaIs(m: PlaneMeta, plane: Plane) {
    m.offset == plane.offset && m.size == plane.Size() && m.lineSize == plane.active
  }

  lemma NothingPacked(f: SourceFrame, planes: seq<Plane>, payload: seq<u8>)
    requires SourceBacked(f, planes)
    ensures Packed(f, planes[..0], payload) && TotalSize(planes[..0]) == 0
  {
  }

  method PlaneIsReadable(s: SourcePlane, plane: Plane) returns (ok: bool)
    requires plane.active > 0 && plane.rows > 0
    ensures ok <==> PlaneReadable(s, plane)
  {
    if s.memory.None? {
      return false;
    }
    if plane.active == 0 || plane.rows == 0 || s.lineSize < plane.active {
      return false;
    }
    return true;
  }

  // ---- the client unpacks ------------------------------------------------------------------

  datatype Delivery = Delivery(
    frame: Frame, rtpTimestamp: u32, receiveTimestamp: u64, mode: ScanMode, secondField: bool)

  /** The rows of a plane lie inside its part of the payload. */
  predicate PlaneInPayload(m: PlaneMeta, plane: Plane, size: u64)
    requires plane.rows > 0
  {
    && m.lineSize != 0 && m.size != 0 && m.lineSize >= plane.active
    && (plane.rows - 1) * m.lineSize + plane.active <= m.size
    && m.offset + m.size <= size
  }

  ghost predicate Readable(cfg: VideoStart, size: u64, m: Metadata, capacity: nat) {
    && m.kind == VideoMedium && m.format == FormatCode(cfg.format)
    && m.width == cfg.width && m.height == cfg.height && m.width != 0 && m.height != 0
    && DecodeScan(m.scanMode) == Some(cfg.mode)
    && FieldFlagsConsistent(cfg.mode, m.fieldFlags)
    && 0 < size <= capacity
    && Layout(cfg.width, cfg.height, cfg.format).Some?
    && var planes := Layout(cfg.width, cfg.height, cfg.format).value;
       && Contiguous(planes)
       && m.planeCount == |planes| <= MAX_PLANES && |m.planes| == MAX_PLANES
       && forall i :: 0 <= i < |planes| ==> PlaneInPayload(m.planes[i], planes[i], size)
  }

  /** A byte of the payload found through the metadata. */
  ghost function PayloadByte(m: PlaneMeta, plane: Plane, payload: seq<u8>, row: nat, b: nat): u8
    requires |payload| < TWO_64 && row < plane.rows && b < plane.active && PlaneInPayload(m, plane, |payload|)
  {
    RowsGrow(m.lineSize, row, plane.rows - 1);
    payload[m.offset + row * m.lineSize + b]
  }

  ghost predicate Unpacked(cfg: VideoStart, m: Metadata, size: u64, payload: seq<u8>, d: Delivery)
    requires Readable(cfg, size, m, |payload|) && |payload| < TWO_64
  {
    && d.frame.Valid()
    && d.frame.width == cfg.width && d.frame.height == cfg.height && d.frame.format == cfg.format
    && (forall p, row, b :: InPlane(d.frame.Planes(), p, row, b) ==>
          PlaneInPayload(m.planes[p], d.frame.Planes()[p], |payload|) &&
          d.frame.At(p, row, b) == PayloadByte(m.planes[p], d.frame.Planes()[p], payload, row, b))
    && d.rtpTimestamp == m.rtpTimestamp && d.receiveTimestamp == m.receiveTimestamp
    && d.mode == cfg.mode && d.secondField == FlagSet(m.fieldFlags, SECOND_FIELD)
  }

  /** The checks of one plane, each sum and product tested for overflow. */
  method CheckPlane(m: PlaneMeta, plane: Plane, size: u64, capacity: u64) returns (ok: bool)
    requires 0 < plane.active < TWO_64 && 0 < plane.rows < TWO_64 && size <= capacity
    ensures ok <==> PlaneInPayload(m, plane, size)
  {
    if m.lineSize == 0 || m.size == 0 || m.lineSize < plane.active {
      return false;
    }
    MulU64Exactly(plane.rows - 1, m.lineSize);
    var lastRow := MulU64(plane.rows - 1, m.lineSize);
    if lastRow.None? {
      return false;
    }
    var required := AddU64(lastRow.value, plane.active);
    if required.None? || m.size < required.value {
      return false;
    }
    if m.offset > size || m.size > size - m.offset {
      return false;
    }
    if m.offset > capacity || required.value > capacity - m.offset {
      return false;
    }
    return true;
  }

  method UnpackPlane(dst: array<u8>, planes: seq<Plane>, p: nat, m: PlaneMeta, payload: seq<u8>)
    requires Contiguous(planes) && TotalSize(planes) <= dst.Length && p < |planes|
    requires |payload| < TWO_64 && PlaneInPayload(m, planes[p], |payload|)
    modifies dst
    ensures forall q, row, b :: InPlane(planes, q, row, b) ==>
              && Address(planes, q, row, b) < dst.Length
              && dst[Address(planes, q, row, b)] ==
                 if q == p then PayloadByte(m, planes[p], payload, row, b)
                 else old(dst[..])[Address(planes, q, row, b)]
  {
    hide TotalSize, Contiguous, PlaneInPayload;
    forall q, row, b | InPlane(planes, q, row, b)
      ensures Address(planes, q, row, b) < dst.Length
    {
      AddressInjective(planes, q, row, b, q, row, b);
    }
    for row := 0 to planes[p].rows
      invariant forall q, r, b :: InPlane(planes, q, r, b) ==>
                  dst[Address(planes, q, r, b)] ==
                  if q == p && r < row then PayloadByte(m, planes[p], payload, r, b)
                  else old(dst[..])[Address(planes, q, r, b)]
    {
      var bytes := PayloadRow(m, planes[p], payload, row);
      CopyRow(dst, planes, p, row, bytes);
    }
  }

  method PayloadRow(m: PlaneMeta, plane: Plane, payload: seq<u8>, row: nat) returns (bytes: seq<u8>)
    requires |payload| < TWO_64 && row < plane.rows && PlaneInPayload(m, plane, |payload|)
    ensures |bytes| == plane.active
    ensures forall b :: 0 <= b < |bytes| ==> bytes[b] == PayloadByte(m, plane, payload, row, b)
  {
    RowsGrow(m.lineSize, row, plane.rows - 1);
    var start := m.offset + row * m.lineSize;
    bytes := payload[start..start + plane.active];
  }

  /** Delivers exactly the slots whose metadata passes every check, and the frame
      is what the metadata points at. */
  method DeliverVideoFrame(cfg: VideoStart, size: u64, m: Metadata, payload: seq<u8>) returns (r: Option<Delivery>)
    requires |payload| < TWO_64 && |m.planes| == MAX_PLANES
    ensures r.Some? <==> Readable(cfg, size, m, |payload|)
    ensures r.Some? ==> Unpacked(cfg, m, size, payload, r.value)
  {
    hide TotalSize, Layout, Contiguous, PlaneInPayload, FieldFlagsConsistent, FormatCode;
    if m.kind != VideoMedium || m.format != FormatCode(cfg.format) {
      return None;
    }
    if m.width == 0 || m.height == 0 || size == 0 || m.width != cfg.width || m.height != cfg.height {
      return None;
    }
    var mode := DecodeScan(m.scanMode);
    if mode.None? || mode.value != cfg.mode || !FieldFlagsConsistent(mode.value, m.fieldFlags) {
      return None;
    }
    if size > |payload| {
      return None;
    }
    var layout := Layout(m.width, m.height, cfg.format);
    if layout.None? {
      return None;
    }
    var planes := layout.value;
    LayoutFits(m.width, m.height, cfg.format);
    if m.planeCount != |planes| || m.planeCount == 0 || m.planeCount > MAX_PLANES {
      return None;
    }
    var dst := new u8[TotalSize(planes)](_ => 0);
    for p := 0 to |planes|
      invariant forall i :: 0 <= i < p ==> PlaneInPayload(m.planes[i], planes[i], size)
      invariant UnpackedBefore(planes, m, payload, dst[..], p)
    {
      LayoutSmall(m.width, m.height, cfg.format, p);
      PlaneNotEmpty(planes, p);
      var ok := CheckPlane(m.planes[p], planes[p], size, |payload|);
      if !ok {
        return None;
      }
      WithinLarger(m.planes[p], planes[p], size, |payload|);
      ghost var was := dst[..];
      UnpackPlane(dst, planes, p, m.planes[p], payload);
      OnePlaneMore(planes, m, payload, was, dst[..], p);
    }
    var frame := Frame(m.width, m.height, cfg.format, dst[..]);
    r := Some(Delivery(frame, m.rtpTimestamp, m.receiveTimestamp, mode.value, FlagSet(m.fieldFlags, SECOND_FIELD)));
    AllUnpacked(cfg, m, size, payload, r.value);
  }

  lemma WithinLarger(m: PlaneMeta, plane: Plane, size: u64, capacity: u64)
    requires plane.rows > 0 && PlaneInPayload(m, plane, size) && size <= capacity
    ensures PlaneInPayload(m, plane, capacity)
  {
  }

  ghost predicate UnpackedBefore(planes: seq<Plane>, m: Metadata, payload: seq<u8>, data: seq<u8>, n: nat)
    requires |payload| < TWO_64
  {
    forall p, row, b :: InPlane(planes, p, row, b) && p < n ==>
      && Address(planes, p, row, b) < |data| && p < |m.planes|
      && PlaneInPayload(m.planes[p], planes[p], |payload|)
      && data[Address(planes, p, row, b)] == PayloadByte(m.planes[p], planes[p], payload, row, b)
  }

  lemma OnePlaneMore(planes: seq<Plane>, m: Metadata, payload: seq<u8>, was: seq<u8>, data: seq<u8>, n: nat)
    requires |payload| < TWO_64 && n < |planes| && n < |m.planes| && |was| == |data|
    requires n < |planes| && planes[n].rows > 0 && PlaneInPayload(m.planes[n], planes[n], |payload|)
    requires UnpackedBefore(planes, m, payload, was, n)
    requires forall q, row, b :: InPlane(planes, q, row, b) ==>
              && Address(planes, q, row, b) < |data|
              && data[Address(planes, q, row, b)] ==
                 if q == n then PayloadByte(m.planes[n], planes[n], payload, row, b) else was[Address(planes, q, row, b)]
    ensures UnpackedBefore(planes, m, payload, data, n + 1)
  {
    hide PlaneInPayload;
  }

  lemma AllUnpacked(cfg: VideoStart, m: Metadata, size: u64, payload: seq<u8>, d: Delivery)
    requires |payload| < TWO_64 && Readable(cfg, size, m, |payload|)
    requires d.frame.width == cfg.width && d.frame.height == cfg.height && d.frame.format == cfg.format
    requires |d.frame.data| == TotalSize(Layout(cfg.width, cfg.height, cfg.format).value)
    requires var planes := Layout(cfg.width, cfg.height, cfg.format).value;
             UnpackedBefore(planes, m, payload, d.frame.data, |planes|)
    requires d.rtpTimestamp == m.rtpTimestamp && d.receiveTimestamp == m.receiveTimestamp
    requires d.mode == cfg.mode && d.secondField == FlagSet(m.fieldFlags, SECOND_FIELD)
    ensures Unpacked(cfg, m, size, payload, d)
  {
    hide TotalSize, Layout, Contiguous, PlaneInPayload;
  }

  // ---- there and back --------------------------------------------------------------------------

  lemma PlaneMetaInPayload(planes: seq<Plane>, p: nat)
    requires Contiguous(planes) && p < |planes| && TotalSize(planes) < TWO_64
    ensures PlaneInPayload(PlaneMetaOf(planes, p), planes[p], TotalSize(planes))
    ensures PlaneMetaOf(planes, p) == PlaneMeta(planes[p].offset, planes[p].Size(), planes[p].active)
    ensures planes[p].stride == planes[p].active
  {
    hide TotalSize;
    PlanesInU64(planes, p);
    assert planes[p].rows * planes[p].active == (planes[p].rows - 1) * planes[p].active + planes[p].active;
  }

  /** What the worker publishes passes both the ring's check and every check of
      the client, and fills the capacity the client chose to the last byte. */
  lemma PackedIsReadable(cfg: VideoStart, f: SourceFrame, capacity: nat)
    requires Accepted(cfg, f, capacity) && capacity < TWO_64
    ensures var planes := Layout(cfg.width, cfg.height, cfg.format).value;
            var size := TotalSize(planes);
            && Contiguous(planes)
            && SlotCapacity(cfg) == Some(size) && size <= capacity
            && ValidMetadata(MetadataOf(cfg, f, planes), size, capacity)
            && Readable(cfg, size, MetadataOf(cfg, f, planes), capacity)
  {
    hide TotalSize, FormatCode, Contiguous, PlaneInPayload, FieldFlags, FieldFlagsConsistent;
    var planes := Layout(cfg.width, cfg.height, cfg.format).value;
    LayoutFits(cfg.width, cfg.height, cfg.format);
    var m := MetadataOf(cfg, f, planes);
    FieldFlagsRoundTrip(cfg.mode, m.fieldFlags);
    forall i | 0 <= i < |planes|
      ensures m.planes[i] == PlaneMetaOf(planes, i) && PlaneInPayload(m.planes[i], planes[i], TotalSize(planes))
    {
      PlaneMetaInPayload(planes, i);
    }
    PlaneMetaNotEmpty(planes, m);
  }

  lemma PlaneMetaNotEmpty(planes: seq<Plane>, m: Metadata)
    requires Contiguous(planes) && |planes| <= MAX_PLANES == |m.planes| && TotalSize(planes) < TWO_64
    requires forall i :: 0 <= i < |planes| ==> PlaneInPayload(m.planes[i], planes[i], TotalSize(planes))
    ensures 0 < TotalSize(planes)
    ensures forall i :: 0 <= i < |planes| ==> m.planes[i].size > 0 && m.planes[i].offset + m.planes[i].size <= TotalSize(planes)
  {
    hide TotalSize;
    PlanesInU64(planes, 0);
  }

  /** The delivered frame shows the source picture, at the source's times, with
      its scan mode and field. */
  lemma FrameArrives(cfg: VideoStart, f: SourceFrame, payload: seq<u8>, d: Delivery)
    requires |payload| < TWO_64 && Accepted(cfg, f, |payload|)
    requires SourceBacked(f, Layout(cfg.width, cfg.height, cfg.format).value)
    requires Packed(f, Layout(cfg.width, cfg.height, cfg.format).value, payload)
    requires var planes := Layout(cfg.width, cfg.height, cfg.format).value;
             && Contiguous(planes)
             && Readable(cfg, TotalSize(planes), MetadataOf(cfg, f, planes), |payload|)
             && Unpacked(cfg, MetadataOf(cfg, f, planes), TotalSize(planes), payload, d)
    ensures d.frame.Valid() && d.frame.Planes() == Layout(cfg.width, cfg.height, cfg.format).value
    ensures forall p, row, b :: InPlane(d.frame.Planes(), p, row, b) ==>
              d.frame.At(p, row, b) == SourceByte(f, d.frame.Planes(), p, row, b)
    ensures d.rtpTimestamp == f.rtpTimestamp && d.receiveTimestamp == f.receiveTimestamp
    ensures d.mode == cfg.mode && (d.mode != Progressive <==> f.interlaced) && d.secondField == f.secondField
  {
    hide TotalSize, FormatCode, Contiguous, PlaneInPayload, Layout, FieldFlagsConsistent;
    var planes := Layout(cfg.width, cfg.height, cfg.format).value;
    var m := MetadataOf(cfg, f, planes);
    FieldFlagsRoundTrip(cfg.mode, m.fieldFlags);
    forall p, row, b | InPlane(planes, p, row, b)
      ensures d.frame.At(p, row, b) == SourceByte(f, planes, p, row, b)
    {
      PlaneMetaInPayload(planes, p);
      assert m.planes[p] == PlaneMetaOf(planes, p);
      assert payload[Address(planes, p, row, b)] == SourceByte(f, planes, p, row, b);
    }
  }

  // ---- export into the ring ----------------------------------------------------------------------

  datatype Export = Nothing | Failed(error: Error) | Written(slot: u32)

  /** Claim a slot, pack the frame into it and publish it. Nothing happens when no
      slot is empty, and a frame that is not accepted gives the slot back: two
      results that the receive loop counts apart. Once packed, publishing cannot
      fail. */
  method ExportVideoFrame(ring: RingMap, cfg: VideoStart, f: SourceFrame, nextSlot: u32, nextSequence: nat)
    returns (r: Export, next: u32, sequence: nat)
    requires ring.Valid() && |f.planes| == MAX_PLANES
    requires Layout(cfg.width, cfg.height, cfg.format).Some? ==>
               SourceBacked(f, Layout(cfg.width, cfg.height, cfg.format).value)
    modifies ring
    ensures ring.Valid() && |ring.slots| == |old(ring.slots)|
    ensures r.Written? <==>
              Accepted(cfg, f, ring.capacity) && exists i :: 0 <= i < |ring.slots| && old(ring.slots)[i].state == Empty
    ensures r == Nothing <==> |ring.slots| > 0 && forall i :: 0 <= i < |ring.slots| ==> old(ring.slots)[i].state != Empty
    ensures r == Failed(InvalidBackendState) <==> ring.slots == []
    ensures r == Failed(InvalidValue) <==>
              !Accepted(cfg, f, ring.capacity) && exists i :: 0 <= i < |ring.slots| && old(ring.slots)[i].state == Empty
    ensures sequence == if r.Written? then nextSequence + 1 else nextSequence
    ensures r.Written? ==>
              var planes := Layout(cfg.width, cfg.height, cfg.format).value;
              && Contiguous(planes) && r.slot < |ring.slots| && old(ring.slots)[r.slot].state == Empty
              && var s := ring.slots[r.slot];
              && s == Slot(Ready, 0, nextSequence, TotalSize(planes), MetadataOf(cfg, f, planes), s.payload)
              && Packed(f, planes, s.payload)
              && ring.slots == old(ring.slots)[r.slot := s]
    ensures !r.Written? ==>
              forall i :: 0 <= i < |ring.slots| ==>
                ring.slots[i].state == old(ring.slots)[i].state &&
                (old(ring.slots)[i].state != Empty ==> ring.slots[i] == old(ring.slots)[i])
  {
    hide TotalSize, Layout, Packed, MetadataOf, SourceBacked, Accepted, ValidMetadata;
    sequence := nextSequence;
    var acquired;
    acquired, next := ring.AcquireSlot(nextSlot);
    if acquired.Err? {
      return Failed(acquired.error), next, sequence;
    }
    if acquired.value.None? {
      return Nothing, next, sequence;
    }
    var i := acquired.value.value;
    var bytes := ring.slots[i].payload;
    var payload := new u8[ring.capacity](k requires 0 <= k < |bytes| => bytes[k]);
    var copied := CopyPlanesToPayload(payload, cfg, f);
    ring.slots := ring.slots[i := ring.slots[i].(payload := payload[..])];
    if copied.None? {
      var aborted := ring.AbortWriteSlot(i);
      return Failed(InvalidValue), next, sequence;
    }
    // The failure exits after a copy, for its size and for the publication, are
    // never taken.
    PackedIsReadable(cfg, f, ring.capacity);
    var (size, m) := copied.value;
    assert 0 < size <= ring.capacity;
    var published := ring.PublishWrittenSlot(i, size, nextSequence, 0, m);
    sequence := nextSequence + 1;
    assert published.Ok?;
    r := Written(i);
  }
}
