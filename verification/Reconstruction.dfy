/** Units become pictures: frames pass through, fields and segments are paired and
    their rows woven together. */
module Reconstruction {
  import opened Basics
  import opened VideoFrames
  import opened FrameAssembly
  import opened Depacketizing

  datatype Target = Target(format: PixelFormat, width: nat, height: nat)

  datatype ReconstructedFrame = ReconstructedFrame(frame: Frame, rtpTimestamp: u32, receiveTimestamp: u64, complete: bool)

  datatype Pair = Pair(first: Option<AssembledUnit>, second: Option<AssembledUnit>)

  const NO_PAIR := Pair(None, None)

  // ---- fields of a picture ----------------------------------------------------

  function FieldHeight(h: nat, sub: nat): nat {
    if sub == 0 then (h + 1) / 2 else h / 2
  }

  /** The rows of plane p that field `sub` holds. */
  predicate FieldsFit(planes: seq<Plane>, field: seq<Plane>, sub: nat) {
    && |field| == |planes|
    && forall p :: 0 <= p < |planes| ==>
         field[p].active == planes[p].active && field[p].rows == FieldHeight(planes[p].rows, sub)
  }

  /** Whenever the two fields of a format can be laid out, each plane of theirs has
      the even or the odd rows of the picture's plane. */
  lemma FieldLayouts(w: nat, h: nat, format: PixelFormat, sub: nat)
    requires sub <= 1
    requires Layout(w, h, format).Some?
    requires Layout(w, FieldHeight(h, 0), format).Some? && Layout(w, FieldHeight(h, 1), format).Some?
    ensures FieldsFit(Layout(w, h, format).value, Layout(w, FieldHeight(h, sub), format).value, sub)
  {
  }

  lemma PlaceExists(planes: seq<Plane>, k: nat)
    requires Contiguous(planes) && k < TotalSize(planes)
    ensures exists at: Place :: InPlane(planes, at.p, at.row, at.b) && Address(planes, at.p, at.row, at.b) == k
  {
    var at := AddressOnto(planes, k);
  }

  ghost function PlaceOf(planes: seq<Plane>, k: nat): (at: Place)
    requires Contiguous(planes) && k < TotalSize(planes)
    ensures InPlane(planes, at.p, at.row, at.b) && Address(planes, at.p, at.row, at.b) == k
  {
    PlaceExists(planes, k);
    var at: Place :| InPlane(planes, at.p, at.row, at.b) && Address(planes, at.p, at.row, at.b) == k;
    at
  }

  ghost predicate Weavable(t: Target, a: Frame, b: Frame) {
    && Layout(t.width, t.height, t.format).Some? && a.Valid() && b.Valid()
    && FieldsFit(Layout(t.width, t.height, t.format).value, a.Planes(), 0)
    && FieldsFit(Layout(t.width, t.height, t.format).value, b.Planes(), 1)
  }

  /** The byte at a place of the woven picture. */
  ghost function WovenByte(t: Target, a: Frame, b: Frame, at: Place): u8
    requires Weavable(t, a, b) && InPlane(Layout(t.width, t.height, t.format).value, at.p, at.row, at.b)
  {
    if at.row % 2 == 0 then a.At(at.p, at.row / 2, at.b) else b.At(at.p, at.row / 2, at.b)
  }

  /** The picture whose even rows are those of a and whose odd rows those of b. */
  ghost function Woven(t: Target, a: Frame, b: Frame): (f: Frame)
    requires Weavable(t, a, b)
    ensures f.Valid() && f.width == t.width && f.height == t.height && f.format == t.format
  {
    var planes := Layout(t.width, t.height, t.format).value;
    LayoutContiguous(t.width, t.height, t.format);
    Frame(t.width, t.height, t.format,
          seq(TotalSize(planes), k requires 0 <= k < TotalSize(planes) => WovenByte(t, a, b, PlaceOf(planes, k))))
  }

  lemma WovenAt(t: Target, a: Frame, b: Frame, p: nat, row: nat, x: nat)
    requires Weavable(t, a, b) && InPlane(Layout(t.width, t.height, t.format).value, p, row, x)
    ensures Woven(t, a, b).At(p, row, x) == WovenByte(t, a, b, Place(p, row, x))
  {
    hide Layout;
    hide TotalSize;
    hide Contiguous;
    hide WovenByte;
    var planes := Layout(t.width, t.height, t.format).value;
    LayoutContiguous(t.width, t.height, t.format);
    AddressInjective(planes, p, row, x, p, row, x);
    var at := PlaceOf(planes, Address(planes, p, row, x));
    AddressInjective(planes, p, row, x, at.p, at.row, at.b);
  }

  ghost predicate FieldOf(f: Frame, sub: nat, field: Frame)
    requires f.Valid() && field.Valid() && sub <= 1
  {
    && field.width == f.width && field.height == FieldHeight(f.height, sub) && field.format == f.format
    && FieldsFit(f.Planes(), field.Planes(), sub)
    && forall p, row, x :: InPlane(field.Planes(), p, row, x) ==> field.At(p, row, x) == f.At(p, 2 * row + sub, x)
  }

  lemma FieldByte(f: Frame, sub: nat, field: Frame, p: nat, row: nat, x: nat)
    requires f.Valid() && field.Valid() && sub <= 1 && FieldOf(f, sub, field)
    requires InPlane(f.Planes(), p, row, x) && row % 2 == sub
    ensures InPlane(field.Planes(), p, row / 2, x) && field.At(p, row / 2, x) == f.At(p, row, x)
  {
    hide Layout;
    assert InPlane(field.Planes(), p, row / 2, x);
    assert row == 2 * (row / 2) + sub;
  }

  lemma WovenFromFields(f: Frame, a: Frame, b: Frame)
    requires f.Valid() && Weavable(Target(f.format, f.width, f.height), a, b)
    requires FieldOf(f, 0, a) && FieldOf(f, 1, b)
    ensures Woven(Target(f.format, f.width, f.height), a, b) == f
  {
    hide Layout;
    hide Woven;
    hide FieldOf;
    var t := Target(f.format, f.width, f.height);
    var w := Woven(t, a, b);
    forall p, row, x | InPlane(f.Planes(), p, row, x) ensures w.At(p, row, x) == f.At(p, row, x) {
      WovenAt(t, a, b, p, row, x);
      if row % 2 == 0 {
        FieldByte(f, 0, a, p, row, x);
      } else {
        FieldByte(f, 1, b, p, row, x);
      }
    }
    SamePicture(w, f);
  }

  lemma FieldRow(t: Target, a: Frame, b: Frame, sub: nat, p: nat, row: nat, x: nat)
    requires Weavable(t, a, b) && sub <= 1
    requires InPlane((if sub == 0 then a else b).Planes(), p, row, x)
    ensures InPlane(Layout(t.width, t.height, t.format).value, p, 2 * row + sub, x)
    ensures Woven(t, a, b).At(p, 2 * row + sub, x) == (if sub == 0 then a else b).At(p, row, x)
  {
    hide Layout;
    hide Woven;
    var r := 2 * row + sub;
    assert r / 2 == row && r % 2 == sub;
    WovenAt(t, a, b, p, r, x);
  }

  lemma FieldsOfWoven(f: Frame, a: Frame, b: Frame)
    requires f.Valid() && Weavable(Target(f.format, f.width, f.height), a, b)
    requires Woven(Target(f.format, f.width, f.height), a, b) == f
    ensures forall p, row, x :: InPlane(a.Planes(), p, row, x) ==> a.At(p, row, x) == f.At(p, 2 * row, x)
    ensures forall p, row, x :: InPlane(b.Planes(), p, row, x) ==> b.At(p, row, x) == f.At(p, 2 * row + 1, x)
  {
    hide Layout;
    hide Woven;
    var t := Target(f.format, f.width, f.height);
    forall p, row, x | InPlane(a.Planes(), p, row, x) ensures a.At(p, row, x) == f.At(p, 2 * row, x) {
      FieldRow(t, a, b, 0, p, row, x);
    }
    forall p, row, x | InPlane(b.Planes(), p, row, x) ensures b.At(p, row, x) == f.At(p, 2 * row + 1, x) {
      FieldRow(t, a, b, 1, p, row, x);
    }
  }

  /** Weaving is the inverse of splitting a picture into its fields. */
  lemma WeaveFields(f: Frame, a: Frame, b: Frame)
    requires f.Valid() && a.Valid() && b.Valid()
    requires a.width == f.width && a.height == FieldHeight(f.height, 0) && a.format == f.format
    requires b.width == f.width && b.height == FieldHeight(f.height, 1) && b.format == f.format
    ensures Weavable(Target(f.format, f.width, f.height), a, b)
    ensures Woven(Target(f.format, f.width, f.height), a, b) == f <==> FieldOf(f, 0, a) && FieldOf(f, 1, b)
  {
    hide Layout;
    hide Woven;
    hide Contiguous;
    hide TotalSize;
    FieldLayouts(f.width, f.height, f.format, 0);
    FieldLayouts(f.width, f.height, f.format, 1);
    if Woven(Target(f.format, f.width, f.height), a, b) == f {
      FieldsOfWoven(f, a, b);
    } else if FieldOf(f, 0, a) && FieldOf(f, 1, b) {
      WovenFromFields(f, a, b);
    }
  }

  // ---- pairing -------------------------------------------------------------------

  ghost predicate UnitFits(t: Target, u: AssembledUnit) {
    && u.frame.Valid() && Layout(t.width, t.height, t.format).Some?
    && (!u.kind.FrameUnit? ==> FieldsFit(Layout(t.width, t.height, t.format).value, u.frame.Planes(), if u.subIndex == 0 then 0 else 1))
  }

  ghost predicate PairFits(t: Target, pair: Pair) {
    && (pair.first.Some? ==> UnitFits(t, pair.first.value) && pair.first.value.subIndex == 0 && !pair.first.value.kind.FrameUnit?)
    && (pair.second.Some? ==> UnitFits(t, pair.second.value) && pair.second.value.subIndex != 0 && !pair.second.value.kind.FrameUnit?)
  }

  function WithUnit(pair: Pair, u: AssembledUnit): Pair {
    if u.subIndex == 0 then pair.(first := Some(u)) else pair.(second := Some(u))
  }

  /** Segments of different pictures carry different timestamps and never pair. */
  function DropStranger(pair: Pair, u: AssembledUnit): Pair {
    if u.subIndex == 0 then
      if pair.second.Some? && pair.second.value.rtpTimestamp != u.rtpTimestamp then pair.(second := None) else pair
    else
      if pair.first.Some? && pair.first.value.rtpTimestamp != u.rtpTimestamp then pair.(first := None) else pair
  }

  ghost function Join(t: Target, pair: Pair): (Pair, Option<ReconstructedFrame>)
    requires PairFits(t, pair)
  {
    if pair.first.Some? && pair.second.Some? then
      var a, b := pair.first.value, pair.second.value;
      (NO_PAIR,
       Some(ReconstructedFrame(Woven(t, a.frame, b.frame), a.rtpTimestamp, a.receiveTimestamp, a.complete && b.complete)))
    else (pair, None)
  }

  ghost function PushUnit(t: Target, pair: Pair, u: AssembledUnit): (r: (Pair, Option<ReconstructedFrame>))
    requires PairFits(t, pair) && UnitFits(t, u)
    ensures PairFits(t, r.0)
  {
    match u.kind
    case FrameUnit => (pair, Some(ReconstructedFrame(u.frame, u.rtpTimestamp, u.receiveTimestamp, u.complete)))
    case FieldUnit => Join(t, WithUnit(pair, u))
    case SegmentUnit => Join(t, WithUnit(DropStranger(pair, u), u))
  }

  class VideoUnitReconstructor {
    const target: Target
    var pair: Pair

    ghost predicate Valid()
      reads this
    {
      Layout(target.width, target.height, target.format).Some? && PairFits(target, pair)
    }

    constructor (t: Target)
      requires Layout(t.width, t.height, t.format).Some?
      ensures Valid() && target == t && pair == NO_PAIR
    {
      target := t;
      pair := NO_PAIR;
    }

    /** The rows of a field go to every second row of the picture. */
    static method CopySubUnitRows(dst: array<u8>, planes: seq<Plane>, src: Frame, sub: nat)
      requires Contiguous(planes) && dst.Length == TotalSize(planes) && sub <= 1
      requires src.Valid() && FieldsFit(planes, src.Planes(), sub)
      modifies dst
      ensures forall q, r, x :: InPlane(planes, q, r, x) ==>
                && Address(planes, q, r, x) < dst.Length
                && dst[Address(planes, q, r, x)] ==
                   if r % 2 == sub then src.At(q, r / 2, x) else old(dst[..])[Address(planes, q, r, x)]
    {
      hide Layout;
      hide TotalSize;
      forall q, r, x | InPlane(planes, q, r, x) ensures Address(planes, q, r, x) < dst.Length {
        AddressInjective(planes, q, r, x, q, r, x);
      }
      for p := 0 to |planes|
        invariant forall q, r, x :: InPlane(planes, q, r, x) ==>
                    dst[Address(planes, q, r, x)] ==
                    if q < p && r % 2 == sub then src.At(q, r / 2, x) else old(dst[..])[Address(planes, q, r, x)]
      {
        var rows := src.Planes()[p].rows;
        for srcRow := 0 to rows
          invariant forall q, r, x :: InPlane(planes, q, r, x) ==>
                      dst[Address(planes, q, r, x)] ==
                      if (q < p || (q == p && r / 2 < srcRow)) && r % 2 == sub then src.At(q, r / 2, x)
                      else old(dst[..])[Address(planes, q, r, x)]
        {
          var bytes := RowBytes(src, p, srcRow);
          CopyRow(dst, planes, p, srcRow * 2 + sub, bytes);
        }
      }
    }

    static method RowBytes(src: Frame, p: nat, row: nat) returns (bytes: seq<u8>)
      requires src.Valid() && p < |src.Planes()| && row < src.Planes()[p].rows
      ensures |bytes| == src.Planes()[p].active
      ensures forall x :: 0 <= x < |bytes| ==> bytes[x] == src.At(p, row, x)
    {
      LayoutContiguous(src.width, src.height, src.format);
      var w := src.Planes()[p].active;
      var start := Address(src.Planes(), p, row, 0);
      AddressInjective(src.Planes(), p, row, w - 1, p, row, w - 1);
      bytes := src.data[start..start + w];
    }

    method Weave(a: Frame, b: Frame) returns (f: Frame)
      requires Weavable(target, a, b)
      ensures f == Woven(target, a, b)
    {
      hide Layout;
      hide TotalSize;
      hide Woven;
      var planes := Layout(target.width, target.height, target.format).value;
      LayoutContiguous(target.width, target.height, target.format);
      var dst := new u8[TotalSize(planes)](_ => 0);
      CopySubUnitRows(dst, planes, a, 0);
      CopySubUnitRows(dst, planes, b, 1);
      f := Frame(target.width, target.height, target.format, dst[..]);
      ghost var w := Woven(target, a, b);
      forall p, r, x | InPlane(planes, p, r, x) ensures f.At(p, r, x) == w.At(p, r, x) {
        WovenAt(target, a, b, p, r, x);
        assert r % 2 == 0 || r % 2 == 1;
      }
      SamePicture(f, w);
    }

    method JoinPair() returns (r: Option<ReconstructedFrame>)
      requires Valid()
      modifies this
      ensures Valid() && (pair, r) == Join(target, old(pair))
    {
      if pair.first.Some? && pair.second.Some? {
        var a, b := pair.first.value, pair.second.value;
        var frame := Weave(a.frame, b.frame);
        r := Some(ReconstructedFrame(frame, a.rtpTimestamp, a.receiveTimestamp, a.complete && b.complete));
        pair := NO_PAIR;
      } else {
        r := None;
      }
    }

    method Push(u: AssembledUnit) returns (r: Option<ReconstructedFrame>)
      requires Valid() && UnitFits(target, u)
      modifies this
      ensures Valid() && (pair, r) == PushUnit(target, old(pair), u)
    {
      hide Layout;
      match u.kind {
        case FrameUnit =>
          r := Some(ReconstructedFrame(u.frame, u.rtpTimestamp, u.receiveTimestamp, u.complete));
        case FieldUnit =>
          if u.subIndex == 0 {
            pair := pair.(first := Some(u));
          } else {
            pair := pair.(second := Some(u));
          }
          r := JoinPair();
        case SegmentUnit =>
          if u.subIndex == 0 {
            if pair.second.Some? && pair.second.value.rtpTimestamp != u.rtpTimestamp {
              pair := pair.(second := None);
            }
            pair := pair.(first := Some(u));
          } else {
            if pair.first.Some? && pair.first.value.rtpTimestamp != u.rtpTimestamp {
              pair := pair.(first := None);
            }
            pair := pair.(second := Some(u));
          }
          r := JoinPair();
      }
    }
  }
}
