/** Memory layout of a video frame: its planes lie one after the other without
    gaps, and every byte of the buffer is one byte of one row of one plane. */
module VideoFrames {
  import opened Arithmetic
  import opened Basics

  datatype PixelFormat =
    | UYVY
    | RGB8
    | YUV422RFC4175PG2BE10
    | YUV422RFC4175PG2BE12
    | YUV444RFC4175PG4BE10
    | YUV444RFC4175PG2BE12
    | RGBRFC4175PG4BE10
    | RGBRFC4175PG2BE12
    | YUV422PLANAR8
    | YUV422PLANAR10LE
    | YUV422PLANAR12LE
    | YUV422PLANAR16LE
    | YUV444PLANAR10LE
    | YUV444PLANAR12LE
    | YUV420PLANAR8
    | BGRA
    | ARGB
    | V210
    | Y210

  datatype Plane = Plane(offset: nat, stride: nat, active: nat, rows: nat) {
    function Size(): nat {
      rows * stride
    }
  }

  function SinglePlane(active: nat, rows: nat): seq<Plane> {
    [Plane(0, active, active, rows)]
  }

  function ThreePlanes(active0: nat, active1: nat, active2: nat, rows0: nat, rows1: nat, rows2: nat): seq<Plane> {
    var p0 := Plane(0, active0, active0, rows0);
    var p1 := Plane(p0.offset + p0.Size(), active1, active1, rows1);
    [p0, p1, Plane(p1.offset + p1.Size(), active2, active2, rows2)]
  }

  /** The planes of a frame; None where the constructor throws. */
  function Layout(w: nat, h: nat, format: PixelFormat): Option<seq<Plane>> {
    if w == 0 || h == 0 then None
    else match format
      case UYVY => if w % 2 == 0 then Some(SinglePlane(w * 2, h)) else None
      case RGB8 => Some(SinglePlane(w * 3, h))
      case BGRA => Some(SinglePlane(w * 4, h))
      case ARGB => Some(SinglePlane(w * 4, h))
      case Y210 => if w % 2 == 0 then Some(SinglePlane(w * 4, h)) else None
      case V210 => if w % 6 == 0 then Some(SinglePlane(w / 6 * 16, h)) else None
      case YUV422RFC4175PG2BE10 => if w % 2 == 0 then Some(SinglePlane(w / 2 * 5, h)) else None
      case YUV422RFC4175PG2BE12 => if w % 2 == 0 then Some(SinglePlane(w / 2 * 6, h)) else None
      case YUV444RFC4175PG4BE10 => if w % 4 == 0 then Some(SinglePlane(w / 4 * 15, h)) else None
      case RGBRFC4175PG4BE10 => if w % 4 == 0 then Some(SinglePlane(w / 4 * 15, h)) else None
      case YUV444RFC4175PG2BE12 => if w % 2 == 0 then Some(SinglePlane(w / 2 * 9, h)) else None
      case RGBRFC4175PG2BE12 => if w % 2 == 0 then Some(SinglePlane(w / 2 * 9, h)) else None
      case YUV422PLANAR8 => if w % 2 == 0 then Some(ThreePlanes(w, w / 2, w / 2, h, h, h)) else None
      case YUV422PLANAR10LE => if w % 2 == 0 then Some(ThreePlanes(w * 2, w / 2 * 2, w / 2 * 2, h, h, h)) else None
      case YUV422PLANAR12LE => if w % 2 == 0 then Some(ThreePlanes(w * 2, w / 2 * 2, w / 2 * 2, h, h, h)) else None
      case YUV422PLANAR16LE => if w % 2 == 0 then Some(ThreePlanes(w * 2, w / 2 * 2, w / 2 * 2, h, h, h)) else None
      case YUV444PLANAR10LE => Some(ThreePlanes(w * 2, w * 2, w * 2, h, h, h))
      case YUV444PLANAR12LE => Some(ThreePlanes(w * 2, w * 2, w * 2, h, h, h))
      case YUV420PLANAR8 =>
        if w % 2 == 0 && h % 2 == 0 then Some(ThreePlanes(w, w / 2, w / 2, h, h / 2, h / 2)) else None
  }

  /** The size of the buffer: the farthest end of a plane. */
  function TotalSize(planes: seq<Plane>): nat {
    if planes == [] then 0
    else
      var n := |planes| - 1;
      var end := planes[n].offset + planes[n].Size();
      if TotalSize(planes[..n]) < end then end else TotalSize(planes[..n])
  }

  /** Nonempty planes without row padding, each starting where the last one ends. */
  ghost predicate Contiguous(planes: seq<Plane>) {
    && planes != []
    && planes[0].offset == 0
    && (forall i :: 0 <= i < |planes| - 1 ==> planes[i + 1].offset == planes[i].offset + planes[i].Size())
    && (forall i :: 0 <= i < |planes| ==> planes[i].stride == planes[i].active > 0 && planes[i].rows > 0)
  }

  lemma LayoutContiguous(w: nat, h: nat, format: PixelFormat)
    requires Layout(w, h, format).Some?
    ensures Contiguous(Layout(w, h, format).value)
  {
  }

  /** Where the bytes of a place lie in the buffer. */
  function Address(planes: seq<Plane>, p: nat, row: nat, b: nat): nat
    requires p < |planes|
  {
    planes[p].offset + row * planes[p].stride + b
  }

  predicate InPlane(planes: seq<Plane>, p: int, row: int, b: int) {
    0 <= p < |planes| && 0 <= row < planes[p].rows && 0 <= b < planes[p].active
  }

  lemma {:induction false} PlaneEnds(planes: seq<Plane>, p: nat)
    requires Contiguous(planes) && p < |planes|
    ensures TotalSize(planes[..p + 1]) == planes[p].offset + planes[p].Size()
    ensures planes[p].Size() > 0
  {
    assert planes[..p + 1][..p] == planes[..p];
    RowsGrow(planes[p].stride, 1, planes[p].rows);
    if p > 0 {
      PlaneEnds(planes, p - 1);
    } else {
      assert planes[..0] == [];
    }
  }

  lemma EndsIncrease(planes: seq<Plane>, p: nat, q: nat)
    requires Contiguous(planes) && p <= q < |planes|
    ensures planes[p].offset + planes[p].Size() <= planes[q].offset + planes[q].Size() <= TotalSize(planes)
    ensures p < q ==> planes[p].offset + planes[p].Size() <= planes[q].offset
  {
    PlaneEnds(planes, |planes| - 1);
    assert planes[..|planes|] == planes;
    EndsIncrease'(planes, p, q);
    EndsIncrease'(planes, q, |planes| - 1);
    if p < q {
      EndsIncrease'(planes, p, q - 1);
    }
  }

  lemma {:induction false} EndsIncrease'(planes: seq<Plane>, p: nat, q: nat)
    requires Contiguous(planes) && p <= q < |planes|
    ensures planes[p].offset + planes[p].Size() <= planes[q].offset + planes[q].Size()
    decreases q - p
  {
    if p < q {
      EndsIncrease'(planes, p, q - 1);
    }
  }

  lemma AddressInPlane(planes: seq<Plane>, p: nat, row: nat, b: nat)
    requires Contiguous(planes) && InPlane(planes, p, row, b)
    ensures planes[p].offset <= Address(planes, p, row, b) < planes[p].offset + planes[p].Size() <= TotalSize(planes)
  {
    hide TotalSize;
    InRow(row, planes[p].rows, planes[p].stride, b);
    EndsIncrease(planes, p, p);
  }

  lemma AddressOrder(planes: seq<Plane>, p: nat, row: nat, b: nat, p': nat, row': nat, b': nat)
    requires Contiguous(planes) && InPlane(planes, p, row, b) && InPlane(planes, p', row', b')
    requires p < p' || (p == p' && row < row')
    ensures Address(planes, p, row, b) < Address(planes, p', row', b')
  {
    hide TotalSize;
    if p < p' {
      AddressInPlane(planes, p, row, b);
      AddressInPlane(planes, p', row', b');
      EndsIncrease(planes, p, p');
    } else {
      Distinct(planes[p].stride, row, b, row', b');
    }
  }

  /** Every byte of a plane lies in the buffer, and no two share an address. */
  lemma AddressInjective(planes: seq<Plane>, p: nat, row: nat, b: nat, p': nat, row': nat, b': nat)
    requires Contiguous(planes) && InPlane(planes, p, row, b) && InPlane(planes, p', row', b')
    ensures Address(planes, p, row, b) < TotalSize(planes)
    ensures Address(planes, p, row, b) == Address(planes, p', row', b') ==> p == p' && row == row' && b == b'
  {
    hide TotalSize;
    hide Contiguous;
    AddressInPlane(planes, p, row, b);
    if p < p' || (p == p' && row < row') {
      AddressOrder(planes, p, row, b, p', row', b');
    } else if p' < p || row' < row {
      AddressOrder(planes, p', row', b', p, row, b);
    }
  }

  datatype Place = Place(p: nat, row: nat, b: nat)

  /** Every byte of the buffer belongs to a plane. */
  lemma {:induction false} AddressOnto(planes: seq<Plane>, k: nat) returns (at: Place)
    requires Contiguous(planes) && k < TotalSize(planes)
    ensures InPlane(planes, at.p, at.row, at.b) && Address(planes, at.p, at.row, at.b) == k
  {
    var p := |planes| - 1;
    PlaneEnds(planes, p);
    assert planes[..p + 1] == planes;
    while k < planes[p].offset
      invariant 0 <= p < |planes| && k < planes[p].offset + planes[p].Size()
    {
      p := p - 1;
    }
    var i := k - planes[p].offset;
    RowOf(i, planes[p].rows, planes[p].stride);
    at := Place(p, i / planes[p].stride, i % planes[p].stride);
  }

  /** One row copied into a buffer laid out as these planes; nothing else moves. */
  method CopyRow(dst: array<u8>, planes: seq<Plane>, p: nat, row: nat, bytes: seq<u8>)
    requires Contiguous(planes) && TotalSize(planes) <= dst.Length
    requires p < |planes| && row < planes[p].rows && |bytes| == planes[p].active
    modifies dst
    ensures forall q, r, x :: InPlane(planes, q, r, x) ==>
              && Address(planes, q, r, x) < dst.Length
              && dst[Address(planes, q, r, x)] ==
                 if q == p && r == row then bytes[x] else old(dst[..])[Address(planes, q, r, x)]
    ensures forall k :: TotalSize(planes) <= k < dst.Length ==> dst[k] == old(dst[k])
  {
    var start := Address(planes, p, row, 0);
    AddressInjective(planes, p, row, planes[p].active - 1, p, row, planes[p].active - 1);
    forall x | 0 <= x < |bytes| {
      dst[start + x] := bytes[x];
    }
    forall q, r, x | InPlane(planes, q, r, x)
      ensures Address(planes, q, r, x) < dst.Length
      ensures dst[Address(planes, q, r, x)] ==
              if q == p && r == row then bytes[x] else old(dst[..])[Address(planes, q, r, x)]
    {
      AddressInjective(planes, q, r, x, q, r, x);
      var k := Address(planes, q, r, x);
      if start <= k < start + |bytes| {
        AddressInjective(planes, q, r, x, p, row, k - start);
      }
    }
  }

  // ---- frames ---------------------------------------------------------------------

  datatype Frame = Frame(width: nat, height: nat, format: PixelFormat, data: seq<u8>) {
    ghost predicate Valid() {
      Layout(width, height, format).Some? && |data| == TotalSize(Planes())
    }

    function Planes(): seq<Plane>
      requires Layout(width, height, format).Some?
    {
      Layout(width, height, format).value
    }

    /** The byte at a place of the picture. */
    ghost function At(p: nat, row: nat, b: nat): u8
      requires Valid() && InPlane(Planes(), p, row, b)
    {
      LayoutContiguous(width, height, format);
      AddressInjective(Planes(), p, row, b, p, row, b);
      data[Address(Planes(), p, row, b)]
    }
  }

  /** Frames are equal when they agree at every place. */
  lemma SamePicture(f: Frame, g: Frame)
    requires f.Valid() && g.Valid()
    requires f.width == g.width && f.height == g.height && f.format == g.format
    requires forall p, row, b :: InPlane(f.Planes(), p, row, b) ==> f.At(p, row, b) == g.At(p, row, b)
    ensures f == g
  {
    LayoutContiguous(f.width, f.height, f.format);
    forall k | 0 <= k < |f.data| ensures f.data[k] == g.data[k] {
      var at := AddressOnto(f.Planes(), k);
      assert f.At(at.p, at.row, at.b) == g.At(at.p, at.row, at.b);
    }
  }

  function Blank(w: nat, h: nat, format: PixelFormat): (f: Frame)
    requires Layout(w, h, format).Some?
    ensures f.Valid()
  {
    Frame(w, h, format, seq(TotalSize(Layout(w, h, format).value), _ => 0))
  }
}
