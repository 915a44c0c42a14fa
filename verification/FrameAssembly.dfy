/** Assembling one unit from segments: the byte-level write coverage, and the
    assembler that copies segments into the frame and judges it at the end. */
module FrameAssembly {
  import opened Arithmetic
  import opened Basics
  import opened VideoFrames

  // ---- coverage -----------------------------------------------------------------

  datatype PlaneCoverage = PlaneCoverage(active: nat, rows: nat, expected: nat, unique: nat, written: seq<bool>) {
    ghost predicate Valid() {
      |written| == expected == rows * active && unique == CountTrue(written)
    }
  }

  datatype Coverage = Coverage(planes: seq<PlaneCoverage>, totalExpected: nat, totalWritten: nat) {
    ghost predicate Valid() {
      && (forall i :: 0 <= i < |planes| ==> planes[i].Valid())
      && totalExpected == SumExpected(planes)
      && totalWritten == SumUnique(planes)
    }
  }

  function CountTrue(w: seq<bool>): nat {
    if w == [] then 0 else CountTrue(w[..|w| - 1]) + if w[|w| - 1] then 1 else 0
  }

  function SumExpected(planes: seq<PlaneCoverage>): nat {
    if planes == [] then 0 else SumExpected(planes[..|planes| - 1]) + planes[|planes| - 1].expected
  }

  function SumUnique(planes: seq<PlaneCoverage>): nat {
    if planes == [] then 0 else SumUnique(planes[..|planes| - 1]) + planes[|planes| - 1].unique
  }

  function FreshPlane(p: Plane): PlaneCoverage {
    PlaneCoverage(p.active, p.rows, p.rows * p.active, 0, seq(p.rows * p.active, _ => false))
  }

  function FreshPlanes(planes: seq<Plane>): (cs: seq<PlaneCoverage>)
    ensures |cs| == |planes| && forall i :: 0 <= i < |cs| ==> cs[i] == FreshPlane(planes[i])
  {
    seq(|planes|, i requires 0 <= i < |planes| => FreshPlane(planes[i]))
  }

  function FreshCoverage(planes: seq<Plane>): Coverage {
    Coverage(FreshPlanes(planes), SumExpected(FreshPlanes(planes)), 0)
  }

  /** written with the bytes at..at+len set. */
  function MarkRange(w: seq<bool>, at: nat, len: nat): (w1: seq<bool>)
    ensures |w1| == |w| && forall k :: 0 <= k < |w| ==> (w1[k] <==> w[k] || at <= k < at + len)
  {
    seq(|w|, k requires 0 <= k < |w| => w[k] || at <= k < at + len)
  }

  function MarkPlane(c: PlaneCoverage, at: nat, len: nat): PlaneCoverage {
    c.(written := MarkRange(c.written, at, len), unique := CountTrue(MarkRange(c.written, at, len)))
  }

  /** The writable range lies in the plane. */
  predicate RangeFits(c: Coverage, p: nat, row: nat, offset: nat, len: nat) {
    p < |c.planes| && row * c.planes[p].active + offset + len <= |c.planes[p].written|
  }

  function MarkAt(c: Coverage, p: nat, at: nat, len: nat): Coverage
    requires p < |c.planes|
  {
    var planes := c.planes[p := MarkPlane(c.planes[p], at, len)];
    c.(planes := planes, totalWritten := SumUnique(planes))
  }

  function Mark(c: Coverage, p: nat, row: nat, offset: nat, len: nat): Coverage
    requires p < |c.planes|
  {
    MarkAt(c, p, row * c.planes[p].active + offset, len)
  }

  predicate IsComplete(c: Coverage) {
    c.totalExpected != 0 && c.totalWritten == c.totalExpected
  }

  lemma {:induction false} NoneTrue(w: seq<bool>)
    requires forall k :: 0 <= k < |w| ==> !w[k]
    ensures CountTrue(w) == 0
  {
    if w != [] {
      NoneTrue(w[..|w| - 1]);
    }
  }

  lemma {:induction false} CountAll(w: seq<bool>)
    ensures CountTrue(w) <= |w|
    ensures CountTrue(w) == |w| <==> forall k :: 0 <= k < |w| ==> w[k]
  {
    if w != [] {
      var n := |w| - 1;
      CountAll(w[..n]);
      assert (forall k :: 0 <= k < |w| ==> w[k]) <==> (forall k :: 0 <= k < n ==> w[..n][k]) && w[n] by {
        assert forall k :: 0 <= k < n ==> w[..n][k] == w[k];
      }
    }
  }

  lemma {:induction false} CountOne(w: seq<bool>, k: nat)
    requires k < |w|
    ensures CountTrue(w[k := true]) == CountTrue(w) + if w[k] then 0 else 1
  {
    var n := |w| - 1;
    if k < n {
      CountOne(w[..n], k);
      assert w[k := true][..n] == w[..n][k := true];
    } else {
      assert w[k := true][..n] == w[..n];
    }
  }

  lemma {:induction false} SumOne(planes: seq<PlaneCoverage>, p: nat, c: PlaneCoverage)
    requires p < |planes|
    ensures SumUnique(planes[p := c]) == SumUnique(planes) - planes[p].unique + c.unique
    ensures SumExpected(planes[p := c]) == SumExpected(planes) - planes[p].expected + c.expected
  {
    var n := |planes| - 1;
    if p < n {
      SumOne(planes[..n], p, c);
      assert planes[p := c][..n] == planes[..n][p := c];
    } else {
      assert planes[p := c][..n] == planes[..n];
    }
  }

  ghost predicate AllWritten(c: PlaneCoverage) {
    forall k :: 0 <= k < |c.written| ==> c.written[k]
  }

  lemma {:induction false} SumsMeet(planes: seq<PlaneCoverage>)
    requires forall i :: 0 <= i < |planes| ==> planes[i].Valid()
    ensures SumUnique(planes) <= SumExpected(planes)
    ensures SumUnique(planes) == SumExpected(planes) <==> forall i :: 0 <= i < |planes| ==> AllWritten(planes[i])
  {
    if planes != [] {
      var n := |planes| - 1;
      SumsMeet(planes[..n]);
      CountAll(planes[n].written);
      assert forall i :: 0 <= i < n ==> planes[..n][i] == planes[i];
      assert (forall i :: 0 <= i < |planes| ==> AllWritten(planes[i])) <==>
             (forall i :: 0 <= i < n ==> AllWritten(planes[..n][i])) && AllWritten(planes[n]);
    }
  }

  lemma {:induction false} FreshValid(planes: seq<Plane>)
    ensures FreshCoverage(planes).Valid()
    ensures SumUnique(FreshPlanes(planes)) == 0
  {
    if planes != [] {
      var n := |planes| - 1;
      FreshValid(planes[..n]);
      assert FreshPlanes(planes)[..n] == FreshPlanes(planes[..n]);
      NoneTrue(FreshPlane(planes[n]).written);
      forall i | 0 <= i < |planes| ensures FreshPlanes(planes)[i].Valid() {
        if i < n {
          assert FreshPlanes(planes[..n])[i].Valid();
        }
      }
    }
  }

  lemma MarkValid(c: Coverage, p: nat, row: nat, offset: nat, len: nat)
    requires c.Valid() && RangeFits(c, p, row, offset, len)
    ensures Mark(c, p, row, offset, len).Valid()
  {
    SumOne(c.planes, p, Mark(c, p, row, offset, len).planes[p]);
  }

  lemma MarkNothing(c: PlaneCoverage, at: nat)
    requires c.Valid()
    ensures MarkPlane(c, at, 0) == c
  {
    assert MarkRange(c.written, at, 0) == c.written;
  }

  lemma MarkNext(c: PlaneCoverage, at: nat, i: nat)
    requires at + i < |c.written|
    ensures var c1 := MarkPlane(c, at, i);
            MarkPlane(c, at, i + 1) ==
            if c1.written[at + i] then c1
            else c1.(written := c1.written[at + i := true], unique := c1.unique + 1)
  {
    var w, w1 := MarkRange(c.written, at, i), MarkRange(c.written, at, i + 1);
    assert w1 == w[at + i := true];
    CountOne(w, at + i);
    if w[at + i] {
      assert w1 == w;
    }
  }

  class FrameWriteCoverage {
    var planes: seq<PlaneCoverage>
    var totalExpected: nat
    var totalWritten: nat

    ghost function Abs(): Coverage
      reads this
    {
      Coverage(planes, totalExpected, totalWritten)
    }

    constructor (layout: seq<Plane>)
      ensures Abs() == FreshCoverage(layout)
    {
      planes, totalExpected, totalWritten := [], 0, 0;
      new;
      ResetFrom(layout);
    }

    method ResetFrom(layout: seq<Plane>)
      modifies this
      ensures Abs() == FreshCoverage(layout)
    {
      planes, totalExpected, totalWritten := [], 0, 0;
      for i := 0 to |layout|
        invariant planes == FreshPlanes(layout[..i])
        invariant totalExpected == SumExpected(planes) && totalWritten == 0
      {
        var expected := layout[i].rows * layout[i].active;
        totalExpected := totalExpected + expected;
        planes := planes + [PlaneCoverage(layout[i].active, layout[i].rows, expected, 0, seq(expected, _ => false))];
        assert planes[..i] == FreshPlanes(layout[..i]);
        assert planes == FreshPlanes(layout[..i + 1]);
      }
      assert layout[..|layout|] == layout;
    }

    method MarkWritten(p: nat, row: nat, offset: nat, len: nat)
      requires Abs().Valid() && RangeFits(Abs(), p, row, offset, len)
      modifies this
      ensures Abs() == Mark(old(Abs()), p, row, offset, len)
    {
      MarkBytes(p, row * planes[p].active + offset, len);
    }

    method MarkBytes(p: nat, at: nat, len: nat)
      requires Abs().Valid() && p < |planes| && at + len <= |planes[p].written|
      modifies this
      ensures Abs() == MarkAt(old(Abs()), p, at, len)
    {
      ghost var before := planes;
      MarkNothing(planes[p], at);
      for i := 0 to len
        invariant |planes| == |before| && totalExpected == old(totalExpected)
        invariant planes == before[p := MarkPlane(before[p], at, i)]
        invariant totalWritten == SumUnique(planes)
      {
        MarkNext(before[p], at, i);
        if !planes[p].written[at + i] {
          SumOne(planes, p, MarkPlane(before[p], at, i + 1));
          planes := planes[p := planes[p].(written := planes[p].written[at + i := true], unique := planes[p].unique + 1)];
          totalWritten := totalWritten + 1;
        }
      }
    }

    method Complete() returns (complete: bool)
      ensures complete == IsComplete(Abs())
    {
      complete := totalExpected != 0 && totalWritten == totalExpected;
    }
  }

  // ---- the assembler ----------------------------------------------------------------

  datatype PartialPolicy = EmitWithFlag | DropPartial

  datatype UnitKind = FrameUnit | FieldUnit | SegmentUnit

  datatype AssembledUnit = AssembledUnit(
    frame: Frame,
    kind: UnitKind,
    rtpTimestamp: u32,
    receiveTimestamp: u64,
    subIndex: nat,
    markerSeen: bool,
    canEmit: bool,
    complete: bool)

  datatype EndStatus = NotEmittable | EmittedComplete | EmittedPartial | DroppedPartial

  datatype WriteOp = WriteOp(p: nat, row: nat, offset: nat, bytes: seq<u8>)

  datatype Assembler = Assembler(
    policy: PartialPolicy, rtpTimestamp: u32, receiveTimestamp: u64, frame: Frame, coverage: Coverage)
  {
    ghost predicate Valid() {
      && frame.Valid() && coverage.Valid()
      && |coverage.planes| == |frame.Planes()|
      && forall i :: 0 <= i < |frame.Planes()| ==>
           coverage.planes[i].active == frame.Planes()[i].active && coverage.planes[i].rows == frame.Planes()[i].rows
    }
  }

  function NewAssembler(w: nat, h: nat, format: PixelFormat, policy: PartialPolicy): Assembler
    requires Layout(w, h, format).Some?
  {
    Assembler(policy, 0, 0, Blank(w, h, format), FreshCoverage(Layout(w, h, format).value))
  }

  function Begin(a: Assembler, rtpTimestamp: u32, receiveTimestamp: u64): Assembler
    requires a.frame.Valid()
  {
    a.(rtpTimestamp := rtpTimestamp, receiveTimestamp := receiveTimestamp, coverage := FreshCoverage(a.frame.Planes()))
  }

  /** The segment lies inside its row. */
  predicate OpFits(planes: seq<Plane>, op: WriteOp) {
    op.p < |planes| && op.row < planes[op.p].rows && op.offset + |op.bytes| <= planes[op.p].active
  }

  function Patch(data: seq<u8>, at: nat, bytes: seq<u8>): (r: seq<u8>)
    requires at + |bytes| <= |data|
    ensures |r| == |data|
    ensures forall k :: 0 <= k < |data| ==> r[k] == if at <= k < at + |bytes| then bytes[k - at] else data[k]
  {
    data[..at] + bytes + data[at + |bytes|..]
  }

  lemma FitsInBuffer(planes: seq<Plane>, op: WriteOp)
    requires Contiguous(planes) && OpFits(planes, op)
    ensures Address(planes, op.p, op.row, op.offset) + |op.bytes| <= TotalSize(planes)
    ensures op.row * planes[op.p].active + op.offset + |op.bytes| <= planes[op.p].rows * planes[op.p].active
  {
    var w := planes[op.p].active;
    InRow(op.row, planes[op.p].rows, w, w - 1);
    EndsIncrease(planes, op.p, op.p);
  }

  lemma FitsInCoverage(a: Assembler, op: WriteOp)
    requires a.Valid() && OpFits(a.frame.Planes(), op)
    ensures RangeFits(a.coverage, op.p, op.row, op.offset, |op.bytes|)
    ensures Address(a.frame.Planes(), op.p, op.row, op.offset) + |op.bytes| <= |a.frame.data|
  {
    LayoutContiguous(a.frame.width, a.frame.height, a.frame.format);
    FitsInBuffer(a.frame.Planes(), op);
    assert a.coverage.planes[op.p].Valid();
  }

  ghost function WriteSegment(a: Assembler, op: WriteOp): (a1: Assembler)
    requires a.Valid() && OpFits(a.frame.Planes(), op)
    ensures a1.Valid()
  {
    FitsInCoverage(a, op);
    MarkValid(a.coverage, op.p, op.row, op.offset, |op.bytes|);
    a.(frame := a.frame.(data := Patch(a.frame.data, Address(a.frame.Planes(), op.p, op.row, op.offset), op.bytes)),
       coverage := Mark(a.coverage, op.p, op.row, op.offset, |op.bytes|))
  }

  function EndUnit(a: Assembler, marker: bool, canEmit: bool): (Assembler, Option<AssembledUnit>, EndStatus)
    requires a.frame.Valid()
  {
    var cleared := a.(frame := Blank(a.frame.width, a.frame.height, a.frame.format));
    var complete := IsComplete(a.coverage);
    if !canEmit then (cleared, None, NotEmittable)
    else if !complete && a.policy.DropPartial? then (cleared, None, DroppedPartial)
    else (cleared,
          Some(AssembledUnit(a.frame, FrameUnit, a.rtpTimestamp, a.receiveTimestamp, 0, marker, true, complete)),
          if complete then EmittedComplete else EmittedPartial)
  }

  class FrameAssembler {
    const width: nat
    const height: nat
    const format: PixelFormat
    const policy: PartialPolicy
    const coverage: FrameWriteCoverage
    var rtpTimestamp: u32
    var receiveTimestamp: u64
    var frameData: array<u8>

    ghost predicate Valid()
      reads this, coverage, frameData
    {
      Abs().Valid()
    }

    ghost function Abs(): Assembler
      reads this, coverage, frameData
    {
      Assembler(policy, rtpTimestamp, receiveTimestamp, Frame(width, height, format, frameData[..]), coverage.Abs())
    }

    constructor (w: nat, h: nat, fmt: PixelFormat, partialPolicy: PartialPolicy)
      requires Layout(w, h, fmt).Some?
      ensures Valid() && Abs() == NewAssembler(w, h, fmt, partialPolicy)
      ensures fresh(coverage) && fresh(frameData)
    {
      width, height, format, policy := w, h, fmt, partialPolicy;
      rtpTimestamp, receiveTimestamp := 0, 0;
      var data := new u8[TotalSize(Layout(w, h, fmt).value)](_ => 0);
      frameData := data;
      var c := new FrameWriteCoverage(Layout(w, h, fmt).value);
      coverage := c;
      new;
      hide Layout, TotalSize, CountTrue, SumExpected, SumUnique, FreshPlanes;
      FreshValid(Layout(w, h, fmt).value);
      assert frameData[..] == Blank(w, h, fmt).data;
    }

    method BeginUnit(ts: u32, received: u64)
      requires Valid()
      modifies this, coverage
      ensures Valid() && Abs() == Begin(old(Abs()), ts, received)
      ensures frameData == old(frameData)
    {
      rtpTimestamp, receiveTimestamp := ts, received;
      coverage.ResetFrom(Layout(width, height, format).value);
      FreshValid(Layout(width, height, format).value);
    }

    method Write(op: WriteOp)
      requires Valid() && OpFits(Layout(width, height, format).value, op)
      modifies coverage, frameData
      ensures Valid() && Abs() == WriteSegment(old(Abs()), op)
    {
      hide Layout;
      FitsInCoverage(Abs(), op);
      MarkValid(coverage.Abs(), op.p, op.row, op.offset, |op.bytes|);
      ghost var before := frameData[..];
      var start := Address(Layout(width, height, format).value, op.p, op.row, op.offset);
      for i := 0 to |op.bytes|
        modifies frameData
        invariant forall k :: 0 <= k < frameData.Length ==>
                    frameData[k] == if start <= k < start + i then op.bytes[k - start] else before[k]
      {
        frameData[start + i] := op.bytes[i];
      }
      assert frameData[..] == Patch(before, start, op.bytes);
      coverage.MarkWritten(op.p, op.row, op.offset, |op.bytes|);
    }

    method End(marker: bool, canEmit: bool) returns (emitted: Option<AssembledUnit>, status: EndStatus)
      requires Valid()
      modifies this`frameData
      ensures Valid() && (Abs(), emitted, status) == EndUnit(old(Abs()), marker, canEmit)
      ensures fresh(frameData)
    {
      var complete := coverage.Complete();
      var taken := Frame(width, height, format, frameData[..]);
      frameData := new u8[TotalSize(Layout(width, height, format).value)](_ => 0);
      assert frameData[..] == Blank(width, height, format).data;
      if !canEmit {
        return None, NotEmittable;
      }
      if !complete && policy == DropPartial {
        return None, DroppedPartial;
      }
      emitted := Some(AssembledUnit(taken, FrameUnit, rtpTimestamp, receiveTimestamp, 0, marker, true, complete));
      status := if complete then EmittedComplete else EmittedPartial;
    }
  }

  // ---- what any sequence of writes amounts to ------------------------------------------

  predicate AllFit(planes: seq<Plane>, ops: seq<WriteOp>) {
    forall i :: 0 <= i < |ops| ==> OpFits(planes, ops[i])
  }

  ghost function WriteAll(a: Assembler, ops: seq<WriteOp>): (a1: Assembler)
    requires a.Valid() && AllFit(a.frame.Planes(), ops)
    ensures a1.Valid() && a1.frame.width == a.frame.width && a1.frame.height == a.frame.height
    ensures a1.frame.format == a.frame.format && a1.policy == a.policy
    ensures a1.rtpTimestamp == a.rtpTimestamp && a1.receiveTimestamp == a.receiveTimestamp
  {
    if ops == [] then a
    else WriteSegment(WriteAll(a, ops[..|ops| - 1]), ops[|ops| - 1])
  }

  predicate Covers(op: WriteOp, p: nat, row: nat, b: nat) {
    op.p == p && op.row == row && op.offset <= b < op.offset + |op.bytes|
  }

  ghost predicate Covered(ops: seq<WriteOp>, p: nat, row: nat, b: nat) {
    exists i :: 0 <= i < |ops| && Covers(ops[i], p, row, b)
  }

  lemma CoveredSnoc(ops: seq<WriteOp>, p: nat, row: nat, b: nat)
    requires ops != []
    ensures Covered(ops, p, row, b) <==> Covered(ops[..|ops| - 1], p, row, b) || Covers(ops[|ops| - 1], p, row, b)
  {
  }

  /** A byte of a row is marked by a segment exactly when the segment covers it. */
  lemma MarksCover(planes: seq<Plane>, op: WriteOp, row: nat, b: nat)
    requires OpFits(planes, op) && InPlane(planes, op.p, row, b)
    ensures var w := planes[op.p].active;
            (op.row * w + op.offset <= row * w + b < op.row * w + op.offset + |op.bytes|) <==>
            Covers(op, op.p, row, b)
  {
    var w := planes[op.p].active;
    if row < op.row {
      Distinct(w, row, b, op.row, 0);
    } else if op.row < row {
      Distinct(w, op.row, w - 1, row, b);
    }
  }

  lemma InCoverage(a: Assembler, p: nat, row: nat, b: nat)
    requires a.Valid() && InPlane(a.frame.Planes(), p, row, b)
    ensures p < |a.coverage.planes|
    ensures row * a.frame.Planes()[p].active + b < |a.coverage.planes[p].written|
  {
    hide Layout, CountTrue, SumExpected, SumUnique;
    InRow(row, a.frame.Planes()[p].rows, a.frame.Planes()[p].active, b);
    assert a.coverage.planes[p].Valid();
  }

  ghost predicate Marked(a: Assembler, p: nat, row: nat, b: nat)
    requires a.Valid() && InPlane(a.frame.Planes(), p, row, b)
  {
    && p < |a.coverage.planes|
    && var i := row * a.frame.Planes()[p].active + b;
       0 <= i < |a.coverage.planes[p].written| && a.coverage.planes[p].written[i]
  }

  lemma MarkedAfter(a: Assembler, op: WriteOp, p: nat, row: nat, b: nat)
    requires a.Valid() && OpFits(a.frame.Planes(), op) && InPlane(a.frame.Planes(), p, row, b)
    ensures Marked(WriteSegment(a, op), p, row, b) <==> Marked(a, p, row, b) || Covers(op, p, row, b)
  {
    hide Layout, Patch, CountTrue, SumExpected, SumUnique, MarkRange;
    FitsInCoverage(a, op);
    InCoverage(a, p, row, b);
    if op.p == p {
      MarksCover(a.frame.Planes(), op, row, b);
      assert a.coverage.planes[p].Valid();
    }
  }

  lemma {:induction false} MarkedIffCovered(a: Assembler, ops: seq<WriteOp>, p: nat, row: nat, b: nat)
    requires a.Valid() && a.coverage == FreshCoverage(a.frame.Planes()) && AllFit(a.frame.Planes(), ops)
    requires InPlane(a.frame.Planes(), p, row, b)
    ensures Marked(WriteAll(a, ops), p, row, b) <==> Covered(ops, p, row, b)
  {
    hide Layout;
    hide WriteSegment;
    InRow(row, a.frame.Planes()[p].rows, a.frame.Planes()[p].active, b);
    if ops != [] {
      var n := |ops| - 1;
      MarkedIffCovered(a, ops[..n], p, row, b);
      CoveredSnoc(ops, p, row, b);
      MarkedAfter(WriteAll(a, ops[..n]), ops[n], p, row, b);
    }
  }

  lemma CompleteMeansMarked(a: Assembler)
    requires a.Valid()
    ensures IsComplete(a.coverage) <==>
            forall p, row, b :: InPlane(a.frame.Planes(), p, row, b) ==> Marked(a, p, row, b)
  {
    hide Layout;
    LayoutContiguous(a.frame.width, a.frame.height, a.frame.format);
    SumsMeet(a.coverage.planes);
    SomethingExpected(a);
    if forall p, row, b :: InPlane(a.frame.Planes(), p, row, b) ==> Marked(a, p, row, b) {
      forall p | 0 <= p < |a.frame.Planes()| ensures AllWritten(a.coverage.planes[p]) {
        PlaneAllWritten(a, p);
      }
    }
    if IsComplete(a.coverage) {
      forall p, row, b | InPlane(a.frame.Planes(), p, row, b) ensures Marked(a, p, row, b) {
        WrittenIsMarked(a, p, row, b);
      }
    }
  }

  lemma WrittenIsMarked(a: Assembler, p: nat, row: nat, b: nat)
    requires a.Valid() && InPlane(a.frame.Planes(), p, row, b) && AllWritten(a.coverage.planes[p])
    ensures Marked(a, p, row, b)
  {
    hide Layout;
    InRow(row, a.frame.Planes()[p].rows, a.frame.Planes()[p].active, b);
    assert a.coverage.planes[p].Valid();
  }

  lemma PlaneAllWritten(a: Assembler, p: nat)
    requires a.Valid() && p < |a.frame.Planes()| && Contiguous(a.frame.Planes())
    requires forall row, b :: InPlane(a.frame.Planes(), p, row, b) ==> Marked(a, p, row, b)
    ensures AllWritten(a.coverage.planes[p])
  {
    hide Layout;
    var c, w := a.coverage.planes[p], a.frame.Planes()[p].active;
    assert c.Valid();
    forall k | 0 <= k < |c.written| ensures c.written[k] {
      RowOf(k, c.rows, w);
      assert InPlane(a.frame.Planes(), p, k / w, k % w);
      assert Marked(a, p, k / w, k % w);
    }
  }

  lemma SomethingExpected(a: Assembler)
    requires a.Valid() && Contiguous(a.frame.Planes())
    ensures a.coverage.totalExpected != 0
  {
  }

  /** After any writes the unit counts as complete exactly when every byte of
      every row of every plane was covered by some write. */
  lemma CompleteIffCovered(a: Assembler, ops: seq<WriteOp>)
    requires a.Valid() && a.coverage == FreshCoverage(a.frame.Planes()) && AllFit(a.frame.Planes(), ops)
    ensures IsComplete(WriteAll(a, ops).coverage) <==>
            forall p, row, b :: InPlane(a.frame.Planes(), p, row, b) ==> Covered(ops, p, row, b)
  {
    hide Layout;
    CompleteMeansMarked(WriteAll(a, ops));
    forall p, row, b | InPlane(a.frame.Planes(), p, row, b)
      ensures Marked(WriteAll(a, ops), p, row, b) <==> Covered(ops, p, row, b)
    {
      MarkedIffCovered(a, ops, p, row, b);
    }
  }

  /** The segment is cut out of the source frame. */
  ghost predicate SliceOf(op: WriteOp, src: Frame)
    requires src.Valid()
  {
    && OpFits(src.Planes(), op)
    && forall i :: 0 <= i < |op.bytes| ==> op.bytes[i] == src.At(op.p, op.row, op.offset + i)
  }

  lemma SliceAgrees(a: Assembler, op: WriteOp, src: Frame, p: nat, row: nat, b: nat)
    requires a.Valid() && src.Valid() && SliceOf(op, src)
    requires a.frame.width == src.width && a.frame.height == src.height && a.frame.format == src.format
    requires InPlane(src.Planes(), p, row, b)
    requires Covers(op, p, row, b) || a.frame.At(p, row, b) == src.At(p, row, b)
    ensures WriteSegment(a, op).frame.At(p, row, b) == src.At(p, row, b)
  {
    hide Layout;
    hide Mark;
    hide TotalSize;
    hide Contiguous;
    var planes := src.Planes();
    LayoutContiguous(src.width, src.height, src.format);
    FitsInCoverage(a, op);
    AddressInjective(planes, p, row, b, p, row, b);
    var k, start := Address(planes, p, row, b), Address(planes, op.p, op.row, op.offset);
    if start <= k < start + |op.bytes| {
      assert k == Address(planes, op.p, op.row, op.offset + (k - start));
    }
  }

  lemma {:induction false} SlicesAgree(a: Assembler, ops: seq<WriteOp>, src: Frame, p: nat, row: nat, b: nat)
    requires a.Valid() && src.Valid() && AllFit(a.frame.Planes(), ops)
    requires a.frame.width == src.width && a.frame.height == src.height && a.frame.format == src.format
    requires forall i :: 0 <= i < |ops| ==> SliceOf(ops[i], src)
    requires InPlane(src.Planes(), p, row, b) && Covered(ops, p, row, b)
    ensures WriteAll(a, ops).frame.At(p, row, b) == src.At(p, row, b)
  {
    hide Layout;
    hide WriteSegment;
    var n := |ops| - 1;
    CoveredSnoc(ops, p, row, b);
    if !Covers(ops[n], p, row, b) {
      SlicesAgree(a, ops[..n], src, p, row, b);
    }
    SliceAgrees(WriteAll(a, ops[..n]), ops[n], src, p, row, b);
  }

  /** If every write is a slice of one frame and together they cover it, the
      assembled frame is that frame, whatever the order, overlap or repetition. */
  lemma SlicesRebuild(a: Assembler, ops: seq<WriteOp>, src: Frame)
    requires a.Valid() && src.Valid() && AllFit(a.frame.Planes(), ops)
    requires a.frame.width == src.width && a.frame.height == src.height && a.frame.format == src.format
    requires forall i :: 0 <= i < |ops| ==> SliceOf(ops[i], src)
    requires a.coverage == FreshCoverage(a.frame.Planes())
    ensures IsComplete(WriteAll(a, ops).coverage) ==> WriteAll(a, ops).frame == src
  {
    hide Layout;
    CompleteIffCovered(a, ops);
    if IsComplete(WriteAll(a, ops).coverage) {
      forall p, row, b | InPlane(src.Planes(), p, row, b)
        ensures WriteAll(a, ops).frame.At(p, row, b) == src.At(p, row, b)
      {
        SlicesAgree(a, ops, src, p, row, b);
      }
      SamePicture(WriteAll(a, ops).frame, src);
    }
  }
}
