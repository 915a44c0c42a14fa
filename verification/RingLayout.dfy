/** Where the slots of a media ring lie in its mapping. All sizes are unsigned
    64-bit numbers, and every sum and product is checked for overflow. */
module RingLayout {
  import opened Arithmetic
  import opened Basics
  import opened CheckedArithmetic
  import opened RingSlots

  const HEADER_SIZE: nat := 192
  const HEADER_ALIGNMENT: nat := 64
  const LAYOUT_VERSION: u32 := 3

  datatype RingDescriptor = RingDescriptor(
    ringId: u64,
    kind: MediaKind,
    fdIndex: u32,
    layoutVersion: u32,
    mappedSize: u64,
    regionOffset: u64,
    slotCount: u32,
    stride: u64,
    payloadOffset: u64,
    capacity: u64)

  // ---- the two validators -----------------------------------------------------------

  ghost predicate Sized(d: RingDescriptor) {
    && d.ringId != 0 && d.layoutVersion == LAYOUT_VERSION
    && d.mappedSize != 0 && d.slotCount != 0 && d.stride != 0 && d.capacity != 0
  }

  /** Every payload ends inside its slot, and the last one inside the mapping. */
  ghost predicate InMapping(d: RingDescriptor) {
    && d.payloadOffset + d.capacity <= d.stride
    && d.regionOffset + (d.slotCount - 1) * d.stride + d.payloadOffset + d.capacity <= d.mappedSize
  }

  /** What the codec demands of a descriptor. */
  ghost predicate ValidDescriptor(d: RingDescriptor) {
    Sized(d) && InMapping(d)
  }

  /** What mapping demands besides: aligned slots with room for the header. */
  ghost predicate ValidForMapping(d: RingDescriptor) {
    && Sized(d)
    && d.regionOffset % HEADER_ALIGNMENT == 0 && d.stride % HEADER_ALIGNMENT == 0
    && d.payloadOffset >= HEADER_SIZE
    && InMapping(d)
  }

  method PayloadsInMapping(d: RingDescriptor) returns (ok: bool)
    requires d.slotCount != 0
    ensures ok <==> InMapping(d)
  {
    var payloadEnd := AddU64(d.payloadOffset, d.capacity);
    if payloadEnd.None? {
      return false;
    }
    if payloadEnd.value > d.stride {
      return false;
    }
    CheckedProduct(d.slotCount - 1, d.stride);
    var lastSlot := MulU64(d.slotCount - 1, d.stride);
    if lastSlot.None? {
      return false;
    }
    var lastEnd := AddU64(lastSlot.value, payloadEnd.value);
    if lastEnd.None? {
      return false;
    }
    var mappedEnd := AddU64(d.regionOffset, lastEnd.value);
    if mappedEnd.None? {
      return false;
    }
    return mappedEnd.value <= d.mappedSize;
  }

  method ValidateDescriptor(d: RingDescriptor) returns (ok: bool)
    ensures ok <==> ValidDescriptor(d)
  {
    if d.ringId == 0 || d.layoutVersion != LAYOUT_VERSION || d.mappedSize == 0 || d.slotCount == 0
       || d.stride == 0 || d.capacity == 0 {
      return false;
    }
    ok := PayloadsInMapping(d);
  }

  method ValidateForMapping(d: RingDescriptor) returns (ok: bool)
    ensures ok <==> ValidForMapping(d)
  {
    if d.ringId == 0 || d.layoutVersion != LAYOUT_VERSION || d.mappedSize == 0 || d.slotCount == 0
       || d.stride == 0 || d.capacity == 0 {
      return false;
    }
    if d.regionOffset % HEADER_ALIGNMENT != 0 || d.stride % HEADER_ALIGNMENT != 0 {
      return false;
    }
    if d.payloadOffset < HEADER_SIZE {
      return false;
    }
    ok := PayloadsInMapping(d);
  }

  // ---- slot addresses ----------------------------------------------------------------

  function SlotOffset(d: RingDescriptor, i: u32): Option<u64> {
    var relative := MulU64(i, d.stride);
    if relative.None? then None else AddU64(d.regionOffset, relative.value)
  }

  /** The start of a slot header in a mapping of the descriptor's size. */
  function SlotHeader(d: RingDescriptor, i: u32): Result<u64> {
    if i >= d.slotCount then Err(InvalidValue)
    else
      var offset := SlotOffset(d, i);
      if offset.None? || offset.value + HEADER_SIZE > d.mappedSize then Err(InvalidValue) else Ok(offset.value)
  }

  /** The start of a slot payload. */
  function SlotPayload(d: RingDescriptor, i: u32): Result<u64> {
    if i >= d.slotCount then Err(InvalidValue)
    else
      var slot := SlotOffset(d, i);
      if slot.None? then Err(InvalidValue)
      else
        var offset := AddU64(slot.value, d.payloadOffset);
        if offset.None? || offset.value + d.capacity > d.mappedSize then Err(InvalidValue) else Ok(offset.value)
  }

  lemma SlotsFit(d: RingDescriptor, i: u32)
    requires ValidForMapping(d) && i < d.slotCount
    ensures d.regionOffset + i * d.stride + d.payloadOffset + d.capacity <= d.mappedSize
    ensures SlotOffset(d, i) == Some(d.regionOffset + i * d.stride)
  {
    RowsGrow(d.stride, i, d.slotCount - 1);
    CheckedProduct(i, d.stride);
  }

  lemma {:induction false} MultipleOf(n: nat, d: nat, k: nat)
    requires k > 0 && d % k == 0
    ensures n * d % k == 0
  {
    if n > 0 {
      MultipleOf(n - 1, d, k);
      assert n * d == (n - 1) * d + d;
      var q, r := (n - 1) * d / k, d / k;
      assert n * d == (q + r) * k + 0;
      RemainderOf(q + r, k, 0);
    }
  }

  /** For every descriptor that mapping accepts, every slot has its header and its
      payload inside the mapping, the header aligned and before the payload. */
  lemma SlotsAddressed(d: RingDescriptor, i: u32)
    requires ValidForMapping(d) && i < d.slotCount
    ensures SlotHeader(d, i) == Ok(d.regionOffset + i * d.stride)
    ensures SlotPayload(d, i) == Ok(d.regionOffset + i * d.stride + d.payloadOffset)
    ensures SlotHeader(d, i).value % HEADER_ALIGNMENT == 0
    ensures SlotHeader(d, i).value + HEADER_SIZE <= SlotPayload(d, i).value
    ensures SlotPayload(d, i).value + d.capacity <= d.mappedSize
  {
    SlotsFit(d, i);
    MultipleOf(i, d.stride, HEADER_ALIGNMENT);
    SumOfMultiples(d.regionOffset, i * d.stride);
  }

  lemma SumOfMultiples(a: nat, b: nat)
    requires a % HEADER_ALIGNMENT == 0 && b % HEADER_ALIGNMENT == 0
    ensures (a + b) % HEADER_ALIGNMENT == 0
  {
  }

  /** Where a slot begins and its payload ends. */
  function SlotSpan(d: RingDescriptor, i: u32): (int, int)
    requires SlotHeader(d, i).Ok? && SlotPayload(d, i).Ok?
  {
    (SlotHeader(d, i).value, SlotPayload(d, i).value + d.capacity)
  }

  /** No two slots share a byte. */
  lemma SlotsDisjoint(d: RingDescriptor, i: u32, j: u32)
    requires ValidForMapping(d) && i < j < d.slotCount
    ensures SlotHeader(d, i).Ok? && SlotPayload(d, i).Ok? && SlotHeader(d, j).Ok? && SlotPayload(d, j).Ok?
    ensures SlotSpan(d, i).1 <= SlotSpan(d, j).0
  {
    SlotsAddressed(d, i);
    SlotsAddressed(d, j);
    RowsGrow(d.stride, i + 1, j);
    assert (i + 1) * d.stride == i * d.stride + d.stride;
  }

  // ---- the owner's descriptors -----------------------------------------------------------

  datatype OwnerConfig = OwnerConfig(ringId: u64, kind: MediaKind, fdIndex: u32, slotCount: u32, capacity: u64)

  function AlignUp(value: u64, alignment: u64): (r: Option<u64>)
    requires alignment > 0
    ensures r.Some? ==> r.value % alignment == 0 && value <= r.value < value + alignment
    ensures r.None? ==> value + alignment > TWO_64
  {
    var remainder := value % alignment;
    if remainder == 0 then Some(value)
    else if TWO_64 - 1 - value < alignment - remainder then None
    else
      RoundedUp(value, alignment);
      Some(value + (alignment - remainder))
  }

  lemma RoundedUp(value: nat, alignment: nat)
    requires alignment > 0 && value % alignment != 0
    ensures (value + (alignment - value % alignment)) % alignment == 0
  {
    var q := value / alignment;
    assert value == q * alignment + value % alignment;
    assert (q + 1) * alignment == q * alignment + alignment;
    RemainderOf(q + 1, alignment, 0);
  }

  ghost function MakeDescriptor(cfg: OwnerConfig): Result<RingDescriptor> {
    if cfg.ringId == 0 || cfg.slotCount == 0 || cfg.capacity == 0 then Err(InvalidValue)
    else
      var payloadOffset := AlignUp(HEADER_SIZE, HEADER_ALIGNMENT);
      if payloadOffset.None? then Err(InvalidValue)
      else
        var payloadEnd := AddU64(payloadOffset.value, cfg.capacity);
        if payloadEnd.None? then Err(InvalidValue)
        else
          var stride := AlignUp(payloadEnd.value, HEADER_ALIGNMENT);
          if stride.None? then Err(InvalidValue)
          else
            var mapped := MulU64(cfg.slotCount, stride.value);
            if mapped.None? then Err(InvalidValue)
            else
              var d := RingDescriptor(cfg.ringId, cfg.kind, cfg.fdIndex, LAYOUT_VERSION, mapped.value, 0,
                                      cfg.slotCount, stride.value, payloadOffset.value, cfg.capacity);
              if ValidForMapping(d) then Ok(d) else Err(InvalidValue)
  }

  /** The stride the owner gives each slot: header and payload, rounded up. */
  function OwnerStride(capacity: u64): nat {
    var end := HEADER_SIZE + capacity;
    if end % HEADER_ALIGNMENT == 0 then end else end + (HEADER_ALIGNMENT - end % HEADER_ALIGNMENT)
  }

  lemma FirstPayload()
    ensures AlignUp(HEADER_SIZE, HEADER_ALIGNMENT) == Some(HEADER_SIZE)
  {
  }

  /** Every descriptor the owner makes passes both validators, describes exactly
      the ring asked for, and one is made whenever the whole ring fits in 64 bits:
      its own final validation never rejects anything. */
  lemma OwnerDescriptorsValid(cfg: OwnerConfig)
    ensures MakeDescriptor(cfg).Ok? <==>
            && cfg.ringId != 0 && cfg.slotCount != 0 && cfg.capacity != 0
            && cfg.slotCount * OwnerStride(cfg.capacity) < TWO_64
    ensures MakeDescriptor(cfg).Ok? ==>
            var d := MakeDescriptor(cfg).value;
            && ValidForMapping(d) && ValidDescriptor(d)
            && d.ringId == cfg.ringId && d.kind == cfg.kind && d.fdIndex == cfg.fdIndex
            && d.slotCount == cfg.slotCount && d.capacity == cfg.capacity
            && d.stride == OwnerStride(cfg.capacity) && d.mappedSize == cfg.slotCount * d.stride
  {
    FirstPayload();
    if cfg.ringId != 0 && cfg.slotCount != 0 && cfg.capacity != 0 {
      RowsGrow(OwnerStride(cfg.capacity), 1, cfg.slotCount);
      var end := HEADER_SIZE + cfg.capacity;
      if end < TWO_64 {
        var stride := AlignUp(end, HEADER_ALIGNMENT);
        if stride.Some? {
          OwnerRingFits(cfg, stride.value);
        }
      }
    }
  }

  lemma OwnerRingFits(cfg: OwnerConfig, stride: u64)
    requires cfg.ringId != 0 && cfg.slotCount != 0 && cfg.capacity != 0
    requires HEADER_SIZE + cfg.capacity <= stride && stride % HEADER_ALIGNMENT == 0
    ensures MulU64(cfg.slotCount, stride).Some? <==> cfg.slotCount * stride < TWO_64
    ensures MulU64(cfg.slotCount, stride).Some? ==>
            ValidForMapping(RingDescriptor(cfg.ringId, cfg.kind, cfg.fdIndex, LAYOUT_VERSION,
                                           MulU64(cfg.slotCount, stride).value, 0, cfg.slotCount, stride, HEADER_SIZE, cfg.capacity))
  {
    CheckedProduct(cfg.slotCount, stride);
    assert cfg.slotCount * stride == (cfg.slotCount - 1) * stride + stride;
  }
}
