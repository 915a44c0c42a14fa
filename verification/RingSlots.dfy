/** One slot of the shared-memory media ring: its header, its payload, the check of
    its metadata, and the operations of the ring map on it. */
module RingSlots {
  import opened Arithmetic
  import opened Basics
  import opened CheckedArithmetic

  datatype MediaKind = VideoMedium | AudioMedium

  const MAX_PLANES := 4

  datatype PlaneMeta = PlaneMeta(offset: u64, size: u64, lineSize: u64)

  datatype Metadata = Metadata(
    kind: MediaKind,
    format: u32,
    width: u32,
    height: u32,
    sampleRate: u32,
    channels: u32,
    samplesPerChannel: u32,
    rtpTimestamp: u32,
    receiveTimestamp: u64,
    planeCount: u32,
    scanMode: u32,
    fieldFlags: u32,
    planes: seq<PlaneMeta>)

  const NO_PLANE := PlaneMeta(0, 0, 0)
  const NO_METADATA := Metadata(VideoMedium, 0, 0, 0, 0, 0, 0, 0, 0, 0, 0, 0, [NO_PLANE, NO_PLANE, NO_PLANE, NO_PLANE])

  /** What both ends demand of a published slot: a nonempty payload that fits, and
      up to four nonempty planes inside it. */
  ghost predicate ValidMetadata(m: Metadata, size: u64, capacity: u64) {
    && 0 < size <= capacity
    && 1 <= m.planeCount <= MAX_PLANES && |m.planes| == MAX_PLANES
    && (forall i :: 0 <= i < m.planeCount ==> m.planes[i].size > 0 && m.planes[i].offset + m.planes[i].size <= size)
    && match m.kind
       case VideoMedium => m.width != 0 && m.height != 0
       case AudioMedium => m.sampleRate != 0 && m.channels != 0 && m.samplesPerChannel != 0
  }

  method ValidateSlotMediaMetadata(m: Metadata, size: u64, capacity: u64) returns (ok: bool)
    requires |m.planes| == MAX_PLANES
    ensures ok <==> ValidMetadata(m, size, capacity)
  {
    if size == 0 || size > capacity {
      return false;
    }
    if m.planeCount == 0 || m.planeCount > MAX_PLANES {
      return false;
    }
    var coveredEnd: u64 := 0;
    for i := 0 to m.planeCount
      invariant coveredEnd <= size
      invariant forall j :: 0 <= j < i ==> m.planes[j].size > 0 && m.planes[j].offset + m.planes[j].size <= size
    {
      if m.planes[i].size == 0 {
        return false;
      }
      var end := AddU64(m.planes[i].offset, m.planes[i].size);
      if end.None? || end.value > size {
        return false;
      }
      if end.value > coveredEnd {
        coveredEnd := end.value;
      }
    }
    if coveredEnd > size {
      return false;
    }
    match m.kind
    case VideoMedium => return m.width != 0 && m.height != 0;
    case AudioMedium => return m.sampleRate != 0 && m.channels != 0 && m.samplesPerChannel != 0;
  }

  datatype SlotState = Empty | Writing | Ready | Reading

  datatype Slot = Slot(state: SlotState, flags: u32, sequence: nat, size: u64, media: Metadata, payload: seq<u8>)

  // ---- whole operations, as one end sees them ------------------------------------

  datatype BeginRead = Acquired | NotReady | Stale

  function BeginWrite(s: Slot): (Slot, bool) {
    if s.state == Empty then (s.(state := Writing), true) else (s, false)
  }

  ghost function Publish(s: Slot, size: u64, sequence: nat, flags: u32, m: Metadata, capacity: u64): (Slot, Result<bool>) {
    if size > capacity || !ValidMetadata(m, size, capacity) then (s, Err(InvalidValue))
    else if s.state != Writing then (s, Err(InvalidBackendState))
    else (Slot(Ready, flags, sequence, size, m, s.payload), Ok(true))
  }

  function Abort(s: Slot): (Slot, bool) {
    if s.state != Writing then (s, false)
    else (Slot(Empty, 0, s.sequence, 0, NO_METADATA, s.payload), true)
  }

  ghost function BeginReadIfMatches(s: Slot, expected: nat, capacity: u64): (Slot, Result<BeginRead>) {
    if s.state != Ready then (s, Ok(NotReady))
    else if s.sequence != expected then (s, Ok(Stale))
    else
      var s1 := s.(state := Reading);
      if !ValidMetadata(s.media, s.size, capacity) then (s1, Err(InvalidValue)) else (s1, Ok(Acquired))
  }

  function ReleaseRead(s: Slot): (Slot, Result<bool>) {
    if s.state != Reading then (s, Err(InvalidBackendState))
    else (Slot(Empty, 0, s.sequence, 0, NO_METADATA, s.payload), Ok(true))
  }

  class RingMap {
    const capacity: u64
    var slots: seq<Slot>

    ghost predicate Valid()
      reads this
    {
      && |slots| < TWO_32
      && forall i :: 0 <= i < |slots| ==> |slots[i].payload| == capacity && |slots[i].media.planes| == MAX_PLANES
    }

    constructor (slotCount: u32, payloadCapacity: u64)
      ensures Valid() && |slots| == slotCount && capacity == payloadCapacity
      ensures forall i :: 0 <= i < slotCount ==> slots[i].state == Empty && slots[i].sequence == 0
    {
      capacity := payloadCapacity;
      slots := seq(slotCount, _ => Slot(Empty, 0, 0, 0, NO_METADATA, seq(payloadCapacity, _ => 0)));
    }

    method InitializeSlotHeaders()
      requires Valid()
      modifies this
      ensures Valid() && |slots| == old(|slots|)
      ensures forall i :: 0 <= i < |slots| ==> slots[i] == Slot(Empty, 0, 0, 0, NO_METADATA, old(slots)[i].payload)
    {
      for i := 0 to |slots|
        invariant Valid() && |slots| == old(|slots|)
        invariant forall j :: 0 <= j < i ==> slots[j] == Slot(Empty, 0, 0, 0, NO_METADATA, old(slots)[j].payload)
        invariant forall j :: i <= j < |slots| ==> slots[j] == old(slots)[j]
      {
        slots := slots[i := Slot(Empty, 0, 0, 0, NO_METADATA, slots[i].payload)];
      }
    }

    method BeginWriteSlot(i: u32) returns (r: Result<bool>)
      requires Valid()
      modifies this
      ensures Valid()
      ensures if i < |old(slots)| then
                var (s, ok) := BeginWrite(old(slots)[i]); slots == old(slots)[i := s] && r == Ok(ok)
              else slots == old(slots) && r == Err(InvalidValue)
    {
      if i >= |slots| {
        return Err(InvalidValue);
      }
      if slots[i].state == Empty {
        slots := slots[i := slots[i].(state := Writing)];
        return Ok(true);
      }
      return Ok(false);
    }

    /** Scan from nextSlot for the first slot that can be claimed for writing. */
    method AcquireSlot(nextSlot: u32) returns (r: Result<Option<u32>>, next: u32)
      requires Valid()
      modifies this
      ensures Valid()
      ensures |old(slots)| == 0 ==> r == Err(InvalidBackendState) && slots == old(slots)
      ensures |old(slots)| > 0 ==> r.Ok?
      ensures r.Ok? && r.value.Some? ==>
                var i := r.value.value;
                && i < |old(slots)| && old(slots)[i].state == Empty
                && slots == old(slots)[i := old(slots)[i].(state := Writing)]
                && next == (i + 1) % |slots|
      ensures r == Ok(None) ==> slots == old(slots) && next == nextSlot && forall i :: 0 <= i < |slots| ==> slots[i].state != Empty
    {
      next := nextSlot;
      var n := |slots|;
      if n == 0 {
        return Err(InvalidBackendState), next;
      }
      for attempt := 0 to n
        invariant slots == old(slots) && next == nextSlot
        invariant forall a {:trigger Candidate(nextSlot, a, n)} :: 0 <= a < attempt ==> slots[Candidate(nextSlot, a, n)].state != Empty
      {
        var candidate := Candidate(nextSlot, attempt, n);
        var began := BeginWriteSlot(candidate);
        if began.value {
          next := Candidate(candidate, 1, n);
          return Ok(Some(candidate)), next;
        }
      }
      forall i | 0 <= i < n ensures slots[i].state != Empty {
        var a := ScanReaches(nextSlot, n, i);
        assert Candidate(nextSlot, a, n) == i;
      }
      return Ok(None), next;
    }

    method PublishWrittenSlot(i: u32, size: u64, sequence: nat, flags: u32, m: Metadata) returns (r: Result<bool>)
      requires Valid() && |m.planes| == MAX_PLANES
      modifies this
      ensures Valid()
      ensures if i < |old(slots)| then
                var (s, ok) := Publish(old(slots)[i], size, sequence, flags, m, capacity); slots == old(slots)[i := s] && r == ok
              else slots == old(slots) && r == Err(InvalidValue)
    {
      if size > capacity {
        return Err(InvalidValue);
      }
      var valid := ValidateSlotMediaMetadata(m, size, capacity);
      if !valid {
        return Err(InvalidValue);
      }
      if i >= |slots| {
        return Err(InvalidValue);
      }
      if slots[i].state != Writing {
        return Err(InvalidBackendState);
      }
      var s := slots[i].(size := size, sequence := sequence, flags := flags, media := m);
      slots := slots[i := s.(state := Ready)];
      return Ok(true);
    }

    method AbortWriteSlot(i: u32) returns (r: Result<bool>)
      requires Valid()
      modifies this
      ensures Valid()
      ensures if i < |old(slots)| then
                var (s, ok) := Abort(old(slots)[i]); slots == old(slots)[i := s] && r == Ok(ok)
              else slots == old(slots) && r == Err(InvalidValue)
    {
      if i >= |slots| {
        return Err(InvalidValue);
      }
      if slots[i].state != Writing {
        return Ok(false);
      }
      var s := slots[i].(size := 0, flags := 0, media := NO_METADATA);
      slots := slots[i := s.(state := Empty)];
      return Ok(true);
    }

    method BeginReadSlotIfMatches(i: u32, expected: nat) returns (r: Result<BeginRead>)
      requires Valid()
      modifies this
      ensures Valid()
      ensures if i < |old(slots)| then
                var (s, ok) := BeginReadIfMatches(old(slots)[i], expected, capacity); slots == old(slots)[i := s] && r == ok
              else slots == old(slots) && r == Err(InvalidValue)
    {
      if i >= |slots| {
        return Err(InvalidValue);
      }
      if slots[i].state != Ready {
        return Ok(NotReady);
      }
      if slots[i].sequence != expected {
        return Ok(Stale);
      }
      slots := slots[i := slots[i].(state := Reading)];
      if slots[i].sequence != expected {
        return Err(InvalidValue);
      }
      var valid := ValidateSlotMediaMetadata(slots[i].media, slots[i].size, capacity);
      return if valid then Ok(Acquired) else Err(InvalidValue);
    }

    method ReleaseReadSlot(i: u32) returns (r: Result<bool>)
      requires Valid()
      modifies this
      ensures Valid()
      ensures if i < |old(slots)| then
                var (s, ok) := ReleaseRead(old(slots)[i]); slots == old(slots)[i := s] && r == ok
              else slots == old(slots) && r == Err(InvalidValue)
    {
      if i >= |slots| {
        return Err(InvalidValue);
      }
      if slots[i].state != Reading {
        return Err(InvalidBackendState);
      }
      var s := slots[i].(size := 0, flags := 0, media := NO_METADATA);
      slots := slots[i := s.(state := Empty)];
      return Ok(true);
    }
  }

  function Candidate(from: nat, attempt: nat, n: nat): (c: nat)
    requires 0 < n
    ensures c < n
  {
    (from + attempt) % n
  }
}
