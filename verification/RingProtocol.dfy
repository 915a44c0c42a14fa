/** The media ring between two processes: one writer and one reader, every atomic
    access a step of its own, interleaved in any order. */
module RingProtocol {
  import opened Basics
  import opened RingSlots

  /** A frame or block to export, and what a sink is handed. */
  datatype Content = Content(data: seq<u8>, media: Metadata)

  datatype Event = Event(slot: nat, number: nat)

  datatype Delivered = Delivered(number: nat, content: Content)

  /** Where the worker's receive thread stands. */
  datatype Writer =
    | WIdle
    | WScan(f: Content, attempt: nat)
    | WCopy(slot: nat, f: Content, done: nat)
    | WPublish(slot: nat, f: Content, number: nat, field: nat)
    | WNotify(slot: nat, number: nat)
    | WAbort(slot: nat, field: nat, fatal: bool)
    | WStopped

  /** Where the client's event handler stands. */
  datatype Reader =
    | RIdle
    | RTaken(e: Event)
    | RSawReady(e: Event)
    | RMatched(e: Event)
    | RHeld(e: Event)
    | RRead(e: Event, seen: seq<u8>)
    | RDone(e: Event)
    | RRelease(e: Event, field: nat)
    | RStuck(e: Event)

  datatype Sys = Sys(
    capacity: u64,
    slots: seq<Slot>,
    queue: seq<Event>,
    w: Writer,
    r: Reader,
    nextSlot: nat,
    nextSequence: nat,
    active: bool,
    // the worker's counters
    received: nat,
    written: nat,
    dropped: nat,
    // the client's counters
    ignored: nat,
    stale: nat,
    failures: nat,
    released: nat,
    // history
    published: map<nat, Content>,
    delivered: seq<Delivered>,
    lastHeld: nat,
    leaked: set<nat>,
    failedWrites: nat,
    discarded: nat)

  function EmptySlot(capacity: u64): Slot {
    Slot(Empty, 0, 0, 0, NO_METADATA, seq(capacity, _ => 0))
  }

  function Start(capacity: u64, slotCount: nat): Sys {
    Sys(capacity, seq(slotCount, _ => EmptySlot(capacity)), [], WIdle, RIdle, 0, 1, true,
        0, 0, 0, 0, 0, 0, 0, map[], [], 0, {}, 0, 0)
  }

  // ---- the writer's steps ---------------------------------------------------------

  datatype WStep =
    | Receive(f: Content)
    | TryClaim
    | CopyChunk(n: nat)
    | GiveUp(fatal: bool)
    | Decide
    | StoreField
    | StoreReady
    | Notify(ok: bool)
    | ClearField
    | StoreEmpty

  function WithSlot(s: Sys, i: nat, slot: Slot): Sys
    requires i < |s.slots|
  {
    s.(slots := s.slots[i := slot])
  }

  ghost predicate WEnabled(s: Sys, a: WStep) {
    match a
    case Receive(_) => s.w.WIdle?
    case TryClaim => s.w.WScan? && s.slots != []
    case CopyChunk(n) =>
      s.w.WCopy? && s.w.slot < |s.slots| && n > 0 && s.w.done + n <= |s.w.f.data|
      && s.w.done + n <= |s.slots[s.w.slot].payload|
    case GiveUp(_) => s.w.WCopy?
    case Decide => s.w.WCopy? && s.w.slot < |s.slots| && s.w.done == |s.w.f.data|
    case StoreField => s.w.WPublish? && s.w.slot < |s.slots| && s.w.field < 4 && |s.w.f.data| < TWO_64
    case StoreReady => s.w.WPublish? && s.w.slot < |s.slots| && s.w.field == 4
    case Notify(_) => s.w.WNotify?
    case ClearField => s.w.WAbort? && s.w.slot < |s.slots| && s.w.field < 3
    case StoreEmpty => s.w.WAbort? && s.w.slot < |s.slots| && s.w.field == 3
  }

  /** publish_written_slot writes the header fields in this order. */
  function FieldStored(slot: Slot, f: Content, number: nat, field: nat): Slot
    requires field < 4 && |f.data| < TWO_64
  {
    if field == 0 then slot.(size := |f.data|)
    else if field == 1 then slot.(sequence := number)
    else if field == 2 then slot.(flags := 0)
    else slot.(media := f.media)
  }

  /** abort_write_slot and release_read_slot clear them in this order. */
  function FieldCleared(slot: Slot, field: nat): Slot
    requires field < 3
  {
    if field == 0 then slot.(size := 0)
    else if field == 1 then slot.(flags := 0)
    else slot.(media := NO_METADATA)
  }

  function Overwritten(payload: seq<u8>, at: nat, bytes: seq<u8>): (r: seq<u8>)
    requires at + |bytes| <= |payload|
    ensures |r| == |payload|
    ensures forall k :: 0 <= k < |r| ==> r[k] == if at <= k < at + |bytes| then bytes[k - at] else payload[k]
  {
    payload[..at] + bytes + payload[at + |bytes|..]
  }

  ghost function DoClaim(s: Sys): Sys
    requires WEnabled(s, TryClaim)
  {
    var n := |s.slots|;
    var i := Candidate(s.nextSlot, s.w.attempt, n);
    var (slot, ok) := BeginWrite(s.slots[i]);
    if ok then WithSlot(s, i, slot).(nextSlot := Candidate(i, 1, n), w := WCopy(i, s.w.f, 0))
    else if s.w.attempt + 1 < n then s.(w := WScan(s.w.f, s.w.attempt + 1))
    else s.(w := WIdle, dropped := s.dropped + 1)
  }

  /** After the copy: nothing to show is a drop; otherwise a sequence number is
      taken, and the metadata and the state of the slot are checked. */
  ghost function DoDecide(s: Sys): Sys
    requires WEnabled(s, Decide)
  {
    var f := s.w.f;
    if |f.data| == 0 || |f.data| > s.capacity then s.(w := WAbort(s.w.slot, 0, false))
    else
      var number := s.nextSequence;
      var s1 := s.(nextSequence := number + 1);
      if !ValidMetadata(f.media, |f.data|, s.capacity) || s.slots[s.w.slot].state != Writing
      then s1.(w := WAbort(s.w.slot, 0, true))
      else s1.(w := WPublish(s.w.slot, f, number, 0), published := s.published[number := f])
  }

  ghost function DoW(s: Sys, a: WStep): Sys
    requires WEnabled(s, a)
  {
    match a
    case Receive(f) => s.(w := WScan(f, 0), received := s.received + 1)
    case TryClaim => DoClaim(s)
    case CopyChunk(n) =>
      var slot := s.slots[s.w.slot];
      WithSlot(s, s.w.slot, slot.(payload := Overwritten(slot.payload, s.w.done, s.w.f.data[s.w.done..s.w.done + n])))
        .(w := WCopy(s.w.slot, s.w.f, s.w.done + n))
    case GiveUp(fatal) => s.(w := WAbort(s.w.slot, 0, fatal))
    case Decide => DoDecide(s)
    case StoreField =>
      WithSlot(s, s.w.slot, FieldStored(s.slots[s.w.slot], s.w.f, s.w.number, s.w.field))
        .(w := WPublish(s.w.slot, s.w.f, s.w.number, s.w.field + 1))
    case StoreReady =>
      WithSlot(s, s.w.slot, s.slots[s.w.slot].(state := Ready)).(w := WNotify(s.w.slot, s.w.number))
    case Notify(ok) =>
      if ok then s.(queue := s.queue + [Event(s.w.slot, s.w.number)], w := WIdle, written := s.written + 1)
      else s.(w := WStopped, dropped := s.dropped + 1, leaked := s.leaked + {s.w.slot}, failedWrites := s.failedWrites + 1)
    case ClearField =>
      WithSlot(s, s.w.slot, FieldCleared(s.slots[s.w.slot], s.w.field))
        .(w := WAbort(s.w.slot, s.w.field + 1, s.w.fatal))
    case StoreEmpty =>
      WithSlot(s, s.w.slot, s.slots[s.w.slot].(state := Empty))
        .(w := if s.w.fatal then WStopped else WIdle, dropped := s.dropped + 1)
  }

  // ---- the reader's steps -----------------------------------------------------------

  datatype RStep =
    | Take
    | LoadState
    | ReadSequence
    | Claim
    | Check
    | ReadChunk(n: nat)
    | HandOver
    | PassOver
    | TestReading
    | ReleaseField
    | Release
    | Deactivate

  ghost predicate REnabled(s: Sys, a: RStep) {
    match a
    case Take => s.r.RIdle? && s.queue != []
    case LoadState => s.r.RTaken? && s.r.e.slot < |s.slots|
    case ReadSequence => s.r.RSawReady? && s.r.e.slot < |s.slots|
    case Claim => s.r.RMatched? && s.r.e.slot < |s.slots|
    case Check => s.r.RHeld? && s.r.e.slot < |s.slots|
    case ReadChunk(n) =>
      s.r.RRead? && s.r.e.slot < |s.slots| && n > 0 && |s.r.seen| + n <= s.slots[s.r.e.slot].size
      && |s.r.seen| + n <= |s.slots[s.r.e.slot].payload|
    case HandOver => s.r.RRead? && s.r.e.slot < |s.slots| && |s.r.seen| == s.slots[s.r.e.slot].size
    case PassOver => s.r.RRead?
    case TestReading => s.r.RDone? && s.r.e.slot < |s.slots|
    case ReleaseField => s.r.RRelease? && s.r.e.slot < |s.slots| && s.r.field < 3
    case Release => s.r.RRelease? && s.r.e.slot < |s.slots| && s.r.field == 3
    case Deactivate => s.r.RIdle?
  }

  ghost function DoR(s: Sys, a: RStep): Sys
    requires REnabled(s, a)
  {
    match a
    case Take =>
      var e := s.queue[0];
      if s.active then s.(queue := s.queue[1..], r := RTaken(e))
      else s.(queue := s.queue[1..], leaked := s.leaked + {e.slot}, discarded := s.discarded + 1)
    case LoadState =>
      if s.slots[s.r.e.slot].state != Ready then s.(r := RIdle, ignored := s.ignored + 1) else s.(r := RSawReady(s.r.e))
    case ReadSequence =>
      if s.slots[s.r.e.slot].sequence != s.r.e.number then s.(r := RIdle, stale := s.stale + 1) else s.(r := RMatched(s.r.e))
    case Claim =>
      if s.slots[s.r.e.slot].state != Ready then s.(r := RIdle, ignored := s.ignored + 1)
      else WithSlot(s, s.r.e.slot, s.slots[s.r.e.slot].(state := Reading)).(r := RHeld(s.r.e), lastHeld := s.r.e.number)
    case Check =>
      var slot := s.slots[s.r.e.slot];
      if slot.sequence != s.r.e.number || !ValidMetadata(slot.media, slot.size, s.capacity)
      then s.(r := RStuck(s.r.e), failures := s.failures + 1)
      else s.(r := RRead(s.r.e, []))
    case ReadChunk(n) =>
      var at := |s.r.seen|;
      s.(r := RRead(s.r.e, s.r.seen + s.slots[s.r.e.slot].payload[at..at + n]))
    case HandOver =>
      s.(r := RDone(s.r.e),
         delivered := s.delivered + [Delivered(s.r.e.number, Content(s.r.seen, s.slots[s.r.e.slot].media))])
    case PassOver => s.(r := RDone(s.r.e))
    case TestReading =>
      if s.slots[s.r.e.slot].state != Reading then s.(r := RStuck(s.r.e), failures := s.failures + 1)
      else s.(r := RRelease(s.r.e, 0))
    case ReleaseField =>
      WithSlot(s, s.r.e.slot, FieldCleared(s.slots[s.r.e.slot], s.r.field)).(r := RRelease(s.r.e, s.r.field + 1))
    case Release =>
      WithSlot(s, s.r.e.slot, s.slots[s.r.e.slot].(state := Empty)).(r := RIdle, released := s.released + 1)
    case Deactivate => s.(active := false)
  }

  datatype Step = ByWriter(w: WStep) | ByReader(r: RStep)

  ghost predicate Enabled(s: Sys, a: Step) {
    match a
    case ByWriter(w) => WEnabled(s, w)
    case ByReader(r) => REnabled(s, r)
  }

  ghost function Do(s: Sys, a: Step): Sys
    requires Enabled(s, a)
  {
    match a
    case ByWriter(w) => DoW(s, w)
    case ByReader(r) => DoR(s, r)
  }

  // ---- the invariant -----------------------------------------------------------------

  /** The slot the writer works on, from the claim to the ready store. */
  function WriterSlot(w: Writer): Option<nat> {
    match w
    case WCopy(i, _, _) => Some(i)
    case WPublish(i, _, _, _) => Some(i)
    case WAbort(i, _, _) => Some(i)
    case _ => None
  }

  /** The slot the reader holds, from the claim to the empty store. */
  function ReaderSlot(r: Reader): Option<nat> {
    match r
    case RHeld(e) => Some(e.slot)
    case RRead(e, _) => Some(e.slot)
    case RDone(e) => Some(e.slot)
    case RRelease(e, _) => Some(e.slot)
    case RStuck(e) => Some(e.slot)
    case _ => None
  }

  /** Ready events that no one has acted upon yet, oldest first. */
  function Outstanding(s: Sys): seq<Event> {
    (match s.r
     case RTaken(e) => [e]
     case RSawReady(e) => [e]
     case RMatched(e) => [e]
     case _ => [])
    + s.queue
    + (if s.w.WNotify? then [Event(s.w.slot, s.w.number)] else [])
  }

  /** The slot holds what was published under its sequence number. */
  ghost predicate Holds(s: Sys, i: nat)
    requires i < |s.slots|
  {
    var slot := s.slots[i];
    && slot.sequence in s.published
    && var c := s.published[slot.sequence];
       && slot.size == |c.data| <= |slot.payload|
       && slot.payload[..slot.size] == c.data && slot.media == c.media
       && ValidMetadata(slot.media, slot.size, s.capacity)
  }

  ghost predicate Expected(s: Sys, i: nat) {
    exists k :: 0 <= k < |Outstanding(s)| && Outstanding(s)[k].slot == i
  }

  ghost predicate SlotOk(s: Sys, i: nat)
    requires i < |s.slots|
  {
    && |s.slots[i].payload| == s.capacity
    && (s.slots[i].state == Writing ==> WriterSlot(s.w) == Some(i))
    && (s.slots[i].state == Reading ==> ReaderSlot(s.r) == Some(i))
    && (s.slots[i].state == Ready ==> Holds(s, i) && (i in s.leaked <==> !Expected(s, i)))
  }

  ghost predicate SlotsOk(s: Sys) {
    && s.slots != [] && s.nextSlot < |s.slots|
    && forall i: nat {:trigger SlotOk(s, i)} :: i < |s.slots| ==> SlotOk(s, i)
  }

  ghost predicate EventOk(s: Sys, e: Event) {
    && e.slot < |s.slots| && s.slots[e.slot].state == Ready && s.slots[e.slot].sequence == e.number
    && e.slot !in s.leaked
    && s.lastHeld < e.number < s.nextSequence
  }

  ghost predicate EventsOk(s: Sys) {
    var out := Outstanding(s);
    && (forall k :: 0 <= k < |out| ==> EventOk(s, out[k]))
    && (forall j, k :: 0 <= j < k < |out| ==> out[j].number < out[k].number)
  }

  ghost predicate LeaksOk(s: Sys) {
    && (forall i :: i in s.leaked ==> i < |s.slots| && s.slots[i].state == Ready)
    && |s.leaked| == s.failedWrites + s.discarded
  }

  ghost predicate Owned(s: Sys, i: nat, state: SlotState) {
    i < |s.slots| && s.slots[i].state == state
  }

  /** How much of the header publish_written_slot has stored. */
  ghost predicate Stored(slot: Slot, f: Content, number: nat, field: nat) {
    && (field > 0 ==> slot.size == |f.data|)
    && (field > 1 ==> slot.sequence == number)
    && (field > 3 ==> slot.media == f.media)
  }

  ghost predicate WriterOk(s: Sys) {
    match s.w
    case WScan(_, attempt) => attempt < |s.slots|
    case WCopy(i, f, done) =>
      Owned(s, i, Writing) && done <= |f.data| && done <= |s.slots[i].payload| && s.slots[i].payload[..done] == f.data[..done]
    case WPublish(i, f, number, field) =>
      && Owned(s, i, Writing) && field <= 4 && |f.data| <= s.capacity
      && |f.data| <= |s.slots[i].payload| && s.slots[i].payload[..|f.data|] == f.data
      && ValidMetadata(f.media, |f.data|, s.capacity)
      && number in s.published && s.published[number] == f && number == s.nextSequence - 1
      && (forall k :: 0 <= k < |Outstanding(s)| ==> Outstanding(s)[k].number < number) && s.lastHeld < number
      && Stored(s.slots[i], f, number, field)
    case WAbort(i, field, _) => Owned(s, i, Writing) && field <= 3
    case _ => true
  }

  ghost predicate ReaderOk(s: Sys) {
    match s.r
    case RHeld(e) => Owned(s, e.slot, Reading) && Holds(s, e.slot) && s.slots[e.slot].sequence == e.number == s.lastHeld
    case RRead(e, seen) =>
      && Owned(s, e.slot, Reading) && Holds(s, e.slot) && s.slots[e.slot].sequence == e.number == s.lastHeld
      && |seen| <= s.slots[e.slot].size && seen == s.slots[e.slot].payload[..|seen|]
    case RDone(e) => Owned(s, e.slot, Reading)
    case RRelease(e, field) => Owned(s, e.slot, Reading) && field <= 3
    case RStuck(_) => false
    case _ => true
  }

  ghost predicate HistoryOk(s: Sys) {
    && (forall n :: n in s.published ==> 0 < n < s.nextSequence)
    && s.lastHeld < s.nextSequence
    && (forall k :: 0 <= k < |s.delivered| ==>
          && s.delivered[k].number in s.published && s.published[s.delivered[k].number] == s.delivered[k].content
          && s.delivered[k].number <= s.lastHeld
          && (s.r.RHeld? || s.r.RRead? ==> s.delivered[k].number < s.lastHeld))
    && (forall j, k :: 0 <= j < k < |s.delivered| ==> s.delivered[j].number < s.delivered[k].number)
  }

  function WriterBusy(w: Writer): nat {
    if w.WIdle? || w.WStopped? then 0 else 1
  }

  function ReaderBusy(r: Reader): nat {
    if r.RIdle? then 0 else 1
  }

  ghost predicate CountsOk(s: Sys) {
    && s.ignored == s.stale == s.failures == 0
    && s.received == s.written + s.dropped + WriterBusy(s.w)
    && s.written == |s.queue| + s.released + s.discarded + ReaderBusy(s.r)
  }

  ghost predicate Inv(s: Sys) {
    SlotsOk(s) && EventsOk(s) && LeaksOk(s) && WriterOk(s) && ReaderOk(s) && HistoryOk(s) && CountsOk(s)
  }

  lemma StartInv(capacity: u64, slotCount: nat)
    requires slotCount > 0
    ensures Inv(Start(capacity, slotCount))
  {
  }

  // ---- every writer step keeps it -------------------------------------------------------

  lemma SameOutstanding(s: Sys, t: Sys)
    requires t.queue == s.queue && t.r == s.r && t.w.WNotify? == s.w.WNotify?
    requires s.w.WNotify? ==> t.w == s.w
    ensures Outstanding(t) == Outstanding(s)
    ensures forall i: nat {:trigger Expected(t, i)} :: Expected(t, i) == Expected(s, i)
  {
  }

  /** An unchanged slot still holds what it held, as the history only grows. */
  lemma HoldsKept(s: Sys, t: Sys)
    requires t.capacity == s.capacity
    requires forall n :: n in s.published ==> n in t.published && t.published[n] == s.published[n]
    ensures forall i: nat {:trigger Holds(t, i)} ::
              i < |s.slots| && i < |t.slots| && t.slots[i] == s.slots[i] && Holds(s, i) ==> Holds(t, i)
  {
  }

  lemma Appended(s: Sys, t: Sys, e: Event)
    requires Outstanding(t) == Outstanding(s) + [e]
    ensures forall i: nat {:trigger Expected(t, i)} :: Expected(t, i) <==> Expected(s, i) || i == e.slot
  {
    var n := |Outstanding(s)|;
    forall i: nat ensures Expected(t, i) <==> Expected(s, i) || i == e.slot {
      if i == e.slot {
        assert Outstanding(t)[n].slot == i;
      } else if Expected(s, i) {
        var k :| 0 <= k < n && Outstanding(s)[k].slot == i;
        assert Outstanding(t)[k].slot == i;
      }
    }
  }

  /** Outstanding events name distinct slots, as their numbers differ. */
  lemma DistinctSlots(s: Sys, j: nat, k: nat)
    requires EventsOk(s) && j < k < |Outstanding(s)|
    ensures Outstanding(s)[j].slot != Outstanding(s)[k].slot
  {
  }

  lemma RemovedOne(s: Sys, t: Sys, at: nat, i: nat)
    requires EventsOk(s) && at < |Outstanding(s)|
    requires Outstanding(t) == Outstanding(s)[..at] + Outstanding(s)[at + 1..]
    ensures Expected(t, i) <==> Expected(s, i) && i != Outstanding(s)[at].slot
  {
    hide Outstanding;
    hide EventsOk;
    var out := Outstanding(s);
    if Expected(s, i) && i != out[at].slot {
      var k :| 0 <= k < |out| && out[k].slot == i;
      assert Outstanding(t)[if k < at then k else k - 1].slot == i;
    }
    if Expected(t, i) {
      var k :| 0 <= k < |Outstanding(t)| && Outstanding(t)[k].slot == i;
      if k < at {
        assert out[k].slot == i;
        DistinctSlots(s, k, at);
      } else {
        assert out[k + 1].slot == i;
        DistinctSlots(s, at, k + 1);
      }
    }
  }

  lemma Removed(s: Sys, t: Sys, at: nat)
    requires EventsOk(s) && at < |Outstanding(s)|
    requires Outstanding(t) == Outstanding(s)[..at] + Outstanding(s)[at + 1..]
    ensures forall i: nat {:trigger Expected(t, i)} :: Expected(t, i) <==> Expected(s, i) && i != Outstanding(s)[at].slot
  {
    hide *;
    forall i: nat ensures Expected(t, i) <==> Expected(s, i) && i != Outstanding(s)[at].slot {
      RemovedOne(s, t, at, i);
    }
  }

  lemma ReceiveInv(s: Sys, f: Content)
    requires Inv(s) && WEnabled(s, Receive(f))
    ensures Inv(DoW(s, Receive(f)))
  {
    hide Outstanding;
    hide Expected;
    hide ValidMetadata;
    var t := DoW(s, Receive(f));
    SameOutstanding(s, t);
    forall i: nat | i < |t.slots| ensures SlotOk(t, i) { assert SlotOk(s, i); }
  }

  lemma TryClaimInv(s: Sys)
    requires Inv(s) && WEnabled(s, TryClaim)
    ensures Inv(DoW(s, TryClaim))
  {
    hide Outstanding;
    hide Expected;
    hide ValidMetadata;
    hide Holds;
    var t := DoW(s, TryClaim);
    SameOutstanding(s, t);
    HoldsKept(s, t);
    TryClaimSlots(s);
    hide SlotsOk;
  }

  lemma TryClaimSlots(s: Sys)
    requires Inv(s) && WEnabled(s, TryClaim)
    ensures SlotsOk(DoW(s, TryClaim))
  {
    hide Outstanding, Expected, ValidMetadata, Holds, EventsOk, HistoryOk, ReaderOk, LeaksOk, CountsOk;
    var t := DoW(s, TryClaim);
    SameOutstanding(s, t);
    HoldsKept(s, t);
    forall i: nat | i < |t.slots| ensures SlotOk(t, i) { assert SlotOk(s, i); }
  }

  lemma CopyChunkInv(s: Sys, n: nat)
    requires Inv(s) && WEnabled(s, CopyChunk(n))
    ensures Inv(DoW(s, CopyChunk(n)))
  {
    hide Outstanding;
    hide Expected;
    hide ValidMetadata;
    var t := DoW(s, CopyChunk(n));
    SameOutstanding(s, t);
    forall i: nat | i < |t.slots| ensures SlotOk(t, i) { assert SlotOk(s, i); }
    var i, d := s.w.slot, s.w.done;
    forall k | 0 <= k < d + n ensures t.slots[i].payload[k] == s.w.f.data[k] {
      if k < d {
        assert s.slots[i].payload[..d][k] == s.w.f.data[..d][k];
      }
    }
  }

  lemma GiveUpInv(s: Sys, fatal: bool)
    requires Inv(s) && WEnabled(s, GiveUp(fatal))
    ensures Inv(DoW(s, GiveUp(fatal)))
  {
    hide Outstanding;
    hide Expected;
    hide ValidMetadata;
    var t := DoW(s, GiveUp(fatal));
    SameOutstanding(s, t);
    forall i: nat | i < |t.slots| ensures SlotOk(t, i) { assert SlotOk(s, i); }
  }

  lemma DecideInv(s: Sys)
    requires Inv(s) && WEnabled(s, Decide)
    ensures Inv(DoW(s, Decide))
  {
    hide Outstanding;
    hide Expected;
    hide ValidMetadata;
    hide Holds;
    var t := DoW(s, Decide);
    SameOutstanding(s, t);
    HoldsKept(s, t);
    DecideSlots(s);
    hide SlotsOk;
    assert ReaderOk(t);
    assert WriterOk(t);
  }

  lemma DecideSlots(s: Sys)
    requires Inv(s) && WEnabled(s, Decide)
    ensures SlotsOk(DoW(s, Decide))
  {
    hide Outstanding;
    hide Expected;
    hide ValidMetadata;
    hide Holds;
    hide EventsOk;
    hide HistoryOk;
    hide ReaderOk;
    hide LeaksOk;
    var t := DoW(s, Decide);
    SameOutstanding(s, t);
    PublishedGrows(s);
    HoldsKept(s, t);
    forall i: nat | i < |t.slots| ensures SlotOk(t, i) { assert SlotOk(s, i); }
  }

  lemma PublishedGrows(s: Sys)
    requires HistoryOk(s) && WEnabled(s, Decide)
    ensures forall n :: n in s.published ==> n in DoW(s, Decide).published && DoW(s, Decide).published[n] == s.published[n]
  {
  }

  lemma StoreFieldInv(s: Sys)
    requires Inv(s) && WEnabled(s, StoreField)
    ensures Inv(DoW(s, StoreField))
  {
    hide Outstanding;
    hide Expected;
    hide ValidMetadata;
    var t := DoW(s, StoreField);
    SameOutstanding(s, t);
    forall i: nat | i < |t.slots| ensures SlotOk(t, i) { assert SlotOk(s, i); }
  }

  lemma StoreReadyInv(s: Sys)
    requires Inv(s) && WEnabled(s, StoreReady)
    ensures Inv(DoW(s, StoreReady))
  {
    hide Outstanding;
    hide Expected;
    hide ValidMetadata;
    var t := DoW(s, StoreReady);
    NowNotifying(s, t);
    assert SlotOk(s, s.w.slot);
    forall i: nat | i < |t.slots| ensures SlotOk(t, i) { assert SlotOk(s, i); }
  }

  lemma NowNotifying(s: Sys, t: Sys)
    requires s.w.WPublish? && t.w == WNotify(s.w.slot, s.w.number) && t.queue == s.queue && t.r == s.r
    ensures Outstanding(t) == Outstanding(s) + [Event(s.w.slot, s.w.number)]
    ensures forall i: nat {:trigger Expected(t, i)} :: Expected(t, i) <==> Expected(s, i) || i == s.w.slot
  {
    assert Outstanding(t) == Outstanding(s) + [Event(s.w.slot, s.w.number)];
    Appended(s, t, Event(s.w.slot, s.w.number));
  }

  lemma NotifyOkInv(s: Sys)
    requires Inv(s) && WEnabled(s, Notify(true))
    ensures Inv(DoW(s, Notify(true)))
  {
    hide ValidMetadata;
    hide Holds;
    var t := DoW(s, Notify(true));
    assert Outstanding(t) == Outstanding(s);
    HoldsKept(s, t);
    forall i: nat | i < |t.slots| ensures SlotOk(t, i) { assert SlotOk(s, i); }
  }

  lemma NotifyFails(s: Sys, t: Sys)
    requires Inv(s) && s.w.WNotify? && t == DoW(s, Notify(false))
    ensures var out := Outstanding(s);
            && out != [] && out[|out| - 1] == Event(s.w.slot, s.w.number)
            && Outstanding(t) == out[..|out| - 1]
    ensures forall i: nat {:trigger Expected(t, i)} :: Expected(t, i) <==> Expected(s, i) && i != s.w.slot
  {
  }

  /** An event that is lost leaks its slot and disturbs no other. */
  lemma LeakOne(s: Sys, t: Sys, at: nat)
    requires SlotsOk(s) && EventsOk(s) && LeaksOk(s) && at < |Outstanding(s)|
    requires Outstanding(t) == Outstanding(s)[..at] + Outstanding(s)[at + 1..]
    requires t.slots == s.slots && t.leaked == s.leaked + {Outstanding(s)[at].slot}
    requires t.capacity == s.capacity && t.published == s.published && t.nextSlot == s.nextSlot
    requires t.nextSequence == s.nextSequence && t.lastHeld == s.lastHeld
    requires WriterSlot(t.w) == WriterSlot(s.w) && ReaderSlot(t.r) == ReaderSlot(s.r)
    requires t.failedWrites + t.discarded == s.failedWrites + s.discarded + 1
    ensures SlotsOk(t) && LeaksOk(t) && EventsOk(t)
  {
    hide Outstanding;
    hide Expected;
    hide ValidMetadata;
    hide Holds;
    Removed(s, t, at);
    HoldsKept(s, t);
    assert EventOk(s, Outstanding(s)[at]);
    forall i: nat | i < |t.slots| ensures SlotOk(t, i) { assert SlotOk(s, i); }
    LeakEvents(s, t, at);
  }

  lemma LeakEvents(s: Sys, t: Sys, at: nat)
    requires EventsOk(s) && at < |Outstanding(s)|
    requires Outstanding(t) == Outstanding(s)[..at] + Outstanding(s)[at + 1..]
    requires t.slots == s.slots && t.leaked == s.leaked + {Outstanding(s)[at].slot}
    requires t.nextSequence == s.nextSequence && t.lastHeld == s.lastHeld
    ensures EventsOk(t)
  {
  }

  lemma NotifyFailedInv(s: Sys)
    requires Inv(s) && WEnabled(s, Notify(false))
    ensures Inv(DoW(s, Notify(false)))
  {
    hide Outstanding;
    hide EventsOk;
    hide SlotsOk;
    hide LeaksOk;
    hide Holds;
    var t := DoW(s, Notify(false));
    NotifyFails(s, t);
    var n := |Outstanding(s)| - 1;
    assert Outstanding(s)[..n] == Outstanding(s)[..n] + Outstanding(s)[n + 1..];
    LeakOne(s, t, n);
    HoldsKept(s, t);
  }

  lemma ClearFieldInv(s: Sys)
    requires Inv(s) && WEnabled(s, ClearField)
    ensures Inv(DoW(s, ClearField))
  {
    hide Outstanding;
    hide Expected;
    hide ValidMetadata;
    var t := DoW(s, ClearField);
    SameOutstanding(s, t);
    forall i: nat | i < |t.slots| ensures SlotOk(t, i) { assert SlotOk(s, i); }
  }

  lemma StoreEmptyInv(s: Sys)
    requires Inv(s) && WEnabled(s, StoreEmpty)
    ensures Inv(DoW(s, StoreEmpty))
  {
    hide Outstanding;
    hide Expected;
    hide ValidMetadata;
    var t := DoW(s, StoreEmpty);
    SameOutstanding(s, t);
    forall i: nat | i < |t.slots| ensures SlotOk(t, i) { assert SlotOk(s, i); }
  }

  lemma WriterKeepsInv(s: Sys, a: WStep)
    requires Inv(s) && WEnabled(s, a)
    ensures Inv(DoW(s, a))
  {
    hide Inv;
    hide WEnabled;
    hide DoW;
    match a
    case Receive(f) => ReceiveInv(s, f);
    case TryClaim => TryClaimInv(s);
    case CopyChunk(n) => CopyChunkInv(s, n);
    case GiveUp(fatal) => GiveUpInv(s, fatal);
    case Decide => DecideInv(s);
    case StoreField => StoreFieldInv(s);
    case StoreReady => StoreReadyInv(s);
    case Notify(ok) => if ok { NotifyOkInv(s); } else { NotifyFailedInv(s); }
    case ClearField => ClearFieldInv(s);
    case StoreEmpty => StoreEmptyInv(s);
  }

  // ---- every reader step keeps it -------------------------------------------------------

  lemma TakeOutstanding(s: Sys)
    requires REnabled(s, Take)
    ensures var t := DoR(s, Take);
            && Outstanding(s) != [] && Outstanding(s)[0] == s.queue[0]
            && Outstanding(t) == if s.active then Outstanding(s) else Outstanding(s)[1..]
  {
  }

  lemma SameExpected(s: Sys, t: Sys)
    requires Outstanding(t) == Outstanding(s)
    ensures forall i: nat {:trigger Expected(t, i)} :: Expected(t, i) == Expected(s, i)
  {
    hide Outstanding;
  }

  lemma TakeInv(s: Sys)
    requires Inv(s) && REnabled(s, Take) && s.active
    ensures Inv(DoR(s, Take))
  {
    hide Outstanding, ValidMetadata, Holds, Expected;
    var t := DoR(s, Take);
    TakeOutstanding(s);
    SameExpected(s, t);
    HoldsKept(s, t);
    forall i: nat | i < |t.slots| ensures SlotOk(t, i) { assert SlotOk(s, i); }
  }

  lemma DiscardInv(s: Sys)
    requires Inv(s) && REnabled(s, Take) && !s.active
    ensures Inv(DoR(s, Take))
  {
    hide Outstanding, EventsOk, SlotsOk, LeaksOk, Holds, ValidMetadata;
    var t := DoR(s, Take);
    TakeOutstanding(s);
    assert Outstanding(s)[1..] == Outstanding(s)[..0] + Outstanding(s)[1..];
    LeakOne(s, t, 0);
    HoldsKept(s, t);
  }

  /** The event under way, while its slot is not yet claimed, is the oldest. */
  lemma Oldest(s: Sys)
    requires Inv(s) && (s.r.RTaken? || s.r.RSawReady? || s.r.RMatched?)
    ensures Outstanding(s) != [] && Outstanding(s)[0] == s.r.e && EventOk(s, s.r.e)
  {
  }

  lemma LookInv(s: Sys, a: RStep)
    requires Inv(s) && REnabled(s, a) && (a.LoadState? || a.ReadSequence?)
    ensures Inv(DoR(s, a))
  {
    hide ValidMetadata;
    hide Holds;
    var t := DoR(s, a);
    Oldest(s);
    assert Outstanding(t) == Outstanding(s);
    HoldsKept(s, t);
    forall i: nat | i < |t.slots| ensures SlotOk(t, i) { assert SlotOk(s, i); }
  }

  lemma ClaimOutstanding(s: Sys)
    requires Inv(s) && REnabled(s, Claim)
    ensures Outstanding(DoR(s, Claim)) == Outstanding(s)[1..]
  {
  }

  lemma ClaimInv(s: Sys)
    requires Inv(s) && REnabled(s, Claim)
    ensures Inv(DoR(s, Claim))
  {
    hide Outstanding;
    hide Expected;
    hide ValidMetadata;
    var t := DoR(s, Claim);
    Oldest(s);
    ClaimOutstanding(s);
    assert Outstanding(s)[1..] == Outstanding(s)[..0] + Outstanding(s)[1..];
    Removed(s, t, 0);
    assert SlotOk(s, s.r.e.slot);
    forall i: nat | i < |t.slots| ensures SlotOk(t, i) { assert SlotOk(s, i); }
  }

  lemma HeldOutstanding(s: Sys, t: Sys)
    requires t.queue == s.queue && t.w == s.w
    requires ReaderSlot(s.r).Some? && (ReaderSlot(t.r).Some? || t.r.RIdle?)
    ensures Outstanding(t) == Outstanding(s)
    ensures forall i: nat {:trigger Expected(t, i)} :: Expected(t, i) == Expected(s, i)
  {
  }

  lemma CheckInv(s: Sys)
    requires Inv(s) && REnabled(s, Check)
    ensures Inv(DoR(s, Check))
  {
    hide Outstanding, Expected, ValidMetadata;
    var t := DoR(s, Check);
    HeldOutstanding(s, t);
    forall i: nat | i < |t.slots| ensures SlotOk(t, i) { assert SlotOk(s, i); }
  }

  lemma ReadChunkInv(s: Sys, n: nat)
    requires Inv(s) && REnabled(s, ReadChunk(n))
    ensures Inv(DoR(s, ReadChunk(n)))
  {
    hide Outstanding, Expected, ValidMetadata;
    var t := DoR(s, ReadChunk(n));
    HeldOutstanding(s, t);
    forall i: nat | i < |t.slots| ensures SlotOk(t, i) { assert SlotOk(s, i); }
  }

  lemma HoldingInv(s: Sys, a: RStep)
    requires Inv(s) && REnabled(s, a) && (a.PassOver? || a.TestReading?)
    ensures Inv(DoR(s, a))
  {
    hide Outstanding;
    hide Expected;
    hide ValidMetadata;
    var t := DoR(s, a);
    HeldOutstanding(s, t);
    forall i: nat | i < |t.slots| ensures SlotOk(t, i) { assert SlotOk(s, i); }
  }

  lemma HandOverInv(s: Sys)
    requires Inv(s) && REnabled(s, HandOver)
    ensures Inv(DoR(s, HandOver))
  {
    hide Outstanding;
    hide Expected;
    hide ValidMetadata;
    var t := DoR(s, HandOver);
    HeldOutstanding(s, t);
    forall i: nat | i < |t.slots| ensures SlotOk(t, i) { assert SlotOk(s, i); }
  }

  lemma ReleaseFieldInv(s: Sys)
    requires Inv(s) && REnabled(s, ReleaseField)
    ensures Inv(DoR(s, ReleaseField))
  {
    hide Outstanding;
    hide Expected;
    hide ValidMetadata;
    var t := DoR(s, ReleaseField);
    HeldOutstanding(s, t);
    forall i: nat | i < |t.slots| ensures SlotOk(t, i) { assert SlotOk(s, i); }
  }

  lemma ReleaseInv(s: Sys)
    requires Inv(s) && REnabled(s, Release)
    ensures Inv(DoR(s, Release))
  {
    hide Outstanding;
    hide Expected;
    hide ValidMetadata;
    var t := DoR(s, Release);
    HeldOutstanding(s, t);
    forall i: nat | i < |t.slots| ensures SlotOk(t, i) { assert SlotOk(s, i); }
  }

  lemma DeactivateInv(s: Sys)
    requires Inv(s) && REnabled(s, Deactivate)
    ensures Inv(DoR(s, Deactivate))
  {
    hide Outstanding;
    hide Expected;
    hide ValidMetadata;
    var t := DoR(s, Deactivate);
    SameOutstanding(s, t);
    forall i: nat | i < |t.slots| ensures SlotOk(t, i) { assert SlotOk(s, i); }
  }

  lemma ReaderKeepsInv(s: Sys, a: RStep)
    requires Inv(s) && REnabled(s, a)
    ensures Inv(DoR(s, a))
  {
    hide Inv;
    hide REnabled;
    hide DoR;
    match a
    case Take => if s.active { TakeInv(s); } else { DiscardInv(s); }
    case LoadState => LookInv(s, a);
    case ReadSequence => LookInv(s, a);
    case Claim => ClaimInv(s);
    case Check => CheckInv(s);
    case ReadChunk(n) => ReadChunkInv(s, n);
    case HandOver => HandOverInv(s);
    case PassOver => HoldingInv(s, a);
    case TestReading => HoldingInv(s, a);
    case ReleaseField => ReleaseFieldInv(s);
    case Release => ReleaseInv(s);
    case Deactivate => DeactivateInv(s);
  }

  // ---- whole runs ---------------------------------------------------------------------------

  /** Any interleaving of enabled steps. */
  ghost predicate Possible(s: Sys, steps: seq<Step>)
    decreases |steps|, 0
  {
    steps == [] ||
    (Possible(s, steps[..|steps| - 1]) && Enabled(After(s, steps[..|steps| - 1]), steps[|steps| - 1]))
  }

  ghost function After(s: Sys, steps: seq<Step>): Sys
    requires Possible(s, steps)
    decreases |steps|, 1
  {
    if steps == [] then s else Do(After(s, steps[..|steps| - 1]), steps[|steps| - 1])
  }

  lemma StepKeepsInv(s: Sys, a: Step)
    requires Inv(s) && Enabled(s, a)
    ensures Inv(Do(s, a))
  {
    match a
    case ByWriter(w) => WriterKeepsInv(s, w);
    case ByReader(r) => ReaderKeepsInv(s, r);
  }

  lemma {:induction false} RunKeepsInv(s: Sys, steps: seq<Step>)
    requires Inv(s) && Possible(s, steps)
    ensures Inv(After(s, steps))
  {
    hide Inv;
    hide Enabled;
    hide Do;
    if steps != [] {
      RunKeepsInv(s, steps[..|steps| - 1]);
      StepKeepsInv(After(s, steps[..|steps| - 1]), steps[|steps| - 1]);
    }
  }

  // ---- what the invariant means ----------------------------------------------------------------

  /** While the reader reads a slot, no step of the writer touches it. */
  lemma HeldSlotUntouched(s: Sys, a: WStep)
    requires Inv(s) && WEnabled(s, a) && ReaderSlot(s.r).Some?
    ensures ReaderSlot(s.r).value < |s.slots|
    ensures DoW(s, a).slots[ReaderSlot(s.r).value] == s.slots[ReaderSlot(s.r).value]
  {
  }

  /** While the writer fills a slot, no step of the reader touches it. */
  lemma WrittenSlotUntouched(s: Sys, a: RStep)
    requires Inv(s) && REnabled(s, a) && WriterSlot(s.w).Some?
    ensures WriterSlot(s.w).value < |s.slots|
    ensures DoR(s, a).slots[WriterSlot(s.w).value] == s.slots[WriterSlot(s.w).value]
  {
    if a.Claim? {
      Oldest(s);
    }
  }

  /** The frame the worker is busy with. */
  function InHand(w: Writer): Option<Content> {
    match w
    case WScan(f, _) => Some(f)
    case WCopy(_, f, _) => Some(f)
    case WPublish(_, f, _, _) => Some(f)
    case _ => None
  }

  ghost predicate AllReceived(t: Sys, steps: seq<Step>) {
    && (forall n :: n in t.published ==> ByWriter(Receive(t.published[n])) in steps)
    && (InHand(t.w).Some? ==> ByWriter(Receive(InHand(t.w).value)) in steps)
  }

  lemma MoreSteps(t: Sys, steps: seq<Step>, a: Step)
    requires AllReceived(t, steps)
    ensures AllReceived(t, steps + [a]) && a in steps + [a]
  {
  }

  lemma WriterReceived(t: Sys, steps: seq<Step>, a: WStep)
    requires WEnabled(t, a) && AllReceived(t, steps) && ByWriter(a) in steps
    ensures AllReceived(DoW(t, a), steps)
  {
    hide ValidMetadata;
    hide Overwritten;
    hide FieldCleared;
    hide FieldStored;
    hide BeginWrite;
  }

  lemma ReaderReceived(t: Sys, steps: seq<Step>, a: RStep)
    requires REnabled(t, a) && AllReceived(t, steps)
    ensures AllReceived(DoR(t, a), steps)
  {
    hide ValidMetadata;
    hide FieldCleared;
  }

  lemma StepReceived(t: Sys, steps: seq<Step>, a: Step)
    requires Enabled(t, a) && AllReceived(t, steps)
    ensures AllReceived(Do(t, a), steps + [a])
  {
    hide AllReceived;
    hide DoW;
    hide DoR;
    MoreSteps(t, steps, a);
    match a
    case ByWriter(w) => WriterReceived(t, steps + [a], w);
    case ByReader(r) => ReaderReceived(t, steps + [a], r);
  }

  lemma {:induction false} PublishedWereReceived(s: Sys, steps: seq<Step>)
    requires s.published == map[] && s.w.WIdle? && Possible(s, steps)
    ensures AllReceived(After(s, steps), steps)
  {
    hide Enabled;
    hide Do;
    if steps != [] {
      var init, a := steps[..|steps| - 1], steps[|steps| - 1];
      PublishedWereReceived(s, init);
      StepReceived(After(s, init), init, a);
      assert steps == init + [a];
    }
  }

  /** Ring safety over every interleaving: each delivery is, byte for byte and with
      its metadata, a frame the worker received, the one published under that
      sequence number; and deliveries come in increasing sequence. */
  lemma DeliveriesExact(capacity: u64, slotCount: nat, steps: seq<Step>)
    requires slotCount > 0 && Possible(Start(capacity, slotCount), steps)
    ensures var t := After(Start(capacity, slotCount), steps);
            && (forall k :: 0 <= k < |t.delivered| ==>
                  && t.delivered[k].number in t.published
                  && t.delivered[k].content == t.published[t.delivered[k].number]
                  && ByWriter(Receive(t.delivered[k].content)) in steps)
            && forall j, k :: 0 <= j < k < |t.delivered| ==> t.delivered[j].number < t.delivered[k].number
  {
    StartInv(capacity, slotCount);
    RunKeepsInv(Start(capacity, slotCount), steps);
    PublishedWereReceived(Start(capacity, slotCount), steps);
  }

  /** No event is ever stale, early or refused, nothing published fails the reader's
      check, and no release finds its slot in another state; every frame received is
      announced, dropped or in hand; and every announced one is queued, under way,
      released or discarded. */
  lemma EveryEventCounts(capacity: u64, slotCount: nat, steps: seq<Step>)
    requires slotCount > 0 && Possible(Start(capacity, slotCount), steps)
    ensures var t := After(Start(capacity, slotCount), steps);
            && t.ignored == 0 && t.stale == 0 && t.failures == 0
            && t.received == t.written + t.dropped + WriterBusy(t.w)
            && t.written == |t.queue| + t.released + t.discarded + ReaderBusy(t.r)
  {
    StartInv(capacity, slotCount);
    RunKeepsInv(Start(capacity, slotCount), steps);
  }

  /** The outstanding event of a slot. */
  ghost predicate IsEventOf(s: Sys, i: nat, k: nat) {
    k < |Outstanding(s)| && Outstanding(s)[k].slot == i
  }

  /** Slots leak exactly by failed event writes and by events that come to an
      inactive handler, one slot each, for good: every other ready slot has exactly
      one outstanding event, with its sequence number. */
  lemma LeaksExactly(capacity: u64, slotCount: nat, steps: seq<Step>)
    requires slotCount > 0 && Possible(Start(capacity, slotCount), steps)
    ensures var t := After(Start(capacity, slotCount), steps);
            && |t.leaked| == t.failedWrites + t.discarded
            && (forall i: nat :: i < |t.slots| && t.slots[i].state == Ready ==>
                  (i in t.leaked <==> !exists k: nat :: IsEventOf(t, i, k)))
            && (forall i: nat, j: nat, k: nat :: IsEventOf(t, i, j) && IsEventOf(t, i, k) ==> j == k)
            && (forall i: nat, k: nat :: IsEventOf(t, i, k) ==>
                  i < |t.slots| && t.slots[i].state == Ready && Outstanding(t)[k].number == t.slots[i].sequence)
  {
    StartInv(capacity, slotCount);
    RunKeepsInv(Start(capacity, slotCount), steps);
    hide Start;
    hide After;
    hide Possible;
    var t := After(Start(capacity, slotCount), steps);
    LeaksOf(t);
  }

  lemma LeaksOf(t: Sys)
    requires Inv(t)
    ensures |t.leaked| == t.failedWrites + t.discarded
    ensures forall i: nat :: i < |t.slots| && t.slots[i].state == Ready ==>
              (i in t.leaked <==> !exists k: nat :: IsEventOf(t, i, k))
    ensures forall i: nat, j: nat, k: nat :: IsEventOf(t, i, j) && IsEventOf(t, i, k) ==> j == k
    ensures forall i: nat, k: nat :: IsEventOf(t, i, k) ==>
              i < |t.slots| && t.slots[i].state == Ready && Outstanding(t)[k].number == t.slots[i].sequence
  {
    hide Outstanding;
    hide Holds;
    forall i: nat, k: nat | IsEventOf(t, i, k)
      ensures i < |t.slots| && t.slots[i].state == Ready && Outstanding(t)[k].number == t.slots[i].sequence
    {
      assert EventOk(t, Outstanding(t)[k]);
    }
    forall i: nat | i < |t.slots| && t.slots[i].state == Ready
      ensures i in t.leaked <==> !exists k: nat :: IsEventOf(t, i, k)
    {
      assert SlotOk(t, i);
      if Expected(t, i) {
        var k :| 0 <= k < |Outstanding(t)| && Outstanding(t)[k].slot == i;
        assert IsEventOf(t, i, k);
      }
    }
    forall i: nat, j: nat, k: nat | IsEventOf(t, i, j) && IsEventOf(t, i, k) ensures j == k {
      assert Outstanding(t)[j].number == t.slots[i].sequence == Outstanding(t)[k].number;
    }
  }

  /** What has leaked in t is still leaked in u, and its slots are as they were. */
  ghost predicate KeepsLeaked(t: Sys, u: Sys) {
    && t.leaked <= u.leaked
    && forall i :: i in t.leaked ==> i < |t.slots| == |u.slots| && u.slots[i] == t.slots[i] && u.slots[i].state == Ready
  }

  /** No step touches a leaked slot. */
  lemma LeakedStays(s: Sys, a: Step)
    requires Inv(s) && Enabled(s, a)
    ensures KeepsLeaked(s, Do(s, a))
  {
    match a
    case ByWriter(w) => WriterKeepsLeaked(s, w);
    case ByReader(r) => ReaderKeepsLeaked(s, r);
  }

  lemma WriterKeepsLeaked(s: Sys, a: WStep)
    requires Inv(s) && WEnabled(s, a)
    ensures KeepsLeaked(s, DoW(s, a))
  {
    hide ValidMetadata, Overwritten, FieldStored, FieldCleared, SlotsOk, HistoryOk, CountsOk, EventsOk, ReaderOk, Outstanding;
  }

  lemma ReaderKeepsLeaked(s: Sys, a: RStep)
    requires Inv(s) && REnabled(s, a)
    ensures KeepsLeaked(s, DoR(s, a))
  {
    hide ValidMetadata, FieldCleared, SlotsOk, HistoryOk, CountsOk, Holds, WriterOk;
    if a.Claim? {
      Oldest(s);
    }
    hide EventsOk, Outstanding;
  }

  lemma KeepsLeakedJoins(s: Sys, t: Sys, u: Sys)
    requires KeepsLeaked(s, t) && KeepsLeaked(t, u)
    ensures KeepsLeaked(s, u)
  {
  }

  lemma NothingSince(s: Sys)
    requires Inv(s)
    ensures KeepsLeaked(s, s)
  {
    hide SlotsOk, EventsOk;
  }

  /** A slot that has leaked is lost for good: whatever comes, it stays as it is. */
  lemma {:induction false} LeakedForGood(s: Sys, steps: seq<Step>, n: nat)
    requires Inv(s) && Possible(s, steps) && n <= |steps|
    ensures Possible(s, steps[..n]) && KeepsLeaked(After(s, steps[..n]), After(s, steps))
    decreases |steps|
  {
    hide Inv, Enabled, Do, KeepsLeaked;
    if n == |steps| {
      assert steps[..n] == steps;
      RunKeepsInv(s, steps);
      NothingSince(After(s, steps));
    } else {
      var init := steps[..|steps| - 1];
      assert init[..n] == steps[..n];
      RunKeepsInv(s, init);
      LeakedForGood(s, init, n);
      LeakedStays(After(s, init), steps[|steps| - 1]);
      KeepsLeakedJoins(After(s, steps[..n]), After(s, init), After(s, steps));
    }
  }

  // ---- two runs in which a slot leaks -------------------------------------------------------

  const ONE_BYTE := Content([1], Metadata(VideoMedium, 0, 1, 1, 0, 0, 0, 0, 0, 1, 0, 0,
                                          [PlaneMeta(0, 1, 1), NO_PLANE, NO_PLANE, NO_PLANE]))

  lemma OneStep(s: Sys, steps: seq<Step>, a: Step)
    requires Possible(s, steps) && Enabled(After(s, steps), a)
    ensures Possible(s, steps + [a]) && After(s, steps + [a]) == Do(After(s, steps), a)
  {
    hide Enabled, Do;
    assert (steps + [a])[..|steps|] == steps;
  }

  lemma FirstCopy() returns (steps: seq<Step>)
    ensures Possible(Start(1, 1), steps)
    ensures var t := After(Start(1, 1), steps);
            && |t.slots| == 1 && t.slots[0].state == Writing && t.slots[0].payload == [1] && t.capacity == 1
            && t.w == WCopy(0, ONE_BYTE, 1) && t.r == RIdle && t.queue == [] && t.active && t.leaked == {}
  {
    steps := [];
    OneStep(Start(1, 1), steps, ByWriter(Receive(ONE_BYTE)));
    steps := steps + [ByWriter(Receive(ONE_BYTE))];
    OneStep(Start(1, 1), steps, ByWriter(TryClaim));
    steps := steps + [ByWriter(TryClaim)];
    OneStep(Start(1, 1), steps, ByWriter(CopyChunk(1)));
    steps := steps + [ByWriter(CopyChunk(1))];
  }

  /** The only frame of a ring of one slot, about to be announced. */
  lemma FirstPublication() returns (steps: seq<Step>)
    ensures Possible(Start(1, 1), steps)
    ensures var t := After(Start(1, 1), steps);
            |t.slots| == 1 && t.w.WNotify? && t.w.slot == 0 && t.r == RIdle && t.queue == [] && t.active && t.leaked == {}
  {
    var s := Start(1, 1);
    steps := FirstCopy();
    hide Start, After, Possible;
    OneStep(s, steps, ByWriter(Decide));
    steps := steps + [ByWriter(Decide)];
    for i := 0 to 4
      invariant Possible(s, steps)
      invariant var t := After(s, steps);
                && |t.slots| == 1 && t.w.WPublish? && t.w.slot == 0 && t.w.field == i && t.w.f == ONE_BYTE
                && t.r == RIdle && t.queue == [] && t.active && t.leaked == {}
    {
      OneStep(s, steps, ByWriter(StoreField));
      steps := steps + [ByWriter(StoreField)];
    }
    OneStep(s, steps, ByWriter(StoreReady));
    steps := steps + [ByWriter(StoreReady)];
  }

  /** Its event cannot be written: the slot is lost and the worker has stopped. */
  lemma FailedWriteLeaks() returns (steps: seq<Step>)
    ensures Possible(Start(1, 1), steps)
    ensures var t := After(Start(1, 1), steps); t.leaked == {0} && t.active && t.w.WStopped?
  {
    var s := Start(1, 1);
    steps := FirstPublication();
    hide Start, After, Possible;
    OneStep(s, steps, ByWriter(Notify(false)));
    steps := steps + [ByWriter(Notify(false))];
  }

  lemma FirstAnnouncement() returns (steps: seq<Step>)
    ensures Possible(Start(1, 1), steps)
    ensures var t := After(Start(1, 1), steps);
            |t.queue| == 1 && t.queue[0].slot == 0 && t.w.WIdle? && t.r == RIdle && t.active && t.leaked == {}
  {
    var s := Start(1, 1);
    steps := FirstPublication();
    hide Start, After, Possible, DoR;
    OneStep(s, steps, ByWriter(Notify(true)));
    steps := steps + [ByWriter(Notify(true))];
  }

  /** Its event comes to a handler that is no longer active: the slot is lost and the
      worker goes on. */
  lemma LateEventLeaks() returns (steps: seq<Step>)
    ensures Possible(Start(1, 1), steps)
    ensures var t := After(Start(1, 1), steps); t.leaked == {0} && !t.active && t.w.WIdle?
  {
    var s := Start(1, 1);
    steps := FirstAnnouncement();
    hide Start, After, Possible, DoW;
    OneStep(s, steps, ByReader(Deactivate));
    steps := steps + [ByReader(Deactivate)];
    OneStep(s, steps, ByReader(Take));
    steps := steps + [ByReader(Take)];
  }

  /** Once the queue is drained and both ends are idle, every slot that has not
      leaked is empty again. */
  lemma DrainedMeansEmpty(capacity: u64, slotCount: nat, steps: seq<Step>)
    requires slotCount > 0 && Possible(Start(capacity, slotCount), steps)
    ensures var t := After(Start(capacity, slotCount), steps);
            t.queue == [] && t.r.RIdle? && (t.w.WIdle? || t.w.WStopped?) ==>
              forall i :: 0 <= i < |t.slots| ==> (t.slots[i].state != Empty <==> i in t.leaked)
  {
    StartInv(capacity, slotCount);
    RunKeepsInv(Start(capacity, slotCount), steps);
    var t := After(Start(capacity, slotCount), steps);
    if t.queue == [] && t.r.RIdle? && (t.w.WIdle? || t.w.WStopped?) {
      forall i | 0 <= i < |t.slots| ensures t.slots[i].state != Empty <==> i in t.leaked {
        assert SlotOk(t, i);
      }
    }
  }

  // ---- one end alone -------------------------------------------------------------------------

  /** Uninterrupted, the field stores and the ready store are publish_written_slot. */
  lemma PublishIsItsSteps(s: Sys)
    requires Inv(s) && s.w.WPublish? && s.w.field == 0
    ensures WEnabled(s, StoreField)
    ensures var s1 := DoW(s, StoreField);
            && WEnabled(s1, StoreField)
            && var s2 := DoW(s1, StoreField);
               && WEnabled(s2, StoreField)
               && var s3 := DoW(s2, StoreField);
                  && WEnabled(s3, StoreField)
                  && var s4 := DoW(s3, StoreField);
                     && WEnabled(s4, StoreReady)
                     && var (slot, r) := Publish(s.slots[s.w.slot], |s.w.f.data|, s.w.number, 0, s.w.f.media, s.capacity);
                        && r == Ok(true)
                        && DoW(s4, StoreReady) == WithSlot(s, s.w.slot, slot).(w := WNotify(s.w.slot, s.w.number))
  {
    hide Outstanding;
    hide Expected;
    hide ValidMetadata;
    hide Holds;
  }

  /** Uninterrupted, the reader's first steps are begin_read_slot_if_matches. */
  lemma BeginReadIsItsSteps(s: Sys)
    requires Inv(s) && s.r.RTaken?
    ensures REnabled(s, LoadState)
    ensures var s1 := DoR(s, LoadState);
            && REnabled(s1, ReadSequence)
            && var s2 := DoR(s1, ReadSequence);
               && REnabled(s2, Claim)
               && var s3 := DoR(s2, Claim);
                  && REnabled(s3, Check)
                  && var (slot, r) := BeginReadIfMatches(s.slots[s.r.e.slot], s.r.e.number, s.capacity);
                     && r == Ok(Acquired)
                     && DoR(s3, Check) == WithSlot(s, s.r.e.slot, slot).(r := RRead(s.r.e, []), lastHeld := s.r.e.number)
  {
    Oldest(s);
    assert SlotOk(s, s.r.e.slot);
    hide Outstanding;
    hide Expected;
  }

  /** Uninterrupted, the state test, the field stores and the empty store are
      release_read_slot. */
  lemma ReleaseIsItsSteps(s: Sys)
    requires Inv(s) && s.r.RDone?
    ensures REnabled(s, TestReading)
    ensures var s1 := DoR(s, TestReading);
            && REnabled(s1, ReleaseField)
            && var s2 := DoR(s1, ReleaseField);
               && REnabled(s2, ReleaseField)
               && var s3 := DoR(s2, ReleaseField);
                  && REnabled(s3, ReleaseField)
                  && var s4 := DoR(s3, ReleaseField);
                     && REnabled(s4, Release)
                     && var (slot, r) := ReleaseRead(s.slots[s.r.e.slot]);
                        && r == Ok(true)
                        && DoR(s4, Release) == WithSlot(s, s.r.e.slot, slot).(r := RIdle, released := s.released + 1)
  {
    hide Outstanding, Expected, ValidMetadata, Holds;
  }

  /** Uninterrupted, the field stores and the empty store are abort_write_slot. */
  lemma AbortIsItsSteps(s: Sys)
    requires Inv(s) && s.w.WAbort? && s.w.field == 0
    ensures WEnabled(s, ClearField)
    ensures var s1 := DoW(s, ClearField);
            && WEnabled(s1, ClearField)
            && var s2 := DoW(s1, ClearField);
               && WEnabled(s2, ClearField)
               && var s3 := DoW(s2, ClearField);
                  && WEnabled(s3, StoreEmpty)
                  && var (slot, aborted) := Abort(s.slots[s.w.slot]);
                     && aborted
                     && DoW(s3, StoreEmpty) ==
                        WithSlot(s, s.w.slot, slot).(w := if s.w.fatal then WStopped else WIdle, dropped := s.dropped + 1)
  {
    hide Outstanding, Expected, ValidMetadata, Holds;
  }
}
