/** Video frames through the ring: what the worker packs, the client delivers. The
    protocol of the ring and the packing of planes, in one statement. */
module FrameDelivery {
  import opened Basics
  import opened Depacketizing
  import opened PlanePacking
  import opened RingProtocol
  import opened RingSlots
  import opened VideoFrames

  /** The content is the source frame as the worker packs it. */
  ghost predicate PacksTo(cfg: VideoStart, f: SourceFrame, c: Content, capacity: u64) {
    && Accepted(cfg, f, capacity)
    && var planes := Layout(cfg.width, cfg.height, cfg.format).value;
       && Contiguous(planes) && TotalSize(planes) == |c.data| && SourceBacked(f, planes)
       && c.media == MetadataOf(cfg, f, planes) && Packed(f, planes, c.data)
  }

  ghost predicate IsPacked(cfg: VideoStart, c: Content, capacity: u64) {
    exists f :: PacksTo(cfg, f, c, capacity)
  }

  ghost predicate Deliverable(cfg: VideoStart, slot: Slot, capacity: u64) {
    Readable(cfg, slot.size, slot.media, capacity)
  }

  /** The two choices the protocol leaves open, as the program makes them: the worker
      gives a slot up exactly when it cannot pack the frame, and the client, with a
      sink that takes its frames, passes a slot over exactly when a check fails. */
  ghost predicate AsProgrammed(cfg: VideoStart, s: Sys, a: Step)
    requires Enabled(s, a)
  {
    match a
    case ByWriter(GiveUp(_)) => !IsPacked(cfg, s.w.f, s.capacity)
    case ByWriter(Decide) => IsPacked(cfg, s.w.f, s.capacity)
    case ByReader(HandOver) => Deliverable(cfg, s.slots[s.r.e.slot], s.capacity)
    case ByReader(PassOver) => s.r.e.slot < |s.slots| ==> !Deliverable(cfg, s.slots[s.r.e.slot], s.capacity)
    case _ => true
  }

  ghost predicate Programmed(cfg: VideoStart, s: Sys, steps: seq<Step>)
    requires Possible(s, steps)
  {
    steps == [] ||
    (Programmed(cfg, s, steps[..|steps| - 1]) && AsProgrammed(cfg, After(s, steps[..|steps| - 1]), steps[|steps| - 1]))
  }

  ghost predicate AllPacked(cfg: VideoStart, s: Sys) {
    forall n :: n in s.published ==> IsPacked(cfg, s.published[n], s.capacity)
  }

  // ---- where a published frame is -------------------------------------------------

  ghost predicate WasDelivered(s: Sys, n: nat) {
    exists k :: 0 <= k < |s.delivered| && s.delivered[k].number == n
  }

  ghost predicate IsAnnounced(s: Sys, n: nat) {
    exists k :: 0 <= k < |Outstanding(s)| && Outstanding(s)[k].number == n
  }

  /** Its slot has leaked and still holds it. */
  ghost predicate HasLeaked(s: Sys, n: nat) {
    exists i :: i in s.leaked && i < |s.slots| && s.slots[i].sequence == n
  }

  ghost predicate InTheWorks(s: Sys, n: nat) {
    (s.w.WPublish? && s.w.number == n) || ((s.r.RHeld? || s.r.RRead?) && s.r.e.number == n)
  }

  ghost predicate Accounted(s: Sys, n: nat) {
    WasDelivered(s, n) || IsAnnounced(s, n) || HasLeaked(s, n) || InTheWorks(s, n)
  }

  ghost predicate AllAccounted(s: Sys) {
    forall n :: n in s.published ==> Accounted(s, n)
  }

  /** What is delivered stays delivered, and what has leaked stays where it is. */
  lemma StaysThere(s: Sys, a: Step, n: nat)
    requires Inv(s) && Enabled(s, a) && (WasDelivered(s, n) || HasLeaked(s, n))
    ensures WasDelivered(Do(s, a), n) || HasLeaked(Do(s, a), n)
  {
    LeakedStays(s, a);
    hide Inv, Enabled;
    if WasDelivered(s, n) {
      DeliveredStays(s, a);
      var k :| 0 <= k < |s.delivered| && s.delivered[k].number == n;
      assert Do(s, a).delivered[k].number == n;
    } else {
      hide Do;
    }
  }

  lemma DeliveredStays(s: Sys, a: Step)
    requires Enabled(s, a)
    ensures s.delivered <= Do(s, a).delivered
  {
    match a
    case ByWriter(w) => WriterDelivers(s, w);
    case ByReader(r) => ReaderDelivers(s, r);
  }

  lemma WriterDelivers(s: Sys, a: WStep)
    requires WEnabled(s, a)
    ensures DoW(s, a).delivered == s.delivered
  {
    hide ValidMetadata, Overwritten, FieldStored, FieldCleared, BeginWrite;
  }

  lemma ReaderDelivers(s: Sys, a: RStep)
    requires REnabled(s, a)
    ensures s.delivered <= DoR(s, a).delivered
  {
    hide ValidMetadata, FieldCleared;
  }

  lemma AnnouncedLater(s: Sys, t: Sys, n: nat)
    requires Outstanding(s) <= Outstanding(t) && IsAnnounced(s, n)
    ensures IsAnnounced(t, n)
  {
    hide Outstanding;
    var k :| 0 <= k < |Outstanding(s)| && Outstanding(s)[k].number == n;
    assert Outstanding(t)[k].number == n;
  }

  lemma WriterAccounts(s: Sys, a: WStep, n: nat)
    requires Inv(s) && WEnabled(s, a) && n in DoW(s, a).published
    requires n in s.published ==> Accounted(s, n)
    ensures Accounted(DoW(s, a), n)
  {
    var t := DoW(s, a);
    if n in s.published && (WasDelivered(s, n) || HasLeaked(s, n)) {
      StaysThere(s, ByWriter(a), n);
    } else if a.Notify? {
      NotifyAccounts(s, a.ok, n);
    } else {
      hide WasDelivered, HasLeaked, ValidMetadata, Overwritten, FieldStored, FieldCleared, BeginWrite;
      if a.StoreReady? {
        NowNotifying(s, t);
      } else {
        SameOutstanding(s, t);
      }
      hide Outstanding;
      if n in s.published && IsAnnounced(s, n) {
        AnnouncedLater(s, t, n);
      } else if a.StoreReady? {
        assert Outstanding(t)[|Outstanding(s)|].number == s.w.number;
      }
    }
  }

  lemma NotifyAccounts(s: Sys, ok: bool, n: nat)
    requires Inv(s) && WEnabled(s, Notify(ok)) && n in s.published
    requires IsAnnounced(s, n) || InTheWorks(s, n)
    ensures Accounted(DoW(s, Notify(ok)), n)
  {
    var t := DoW(s, Notify(ok));
    var e := Event(s.w.slot, s.w.number);
    if IsAnnounced(s, n) {
      var k :| 0 <= k < |Outstanding(s)| && Outstanding(s)[k].number == n;
      if ok || k < |Outstanding(s)| - 1 {
        assert Outstanding(t)[k] == Outstanding(s)[k];
      } else {
        assert EventOk(s, Outstanding(s)[k]);
        assert Outstanding(s)[k] == e;
        assert e.slot in t.leaked;
      }
    }
  }

  lemma ReaderAccounts(s: Sys, a: RStep, n: nat)
    requires Inv(s) && REnabled(s, a) && !a.PassOver? && n in s.published && Accounted(s, n)
    ensures Accounted(DoR(s, a), n)
  {
    var t := DoR(s, a);
    if WasDelivered(s, n) || HasLeaked(s, n) {
      StaysThere(s, ByReader(a), n);
    } else if IsAnnounced(s, n) {
      EventTaken(s, a, n);
    } else if a.HandOver? && s.r.e.number == n {
      assert t.delivered[|s.delivered|].number == n;
    }
  }

  /** The reader takes hold of the oldest announced frame, or discards it. */
  predicate TakesOne(s: Sys, a: RStep) {
    a.Claim? || (a.Take? && !s.active)
  }

  lemma OutstandingNext(s: Sys, a: RStep)
    requires Inv(s) && REnabled(s, a)
    ensures TakesOne(s, a) ==> Outstanding(s) != [] && EventOk(s, Outstanding(s)[0])
    ensures Outstanding(DoR(s, a)) == if TakesOne(s, a) then Outstanding(s)[1..] else Outstanding(s)
  {
    hide Outstanding, DoR, Inv, EventOk;
    if a.Take? {
      TakeOutstanding(s);
      OldestOk(s);
    } else if a.LoadState? || a.ReadSequence? || a.Claim? {
      Oldest(s);
      LookingNext(s, a);
    } else {
      HoldingNext(s, a);
    }
  }

  lemma LookingNext(s: Sys, a: RStep)
    requires REnabled(s, a) && (a.LoadState? || a.ReadSequence? || a.Claim?) && EventOk(s, s.r.e)
    ensures Outstanding(DoR(s, a)) == if a.Claim? then Outstanding(s)[1..] else Outstanding(s)
  {
  }

  lemma OldestOk(s: Sys)
    requires Inv(s) && Outstanding(s) != []
    ensures EventOk(s, Outstanding(s)[0])
  {
    hide Outstanding, EventOk;
  }

  lemma HoldingNext(s: Sys, a: RStep)
    requires REnabled(s, a) && !(a.Take? || a.LoadState? || a.ReadSequence? || a.Claim?)
    ensures Outstanding(DoR(s, a)) == Outstanding(s)
  {
    hide ValidMetadata, FieldCleared;
  }

  /** An announced frame stays announced, or the reader takes hold of it, or its
      event is discarded. */
  lemma EventTaken(s: Sys, a: RStep, n: nat)
    requires Inv(s) && REnabled(s, a) && IsAnnounced(s, n)
    ensures Accounted(DoR(s, a), n)
  {
    OutstandingNext(s, a);
    var t := DoR(s, a);
    var out, later := Outstanding(s), Outstanding(t);
    var k :| 0 <= k < |out| && out[k].number == n;
    if !TakesOne(s, a) {
      assert later[k].number == n;
    } else if k > 0 {
      assert later[k - 1].number == n;
    } else {
      OldestTaken(s, a);
    }
  }

  lemma OldestTaken(s: Sys, a: RStep)
    requires Inv(s) && REnabled(s, a) && TakesOne(s, a)
    ensures Outstanding(s) != [] && Accounted(DoR(s, a), Outstanding(s)[0].number)
  {
    OutstandingNext(s, a);
    if a.Take? {
      assert Outstanding(s)[0] == s.queue[0];
      hide Outstanding, Inv;
      assert s.queue[0].slot in DoR(s, a).leaked;
    } else {
      Oldest(s);
      hide Outstanding, Inv;
    }
  }

  // ---- what has leaked is never delivered -------------------------------------------

  /** Leaked frames come after everything that was held or, while the handler is
      active, still can be. */
  ghost predicate LeaksLast(s: Sys) {
    && (!s.active ==> s.r.RIdle?)
    && forall i :: i in s.leaked && i < |s.slots| ==>
         && s.lastHeld < s.slots[i].sequence
         && (s.active ==> s.w.WStopped? && AllBefore(s, s.slots[i].sequence))
  }

  ghost predicate AllBefore(s: Sys, n: nat) {
    forall k :: 0 <= k < |Outstanding(s)| ==> Outstanding(s)[k].number < n
  }

  lemma FailedWriteLeaksLast(s: Sys)
    requires Inv(s) && LeaksLast(s) && WEnabled(s, Notify(false))
    ensures LeaksLast(DoW(s, Notify(false)))
  {
    LeakedStays(s, ByWriter(Notify(false)));
    var t, out := DoW(s, Notify(false)), Outstanding(s);
    var later, n := Outstanding(t), s.w.number;
    assert out == later + [Event(s.w.slot, n)];
    assert EventOk(s, out[|out| - 1]);
    assert AllBefore(t, n) by {
      forall k | 0 <= k < |later| ensures later[k].number < n {
        assert out[k].number < out[|out| - 1].number;
      }
    }
    hide Inv, Outstanding, AllBefore;
  }

  /** Where the handler is active and something has leaked, the writer has stopped. */
  lemma WriterLeaksLast(s: Sys, a: WStep)
    requires Inv(s) && LeaksLast(s) && WEnabled(s, a)
    ensures LeaksLast(DoW(s, a))
  {
    if a == Notify(false) {
      FailedWriteLeaksLast(s);
    } else {
      LeakedStays(s, ByWriter(a));
      hide Outstanding, Inv, AllBefore, ValidMetadata, Overwritten, FieldStored, FieldCleared, BeginWrite;
    }
  }

  lemma ClaimLeaksLast(s: Sys)
    requires Inv(s) && LeaksLast(s) && REnabled(s, Claim)
    ensures LeaksLast(DoR(s, Claim))
  {
    LeakedStays(s, ByReader(Claim));
    OutstandingNext(s, Claim);
    Oldest(s);
    hide Outstanding, Inv;
    var t := DoR(s, Claim);
    forall i | i in s.leaked && i < |s.slots|
      ensures t.lastHeld < s.slots[i].sequence && AllBefore(t, s.slots[i].sequence)
    {
      StillBefore(s, t, s.slots[i].sequence);
    }
    hide AllBefore;
  }

  lemma DiscardLeaksLast(s: Sys)
    requires Inv(s) && LeaksLast(s) && REnabled(s, Take) && !s.active
    ensures LeaksLast(DoR(s, Take))
  {
    LeakedStays(s, ByReader(Take));
    OutstandingNext(s, Take);
    assert Outstanding(s)[0] == s.queue[0];
    hide Outstanding, Inv, AllBefore;
  }

  lemma ReaderLeaksLast(s: Sys, a: RStep)
    requires Inv(s) && LeaksLast(s) && REnabled(s, a)
    ensures LeaksLast(DoR(s, a))
  {
    if a.Claim? {
      ClaimLeaksLast(s);
    } else if TakesOne(s, a) {
      DiscardLeaksLast(s);
    } else {
      LeakedStays(s, ByReader(a));
      OutstandingNext(s, a);
      hide Outstanding, Inv, FieldCleared, ValidMetadata;
      forall i | i in s.leaked && i < |s.slots| && s.active ensures AllBefore(DoR(s, a), s.slots[i].sequence) {
        StillBefore(s, DoR(s, a), s.slots[i].sequence);
      }
      hide AllBefore;
    }
  }

  lemma StillBefore(s: Sys, t: Sys, n: nat)
    requires AllBefore(s, n)
    requires Outstanding(t) == Outstanding(s) || (Outstanding(s) != [] && Outstanding(t) == Outstanding(s)[1..])
    ensures AllBefore(t, n)
  {
    hide Outstanding;
  }

  // ---- whole runs -----------------------------------------------------------------------

  /** The client's checks pass for what the worker packs. */
  lemma PackedPasses(cfg: VideoStart, c: Content, capacity: u64)
    requires IsPacked(cfg, c, capacity)
    ensures 0 < |c.data| <= capacity && ValidMetadata(c.media, |c.data|, capacity)
    ensures Readable(cfg, |c.data|, c.media, capacity)
  {
    hide Layout, Contiguous, TotalSize, MetadataOf, ValidMetadata, SourceBacked, Packed;
    var f :| PacksTo(cfg, f, c, capacity);
    PackedIsReadable(cfg, f, capacity);
  }

  ghost predicate Sound(cfg: VideoStart, s: Sys) {
    Inv(s) && AllPacked(cfg, s) && AllAccounted(s) && LeaksLast(s)
  }

  lemma WriterPacked(cfg: VideoStart, s: Sys, a: WStep)
    requires Inv(s) && AllPacked(cfg, s) && WEnabled(s, a) && AsProgrammed(cfg, s, ByWriter(a))
    ensures AllPacked(cfg, DoW(s, a))
  {
    hide Inv, IsPacked, ValidMetadata, Overwritten, FieldStored, FieldCleared, BeginWrite;
  }

  lemma ReaderPacked(cfg: VideoStart, s: Sys, a: RStep)
    requires AllPacked(cfg, s) && REnabled(s, a)
    ensures AllPacked(cfg, DoR(s, a)) && DoR(s, a).published == s.published
  {
    hide IsPacked, ValidMetadata, FieldCleared;
  }

  /** The client never passes a slot over. */
  lemma NothingPassedOver(cfg: VideoStart, s: Sys)
    requires Inv(s) && AllPacked(cfg, s) && s.r.RRead?
    ensures s.r.e.slot < |s.slots| && Deliverable(cfg, s.slots[s.r.e.slot], s.capacity)
  {
    hide Readable, IsPacked;
    assert Holds(s, s.r.e.slot);
    PackedPasses(cfg, s.published[s.r.e.number], s.capacity);
  }

  lemma StepSound(cfg: VideoStart, s: Sys, a: Step)
    requires Sound(cfg, s) && Enabled(s, a) && AsProgrammed(cfg, s, a)
    ensures Sound(cfg, Do(s, a)) && a != ByReader(PassOver)
  {
    StepKeepsInv(s, a);
    if a == ByReader(PassOver) {
      NothingPassedOver(cfg, s);
    }
    hide Inv, DoW, DoR, WEnabled, REnabled, LeaksLast, AllPacked, Accounted, AsProgrammed;
    var t := Do(s, a);
    match a
    case ByWriter(w) =>
      WriterPacked(cfg, s, w);
      WriterLeaksLast(s, w);
      forall n | n in t.published ensures Accounted(t, n) {
        WriterAccounts(s, w, n);
      }
    case ByReader(r) =>
      ReaderPacked(cfg, s, r);
      ReaderLeaksLast(s, r);
      forall n | n in t.published ensures Accounted(t, n) {
        ReaderAccounts(s, r, n);
      }
  }

  lemma {:induction false} RunSound(cfg: VideoStart, s: Sys, steps: seq<Step>)
    requires Sound(cfg, s) && Possible(s, steps) && Programmed(cfg, s, steps)
    ensures Sound(cfg, After(s, steps)) && ByReader(PassOver) !in steps
  {
    hide Sound, Enabled, Do, AsProgrammed;
    if steps != [] {
      var n := |steps| - 1;
      RunSound(cfg, s, steps[..n]);
      StepSound(cfg, After(s, steps[..n]), steps[n]);
      assert steps == steps[..n] + [steps[n]];
    }
  }

  /** The rows of the source, its times, scan mode and field. */
  ghost predicate ShowsSource(cfg: VideoStart, f: SourceFrame, d: Delivery) {
    && d.frame.Valid() && SourceBacked(f, d.frame.Planes())
    && (forall p, row, b :: InPlane(d.frame.Planes(), p, row, b) ==>
          && PlaneReadable(f.planes[p], d.frame.Planes()[p])
          && d.frame.At(p, row, b) == SourceByte(f, d.frame.Planes(), p, row, b))
    && d.rtpTimestamp == f.rtpTimestamp && d.receiveTimestamp == f.receiveTimestamp
    && d.mode == cfg.mode && (d.mode != Progressive <==> f.interlaced) && d.secondField == f.secondField
  }

  /** The client unpacks d from a slot whose payload starts with the content. */
  ghost predicate UnpackedFrom(cfg: VideoStart, c: Content, payload: seq<u8>, d: Delivery) {
    && |payload| < TWO_64 && c.data <= payload && Readable(cfg, |c.data|, c.media, |payload|)
    && Unpacked(cfg, c.media, |c.data|, payload, d)
  }

  /** Whatever else the slot holds, the frame unpacked from it is the source's. */
  ghost predicate Shows(cfg: VideoStart, f: SourceFrame, c: Content, capacity: u64) {
    && PacksTo(cfg, f, c, capacity)
    && forall payload, d :: UnpackedFrom(cfg, c, payload, d) && |payload| == capacity ==> ShowsSource(cfg, f, d)
  }

  ghost predicate ShowsSome(cfg: VideoStart, c: Content, capacity: u64) {
    exists f :: Shows(cfg, f, c, capacity)
  }

  lemma PackedShows(cfg: VideoStart, f: SourceFrame, c: Content, capacity: u64)
    requires PacksTo(cfg, f, c, capacity)
    ensures Shows(cfg, f, c, capacity)
  {
    hide Layout, Contiguous, TotalSize, MetadataOf, Unpacked, Readable, SourceByte;
    var planes := Layout(cfg.width, cfg.height, cfg.format).value;
    forall payload, d | UnpackedFrom(cfg, c, payload, d) && |payload| == capacity ensures ShowsSource(cfg, f, d) {
      forall p, row, b | InPlane(planes, p, row, b)
        ensures Address(planes, p, row, b) < |payload|
        ensures payload[Address(planes, p, row, b)] == SourceByte(f, planes, p, row, b)
      {
        assert c.data[Address(planes, p, row, b)] == SourceByte(f, planes, p, row, b);
      }
      FrameArrives(cfg, f, payload, d);
    }
  }

  /** From source to sink, over every interleaving: every frame published is delivered,
      under way or in a leaked slot; once all is drained it was delivered unless its
      slot has leaked, and only then; nothing is passed over; and each frame delivered
      shows the rows of the source frame it was packed from. */
  lemma FramesDelivered(cfg: VideoStart, capacity: u64, slotCount: nat, steps: seq<Step>)
    requires slotCount > 0 && Possible(Start(capacity, slotCount), steps)
    requires Programmed(cfg, Start(capacity, slotCount), steps)
    ensures ByReader(PassOver) !in steps
    ensures var t := After(Start(capacity, slotCount), steps);
            && (forall n :: n in t.published ==> Accounted(t, n) && !(WasDelivered(t, n) && HasLeaked(t, n)))
            && (t.queue == [] && t.r.RIdle? && (t.w.WIdle? || t.w.WStopped?) ==>
                  forall n :: n in t.published ==> (WasDelivered(t, n) <==> !HasLeaked(t, n)))
            && forall k :: 0 <= k < |t.delivered| ==> ShowsSome(cfg, t.delivered[k].content, t.capacity)
  {
    StartSound(cfg, capacity, slotCount);
    RunSound(cfg, Start(capacity, slotCount), steps);
    hide Start, Possible, After, Programmed;
    SoundMeans(cfg, After(Start(capacity, slotCount), steps));
  }

  lemma StartSound(cfg: VideoStart, capacity: u64, slotCount: nat)
    requires slotCount > 0
    ensures Sound(cfg, Start(capacity, slotCount))
  {
    StartInv(capacity, slotCount);
  }

  lemma SoundMeans(cfg: VideoStart, t: Sys)
    requires Sound(cfg, t)
    ensures forall n :: n in t.published ==> Accounted(t, n) && !(WasDelivered(t, n) && HasLeaked(t, n))
    ensures t.queue == [] && t.r.RIdle? && (t.w.WIdle? || t.w.WStopped?) ==>
              forall n :: n in t.published ==> (WasDelivered(t, n) <==> !HasLeaked(t, n))
    ensures forall k :: 0 <= k < |t.delivered| ==> ShowsSome(cfg, t.delivered[k].content, t.capacity)
  {
    hide Shows, PacksTo, SlotsOk;
    forall k | 0 <= k < |t.delivered| ensures ShowsSome(cfg, t.delivered[k].content, t.capacity) {
      assert IsPacked(cfg, t.published[t.delivered[k].number], t.capacity);
      var f :| PacksTo(cfg, f, t.delivered[k].content, t.capacity);
      PackedShows(cfg, f, t.delivered[k].content, t.capacity);
    }
  }

  // ---- one frame all the way -------------------------------------------------------------

  ghost predicate Reaches(cfg: VideoStart, s: Sys, steps: seq<Step>, t: Sys) {
    Inv(t) && Possible(s, steps) && Programmed(cfg, s, steps) && After(s, steps) == t
  }

  lemma Next(cfg: VideoStart, s: Sys, steps: seq<Step>, t: Sys, a: Step)
    requires Reaches(cfg, s, steps, t) && Enabled(t, a) && AsProgrammed(cfg, t, a)
    ensures Reaches(cfg, s, steps + [a], Do(t, a))
  {
    hide Enabled, Do, AsProgrammed, Inv;
    OneStep(s, steps, a);
    StepKeepsInv(t, a);
    assert (steps + [a])[..|steps|] == steps;
  }

  lemma Begins(cfg: VideoStart, capacity: u64)
    ensures Reaches(cfg, Start(capacity, 1), [], Start(capacity, 1))
  {
    StartInv(capacity, 1);
  }

  /** The writer stands at w with the only frame of a ring of one slot. */
  ghost predicate Writes(t: Sys, w: Writer, c: Content, capacity: u64) {
    && |t.slots| == 1 && t.capacity == capacity && t.w == w && t.r.RIdle? && t.queue == [] && t.active
    && t.delivered == [] && t.nextSequence == (if w.WScan? || w.WCopy? then 1 else 2)
    && t.published == (if w.WScan? || w.WCopy? then map[] else map[1 := c])
  }

  lemma ReceivesOne(c: Content, capacity: u64)
    ensures Enabled(Start(capacity, 1), ByWriter(Receive(c)))
    ensures Writes(DoW(Start(capacity, 1), Receive(c)), WScan(c, 0), c, capacity)
    ensures DoW(Start(capacity, 1), Receive(c)).slots == [EmptySlot(capacity)]
    ensures DoW(Start(capacity, 1), Receive(c)).nextSlot == 0
  {
  }

  lemma ClaimsOne(t: Sys, c: Content, capacity: u64)
    requires Writes(t, WScan(c, 0), c, capacity) && t.slots == [EmptySlot(capacity)] && t.nextSlot == 0
    ensures Enabled(t, ByWriter(TryClaim)) && Writes(DoW(t, TryClaim), WCopy(0, c, 0), c, capacity)
    ensures |DoW(t, TryClaim).slots[0].payload| == capacity
  {
  }

  lemma CopiesOne(t: Sys, c: Content, capacity: u64)
    requires Writes(t, WCopy(0, c, 0), c, capacity) && 0 < |c.data| <= capacity == |t.slots[0].payload|
    ensures var a := CopyChunk(|c.data|);
            Enabled(t, ByWriter(a)) && Writes(DoW(t, a), WCopy(0, c, |c.data|), c, capacity)
  {
    hide Overwritten;
  }

  lemma DecidesOne(t: Sys, c: Content, capacity: u64)
    requires Inv(t) && Writes(t, WCopy(0, c, |c.data|), c, capacity)
    requires 0 < |c.data| <= capacity && ValidMetadata(c.media, |c.data|, capacity)
    ensures Enabled(t, ByWriter(Decide)) && Writes(DoW(t, Decide), WPublish(0, c, 1, 0), c, capacity)
  {
    hide ValidMetadata;
    assert t.slots[0].state == Writing;
    hide Inv;
  }

  lemma StoresOne(t: Sys, c: Content, capacity: u64, field: nat)
    requires Writes(t, WPublish(0, c, 1, field), c, capacity) && field < 4 && |c.data| <= capacity
    ensures Enabled(t, ByWriter(StoreField))
    ensures Writes(DoW(t, StoreField), WPublish(0, c, 1, field + 1), c, capacity)
  {
    hide FieldStored;
  }

  lemma NotifiesOne(t: Sys, c: Content, capacity: u64)
    requires Writes(t, WPublish(0, c, 1, 4), c, capacity)
    ensures Enabled(t, ByWriter(StoreReady))
    ensures var u := DoW(t, StoreReady);
            && Enabled(u, ByWriter(Notify(true)))
            && Waits(DoW(u, Notify(true)), [Event(0, 1)], RIdle, c, capacity)
  {
  }

  /** The reader stands at r with the only frame that was published. */
  ghost predicate Waits(t: Sys, queue: seq<Event>, r: Reader, c: Content, capacity: u64) {
    && t.queue == queue && t.r == r && t.active && t.capacity == capacity
    && t.published == map[1 := c] && t.delivered == []
  }

  lemma CopyOne(cfg: VideoStart, c: Content, capacity: u64) returns (steps: seq<Step>, t: Sys)
    requires 0 < |c.data| <= capacity
    ensures Reaches(cfg, Start(capacity, 1), steps, t) && Writes(t, WCopy(0, c, |c.data|), c, capacity)
  {
    Begins(cfg, capacity);
    var s := Start(capacity, 1);
    ReceivesOne(c, capacity);
    hide Start, Enabled, Inv, DoW, Reaches;
    steps, t := Go(cfg, s, [], s, ByWriter(Receive(c)));
    ClaimsOne(t, c, capacity);
    steps, t := Go(cfg, s, steps, t, ByWriter(TryClaim));
    CopiesOne(t, c, capacity);
    steps, t := Go(cfg, s, steps, t, ByWriter(CopyChunk(|c.data|)));
  }

  lemma PublishOne(cfg: VideoStart, c: Content, capacity: u64) returns (steps: seq<Step>, t: Sys)
    requires IsPacked(cfg, c, capacity)
    ensures Reaches(cfg, Start(capacity, 1), steps, t) && Waits(t, [Event(0, 1)], RIdle, c, capacity)
  {
    hide Readable, ValidMetadata, Start, Enabled, IsPacked, Inv, DoW;
    var s := Start(capacity, 1);
    PackedPasses(cfg, c, capacity);
    steps, t := CopyOne(cfg, c, capacity);
    InvOf(cfg, s, steps, t);
    hide Reaches;
    DecidesOne(t, c, capacity);
    steps, t := Go(cfg, s, steps, t, ByWriter(Decide));
    for i := 0 to 4
      invariant Reaches(cfg, s, steps, t) && Writes(t, WPublish(0, c, 1, i), c, capacity)
    {
      StoresOne(t, c, capacity, i);
      steps, t := Go(cfg, s, steps, t, ByWriter(StoreField));
    }
    NotifiesOne(t, c, capacity);
    steps, t := Go(cfg, s, steps, t, ByWriter(StoreReady));
    steps, t := Go(cfg, s, steps, t, ByWriter(Notify(true)));
  }

  lemma InvOf(cfg: VideoStart, s: Sys, steps: seq<Step>, t: Sys)
    requires Reaches(cfg, s, steps, t)
    ensures Inv(t) && Possible(s, steps) && Programmed(cfg, s, steps) && After(s, steps) == t
  {
  }

  lemma Go(cfg: VideoStart, s: Sys, before: seq<Step>, u: Sys, a: Step) returns (steps: seq<Step>, t: Sys)
    requires Reaches(cfg, s, before, u) && Enabled(u, a) && AsProgrammed(cfg, u, a)
    ensures Reaches(cfg, s, steps, t) && t == Do(u, a)
  {
    hide Enabled, Do, AsProgrammed, Reaches;
    Next(cfg, s, before, u, a);
    steps, t := before + [a], Do(u, a);
  }

  lemma TakesEvent(t: Sys, c: Content, capacity: u64)
    requires Inv(t) && Waits(t, [Event(0, 1)], RIdle, c, capacity)
    ensures Enabled(t, ByReader(Take)) && Waits(DoR(t, Take), [], RTaken(Event(0, 1)), c, capacity)
  {
    hide Inv;
  }

  lemma SeesReady(t: Sys, c: Content, capacity: u64)
    requires Inv(t) && Waits(t, [], RTaken(Event(0, 1)), c, capacity)
    ensures Enabled(t, ByReader(LoadState)) && Waits(DoR(t, LoadState), [], RSawReady(Event(0, 1)), c, capacity)
  {
    Oldest(t);
    hide Inv, Outstanding;
  }

  lemma MatchesSequence(t: Sys, c: Content, capacity: u64)
    requires Inv(t) && Waits(t, [], RSawReady(Event(0, 1)), c, capacity)
    ensures Enabled(t, ByReader(ReadSequence)) && Waits(DoR(t, ReadSequence), [], RMatched(Event(0, 1)), c, capacity)
  {
    Oldest(t);
    hide Inv, Outstanding;
  }

  lemma ClaimsReady(t: Sys, c: Content, capacity: u64)
    requires Inv(t) && Waits(t, [], RMatched(Event(0, 1)), c, capacity)
    ensures Enabled(t, ByReader(Claim)) && Waits(DoR(t, Claim), [], RHeld(Event(0, 1)), c, capacity)
  {
    Oldest(t);
    hide Inv, Outstanding;
  }

  lemma ChecksOut(t: Sys, c: Content, capacity: u64)
    requires Inv(t) && Waits(t, [], RHeld(Event(0, 1)), c, capacity)
    ensures Enabled(t, ByReader(Check)) && Waits(DoR(t, Check), [], RRead(Event(0, 1), []), c, capacity)
  {
    assert ReaderOk(t);
    hide Inv, ValidMetadata;
  }

  lemma ReadsAll(t: Sys, c: Content, capacity: u64)
    requires Inv(t) && Waits(t, [], RRead(Event(0, 1), []), c, capacity)
    ensures var a := ReadChunk(|c.data|);
            c.data != [] ==> Enabled(t, ByReader(a)) && Waits(DoR(t, a), [], RRead(Event(0, 1), c.data), c, capacity)
  {
    assert ReaderOk(t);
    hide Inv, ValidMetadata;
  }

  lemma HandsOver(cfg: VideoStart, t: Sys, c: Content, capacity: u64)
    requires Inv(t) && Waits(t, [], RRead(Event(0, 1), c.data), c, capacity) && Readable(cfg, |c.data|, c.media, capacity)
    ensures Enabled(t, ByReader(HandOver)) && AsProgrammed(cfg, t, ByReader(HandOver))
    ensures DoR(t, HandOver).delivered == [Delivered(1, c)]
  {
    hide ValidMetadata, Readable;
    assert ReaderOk(t);
    hide Inv;
  }

  /** Every frame that the worker accepts can get through: a run that delivers it. */
  lemma FrameGoesThrough(cfg: VideoStart, c: Content, capacity: u64) returns (steps: seq<Step>)
    requires IsPacked(cfg, c, capacity)
    ensures Possible(Start(capacity, 1), steps) && Programmed(cfg, Start(capacity, 1), steps)
    ensures After(Start(capacity, 1), steps).delivered == [Delivered(1, c)]
  {
    hide Start, Inv, Enabled, DoR, IsPacked, ValidMetadata, Readable, Possible, Programmed, After;
    var s := Start(capacity, 1);
    var t;
    PackedPasses(cfg, c, capacity);
    steps, t := PublishOne(cfg, c, capacity);
    InvOf(cfg, s, steps, t);
    TakesEvent(t, c, capacity);
    steps, t := Go(cfg, s, steps, t, ByReader(Take));
    InvOf(cfg, s, steps, t);
    SeesReady(t, c, capacity);
    steps, t := Go(cfg, s, steps, t, ByReader(LoadState));
    InvOf(cfg, s, steps, t);
    MatchesSequence(t, c, capacity);
    steps, t := Go(cfg, s, steps, t, ByReader(ReadSequence));
    InvOf(cfg, s, steps, t);
    ClaimsReady(t, c, capacity);
    steps, t := Go(cfg, s, steps, t, ByReader(Claim));
    InvOf(cfg, s, steps, t);
    ChecksOut(t, c, capacity);
    steps, t := Go(cfg, s, steps, t, ByReader(Check));
    InvOf(cfg, s, steps, t);
    ReadsAll(t, c, capacity);
    steps, t := Go(cfg, s, steps, t, ByReader(ReadChunk(|c.data|)));
    InvOf(cfg, s, steps, t);
    HandsOver(cfg, t, c, capacity);
    steps, t := Go(cfg, s, steps, t, ByReader(HandOver));
    InvOf(cfg, s, steps, t);
  }
}
