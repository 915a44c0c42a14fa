/** FixedWindowReorderBuffer: a sliding window over wrapping sequence numbers
    (16 bits for audio, 32 bits for video). The functions give the value-level
    meaning of each operation; the class updates its fields in place. */
module ReorderBuffer {
  import opened Basics
  import opened Packets

  datatype Kind = Video | Audio

  function Modulus(k: Kind): int {
    if k.Video? then 0x1_0000_0000 else 0x1_0000
  }

  /** The largest forward distance. Audio counts 0x8000 itself as forward. */
  function LateLimit(k: Kind): int {
    if k.Video? then 0x7FFF_FFFF else 0x8000
  }

  predicate IsSeq(k: Kind, a: int) {
    0 <= a < Modulus(k)
  }

  /** The unsigned difference a - b in the width of the sequence number. */
  function Dist(k: Kind, a: int, b: int): (d: int)
    requires IsSeq(k, a) && IsSeq(k, b)
    ensures IsSeq(k, d)
  {
    if a >= b then a - b else a - b + Modulus(k)
  }

  function Advance(k: Kind, e: int, d: int): (r: int)
    requires IsSeq(k, e) && IsSeq(k, d)
    ensures IsSeq(k, r) && Dist(k, r, e) == d
  {
    if e + d < Modulus(k) then e + d else e + d - Modulus(k)
  }

  function SeqOf(k: Kind, p: StoredPacket): (a: int)
    ensures IsSeq(k, a)
  {
    if k.Video? then p.extendedSeq else p.extendedSeq % 0x1_0000
  }

  datatype Stats = Stats(
    pushed: nat,
    stored: nat,
    popped: nat,
    duplicates: nat,
    outOfWindow: nat,
    late: nat,
    missing: nat,
    missingFlushed: nat)

  const NO_STATS := Stats(0, 0, 0, 0, 0, 0, 0, 0)

  datatype State = State(
    kind: Kind,
    window: nat,
    initialized: bool,
    expected: int,
    packets: map<int, StoredPacket>,
    headAccounted: bool,
    stats: Stats)
  {
    ghost predicate Valid() {
      && 0 < window
      && IsSeq(kind, expected)
      && (forall c :: c in packets ==> IsSeq(kind, c))
      && (!initialized ==> packets == map[])
    }

    predicate HasExpected() {
      expected in packets
    }

    ghost predicate HasMarker() {
      exists c :: c in packets && packets[c].rtp.marker
    }
  }

  function Fresh(k: Kind, window: nat): State {
    State(k, window, false, 0, map[], false, NO_STATS)
  }

  // ---- push ---------------------------------------------------------------

  /** A buffered number the head may jump to so that the incoming one fits. */
  predicate Recovers(s: State, number: int, c: int)
    requires IsSeq(s.kind, s.expected) && IsSeq(s.kind, number)
  {
    && c in s.packets
    && IsSeq(s.kind, c)
    && Dist(s.kind, c, s.expected) <= LateLimit(s.kind)
    && Dist(s.kind, number, c) <= LateLimit(s.kind)
    && Dist(s.kind, number, c) < s.window
  }

  /** The recovering number nearest to the head, searching from distance d. */
  ghost function NearestRecovery(s: State, number: int, d: nat): Option<int>
    requires IsSeq(s.kind, s.expected) && IsSeq(s.kind, number)
    decreases Modulus(s.kind) - d
  {
    if d >= Modulus(s.kind) then None
    else if Recovers(s, number, Advance(s.kind, s.expected, d)) then Some(Advance(s.kind, s.expected, d))
    else NearestRecovery(s, number, d + 1)
  }

  ghost function RecoveryTarget(s: State, number: int): (t: int)
    requires IsSeq(s.kind, s.expected) && IsSeq(s.kind, number)
    ensures IsSeq(s.kind, t)
  {
    NearestRecoveryIsNearest(s, number, 0);
    match NearestRecovery(s, number, 0)
    case Some(c) => c
    case None => number
  }

  predicate InWindow(s: State, c: int)
    requires IsSeq(s.kind, s.expected)
  {
    IsSeq(s.kind, c) && Dist(s.kind, c, s.expected) <= LateLimit(s.kind) && Dist(s.kind, c, s.expected) < s.window
  }

  function KeptPackets(s: State): (m: map<int, StoredPacket>)
    requires IsSeq(s.kind, s.expected)
    ensures m.Keys <= s.packets.Keys
    ensures forall c :: c in s.packets ==> (c in m <==> InWindow(s, c))
    ensures forall c :: c in m ==> m[c] == s.packets[c]
  {
    map c | c in s.packets && InWindow(s, c) :: s.packets[c]
  }

  function EraseOutside(s: State): State
    requires IsSeq(s.kind, s.expected)
  {
    s.(packets := KeptPackets(s))
  }

  function AdvanceTo(s: State, target: int): State
    requires IsSeq(s.kind, s.expected) && IsSeq(s.kind, target)
  {
    var skipped := Dist(s.kind, target, s.expected);
    EraseOutside(s.(
      stats := s.stats.(missingFlushed := s.stats.missingFlushed + skipped),
      expected := target,
      headAccounted := false))
  }

  function Store(s: State, number: int, p: StoredPacket): (State, bool) {
    if number in s.packets then
      (s.(stats := s.stats.(duplicates := s.stats.duplicates + 1)), false)
    else
      (s.(packets := s.packets[number := p], stats := s.stats.(stored := s.stats.stored + 1)), true)
  }

  function Arrive(s: State, number: int): State {
    var s1 := if s.initialized then s else s.(initialized := true, expected := number);
    s1.(stats := s1.stats.(pushed := s1.stats.pushed + 1))
  }

  /** The head cannot be recovered within the window any more: it jumps. */
  ghost function Jump(s: State, number: int): State
    requires IsSeq(s.kind, s.expected) && IsSeq(s.kind, number)
  {
    AdvanceTo(s.(stats := s.stats.(outOfWindow := s.stats.outOfWindow + 1)), RecoveryTarget(s, number))
  }

  ghost function Place(s: State, number: int, p: StoredPacket): (State, bool)
    requires s.Valid() && IsSeq(s.kind, number)
  {
    var d := Dist(s.kind, number, s.expected);
    if d < s.window then Store(s, number, p)
    else if d > LateLimit(s.kind) then (s.(stats := s.stats.(late := s.stats.late + 1)), false)
    else
      var s1 := Jump(s, number);
      var d1 := Dist(s.kind, number, s1.expected);
      if d1 >= s.window || d1 > LateLimit(s.kind) then (s1, false) else Store(s1, number, p)
  }

  ghost function Push(s: State, p: StoredPacket): (State, bool)
    requires s.Valid()
  {
    Place(Arrive(s, SeqOf(s.kind, p)), SeqOf(s.kind, p), p)
  }

  // ---- pop and the three flushes -------------------------------------------

  function PopNext(s: State): (State, Option<StoredPacket>)
    requires s.Valid()
  {
    if !s.initialized || s.packets == map[] then (s, None)
    else if s.HasExpected() then
      (s.(packets := s.packets - {s.expected},
          expected := Advance(s.kind, s.expected, 1),
          headAccounted := false,
          stats := s.stats.(popped := s.stats.popped + 1)),
       Some(s.packets[s.expected]))
    else if s.headAccounted then (s, None)
    else (s.(headAccounted := true, stats := s.stats.(missing := s.stats.missing + 1)), None)
  }

  function FlushMissingOnce(s: State): (State, bool)
    requires s.Valid()
  {
    if !s.initialized || s.packets == map[] || s.HasExpected() then (s, false)
    else
      (s.(expected := Advance(s.kind, s.expected, 1),
          headAccounted := false,
          stats := s.stats.(missingFlushed := s.stats.missingFlushed + 1)),
       true)
  }

  function FlushAfterNPackets(s: State, threshold: nat): (State, bool)
    requires s.Valid()
  {
    if |s.packets| < (if threshold == 0 then 1 else threshold) then (s, false)
    else FlushMissingOnce(s)
  }

  ghost function FlushUntilMarker(s: State): (State, bool)
    requires s.Valid()
  {
    if !s.HasMarker() then (s, false) else FlushMissingOnce(s)
  }

  // ---- the search for a recovery target ------------------------------------

  lemma DistInjective(k: Kind, a: int, b: int, e: int)
    requires IsSeq(k, a) && IsSeq(k, b) && IsSeq(k, e)
    requires Dist(k, a, e) == Dist(k, b, e)
    ensures a == b
  {
  }

  /** The search returns the recovering number with the least distance, and
      nothing only when no number at distance d or more recovers. */
  lemma {:induction false} NearestRecoveryIsNearest(s: State, number: int, d: nat)
    requires IsSeq(s.kind, s.expected) && IsSeq(s.kind, number)
    ensures
      match NearestRecovery(s, number, d)
      case Some(b) =>
        && Recovers(s, number, b)
        && d <= Dist(s.kind, b, s.expected)
        && forall c :: Recovers(s, number, c) && d <= Dist(s.kind, c, s.expected)
             ==> Dist(s.kind, b, s.expected) <= Dist(s.kind, c, s.expected)
      case None =>
        forall c :: Recovers(s, number, c) ==> Dist(s.kind, c, s.expected) < d
    decreases Modulus(s.kind) - d
  {
    if d < Modulus(s.kind) {
      var here := Advance(s.kind, s.expected, d);
      if !Recovers(s, number, here) {
        NearestRecoveryIsNearest(s, number, d + 1);
        forall c | Recovers(s, number, c) && d <= Dist(s.kind, c, s.expected)
          ensures d + 1 <= Dist(s.kind, c, s.expected)
        {
          if Dist(s.kind, c, s.expected) == d {
            DistInjective(s.kind, c, here, s.expected);
          }
        }
      }
    }
  }

  /** After a recovery jump the incoming number always fits, whatever the
      window: the last rejection in push is never taken. */
  lemma RecoveryAlwaysFits(s: State, number: int)
    requires s.Valid() && IsSeq(s.kind, number)
    ensures var d := Dist(s.kind, number, RecoveryTarget(s, number));
            d < s.window && d <= LateLimit(s.kind)
  {
    NearestRecoveryIsNearest(s, number, 0);
  }

  lemma PlaceAfterJump(s: State, number: int, p: StoredPacket)
    requires s.Valid() && IsSeq(s.kind, number)
    requires s.window <= Dist(s.kind, number, s.expected) <= LateLimit(s.kind)
    ensures Place(s, number, p) == Store(Jump(s, number), number, p)
    ensures InWindow(Jump(s, number), number)
  {
    RecoveryAlwaysFits(s, number);
  }

  lemma OperationsKeepValid(s: State, p: StoredPacket)
    requires s.Valid()
    ensures Push(s, p).0.Valid() && PopNext(s).0.Valid() && FlushMissingOnce(s).0.Valid() && FlushUntilMarker(s).0.Valid()
    ensures forall n: nat :: FlushAfterNPackets(s, n).0.Valid()
  {
    RecoveryAlwaysFits(Arrive(s, SeqOf(s.kind, p)), SeqOf(s.kind, p));
  }

  // ---- conservation ----------------------------------------------------------

  datatype Op =
    | DoPush(p: StoredPacket)
    | DoPop
    | DoFlushOnce
    | DoFlushAfterN(n: nat)
    | DoFlushMarker

  ghost function Apply(s: State, op: Op): (s': State)
    requires s.Valid()
    ensures s'.Valid() && s'.kind == s.kind && s'.window == s.window
  {
    match op
    case DoPush(p) => OperationsKeepValid(s, p); Push(s, p).0
    case DoPop => PopNext(s).0
    case DoFlushOnce => FlushMissingOnce(s).0
    case DoFlushAfterN(n) => FlushAfterNPackets(s, n).0
    case DoFlushMarker => FlushUntilMarker(s).0
  }

  ghost function Run(s: State, ops: seq<Op>): (s': State)
    requires s.Valid()
    ensures s'.Valid() && s'.kind == s.kind && s'.window == s.window
    decreases |ops|
  {
    if ops == [] then s else Run(Apply(s, ops[0]), ops[1..])
  }

  /** How far the head moves forward, in unwrapped numbers. The first packet
      only places the head. */
  ghost function Movement(s: State, ops: seq<Op>): nat
    requires s.Valid()
    decreases |ops|
  {
    if ops == [] then 0
    else
      var s1 := Apply(s, ops[0]);
      (if s.initialized then Dist(s.kind, s1.expected, s.expected) else 0) + Movement(s1, ops[1..])
  }

  /** Buffered packets lost to recovery jumps: they are in the buffer before a
      push and gone after it. */
  ghost function Evicted(s: State, ops: seq<Op>): nat
    requires s.Valid()
    decreases |ops|
  {
    if ops == [] then 0
    else
      var s1 := Apply(s, ops[0]);
      (if ops[0].DoPush? then Lost(s, s1) else 0) + Evicted(s1, ops[1..])
  }

  lemma SizeOfDifference(a: map<int, StoredPacket>, b: map<int, StoredPacket>)
    requires b.Keys <= a.Keys
    ensures |a| == |b| + |a.Keys - b.Keys|
  {
    assert a.Keys == b.Keys + (a.Keys - b.Keys);
    assert |a.Keys| == |a| && |b.Keys| == |b|;
  }

  lemma SizeAfterInsert(m: map<int, StoredPacket>, number: int, p: StoredPacket)
    requires number !in m
    ensures |m[number := p]| == |m| + 1
  {
    assert m[number := p].Keys == m.Keys + {number};
    assert |m[number := p].Keys| == |m[number := p]| && |m.Keys| == |m|;
  }

  /** Buffered packets of s that are no longer buffered in t. */
  ghost function Lost(s: State, t: State): nat {
    |s.packets.Keys - t.packets.Keys|
  }

  /** What a push adds to the counters: one outcome, and the packets it stores
      or evicts. */
  ghost predicate OneOutcome(s: State, t: State) {
    && t.stats.stored + t.stats.duplicates + t.stats.late == s.stats.stored + s.stats.duplicates + s.stats.late + 1
    && t.stats.stored + |s.packets| == s.stats.stored + |t.packets| + Lost(s, t)
  }

  lemma StoreOutcome(s: State, number: int, p: StoredPacket, before: State)
    requires s.packets.Keys <= before.packets.Keys
    requires number in before.packets ==> number in s.packets
    requires s.stats.(pushed := 0, outOfWindow := 0, missingFlushed := 0)
          == before.stats.(pushed := 0, outOfWindow := 0, missingFlushed := 0)
    ensures OneOutcome(before, Store(s, number, p).0)
  {
    SizeOfDifference(before.packets, s.packets);
    if number !in s.packets {
      SizeAfterInsert(s.packets, number, p);
      assert before.packets.Keys - s.packets[number := p].Keys == before.packets.Keys - s.packets.Keys;
    }
  }

  lemma PlaceConserves(s: State, number: int, p: StoredPacket)
    requires s.Valid() && IsSeq(s.kind, number)
    ensures OneOutcome(s, Place(s, number, p).0)
  {
    var d := Dist(s.kind, number, s.expected);
    if d < s.window {
      StoreOutcome(s, number, p, s);
    } else if d > LateLimit(s.kind) {
      assert s.packets.Keys - s.packets.Keys == {};
    } else {
      JumpConserves(s, number, p);
    }
  }

  lemma JumpConserves(s: State, number: int, p: StoredPacket)
    requires s.Valid() && IsSeq(s.kind, number)
    requires s.window <= Dist(s.kind, number, s.expected) <= LateLimit(s.kind)
    ensures OneOutcome(s, Place(s, number, p).0)
  {
    PlaceAfterJump(s, number, p);
    StoreOutcome(Jump(s, number), number, p, s);
  }

  lemma PushConserves(s: State, p: StoredPacket)
    requires s.Valid()
    ensures OneOutcome(s, Push(s, p).0)
  {
    PlaceConserves(Arrive(s, SeqOf(s.kind, p)), SeqOf(s.kind, p), p);
  }

  lemma PushMovement(s: State, p: StoredPacket)
    requires s.Valid()
    ensures var t := Push(s, p).0;
            && t.stats.pushed == s.stats.pushed + 1
            && t.stats.popped == s.stats.popped
            && t.stats.missingFlushed
               == s.stats.missingFlushed + (if s.initialized then Dist(s.kind, t.expected, s.expected) else 0)
  {
  }

  lemma PopConserves(s: State)
    requires s.Valid()
    ensures var s1 := PopNext(s).0;
            && s1.stats.popped + |s1.packets| == s.stats.popped + |s.packets|
            && s1.stats.popped - s.stats.popped == (if s.initialized then Dist(s.kind, s1.expected, s.expected) else 0)
            && s1.stats.(popped := 0, missing := 0) == s.stats.(popped := 0, missing := 0)
  {
    if s.HasExpected() {
      assert s.packets.Keys == (s.packets - {s.expected}).Keys + {s.expected};
      assert |s.packets.Keys| == |(s.packets - {s.expected}).Keys| + 1;
    }
  }

  lemma StepConserves(s: State, op: Op)
    requires s.Valid()
    ensures var t := Apply(s, op);
            && (if s.initialized then Dist(s.kind, t.expected, s.expected) else 0)
               == (t.stats.popped - s.stats.popped) + (t.stats.missingFlushed - s.stats.missingFlushed)
            && t.stats.pushed - s.stats.pushed
               == (t.stats.stored - s.stats.stored) + (t.stats.duplicates - s.stats.duplicates) + (t.stats.late - s.stats.late)
            && (t.stats.stored - s.stats.stored) + |s.packets|
               == (t.stats.popped - s.stats.popped) + |t.packets| + (if op.DoPush? then Lost(s, t) else 0)
  {
    match op {
      case DoPush(p) => PushConserves(s, p); PushMovement(s, p);
      case DoPop => PopConserves(s);
      case _ =>
    }
  }

  /** Counters over every run: the head moves by exactly the packets popped and
      the numbers given up; every push is stored, a duplicate or late; and every
      stored packet is popped, still buffered or evicted by a recovery jump. */
  lemma {:induction false} Conservation(s: State, ops: seq<Op>)
    requires s.Valid()
    ensures var t := Run(s, ops);
            && Movement(s, ops) == (t.stats.popped - s.stats.popped) + (t.stats.missingFlushed - s.stats.missingFlushed)
            && t.stats.pushed - s.stats.pushed
               == (t.stats.stored - s.stats.stored) + (t.stats.duplicates - s.stats.duplicates) + (t.stats.late - s.stats.late)
            && (t.stats.stored - s.stats.stored) + |s.packets|
               == (t.stats.popped - s.stats.popped) + |t.packets| + Evicted(s, ops)
    decreases |ops|
  {
    if ops != [] {
      StepConserves(s, ops[0]);
      Conservation(Apply(s, ops[0]), ops[1..]);
    }
  }

  /** The same from a fresh buffer: its own counters balance. */
  lemma ConservationFromReset(k: Kind, window: nat, ops: seq<Op>)
    requires 0 < window
    ensures var t := Run(Fresh(k, window), ops);
            && Movement(Fresh(k, window), ops) == t.stats.popped + t.stats.missingFlushed
            && t.stats.pushed == t.stats.stored + t.stats.duplicates + t.stats.late
            && t.stats.stored == t.stats.popped + |t.packets| + Evicted(Fresh(k, window), ops)
  {
    Conservation(Fresh(k, window), ops);
  }

  // ---- the class ---------------------------------------------------------------

  class FixedWindowReorderBuffer {
    const kind: Kind
    const windowSize: nat
    var nextExpected: int
    var packets: map<int, StoredPacket>
    var stats: Stats
    var initialized: bool
    var missingHeadAccounted: bool

    ghost function Abs(): State
      reads this
    {
      State(kind, windowSize, initialized, nextExpected, packets, missingHeadAccounted, stats)
    }

    ghost predicate Valid()
      reads this
    {
      Abs().Valid()
    }

    constructor (k: Kind, window: nat)
      requires 0 < window
      ensures Valid() && Abs() == Fresh(k, window)
    {
      kind := k;
      windowSize := window;
      nextExpected := 0;
      packets := map[];
      stats := NO_STATS;
      initialized := false;
      missingHeadAccounted := false;
    }

    method Reset()
      requires Valid()
      modifies this
      ensures Valid() && Abs() == Fresh(kind, windowSize)
    {
      packets := map[];
      nextExpected := 0;
      stats := NO_STATS;
      missingHeadAccounted := false;
      initialized := false;
    }

    method Pop() returns (r: Option<StoredPacket>)
      requires Valid()
      modifies this
      ensures Valid() && (Abs(), r) == PopNext(old(Abs()))
    {
      if !initialized || packets == map[] {
        return None;
      }
      if nextExpected in packets {
        r := Some(packets[nextExpected]);
        packets := packets - {nextExpected};
        nextExpected := Advance(kind, nextExpected, 1);
        stats := stats.(popped := stats.popped + 1);
        missingHeadAccounted := false;
      } else {
        if !missingHeadAccounted {
          stats := stats.(missing := stats.missing + 1);
          missingHeadAccounted := true;
        }
        r := None;
      }
    }

    method FlushOnce() returns (flushed: bool)
      requires Valid()
      modifies this
      ensures Valid() && (Abs(), flushed) == FlushMissingOnce(old(Abs()))
    {
      var hasSeq := nextExpected in packets;
      if !initialized || packets == map[] || hasSeq {
        return false;
      }
      nextExpected := Advance(kind, nextExpected, 1);
      missingHeadAccounted := false;
      stats := stats.(missingFlushed := stats.missingFlushed + 1);
      flushed := true;
    }

    method FlushAfterN(threshold: nat) returns (flushed: bool)
      requires Valid()
      modifies this
      ensures Valid() && (Abs(), flushed) == FlushAfterNPackets(old(Abs()), threshold)
    {
      if !initialized || packets == map[] {
        return false;
      }
      var effective := if threshold == 0 then 1 else threshold;
      if |packets| < effective {
        return false;
      }
      if nextExpected in packets {
        return false;
      }
      flushed := FlushOnce();
    }

    method HasMarkerBoundaryPacket() returns (found: bool)
      requires Valid()
      ensures found == Abs().HasMarker()
    {
      var rest := packets.Keys;
      while rest != {}
        invariant rest <= packets.Keys
        invariant forall c :: c in packets && c !in rest ==> !packets[c].rtp.marker
      {
        IntSetEmptyOrElement(rest);
        var c :| c in rest;
        if packets[c].rtp.marker {
          return true;
        }
        rest := rest - {c};
      }
      found := false;
    }

    method FlushMarker() returns (flushed: bool)
      requires Valid()
      modifies this
      ensures Valid() && (Abs(), flushed) == FlushUntilMarker(old(Abs()))
    {
      if !initialized || packets == map[] {
        return false;
      }
      if nextExpected in packets {
        return false;
      }
      var marker := HasMarkerBoundaryPacket();
      if !marker {
        return false;
      }
      flushed := FlushOnce();
    }

    /** The scan keeps the best candidate seen; the order of the keys does not
        matter because distances from the head differ. */
    method FindRecoveryExpected(incoming: int) returns (best: Option<int>)
      requires Valid() && IsSeq(kind, incoming)
      ensures best == NearestRecovery(Abs(), incoming, 0)
    {
      best := None;
      var bestDistance := 0;
      var rest := packets.Keys;
      while rest != {}
        invariant rest <= packets.Keys
        invariant best.Some? ==> Recovers(Abs(), incoming, best.value) && bestDistance == Dist(kind, best.value, nextExpected)
        invariant forall c :: c !in rest && Recovers(Abs(), incoming, c) ==> best.Some? && bestDistance <= Dist(kind, c, nextExpected)
      {
        IntSetEmptyOrElement(rest);
        var c :| c in rest;
        rest := rest - {c};
        var fromCurrent := Dist(kind, c, nextExpected);
        if fromCurrent > LateLimit(kind) {
          continue;
        }
        var fromCandidate := Dist(kind, incoming, c);
        if fromCandidate > LateLimit(kind) {
          continue;
        }
        if fromCandidate >= windowSize {
          continue;
        }
        if best.None? || fromCurrent < bestDistance {
          best := Some(c);
          bestDistance := fromCurrent;
        }
      }
      NearestRecoveryIsNearest(Abs(), incoming, 0);
      if best.Some? {
        DistInjective(kind, best.value, NearestRecovery(Abs(), incoming, 0).value, nextExpected);
      }
    }

    method EraseOutsideWindow()
      requires Valid()
      modifies this`packets
      ensures Valid() && Abs() == EraseOutside(old(Abs()))
    {
      var rest := packets.Keys;
      while rest != {}
        invariant Valid()
        invariant rest <= packets.Keys <= old(packets.Keys)
        invariant forall c :: c in packets ==> packets[c] == old(packets)[c]
        invariant forall c :: c in old(packets) && c !in rest ==> (c in packets <==> InWindow(old(Abs()), c))
      {
        IntSetEmptyOrElement(rest);
        var c :| c in rest;
        rest := rest - {c};
        var dist := Dist(kind, c, nextExpected);
        if dist > LateLimit(kind) || dist >= windowSize {
          packets := packets - {c};
        }
      }
      ghost var kept := KeptPackets(old(Abs()));
      assert forall c :: c in packets ==> c in kept;
      assert forall c :: c in kept ==> c in packets;
      assert packets == kept;
    }

    method AdvanceExpectedTo(target: int)
      requires Valid() && IsSeq(kind, target)
      requires initialized
      modifies this
      ensures Valid() && Abs() == AdvanceTo(old(Abs()), target)
    {
      var skipped := Dist(kind, target, nextExpected);
      stats := stats.(missingFlushed := stats.missingFlushed + skipped);
      nextExpected := target;
      missingHeadAccounted := false;
      EraseOutsideWindow();
    }

    method RecoverHead(incoming: int)
      requires Valid() && IsSeq(kind, incoming) && initialized
      modifies this
      ensures Valid() && Abs() == Jump(old(Abs()), incoming)
    {
      NearestRecoveryIsNearest(Abs(), incoming, 0);
      var recovery := FindRecoveryExpected(incoming);
      stats := stats.(outOfWindow := stats.outOfWindow + 1);
      if recovery.Some? {
        AdvanceExpectedTo(recovery.value);
      } else {
        AdvanceExpectedTo(incoming);
      }
    }

    method PushPacket(packet: StoredPacket) returns (ok: bool)
      requires Valid()
      modifies this
      ensures Valid() && (Abs(), ok) == Push(old(Abs()), packet)
    {
      var number := SeqOf(kind, packet);
      if !initialized {
        initialized := true;
        nextExpected := number;
      }
      stats := stats.(pushed := stats.pushed + 1);
      var dist := Dist(kind, number, nextExpected);
      if dist >= windowSize {
        if dist > LateLimit(kind) {
          stats := stats.(late := stats.late + 1);
          return false;
        }
        RecoverHead(number);
        dist := Dist(kind, number, nextExpected);
        if dist >= windowSize || dist > LateLimit(kind) {
          return false;
        }
      }
      if number in packets {
        stats := stats.(duplicates := stats.duplicates + 1);
        return false;
      }
      packets := packets[number := packet];
      stats := stats.(stored := stats.stored + 1);
      ok := true;
    }
  }
}
