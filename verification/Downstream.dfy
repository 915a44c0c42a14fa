/** The downstream half of a socket backend: the merge history of two legs, the
    gap policy, and the drain loop that hands packets to the media sink. */
module Downstream {
  import opened Basics
  import opened Packets
  import opened ReorderBuffer

  /** The four implemented values of ReceiveReorderGapPolicy. */
  datatype Policy = WaitForMissing | FlushGapOnce | FlushAfterN(n: nat) | FlushOnMarkerBoundary {
    predicate ManyFlushes() {
      FlushAfterN? || FlushOnMarkerBoundary?
    }
  }

  /** A packet handed to the sink, with the sequence number it was popped at. */
  datatype Delivery = Delivery(number: int, packet: StoredPacket)

  // ---- the drain loop -------------------------------------------------------

  /** What the policy asks before it gives up on the expected number. */
  ghost predicate Wants(s: State, policy: Policy) {
    match policy
    case WaitForMissing => false
    case FlushGapOnce => true
    case FlushAfterN(n) => |s.packets| >= (if n == 0 then 1 else n)
    case FlushOnMarkerBoundary => s.HasMarker()
  }

  ghost function ApplyPolicy(s: State, policy: Policy): (State, bool)
    requires s.Valid()
  {
    if Wants(s, policy) then FlushMissingOnce(s) else (s, false)
  }

  /** Distance from the head to the nearest buffered number at distance d or more. */
  ghost function Gap(s: State, d: nat): (g: nat)
    requires s.Valid()
    ensures d <= g || g == Modulus(s.kind)
    ensures g < Modulus(s.kind) ==> Advance(s.kind, s.expected, g) in s.packets
    ensures forall c :: c in s.packets && d <= Dist(s.kind, c, s.expected) ==> g <= Dist(s.kind, c, s.expected)
    decreases Modulus(s.kind) - d
  {
    if d >= Modulus(s.kind) then Modulus(s.kind)
    else if Advance(s.kind, s.expected, d) in s.packets then d
    else
      var g := Gap(s, d + 1);
      assert forall c :: c in s.packets && d <= Dist(s.kind, c, s.expected) ==> d + 1 <= Dist(s.kind, c, s.expected) by {
        forall c | c in s.packets && d <= Dist(s.kind, c, s.expected) ensures d + 1 <= Dist(s.kind, c, s.expected) {
          if Dist(s.kind, c, s.expected) == d {
            DistInjective(s.kind, c, Advance(s.kind, s.expected, d), s.expected);
          }
        }
      }
      g
  }

  lemma FlushShrinksGap(s: State)
    requires s.Valid() && FlushMissingOnce(s).1
    ensures FlushMissingOnce(s).0.Valid()
    ensures Gap(FlushMissingOnce(s).0, 0) < Gap(s, 0)
  {
    IntSetEmptyOrElement(s.packets.Keys);
    var some :| some in s.packets.Keys;
    var g := Gap(s, 0);
    assert 0 < g <= Dist(s.kind, some, s.expected);
    var s1 := FlushMissingOnce(s).0;
    assert Dist(s.kind, Advance(s.kind, s.expected, g), s1.expected) == g - 1;
  }

  lemma {:induction false} SameGap(s: State, t: State, d: nat)
    requires s.Valid() && t.Valid()
    requires t.(stats := s.stats, headAccounted := s.headAccounted) == s
    ensures Gap(s, d) == Gap(t, d)
    decreases Modulus(s.kind) - d
  {
    if d < Modulus(s.kind) {
      SameGap(s, t, d + 1);
    }
  }

  /** One turn of the loop: hand over the head, skip a missing number, or stop. */
  datatype Turn = Hand(next: State, d: Delivery) | Skip(next: State) | Stop(next: State)

  ghost function TakeTurn(s: State, policy: Policy, flushUsed: bool): Turn
    requires s.Valid()
  {
    var (popped, packet) := PopNext(s);
    if packet.Some? then Hand(popped, Delivery(s.expected, packet.value))
    else if flushUsed && !policy.ManyFlushes() then Stop(popped)
    else
      var (flushed, done) := ApplyPolicy(popped, policy);
      if done then Skip(flushed) else Stop(flushed)
  }

  lemma PopFacts(s: State)
    requires s.Valid()
    ensures var (t, packet) := PopNext(s);
            && t.Valid() && t.kind == s.kind && t.window == s.window
            && (packet.Some? ==> |t.packets| < |s.packets|)
            && (packet.None? ==> t.(stats := s.stats, headAccounted := s.headAccounted) == s)
  {
  }

  /** Termination: a turn either removes a packet or brings the head nearer to
      the nearest buffered one. */
  lemma TurnProgress(s: State, policy: Policy, flushUsed: bool)
    requires s.Valid()
    ensures var turn := TakeTurn(s, policy, flushUsed);
            && turn.next.Valid()
            && turn.next.kind == s.kind && turn.next.window == s.window
            && (turn.Hand? ==> |turn.next.packets| < |s.packets|)
            && (turn.Skip? ==> turn.next.packets == s.packets && Gap(turn.next, 0) < Gap(s, 0))
  {
    var popped := PopNext(s).0;
    PopFacts(s);
    if TakeTurn(s, policy, flushUsed).Skip? {
      SameGap(s, popped, 0);
      FlushShrinksGap(popped);
    }
  }

  /** What one call of the drain loop leaves behind and hands over. */
  ghost function Drain(s: State, policy: Policy, flushUsed: bool): (State, seq<Delivery>)
    requires s.Valid()
    decreases |s.packets|, Gap(s, 0)
  {
    TurnProgress(s, policy, flushUsed);
    match TakeTurn(s, policy, flushUsed)
    case Hand(next, d) => var (rest, out) := Drain(next, policy, flushUsed); (rest, [d] + out)
    case Skip(next) => Drain(next, policy, true)
    case Stop(next) => (next, [])
  }

  lemma DrainUnfolds(s: State, policy: Policy, flushUsed: bool)
    requires s.Valid()
    ensures var turn := TakeTurn(s, policy, flushUsed);
            && turn.next.Valid()
            && (turn.Hand? ==>
                  var (rest, out) := Drain(turn.next, policy, flushUsed);
                  Drain(s, policy, flushUsed) == (rest, [turn.d] + out))
            && (turn.Skip? ==> Drain(s, policy, flushUsed) == Drain(turn.next, policy, true))
            && (turn.Stop? ==> Drain(s, policy, flushUsed) == (turn.next, []))
  {
    hide TakeTurn;
    TurnProgress(s, policy, flushUsed);
  }

  ghost predicate PolicyMet(policy: Policy, t: State) {
    && !t.HasExpected()
    && (policy.FlushAfterN? ==> |t.packets| < (if policy.n == 0 then 1 else policy.n))
    && (policy.FlushOnMarkerBoundary? ==> !t.HasMarker())
  }

  lemma StopMeetsPolicy(s: State, policy: Policy, flushUsed: bool)
    requires s.Valid()
    requires TakeTurn(s, policy, flushUsed).Stop?
    ensures PolicyMet(policy, TakeTurn(s, policy, flushUsed).next)
  {
  }

  /** After a drain under any policy the expected number is absent, and what the
      policy still waits for is gone. Waiting never skips a number, and a single
      flush skips at most one. */
  lemma {:induction false} DrainReachesPolicy(s: State, policy: Policy, flushUsed: bool)
    requires s.Valid()
    ensures var t := Drain(s, policy, flushUsed).0;
            && t.Valid() && t.kind == s.kind && t.window == s.window
            && PolicyMet(policy, t)
            && (policy.WaitForMissing? ==> t.stats.missingFlushed == s.stats.missingFlushed)
            && (policy.FlushGapOnce? ==>
                  t.stats.missingFlushed <= s.stats.missingFlushed + (if flushUsed then 0 else 1))
    decreases |s.packets|, Gap(s, 0)
  {
    TurnProgress(s, policy, flushUsed);
    match TakeTurn(s, policy, flushUsed)
    case Hand(next, _) => DrainReachesPolicy(next, policy, flushUsed);
    case Skip(next) => DrainReachesPolicy(next, policy, true);
    case Stop(_) => StopMeetsPolicy(s, policy, flushUsed);
  }

  ghost predicate Ordered(s: State, out: seq<Delivery>)
    requires s.Valid()
  {
    && (forall i :: 0 <= i < |out| ==> out[i].number in s.packets && out[i].packet == s.packets[out[i].number])
    && (forall i, j :: 0 <= i < j < |out| ==>
          Dist(s.kind, out[i].number, s.expected) < Dist(s.kind, out[j].number, s.expected))
  }

  ghost predicate Leaves(s: State, out: seq<Delivery>, t: State)
    requires s.Valid()
  {
    && (forall c :: c in t.packets ==> c in s.packets && t.packets[c] == s.packets[c])
    && (forall c, i :: c in t.packets && 0 <= i < |out| && out[i].number in s.packets ==>
          Dist(s.kind, out[i].number, s.expected) < Dist(s.kind, c, s.expected))
  }

  ghost predicate HandsOver(s: State, out: seq<Delivery>, t: State)
    requires s.Valid()
  {
    Ordered(s, out) && Leaves(s, out, t) && |s.packets| == |t.packets| + |out|
  }

  lemma TurnInOrder(s: State, policy: Policy, flushUsed: bool, out: seq<Delivery>, t: State)
    requires s.Valid() && TakeTurn(s, policy, flushUsed).next.Valid()
    requires TakeTurn(s, policy, flushUsed).Stop? || HandsOver(TakeTurn(s, policy, flushUsed).next, out, t)
    ensures match TakeTurn(s, policy, flushUsed)
            case Hand(_, d) => HandsOver(s, [d] + out, t)
            case Skip(_) => HandsOver(s, out, t)
            case Stop(next) => HandsOver(s, [], next)
  {
    match TakeTurn(s, policy, flushUsed)
    case Hand(next, _) => HandInOrder(s, next, out, t);
    case Skip(next) => NearerByOne(s, next);
    case Stop(_) =>
  }

  /** Deliveries come nearest first, everything left is farther than every
      delivery, and no packet is lost between the two. */
  lemma {:induction false} DrainInOrder(s: State, policy: Policy, flushUsed: bool)
    requires s.Valid()
    ensures HandsOver(s, Drain(s, policy, flushUsed).1, Drain(s, policy, flushUsed).0)
    decreases |s.packets|, Gap(s, 0)
  {
    hide TakeTurn;
    TurnProgress(s, policy, flushUsed);
    match TakeTurn(s, policy, flushUsed)
    case Hand(next, _) =>
      DrainInOrder(next, policy, flushUsed);
      TurnInOrder(s, policy, flushUsed, Drain(next, policy, flushUsed).1, Drain(next, policy, flushUsed).0);
    case Skip(next) =>
      DrainInOrder(next, policy, true);
      TurnInOrder(s, policy, flushUsed, Drain(next, policy, true).1, Drain(next, policy, true).0);
    case Stop(next) =>
      TurnInOrder(s, policy, flushUsed, [], next);
  }

  lemma HandInOrder(s: State, next: State, out: seq<Delivery>, t: State)
    requires s.Valid() && PopNext(s).1.Some? && next == PopNext(s).0 && next.Valid()
    requires Ordered(next, out) && Leaves(next, out, t)
    ensures var all := [Delivery(s.expected, PopNext(s).1.value)] + out;
            Ordered(s, all) && Leaves(s, all, t) && |s.packets| == |next.packets| + 1
  {
    NearerByOne(s, next);
    PopConserves(s);
  }

  /** Moving the head by one brings every other buffered number nearer by one. */
  lemma NearerByOne(s: State, next: State)
    requires s.Valid() && next.Valid() && next.kind == s.kind
    requires next.expected == Advance(s.kind, s.expected, 1)
    requires s.expected !in next.packets
    ensures forall c :: c in next.packets ==> Dist(s.kind, c, next.expected) == Dist(s.kind, c, s.expected) - 1
  {
  }

  // ---- duplicate merge history ------------------------------------------------

  datatype History = History(ordered: seq<int>, members: set<int>) {
    /** The set holds exactly the remembered numbers, each remembered once, and
        at most capacity of them. */
    ghost predicate Valid(capacity: nat) {
      && |ordered| <= capacity
      && (forall x :: x in members <==> x in ordered)
      && (forall i, j :: 0 <= i < j < |ordered| ==> ordered[i] != ordered[j])
    }
  }

  const NO_HISTORY := History([], {})

  /** Forget from the front until at most capacity numbers are left. */
  function Trim(h: History, capacity: nat): History
    decreases |h.ordered|
  {
    if |h.ordered| <= capacity then h
    else Trim(History(h.ordered[1..], h.members - {h.ordered[0]}), capacity)
  }

  function Remember(h: History, number: int, capacity: nat): History {
    Trim(History(h.ordered + [number], h.members + {number}), capacity)
  }

  function LastOf<T>(s: seq<T>, n: nat): seq<T> {
    if |s| <= n then s else s[|s| - n..]
  }

  lemma {:induction false} TrimKeepsLast(h: History, capacity: nat)
    requires h.Valid(|h.ordered|)
    ensures Trim(h, capacity).Valid(capacity) && Trim(h, capacity).ordered == LastOf(h.ordered, capacity)
    decreases |h.ordered|
  {
    if |h.ordered| > capacity {
      var h1 := History(h.ordered[1..], h.members - {h.ordered[0]});
      assert h.ordered == [h.ordered[0]] + h1.ordered;
      forall x ensures x in h1.members <==> x in h1.ordered {
        if x in h1.ordered {
          var i :| 0 <= i < |h1.ordered| && h1.ordered[i] == x;
          assert h.ordered[i + 1] == x;
        }
      }
      TrimKeepsLast(h1, capacity);
    }
  }

  /** Remembering a number that is not yet remembered keeps the history exact. */
  lemma RememberKeepsValid(h: History, number: int, capacity: nat)
    requires h.Valid(capacity) && number !in h.members
    ensures Remember(h, number, capacity).Valid(capacity)
    ensures Remember(h, number, capacity).ordered == LastOf(h.ordered + [number], capacity)
  {
    TrimKeepsLast(History(h.ordered + [number], h.members + {number}), capacity);
  }

  class DuplicateMergeHistory {
    var orderedSequences: seq<int>
    var sequenceSet: set<int>

    ghost function Abs(): History
      reads this
    {
      History(orderedSequences, sequenceSet)
    }

    constructor ()
      ensures Abs() == NO_HISTORY
    {
      orderedSequences := [];
      sequenceSet := {};
    }

    method Contains(number: int, ghost capacity: nat) returns (found: bool)
      requires Abs().Valid(capacity)
      ensures found <==> exists i :: 0 <= i < |Abs().ordered| && Abs().ordered[i] == number
    {
      found := number in sequenceSet;
    }

    method RememberSequence(number: int, capacity: nat)
      modifies this
      ensures Abs() == Remember(old(Abs()), number, capacity)
    {
      orderedSequences := orderedSequences + [number];
      sequenceSet := sequenceSet + {number};
      while |orderedSequences| > capacity
        invariant Trim(Abs(), capacity) == Remember(old(Abs()), number, capacity)
        decreases |orderedSequences|
      {
        sequenceSet := sequenceSet - {orderedSequences[0]};
        orderedSequences := orderedSequences[1..];
      }
    }

    method Clear()
      modifies this
      ensures Abs() == NO_HISTORY
    {
      orderedSequences := [];
      sequenceSet := {};
    }
  }

  // ---- one packet through the downstream loop ----------------------------------

  datatype DownState = DownState(reorder: State, history: History, merge: bool, policy: Policy, dropped: nat) {
    ghost predicate Valid() {
      reorder.Valid() && history.Valid(reorder.window)
    }
  }

  function FreshDown(k: Kind, window: nat, merge: bool, policy: Policy): DownState {
    DownState(Fresh(k, window), NO_HISTORY, merge, policy, 0)
  }

  ghost function Process(d: DownState, p: StoredPacket): (DownState, seq<Delivery>)
    requires d.reorder.Valid()
  {
    if d.merge && p.extendedSeq in d.history.members then (d, [])
    else
      var (pushed, ok) := Push(d.reorder, p);
      if !ok then (d.(reorder := pushed, dropped := d.dropped + 1), [])
      else
        PushKeepsShape(d.reorder, p);
        var h := if d.merge then Remember(d.history, p.extendedSeq, d.reorder.window) else d.history;
        var (drained, out) := Drain(pushed, d.policy, false);
        (d.(reorder := drained, history := h), out)
  }

  lemma PushKeepsShape(s: State, p: StoredPacket)
    requires s.Valid()
    ensures var t := Push(s, p).0; t.Valid() && t.kind == s.kind && t.window == s.window
  {
  }

  lemma ProcessKeepsValid(d: DownState, p: StoredPacket)
    requires d.Valid()
    ensures var d1 := Process(d, p).0;
            && d1.Valid()
            && d1.reorder.window == d.reorder.window && d1.reorder.kind == d.reorder.kind
            && d1.merge == d.merge && d1.policy == d.policy
  {
    if !(d.merge && p.extendedSeq in d.history.members) {
      PushKeepsShape(d.reorder, p);
      DrainReachesPolicy(Push(d.reorder, p).0, d.policy, false);
      if d.merge {
        RememberKeepsValid(d.history, p.extendedSeq, d.reorder.window);
      }
    }
  }

  class SocketRxBackend {
    const reorderBuffer: FixedWindowReorderBuffer
    const mergeHistory: DuplicateMergeHistory
    const mergeEnabled: bool
    const policy: Policy
    var datagramsDropped: nat
    /** What deliver_media has been given so far. */
    var delivered: seq<Delivery>

    ghost predicate Valid()
      reads this, reorderBuffer, mergeHistory
    {
      reorderBuffer.Valid() && mergeHistory.Abs().Valid(reorderBuffer.windowSize)
    }

    ghost function Abs(): DownState
      reads this, reorderBuffer, mergeHistory
    {
      DownState(reorderBuffer.Abs(), mergeHistory.Abs(), mergeEnabled, policy, datagramsDropped)
    }

    constructor (k: Kind, window: nat, legs: nat, gapPolicy: Policy)
      requires 0 < window
      ensures Valid() && fresh(reorderBuffer) && fresh(mergeHistory)
      ensures Abs() == FreshDown(k, window, legs > 1, gapPolicy) && delivered == []
    {
      reorderBuffer := new FixedWindowReorderBuffer(k, window);
      mergeHistory := new DuplicateMergeHistory();
      mergeEnabled := legs > 1;
      policy := gapPolicy;
      datagramsDropped := 0;
      delivered := [];
    }

    method ApplyReorderBufferPolicy() returns (flushed: bool)
      requires Valid()
      modifies reorderBuffer
      ensures Valid() && (reorderBuffer.Abs(), flushed) == ApplyPolicy(old(reorderBuffer.Abs()), policy)
    {
      match policy {
        case WaitForMissing => flushed := false;
        case FlushGapOnce => flushed := reorderBuffer.FlushOnce();
        case FlushAfterN(n) => flushed := reorderBuffer.FlushAfterN(n);
        case FlushOnMarkerBoundary => flushed := reorderBuffer.FlushMarker();
      }
    }

    method DrainToSink()
      requires Valid()
      modifies this`delivered, reorderBuffer
      ensures Valid()
      ensures var (s, out) := Drain(old(reorderBuffer.Abs()), policy, false);
              reorderBuffer.Abs() == s && delivered == old(delivered) + out
    {
      hide Drain, Gap, PopNext, ApplyPolicy;
      var gapFlushUsed := false;
      ghost var goal := Drain(reorderBuffer.Abs(), policy, false);
      while true
        invariant Valid()
        invariant goal.0 == Drain(reorderBuffer.Abs(), policy, gapFlushUsed).0
        invariant old(delivered) + goal.1 == delivered + Drain(reorderBuffer.Abs(), policy, gapFlushUsed).1
        decreases |reorderBuffer.packets|, Gap(reorderBuffer.Abs(), 0)
      {
        ghost var now := reorderBuffer.Abs();
        TurnProgress(now, policy, gapFlushUsed);
        DrainUnfolds(now, policy, gapFlushUsed);
        var number := reorderBuffer.nextExpected;
        var stored := reorderBuffer.Pop();
        if stored.Some? {
          assert TakeTurn(now, policy, gapFlushUsed) == Hand(reorderBuffer.Abs(), Delivery(number, stored.value));
          delivered := delivered + [Delivery(number, stored.value)];
          continue;
        }
        if gapFlushUsed && !policy.ManyFlushes() {
          assert TakeTurn(now, policy, gapFlushUsed) == Stop(reorderBuffer.Abs());
          return;
        }
        var flushed := ApplyReorderBufferPolicy();
        if !flushed {
          assert TakeTurn(now, policy, gapFlushUsed) == Stop(reorderBuffer.Abs());
          return;
        }
        assert TakeTurn(now, policy, gapFlushUsed) == Skip(reorderBuffer.Abs());
        gapFlushUsed := true;
      }
    }

    method ProcessStoredPacket(packet: StoredPacket)
      requires Valid()
      modifies this, reorderBuffer, mergeHistory
      ensures Valid()
      ensures var (d, out) := Process(old(Abs()), packet);
              Abs() == d && delivered == old(delivered) + out
    {
      ProcessKeepsValid(Abs(), packet);
      ghost var d0 := Abs();
      if mergeEnabled {
        var known := mergeHistory.Contains(packet.extendedSeq, reorderBuffer.windowSize);
        if known {
          return;
        }
      }
      var ok := reorderBuffer.PushPacket(packet);
      if !ok {
        datagramsDropped := datagramsDropped + 1;
        return;
      }
      if mergeEnabled {
        RememberKeepsValid(mergeHistory.Abs(), packet.extendedSeq, reorderBuffer.windowSize);
        mergeHistory.RememberSequence(packet.extendedSeq, reorderBuffer.windowSize);
      }
      DrainToSink();
    }
  }
}
