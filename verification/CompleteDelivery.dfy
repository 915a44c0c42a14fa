/** When is a whole stream delivered? A source sends packets base, base+1, ...;
    they arrive in any order and with repeats, none missing, the lowest first,
    each within the window of the lowest one still missing. */
module CompleteDelivery {
  import opened Basics
  import opened Packets
  import opened ReorderBuffer
  import opened ReorderReference
  import opened Downstream
  import opened OrderedDelivery

  /** The lowest number from `from` on that is not in seen. */
  ghost function LowestMissing(seen: set<int>, from: int): (m: int)
    ensures from <= m && m !in seen && forall t :: from <= t < m ==> t in seen
    decreases |seen|
  {
    if from in seen then
      var m := LowestMissing(seen - {from}, from + 1);
      assert forall t :: from <= t < m ==> t in seen by {
        forall t | from <= t < m ensures t in seen { assert t == from || t in seen - {from}; }
      }
      m
    else from
  }

  lemma LowestMissingUnique(seen: set<int>, from: int, m: int)
    requires from <= m && m !in seen && forall t :: from <= t < m ==> t in seen
    ensures LowestMissing(seen, from) == m
  {
  }

  lemma LowestMissingGrows(seen: set<int>, more: set<int>, from: int)
    requires seen <= more
    ensures LowestMissing(seen, from) <= LowestMissing(more, from)
  {
    assert LowestMissing(more, from) !in seen;
  }

  ghost function Missing(base: int, arrivals: seq<Arrival>): int {
    LowestMissing(Numbers(arrivals), base)
  }

  /** The arrivals that still wait behind the lowest missing number. */
  ghost function Waiting(base: int, arrivals: seq<Arrival>): set<int> {
    set t | t in Numbers(arrivals) && t > Missing(base, arrivals)
  }

  /** The packet that arrived first under a number. */
  ghost function FirstPacket(arrivals: seq<Arrival>, t: int): StoredPacket
    requires t in Numbers(arrivals)
  {
    var n := |arrivals| - 1;
    if t in Numbers(arrivals[..n]) then FirstPacket(arrivals[..n], t)
    else
      NumbersSnoc(arrivals);
      arrivals[n].packet
  }

  /** The lowest number arrives first, nothing below it ever arrives, and every
      arrival is within the window of the lowest number still missing and within
      half range of it. */
  ghost predicate WellTimed(k: Kind, window: nat, base: int, arrivals: seq<Arrival>) {
    arrivals != [] ==>
      var n := |arrivals| - 1;
      var a := arrivals[n];
      && WellTimed(k, window, base, arrivals[..n])
      && a.packet.extendedSeq == Wrap(k, a.number)
      && base <= a.number
      && if n == 0 then a.number == base
         else Missing(base, arrivals[..n]) + LateLimit(k) + 1 - Modulus(k) <= a.number
              < Missing(base, arrivals[..n]) + window
  }

  /** The policy asks to give up on the missing number: a condition on what has
      arrived so far, nothing else. */
  ghost predicate Impatient(policy: Policy, base: int, arrivals: seq<Arrival>) {
    var waiting := Waiting(base, arrivals);
    && waiting != {}
    && match policy
       case WaitForMissing => false
       case FlushGapOnce => true
       case FlushAfterN(n) => |waiting| >= (if n == 0 then 1 else n)
       case FlushOnMarkerBoundary => exists t :: t in waiting && FirstPacket(arrivals, t).rtp.marker
  }

  ghost predicate AlwaysPatient(policy: Policy, base: int, arrivals: seq<Arrival>) {
    arrivals != [] ==> AlwaysPatient(policy, base, arrivals[..|arrivals| - 1]) && !Impatient(policy, base, arrivals)
  }

  ghost function InOrder(arrivals: seq<Arrival>, from: int, to: int): (out: seq<Delivery>)
    requires forall t :: from <= t < to ==> t in Numbers(arrivals)
    ensures |out| == if from <= to then to - from else 0
    ensures forall i :: 0 <= i < |out| ==> out[i] == Delivery(from + i, FirstPacket(arrivals, from + i))
  {
    seq(if from <= to then to - from else 0, i requires 0 <= i < to - from => Delivery(from + i, FirstPacket(arrivals, from + i)))
  }

  /** The reference buffer after a patient run. */
  ghost predicate AtRest(r: Ref, base: int, arrivals: seq<Arrival>) {
    && r.initialized
    && r.next == Missing(base, arrivals)
    && r.packets.Keys == Waiting(base, arrivals)
    && forall t :: t in r.packets ==> r.packets[t] == FirstPacket(arrivals, t)
  }

  ghost function PopTo(r: Ref, m: int): Ref {
    r.(next := m, packets := map t | t in r.packets && m <= t :: r.packets[t])
  }

  /** The run up to m is handed over; then the drain rests or passes over m, as the
      policy says. */
  ghost predicate RunEnds(r: Ref, policy: Policy, m: int, r1: Ref, out: seq<Delivery>) {
    if GivesUp(PopTo(r, m), policy) then
      && m < r1.next && (forall i :: 0 <= i < |out| ==> out[i].number != m)
      && 0 <= m - r.next <= |out| && (m - r.next < |out| ==> m < out[m - r.next].number)
    else
      && r1 == PopTo(r, m)
      && |out| == m - r.next
      && forall i :: 0 <= i < |out| ==> HandedAt(r, i, out[i])
  }

  predicate HandedAt(r: Ref, i: nat, d: Delivery) {
    r.next + i in r.packets && d == Delivery(r.next + i, r.packets[r.next + i])
  }

  lemma RunCons(r: Ref, policy: Policy, m: int, r1: Ref, out: seq<Delivery>)
    requires r.next < m && AtHead(r) && RunEnds(RefPop(r).0, policy, m, r1, out)
    ensures RunEnds(r, policy, m, r1, [Delivery(r.next, r.packets[r.next])] + out)
  {
    hide GivesUp;
    var all := [Delivery(r.next, r.packets[r.next])] + out;
    SamePopTo(r, m);
    if !GivesUp(PopTo(r, m), policy) {
      forall i | 0 <= i < |all| ensures HandedAt(r, i, all[i]) {
        assert i > 0 ==> HandedAt(RefPop(r).0, i - 1, out[i - 1]);
      }
    } else {
      assert forall i :: 0 < i < |all| ==> all[i] == out[i - 1];
    }
  }

  lemma SamePopTo(r: Ref, m: int)
    requires r.next < m && AtHead(r)
    ensures PopTo(RefPop(r).0, m) == PopTo(r, m)
  {
    forall t ensures t in PopTo(RefPop(r).0, m).packets <==> t in PopTo(r, m).packets {}
    assert PopTo(RefPop(r).0, m).packets == PopTo(r, m).packets;
  }

  /** A drain hands over the consecutive run at the head first. */
  lemma {:induction false} DrainRun(r: Ref, policy: Policy, m: int)
    requires r.Valid() && r.initialized
    requires r.next <= m && m !in r.packets && forall t :: r.next <= t < m ==> t in r.packets
    ensures RunEnds(r, policy, m, RefDrain(r, policy, false).0, RefDrain(r, policy, false).1)
    decreases m - r.next
  {
    if r.next < m {
      hide RunEnds, GivesUp, PopTo;
      var r1 := RefPop(r).0;
      RefProgress(r);
      DrainRun(r1, policy, m);
      RunCons(r, policy, m, RefDrain(r1, policy, false).0, RefDrain(r1, policy, false).1);
    } else {
      DrainAtGap(r, policy);
    }
  }

  lemma DrainAtGap(r: Ref, policy: Policy)
    requires r.Valid() && r.initialized && r.next !in r.packets
    ensures PopTo(r, r.next) == r
    ensures var (r1, out) := RefDrain(r, policy, false);
            if GivesUp(r, policy) then r.next < r1.next && forall i :: 0 <= i < |out| ==> r.next < out[i].number
            else r1 == r && out == []
  {
    assert PopTo(r, r.next).packets == r.packets by {
      forall t ensures t in PopTo(r, r.next).packets <==> t in r.packets {}
    }
    RefProgress(r);
    if GivesUp(r, policy) {
      RefDrainForward(RefFlush(r, true).0, policy, true);
    }
  }

  /** The state a new arrival finds: nothing yet, or a buffer at rest. */
  ghost predicate Ready(window: nat, r: Ref, base: int, arrivals: seq<Arrival>) {
    && r.Valid() && r.window == window
    && if arrivals == [] then r == FreshRef(window) else AtRest(r, base, arrivals)
  }

  /** A new arrival is stored at or after the lowest missing number. */
  lemma NewArrivalStored(k: Kind, window: nat, base: int, arrivals: seq<Arrival>, r: Ref)
    requires arrivals != [] && WellTimed(k, window, base, arrivals)
    requires Ready(window, r, base, arrivals[..|arrivals| - 1])
    requires arrivals[|arrivals| - 1].number !in Numbers(arrivals[..|arrivals| - 1])
    ensures var init, a := arrivals[..|arrivals| - 1], arrivals[|arrivals| - 1];
            var (r1, ok) := RefPush(r, a.number, a.packet);
            && ok
            && r1 == Ref(window, true, Missing(base, init), r.packets[a.number := a.packet])
            && Missing(base, init) <= a.number
            && Missing(base, init) <= Missing(base, arrivals)
  {
    var n := |arrivals| - 1;
    NumbersSnoc(arrivals);
    LowestMissingGrows(Numbers(arrivals[..n]), Numbers(arrivals), base);
    if n == 0 {
      assert Numbers(arrivals[..0]) == {};
      LowestMissingUnique(Numbers(arrivals[..0]), base, base);
    }
  }

  /** The first packet under a number does not change as more arrive. */
  lemma FirstPacketStays(arrivals: seq<Arrival>, t: int)
    requires arrivals != [] && t in Numbers(arrivals[..|arrivals| - 1])
    ensures t in Numbers(arrivals) && FirstPacket(arrivals, t) == FirstPacket(arrivals[..|arrivals| - 1], t)
  {
    NumbersSnoc(arrivals);
  }

  /** The buffer after the push of a new arrival: the waiting packets and the new
      one, every one the first under its number. */
  ghost predicate Pushed(r: Ref, base: int, arrivals: seq<Arrival>)
    requires arrivals != []
  {
    && r.Valid() && r.initialized
    && r.next == Missing(base, arrivals[..|arrivals| - 1])
    && r.next <= Missing(base, arrivals)
    && (forall t :: t in r.packets <==> t in Numbers(arrivals) && r.next <= t)
    && (forall t :: t in r.packets ==> r.packets[t] == FirstPacket(arrivals, t))
  }

  /** What a new arrival does: it is stored beside the waiting packets. */
  lemma NewArrival(k: Kind, window: nat, base: int, arrivals: seq<Arrival>, r: Ref)
    requires arrivals != [] && WellTimed(k, window, base, arrivals)
    requires Ready(window, r, base, arrivals[..|arrivals| - 1])
    requires arrivals[|arrivals| - 1].number !in Numbers(arrivals[..|arrivals| - 1])
    ensures var a := arrivals[|arrivals| - 1];
            RefPush(r, a.number, a.packet).1 && Pushed(RefPush(r, a.number, a.packet).0, base, arrivals)
  {
    var n := |arrivals| - 1;
    var a := arrivals[n];
    NumbersSnoc(arrivals);
    NewArrivalStored(k, window, base, arrivals, r);
    RefPushValid(r, a.number, a.packet);
    var r1 := RefPush(r, a.number, a.packet).0;
    if n == 0 {
      assert Numbers(arrivals[..0]) == {};
    }
    forall t | t in r1.packets ensures r1.packets[t] == FirstPacket(arrivals, t) {
      if t != a.number {
        FirstPacketStays(arrivals, t);
      }
    }
  }

  /** The run at the head of the buffer now reaches the lowest missing number, and
      popping up to there comes to rest again. */
  lemma PushedRun(r: Ref, base: int, arrivals: seq<Arrival>)
    requires arrivals != [] && Pushed(r, base, arrivals)
    requires forall t :: t in Numbers(arrivals) ==> base <= t
    ensures var m := Missing(base, arrivals);
            && r.next <= m && m !in r.packets
            && (forall t :: r.next <= t < m ==> t in r.packets)
            && AtRest(PopTo(r, m), base, arrivals)
  {
    var m := Missing(base, arrivals);
    assert base <= r.next;
    assert PopTo(r, m).packets.Keys == Waiting(base, arrivals);
  }

  lemma WaitingFits(r: Ref, policy: Policy, base: int, arrivals: seq<Arrival>)
    requires AtRest(r, base, arrivals)
    ensures GivesUp(r, policy) <==> Impatient(policy, base, arrivals)
  {
    assert |r.packets| == |r.packets.Keys|;
    assert r.packets == map[] <==> r.packets.Keys == {};
  }

  lemma {:induction false} NumbersFrom(k: Kind, window: nat, base: int, arrivals: seq<Arrival>)
    requires WellTimed(k, window, base, arrivals)
    ensures forall t :: t in Numbers(arrivals) ==> base <= t
  {
    if arrivals != [] {
      NumbersFrom(k, window, base, arrivals[..|arrivals| - 1]);
      NumbersSnoc(arrivals);
    }
  }

  lemma RepeatAtRest(r: Ref, base: int, arrivals: seq<Arrival>)
    requires arrivals != []
    requires var n := |arrivals| - 1;
             AtRest(r, base, arrivals[..n]) && arrivals[n].number in Numbers(arrivals[..n])
    ensures AtRest(r, base, arrivals)
    ensures Numbers(arrivals) == Numbers(arrivals[..|arrivals| - 1])
  {
    NumbersSnoc(arrivals);
    assert Numbers(arrivals) == Numbers(arrivals[..|arrivals| - 1]);
  }

  /** A patient run delivers the stream in order up to the lowest missing number,
      each number with the packet that arrived first under it. */
  lemma {:induction false} PatientRun(k: Kind, window: nat, policy: Policy, base: int, arrivals: seq<Arrival>)
    requires 0 < window && WellTimed(k, window, base, arrivals) && arrivals != []
    requires AlwaysPatient(policy, base, arrivals)
    ensures var (r, out) := RefReceive(window, policy, arrivals);
            && AtRest(r, base, arrivals)
            && out == InOrder(arrivals, base, Missing(base, arrivals))
  {
    var n := |arrivals| - 1;
    var a := arrivals[n];
    if n > 0 {
      PatientRun(k, window, policy, base, arrivals[..n]);
    }
    var (r, out) := RefReceive(window, policy, arrivals[..n]);
    NumbersSnoc(arrivals);
    if a.number in Numbers(arrivals[..n]) {
      RepeatIgnored(window, policy, arrivals[..n], a);
      RepeatAtRest(r, base, arrivals);
      assert out + [] == out;
    } else {
      PatientStep(k, window, policy, base, arrivals, r, out);
    }
  }

  lemma PatientStep(k: Kind, window: nat, policy: Policy, base: int, arrivals: seq<Arrival>, r: Ref, out: seq<Delivery>)
    requires 0 < window && WellTimed(k, window, base, arrivals) && arrivals != []
    requires !Impatient(policy, base, arrivals)
    requires Ready(window, r, base, arrivals[..|arrivals| - 1])
    requires var init := arrivals[..|arrivals| - 1];
             && out == (if init == [] then [] else InOrder(init, base, Missing(base, init)))
             && arrivals[|arrivals| - 1].number !in Numbers(init)
    ensures var (r1, more) := RefProcess(r, policy, arrivals[|arrivals| - 1]);
            AtRest(r1, base, arrivals) && out + more == InOrder(arrivals, base, Missing(base, arrivals))
  {
    PatientDrain(k, window, policy, base, arrivals, r);
    if |arrivals| == 1 {
      assert Numbers(arrivals[..0]) == {};
    }
    ExtendInOrder(base, arrivals, out, RefProcess(r, policy, arrivals[|arrivals| - 1]).1);
  }

  /** What a run of deliveries from one missing number to the next looks like. */
  ghost predicate Run(arrivals: seq<Arrival>, from: int, to: int, out: seq<Delivery>) {
    && from <= to && |out| == to - from
    && forall i {:trigger out[i]} :: 0 <= i < |out| ==>
         from + i in Numbers(arrivals) && out[i] == Delivery(from + i, FirstPacket(arrivals, from + i))
  }

  lemma DrainToRest(r: Ref, policy: Policy, base: int, arrivals: seq<Arrival>)
    requires arrivals != [] && Pushed(r, base, arrivals) && !Impatient(policy, base, arrivals)
    requires forall t :: t in Numbers(arrivals) ==> base <= t
    ensures AtRest(RefDrain(r, policy, false).0, base, arrivals)
    ensures Run(arrivals, r.next, Missing(base, arrivals), RefDrain(r, policy, false).1)
  {
    hide RefDrain, GivesUp, Impatient, Numbers, AtRest, LowestMissing;
    var m := Missing(base, arrivals);
    PushedRun(r, base, arrivals);
    WaitingFits(PopTo(r, m), policy, base, arrivals);
    DrainRun(r, policy, m);
  }

  lemma PatientDrain(k: Kind, window: nat, policy: Policy, base: int, arrivals: seq<Arrival>, r: Ref)
    requires 0 < window && WellTimed(k, window, base, arrivals) && arrivals != []
    requires !Impatient(policy, base, arrivals)
    requires Ready(window, r, base, arrivals[..|arrivals| - 1])
    requires arrivals[|arrivals| - 1].number !in Numbers(arrivals[..|arrivals| - 1])
    ensures var (r1, more) := RefProcess(r, policy, arrivals[|arrivals| - 1]);
            && AtRest(r1, base, arrivals)
            && Run(arrivals, Missing(base, arrivals[..|arrivals| - 1]), Missing(base, arrivals), more)
  {
    var a := arrivals[|arrivals| - 1];
    NewArrival(k, window, base, arrivals, r);
    NumbersFrom(k, window, base, arrivals);
    DrainToRest(RefPush(r, a.number, a.packet).0, policy, base, arrivals);
  }

  lemma ExtendInOrder(base: int, arrivals: seq<Arrival>, out: seq<Delivery>, more: seq<Delivery>)
    requires arrivals != []
    requires var init := arrivals[..|arrivals| - 1];
             && (if init == [] then out == [] && Missing(base, init) == base
                 else out == InOrder(init, base, Missing(base, init)))
             && Run(arrivals, Missing(base, init), Missing(base, arrivals), more)
    ensures out + more == InOrder(arrivals, base, Missing(base, arrivals))
  {
    NumbersSnoc(arrivals);
  }

  /** Once impatient, the number given up on is never delivered. */
  ghost predicate LostForever(window: nat, policy: Policy, base: int, arrivals: seq<Arrival>, m: int)
    requires 0 < window
  {
    var (r, out) := RefReceive(window, policy, arrivals);
    && base <= m < r.next
    && (exists t :: t in Numbers(arrivals) && m < t)
    && forall i :: 0 <= i < |out| ==> out[i].number != m
  }

  /** A drain never goes beyond all it holds. */
  lemma {:induction false} DrainBounded(r: Ref, policy: Policy, flushUsed: bool, bound: int)
    requires r.Valid() && r.next <= bound && forall t :: t in r.packets ==> t < bound
    ensures RefDrain(r, policy, flushUsed).0.next <= bound
    decreases |r.packets|, Ahead(r)
  {
    RefTurnProgress(r, policy, flushUsed);
    match TakeRefTurn(r, policy, flushUsed)
    case RefHand(next, _) => DrainBounded(next, policy, flushUsed, bound);
    case RefSkip(next) =>
      IntSetEmptyOrElement(r.packets.Keys);
      DrainBounded(next, policy, true, bound);
    case RefStop =>
  }

  /** The head has passed m and stays near it; what was handed over reaches m, where
      it has another number or nothing yet. */
  ghost predicate PassedOver(window: nat, base: int, m: int, r: Ref, out: seq<Delivery>) {
    && base <= m < r.next <= m + window
    && m - base <= |out| && (m - base < |out| ==> m < out[m - base].number < r.next)
  }

  lemma ImpatientDrain(r: Ref, policy: Policy, base: int, arrivals: seq<Arrival>)
    requires arrivals != [] && Pushed(r, base, arrivals) && Impatient(policy, base, arrivals)
    requires forall t :: t in Numbers(arrivals) ==> base <= t
    ensures var (r1, out) := RefDrain(r, policy, false);
            Missing(base, arrivals) < r1.next && forall i :: 0 <= i < |out| ==> out[i].number != Missing(base, arrivals)
    ensures PassedOver(r.window, r.next, Missing(base, arrivals), RefDrain(r, policy, false).0, RefDrain(r, policy, false).1)
    ensures exists t :: t in Numbers(arrivals) && Missing(base, arrivals) < t
  {
    hide Numbers, RefDrain, AtRest, Least;
    var m := Missing(base, arrivals);
    PushedRun(r, base, arrivals);
    WaitingFits(PopTo(r, m), policy, base, arrivals);
    DrainRun(r, policy, m);
    DrainBounded(r, policy, false, r.next + r.window);
    RefDrainForward(r, policy, false);
    IntSetEmptyOrElement(Waiting(base, arrivals));
  }

  /** A repeat cannot make a patient run impatient. */
  lemma RepeatStaysPatient(r: Ref, policy: Policy, base: int, arrivals: seq<Arrival>)
    requires arrivals != []
    requires var n := |arrivals| - 1;
             AtRest(r, base, arrivals[..n]) && arrivals[n].number in Numbers(arrivals[..n])
    ensures Impatient(policy, base, arrivals) == Impatient(policy, base, arrivals[..|arrivals| - 1])
  {
    RepeatAtRest(r, base, arrivals);
    WaitingFits(r, policy, base, arrivals);
    WaitingFits(r, policy, base, arrivals[..|arrivals| - 1]);
  }

  /** What a patient run has handed over are the numbers from base on. */
  ghost predicate Counts(base: int, to: int, out: seq<Delivery>) {
    |out| == to - base && forall i :: 0 <= i < |out| ==> out[i].number == base + i
  }

  lemma PatientOut(k: Kind, window: nat, policy: Policy, base: int, arrivals: seq<Arrival>)
    requires 0 < window && WellTimed(k, window, base, arrivals) && AlwaysPatient(policy, base, arrivals)
    ensures Ready(window, RefReceive(window, policy, arrivals).0, base, arrivals)
    ensures Counts(base, Missing(base, arrivals), RefReceive(window, policy, arrivals).1)
  {
    if arrivals != [] {
      PatientRun(k, window, policy, base, arrivals);
    } else {
      assert Numbers(arrivals) == {};
      LowestMissingUnique(Numbers(arrivals), base, base);
    }
  }

  lemma JoinPassed(window: nat, base: int, from: int, m: int, r: Ref, out: seq<Delivery>, more: seq<Delivery>)
    requires base <= from && Counts(base, from, out) && PassedOver(window, from, m, r, more)
    requires forall i :: 0 <= i < |more| ==> more[i].number != m
    ensures PassedOver(window, base, m, r, out + more)
    ensures forall i :: 0 <= i < |out + more| ==> (out + more)[i].number != m
  {
  }

  lemma ImpatientStep(k: Kind, window: nat, policy: Policy, base: int, arrivals: seq<Arrival>) returns (m: int)
    requires 0 < window && WellTimed(k, window, base, arrivals) && arrivals != []
    requires AlwaysPatient(policy, base, arrivals[..|arrivals| - 1]) && Impatient(policy, base, arrivals)
    ensures LostForever(window, policy, base, arrivals, m)
    ensures PassedOver(window, base, m, RefReceive(window, policy, arrivals).0, RefReceive(window, policy, arrivals).1)
  {
    hide Numbers, RefDrain, RefPush, AlwaysPatient, Impatient, Counts, PassedOver;
    var n := |arrivals| - 1;
    var a := arrivals[n];
    var (r, out) := RefReceive(window, policy, arrivals[..n]);
    m := Missing(base, arrivals);
    PatientOut(k, window, policy, base, arrivals[..n]);
    if a.number in Numbers(arrivals[..n]) {
      assert n > 0 by { NumbersEmpty(); }
      RepeatStaysPatient(r, policy, base, arrivals);
      NowPatient(policy, base, arrivals[..n]);
      assert false;
    } else {
      NewArrival(k, window, base, arrivals, r);
      NumbersFrom(k, window, base, arrivals);
      var r1 := RefPush(r, a.number, a.packet).0;
      ImpatientDrain(r1, policy, base, arrivals);
      var (r2, more) := RefDrain(r1, policy, false);
      assert RefReceive(window, policy, arrivals) == (r2, out + more);
      RefPushValid(r, a.number, a.packet);
      JoinPassed(window, base, r1.next, m, r2, out, more);
      Passes(window, base, m, r2, out + more);
    }
  }

  lemma Passes(window: nat, base: int, m: int, r: Ref, out: seq<Delivery>)
    requires PassedOver(window, base, m, r, out)
    ensures base <= m < r.next
  {
  }

  lemma NumbersEmpty()
    ensures Numbers([]) == {}
  {
  }

  lemma NowPatient(policy: Policy, base: int, arrivals: seq<Arrival>)
    requires AlwaysPatient(policy, base, arrivals) && arrivals != []
    ensures !Impatient(policy, base, arrivals)
  {
  }

  lemma {:induction false} RefImpatientRunLoses(k: Kind, window: nat, policy: Policy, base: int, arrivals: seq<Arrival>) returns (m: int)
    requires 0 < window && WellTimed(k, window, base, arrivals) && arrivals != []
    requires !AlwaysPatient(policy, base, arrivals)
    ensures LostForever(window, policy, base, arrivals, m)
  {
    var n := |arrivals| - 1;
    var a := arrivals[n];
    if !AlwaysPatient(policy, base, arrivals[..n]) {
      m := RefImpatientRunLoses(k, window, policy, base, arrivals[..n]);
      var r := RefReceive(window, policy, arrivals[..n]).0;
      NumbersSnoc(arrivals);
      RefPushValid(r, a.number, a.packet);
      RefDrainForward(RefPush(r, a.number, a.packet).0, policy, false);
    } else {
      m := ImpatientStep(k, window, policy, base, arrivals);
    }
  }

  /** All of base .. base+n has arrived, and nothing else. */
  ghost predicate NothingLost(base: int, n: nat, arrivals: seq<Arrival>) {
    arrivals != [] && forall t :: t in Numbers(arrivals) <==> base <= t < base + n
  }

  /** Over unbounded integers a stream of which nothing is lost is delivered
      completely, in order and without repeats if and only if the gap policy is
      never impatient. */
  lemma RefDeliveredIffPatient(k: Kind, window: nat, policy: Policy, base: int, n: nat, arrivals: seq<Arrival>)
    requires 0 < window && WellTimed(k, window, base, arrivals) && NothingLost(base, n, arrivals)
    ensures AlwaysPatient(policy, base, arrivals) <==>
            RefReceive(window, policy, arrivals).1 == InOrder(arrivals, base, base + n)
  {
    if AlwaysPatient(policy, base, arrivals) {
      LowestMissingUnique(Numbers(arrivals), base, base + n);
      PatientRun(k, window, policy, base, arrivals);
    } else {
      var m := RefImpatientRunLoses(k, window, policy, base, arrivals);
      assert InOrder(arrivals, base, base + n)[m - base].number == m;
    }
  }

  /** Waiting for missing packets never gives up. */
  lemma {:induction false} WaitingIsPatient(base: int, arrivals: seq<Arrival>)
    ensures AlwaysPatient(WaitForMissing, base, arrivals)
  {
    if arrivals != [] {
      WaitingIsPatient(base, arrivals[..|arrivals| - 1]);
    }
  }

  // ---- a patient run never confuses the merge history ------------------------------

  /** Small enough that neither the window nor the history comes near half a turn;
      8192 for video and 512 for audio are. */
  predicate SmallWindow(k: Kind, window: nat) {
    0 < window && 4 * window <= Modulus(k)
  }

  ghost function Interval(from: int, to: int): (ts: set<int>)
    ensures forall t :: t in ts <==> from <= t < to
    ensures |ts| == (if from <= to then to - from else 0)
    decreases -from + to
  {
    if from < to then Interval(from, to - 1) + {to - 1} else {}
  }

  lemma SubsetSize(xs: set<int>, ys: set<int>)
    requires xs <= ys
    ensures |xs| <= |ys|
  {
    assert ys == xs + (ys - xs);
  }

  lemma {:induction false} BelowWindow(k: Kind, window: nat, base: int, arrivals: seq<Arrival>)
    requires 0 < window && WellTimed(k, window, base, arrivals)
    ensures forall t :: t in Numbers(arrivals) ==> t < Missing(base, arrivals) + window
  {
    if arrivals != [] {
      var n := |arrivals| - 1;
      BelowWindow(k, window, base, arrivals[..n]);
      NumbersSnoc(arrivals);
      LowestMissingGrows(Numbers(arrivals[..n]), Numbers(arrivals), base);
    }
  }

  /** Up to the window, as many numbers have arrived as lie below the lowest missing. */
  lemma Counted(k: Kind, window: nat, base: int, arrivals: seq<Arrival>)
    requires 0 < window && WellTimed(k, window, base, arrivals)
    ensures var m, size := Missing(base, arrivals), |Numbers(arrivals)|;
            m - base <= size < m - base + window
  {
    var m := Missing(base, arrivals);
    NumbersFrom(k, window, base, arrivals);
    BelowWindow(k, window, base, arrivals);
    SubsetSize(Interval(base, m), Numbers(arrivals));
    SubsetSize(Numbers(arrivals) + {m}, Interval(base, m + window));
  }

  /** The i-th number ever accepted is not far below base + i, and none is far
      above the lowest missing number. */
  ghost predicate Recent(window: nat, base: int, m: int, size: nat, h: seq<int>) {
    && |h| <= size && |h| <= window
    && forall i :: 0 <= i < |h| ==> base + (size - |h| + i) - window < h[i] < m + window
  }

  lemma {:induction false} HistoryRecent(k: Kind, window: nat, policy: Policy, base: int, arrivals: seq<Arrival>)
    requires 0 < window && WellTimed(k, window, base, arrivals) && AlwaysPatient(policy, base, arrivals)
    ensures Recent(window, base, Missing(base, arrivals), |Numbers(arrivals)|, TrueHistory(window, policy, arrivals))
  {
    if arrivals != [] {
      var n := |arrivals| - 1;
      HistoryRecent(k, window, policy, base, arrivals[..n]);
      HistoryStep(k, window, policy, base, arrivals);
    }
  }

  lemma RecentSnoc(window: nat, base: int, m: int, m': int, size: nat, h: seq<int>, a: int)
    requires 0 < window && Recent(window, base, m, size, h) && m <= m'
    requires base + size - window < a < m' + window
    ensures Recent(window, base, m', size + 1, LastOf(h + [a], window))
  {
    var all, last := h + [a], LastOf(h + [a], window);
    forall i | 0 <= i < |last|
      ensures base + (size + 1 - |last| + i) - window < last[i] < m' + window
    {
      var j := |all| - |last| + i;
      assert last[i] == all[j] && (j < |h| ==> all[j] == h[j]);
    }
  }

  lemma RecentStays(window: nat, base: int, m: int, m': int, size: nat, h: seq<int>)
    requires Recent(window, base, m, size, h) && m <= m'
    ensures Recent(window, base, m', size, h)
  {
  }

  lemma HistoryStep(k: Kind, window: nat, policy: Policy, base: int, arrivals: seq<Arrival>)
    requires 0 < window && WellTimed(k, window, base, arrivals) && arrivals != []
    requires AlwaysPatient(policy, base, arrivals[..|arrivals| - 1])
    requires var init := arrivals[..|arrivals| - 1];
             Recent(window, base, Missing(base, init), |Numbers(init)|, TrueHistory(window, policy, init))
    ensures Recent(window, base, Missing(base, arrivals), |Numbers(arrivals)|, TrueHistory(window, policy, arrivals))
  {
    hide Recent, AlwaysPatient, RefPush, RefProcess, LastOf, AtRest, InOrder;
    var n := |arrivals| - 1;
    var init, a := arrivals[..n], arrivals[n];
    var r := RefReceive(window, policy, init).0;
    var size, h := |Numbers(init)|, TrueHistory(window, policy, init);
    var m, m' := Missing(base, init), Missing(base, arrivals);
    NumbersSnoc(arrivals);
    LowestMissingGrows(Numbers(init), Numbers(arrivals), base);
    if a.number in Numbers(init) {
      RepeatIgnored(window, policy, init, a);
      assert Numbers(arrivals) == Numbers(init);
      RecentStays(window, base, m, m', size, h);
    } else {
      if n > 0 {
        PatientRun(k, window, policy, base, init);
      }
      NewArrivalStored(k, window, base, arrivals, r);
      Counted(k, window, base, init);
      BelowWindow(k, window, base, arrivals);
      RecentSnoc(window, base, m, m', size, h, a.number);
    }
  }

  /** In a patient run no arrival is a full turn of the counter away from a
      remembered number: merging confuses nothing. */
  lemma {:induction false} PatientNoFullTurn(k: Kind, window: nat, policy: Policy, base: int, arrivals: seq<Arrival>)
    requires SmallWindow(k, window) && WellTimed(k, window, base, arrivals)
    requires arrivals != [] ==> AlwaysPatient(policy, base, arrivals[..|arrivals| - 1])
    ensures NoFullTurn(k, window, policy, arrivals)
  {
    if arrivals != [] {
      var n := |arrivals| - 1;
      var a := arrivals[n];
      PatientNoFullTurn(k, window, policy, base, arrivals[..n]);
      HistoryRecent(k, window, policy, base, arrivals[..n]);
      Counted(k, window, base, arrivals[..n]);
      var h := TrueHistory(window, policy, arrivals[..n]);
      forall t | t in h && Wrap(k, t) == Wrap(k, a.number) ensures t == a.number {
        var i :| 0 <= i < |h| && h[i] == t;
        WrapDist(k, t, a.number);
      }
    }
  }

  /** A patient run stays within half range of the expected number, and so does the
      arrival that ends it. */
  lemma {:induction false} PatientRunFits(k: Kind, window: nat, policy: Policy, base: int, arrivals: seq<Arrival>)
    requires WindowFits(k, window) && WellTimed(k, window, base, arrivals)
    requires arrivals != [] ==> AlwaysPatient(policy, base, arrivals[..|arrivals| - 1])
    ensures ArrivalsFit(k, window, policy, arrivals)
  {
    if arrivals != [] {
      var n := |arrivals| - 1;
      PatientRunFits(k, window, policy, base, arrivals[..n]);
      if n > 0 {
        PatientRun(k, window, policy, base, arrivals[..n]);
      }
    }
  }

  /** Position i holds the first arrival of number base + i. */
  ghost predicate WholeStream(k: Kind, base: int, n: nat, arrivals: seq<Arrival>, out: seq<Delivery>)
    requires NothingLost(base, n, arrivals)
  {
    && |out| == n
    && forall i :: 0 <= i < n ==> out[i] == Delivery(Wrap(k, base + i), FirstPacket(arrivals, base + i))
  }

  /** The modular loop, with or without merging, hands over exactly the stream. */
  lemma StreamDelivered(k: Kind, window: nat, merge: bool, policy: Policy, base: int, n: nat, arrivals: seq<Arrival>)
    requires SmallWindow(k, window) && WellTimed(k, window, base, arrivals) && NothingLost(base, n, arrivals)
    requires AlwaysPatient(policy, base, arrivals)
    ensures WholeStream(k, base, n, arrivals, Receive(k, window, merge, policy, arrivals).1)
  {
    hide WellTimed, ArrivalsFit, NoFullTurn, Receive, RefReceive, FirstPacket, TrueHistory, Refines;
    PatientRunFits(k, window, policy, base, arrivals);
    PatientNoFullTurn(k, window, policy, base, arrivals);
    ReceiveRefines(k, window, merge, policy, arrivals);
    RefDeliveredIffPatient(k, window, policy, base, n, arrivals);
  }
}
