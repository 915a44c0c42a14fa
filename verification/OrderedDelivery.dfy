/** Whole runs of the downstream loop, told in true packet numbers: repeated
    packets change nothing, and a stream is delivered completely and in order
    exactly when the gap policy never gives up on a number. */
module OrderedDelivery {
  import opened Basics
  import opened Packets
  import opened ReorderBuffer
  import opened ReorderReference
  import opened Downstream

  datatype Arrival = Arrival(number: int, packet: StoredPacket)

  // ---- the drain loop over true numbers ----------------------------------------

  ghost predicate RefWants(r: Ref, policy: Policy) {
    match policy
    case WaitForMissing => false
    case FlushGapOnce => true
    case FlushAfterN(n) => Enough(r, n)
    case FlushOnMarkerBoundary => RefHasMarker(r)
  }

  ghost predicate GivesUp(r: Ref, policy: Policy) {
    RefWants(r, policy) && CanFlush(r)
  }

  ghost function Ahead(r: Ref): int {
    if r.packets.Keys == {} then 0 else Least(r.packets.Keys) - r.next
  }

  ghost predicate AtHead(r: Ref) {
    r.initialized && r.next in r.packets
  }

  lemma RefProgress(r: Ref)
    requires r.Valid()
    ensures RefPop(r).0.Valid() && RefFlush(r, true).0.Valid()
    ensures AtHead(r) ==> |RefPop(r).0.packets| < |r.packets|
    ensures CanFlush(r) ==> RefFlush(r, true).0.packets == r.packets && 0 <= Ahead(RefFlush(r, true).0) < Ahead(r)
  {
    if AtHead(r) {
      var left := r.packets - {r.next};
      assert left.Keys == r.packets.Keys - {r.next};
      assert |left.Keys| == |left|;
    }
    if CanFlush(r) {
      IntSetEmptyOrElement(r.packets.Keys);
      assert Least(r.packets.Keys) in r.packets;
    }
  }

  /** One turn of the loop over true numbers. */
  datatype RefTurn = RefHand(next: Ref, d: Delivery) | RefSkip(next: Ref) | RefStop

  ghost function TakeRefTurn(r: Ref, policy: Policy, flushUsed: bool): RefTurn {
    if AtHead(r) then RefHand(RefPop(r).0, Delivery(r.next, r.packets[r.next]))
    else if (!flushUsed || policy.ManyFlushes()) && GivesUp(r, policy) then RefSkip(RefFlush(r, true).0)
    else RefStop
  }

  /** Termination, as for the modular loop. */
  lemma RefTurnProgress(r: Ref, policy: Policy, flushUsed: bool)
    requires r.Valid()
    ensures var turn := TakeRefTurn(r, policy, flushUsed);
            && (turn.RefHand? ==> turn.next.Valid() && |turn.next.packets| < |r.packets|)
            && (turn.RefSkip? ==> turn.next.Valid() && turn.next.packets == r.packets && 0 <= Ahead(turn.next) < Ahead(r))
  {
  }

  ghost function RefDrain(r: Ref, policy: Policy, flushUsed: bool): (Ref, seq<Delivery>)
    requires r.Valid()
    decreases |r.packets|, Ahead(r)
  {
    RefTurnProgress(r, policy, flushUsed);
    match TakeRefTurn(r, policy, flushUsed)
    case RefHand(next, d) => var (rest, out) := RefDrain(next, policy, flushUsed); (rest, [d] + out)
    case RefSkip(next) => RefDrain(next, policy, true)
    case RefStop => (r, [])
  }

  /** What was handed over between r and r1 lies at or after the head of r and
      before everything that r1 still holds. */
  ghost predicate Forward(r: Ref, r1: Ref, out: seq<Delivery>) {
    && r1.Valid() && r1.window == r.window && r1.initialized == r.initialized
    && r.next <= r1.next
    && (forall i :: 0 <= i < |out| ==> r.next <= out[i].number < r1.next)
    && (forall i, j :: 0 <= i < j < |out| ==> out[i].number < out[j].number)
    && (forall t :: t in r.packets ==> t < r1.next || (t in r1.packets && r1.packets[t] == r.packets[t]))
    && (forall t :: t in r1.packets ==> t in r.packets)
  }

  lemma ForwardTurn(r: Ref, policy: Policy, flushUsed: bool, r1: Ref, out: seq<Delivery>)
    requires r.Valid()
    requires match TakeRefTurn(r, policy, flushUsed)
             case RefHand(next, _) => Forward(next, r1, out)
             case RefSkip(next) => Forward(next, r1, out)
             case RefStop => r1 == r && out == []
    ensures match TakeRefTurn(r, policy, flushUsed)
            case RefHand(_, d) => Forward(r, r1, [d] + out)
            case RefSkip(_) => Forward(r, r1, out)
            case RefStop => Forward(r, r1, out)
  {
  }

  /** A drain only moves forward. */
  lemma {:induction false} RefDrainForward(r: Ref, policy: Policy, flushUsed: bool)
    requires r.Valid()
    ensures Forward(r, RefDrain(r, policy, flushUsed).0, RefDrain(r, policy, flushUsed).1)
    decreases |r.packets|, Ahead(r)
  {
    RefTurnProgress(r, policy, flushUsed);
    match TakeRefTurn(r, policy, flushUsed)
    case RefHand(next, _) =>
      RefDrainForward(next, policy, flushUsed);
      ForwardTurn(r, policy, flushUsed, RefDrain(next, policy, flushUsed).0, RefDrain(next, policy, flushUsed).1);
    case RefSkip(next) =>
      RefDrainForward(next, policy, true);
      ForwardTurn(r, policy, flushUsed, RefDrain(next, policy, true).0, RefDrain(next, policy, true).1);
    case RefStop =>
  }

  ghost predicate SameDeliveries(k: Kind, out: seq<Delivery>, ref: seq<Delivery>) {
    && |out| == |ref|
    && forall i :: 0 <= i < |out| ==> out[i] == Delivery(Wrap(k, ref[i].number), ref[i].packet)
  }

  ghost predicate DrainsAgree(k: Kind, t: State, out: seq<Delivery>, r: Ref, ref: seq<Delivery>) {
    Refines(t, r) && t.kind == k && SameDeliveries(k, out, ref)
  }

  lemma HandAgrees(k: Kind, t: State, out: seq<Delivery>, r: Ref, ref: seq<Delivery>, d: Delivery, rd: Delivery)
    requires DrainsAgree(k, t, out, r, ref) && d == Delivery(Wrap(k, rd.number), rd.packet)
    ensures DrainsAgree(k, t, [d] + out, r, [rd] + ref)
  {
  }

  lemma {:induction false} DrainRefines(s: State, r: Ref, policy: Policy, flushUsed: bool)
    requires Refines(s, r)
    ensures DrainsAgree(s.kind, Drain(s, policy, flushUsed).0, Drain(s, policy, flushUsed).1,
                        RefDrain(r, policy, flushUsed).0, RefDrain(r, policy, flushUsed).1)
    decreases |r.packets|, Ahead(r)
  {
    hide TakeTurn;
    hide TakeRefTurn;
    RefTurnProgress(r, policy, flushUsed);
    TurnRefines(s, r, policy, flushUsed);
    var turn, ref := TakeTurn(s, policy, flushUsed), TakeRefTurn(r, policy, flushUsed);
    if turn.Hand? {
      DrainRefines(turn.next, ref.next, policy, flushUsed);
      var (t, out) := Drain(turn.next, policy, flushUsed);
      var (r1, refOut) := RefDrain(ref.next, policy, flushUsed);
      HandAgrees(s.kind, t, out, r1, refOut, turn.d, ref.d);
      assert Drain(s, policy, flushUsed) == (t, [turn.d] + out);
      assert RefDrain(r, policy, flushUsed) == (r1, [ref.d] + refOut);
    } else if turn.Skip? {
      DrainRefines(turn.next, ref.next, policy, true);
      assert Drain(s, policy, flushUsed) == Drain(turn.next, policy, true);
      assert RefDrain(r, policy, flushUsed) == RefDrain(ref.next, policy, true);
    } else {
      assert Drain(s, policy, flushUsed) == (turn.next, []);
      assert RefDrain(r, policy, flushUsed) == (r, []);
    }
  }

  ghost predicate TurnsAgree(k: Kind, turn: Turn, ref: RefTurn, r: Ref) {
    match turn
    case Hand(next, d) =>
      ref.RefHand? && Refines(next, ref.next) && next.kind == k && d == Delivery(Wrap(k, ref.d.number), ref.d.packet)
    case Skip(next) => ref.RefSkip? && Refines(next, ref.next) && next.kind == k
    case Stop(next) => ref.RefStop? && Refines(next, r) && next.kind == k
  }

  lemma TurnRefines(s: State, r: Ref, policy: Policy, flushUsed: bool)
    requires Refines(s, r)
    ensures TurnsAgree(s.kind, TakeTurn(s, policy, flushUsed), TakeRefTurn(r, policy, flushUsed), r)
  {
    var popped := PopNext(s).0;
    PopRefines(s, r);
    PopFacts(s);
    if !AtHead(r) {
      SameSize(popped, r);
      SameMarker(popped, r);
      FlushRefines(popped, r);
    }
  }

  // ---- one arrival, and runs of arrivals ------------------------------------------

  ghost function RefProcess(r: Ref, policy: Policy, a: Arrival): (Ref, seq<Delivery>)
    requires r.Valid()
  {
    var (r1, ok) := RefPush(r, a.number, a.packet);
    RefPushValid(r, a.number, a.packet);
    if ok then RefDrain(r1, policy, false) else (r1, [])
  }

  lemma RefPushValid(r: Ref, t: int, p: StoredPacket)
    requires r.Valid()
    ensures var (r1, ok) := RefPush(r, t, p);
            && r1.Valid() && r1.window == r.window && r1.initialized
            && (r.initialized ==> r.next <= r1.next)
            && (ok ==> t in r1.packets && r1.next <= t)
            && (!ok ==> r1 == r && (t < r.next || t in r.packets))
            && (r.initialized ==> forall u :: u in r.packets ==> u < r1.next || u in r1.packets)
  {
  }

  ghost function RefReceive(window: nat, policy: Policy, arrivals: seq<Arrival>): (res: (Ref, seq<Delivery>))
    requires 0 < window
    ensures res.0.Valid() && res.0.window == window
    ensures arrivals != [] ==> res.0.initialized
  {
    if arrivals == [] then (FreshRef(window), [])
    else
      var n := |arrivals| - 1;
      var (r, out) := RefReceive(window, policy, arrivals[..n]);
      var (r1, more) := RefProcess(r, policy, arrivals[n]);
      RefPushValid(r, arrivals[n].number, arrivals[n].packet);
      RefDrainForward(RefPush(r, arrivals[n].number, arrivals[n].packet).0, policy, false);
      (r1, out + more)
  }

  ghost function Numbers(arrivals: seq<Arrival>): (ts: set<int>)
    ensures forall i :: 0 <= i < |arrivals| ==> arrivals[i].number in ts
  {
    set i | 0 <= i < |arrivals| :: arrivals[i].number
  }

  lemma NumbersSnoc(arrivals: seq<Arrival>)
    requires arrivals != []
    ensures Numbers(arrivals) == Numbers(arrivals[..|arrivals| - 1]) + {arrivals[|arrivals| - 1].number}
  {
  }

  /** Every number seen is behind the head or still buffered. */
  lemma {:induction false} SeenIsHeldOrPassed(window: nat, policy: Policy, arrivals: seq<Arrival>)
    requires 0 < window
    ensures var r := RefReceive(window, policy, arrivals).0;
            forall t :: t in Numbers(arrivals) ==> t < r.next || t in r.packets
  {
    if arrivals != [] {
      var n := |arrivals| - 1;
      var a := arrivals[n];
      var r := RefReceive(window, policy, arrivals[..n]).0;
      NumbersSnoc(arrivals);
      SeenIsHeldOrPassed(window, policy, arrivals[..n]);
      RefPushValid(r, a.number, a.packet);
      RefDrainForward(RefPush(r, a.number, a.packet).0, policy, false);
    }
  }

  /** A number seen before is late or a duplicate: it changes nothing. */
  lemma RepeatIgnored(window: nat, policy: Policy, arrivals: seq<Arrival>, a: Arrival)
    requires 0 < window
    requires a.number in Numbers(arrivals)
    ensures var r := RefReceive(window, policy, arrivals).0;
            RefProcess(r, policy, a) == (r, []) && !RefPush(r, a.number, a.packet).1
  {
    SeenIsHeldOrPassed(window, policy, arrivals);
  }

  /** The arrivals without the repeats. */
  ghost function Firsts(arrivals: seq<Arrival>): seq<Arrival> {
    if arrivals == [] then []
    else
      var n := |arrivals| - 1;
      if arrivals[n].number in Numbers(arrivals[..n]) then Firsts(arrivals[..n])
      else Firsts(arrivals[..n]) + [arrivals[n]]
  }

  lemma {:induction false} RefIgnoresRepeats(window: nat, policy: Policy, arrivals: seq<Arrival>)
    requires 0 < window
    ensures RefReceive(window, policy, arrivals) == RefReceive(window, policy, Firsts(arrivals))
  {
    if arrivals != [] {
      var n := |arrivals| - 1;
      RefIgnoresRepeats(window, policy, arrivals[..n]);
      if arrivals[n].number in Numbers(arrivals[..n]) {
        RepeatIgnored(window, policy, arrivals[..n], arrivals[n]);
        var out := RefReceive(window, policy, arrivals[..n]).1;
        assert out + [] == out;
      } else {
        var fs := Firsts(arrivals);
        assert fs[..|fs| - 1] == Firsts(arrivals[..n]);
      }
    }
  }

  // ---- the modular loop follows the reference -----------------------------------------

  /** Every packet carries its wrapped number, and its true number is within half
      range of the number expected when it arrives. */
  ghost predicate ArrivalsFit(k: Kind, window: nat, policy: Policy, arrivals: seq<Arrival>)
    requires 0 < window
  {
    arrivals != [] ==>
      var n := |arrivals| - 1;
      && ArrivalsFit(k, window, policy, arrivals[..n])
      && ArrivalFits(k, RefReceive(window, policy, arrivals[..n]).0, arrivals[n])
  }

  ghost predicate ArrivalFits(k: Kind, r: Ref, a: Arrival) {
    && a.packet.extendedSeq == Wrap(k, a.number)
    && (r.initialized ==> InHalfRange(k, a.number - r.next))
  }

  /** The true numbers the merge history stands for. */
  ghost function TrueHistory(window: nat, policy: Policy, arrivals: seq<Arrival>): seq<int>
    requires 0 < window
  {
    if arrivals == [] then []
    else
      var n := |arrivals| - 1;
      var h := TrueHistory(window, policy, arrivals[..n]);
      if RefPush(RefReceive(window, policy, arrivals[..n]).0, arrivals[n].number, arrivals[n].packet).1
      then LastOf(h + [arrivals[n].number], window) else h
  }

  /** No arrival is a full turn of the counter away from a remembered number. */
  ghost predicate NoFullTurn(k: Kind, window: nat, policy: Policy, arrivals: seq<Arrival>)
    requires 0 < window
  {
    arrivals != [] ==>
      var n := |arrivals| - 1;
      && NoFullTurn(k, window, policy, arrivals[..n])
      && forall t :: t in TrueHistory(window, policy, arrivals[..n]) && Wrap(k, t) == Wrap(k, arrivals[n].number)
           ==> t == arrivals[n].number
  }

  ghost function Receive(k: Kind, window: nat, merge: bool, policy: Policy, arrivals: seq<Arrival>): (res: (DownState, seq<Delivery>))
    requires 0 < window
    ensures res.0.Valid() && res.0.reorder.kind == k && res.0.reorder.window == window
    ensures res.0.merge == merge && res.0.policy == policy
  {
    if arrivals == [] then (FreshDown(k, window, merge, policy), [])
    else
      var n := |arrivals| - 1;
      var (d, out) := Receive(k, window, merge, policy, arrivals[..n]);
      ProcessKeepsValid(d, arrivals[n].packet);
      var (d1, more) := Process(d, arrivals[n].packet);
      (d1, out + more)
  }

  function Wrapped(k: Kind, ts: seq<int>): (cs: seq<int>)
    ensures |cs| == |ts| && forall i :: 0 <= i < |ts| ==> cs[i] == Wrap(k, ts[i])
  {
    seq(|ts|, i requires 0 <= i < |ts| => Wrap(k, ts[i]))
  }

  lemma WrappedLast(k: Kind, ts: seq<int>, t: int, n: nat)
    ensures LastOf(Wrapped(k, ts) + [Wrap(k, t)], n) == Wrapped(k, LastOf(ts + [t], n))
  {
  }

  lemma {:induction false} HistoryWasSeen(window: nat, policy: Policy, arrivals: seq<Arrival>)
    requires 0 < window
    ensures forall t :: t in TrueHistory(window, policy, arrivals) ==> t in Numbers(arrivals)
  {
    if arrivals != [] {
      HistoryWasSeen(window, policy, arrivals[..|arrivals| - 1]);
      NumbersSnoc(arrivals);
    }
  }

  lemma ProcessRefines(d: DownState, r: Ref, a: Arrival)
    requires d.Valid() && Refines(d.reorder, r) && ArrivalFits(d.reorder.kind, r, a)
    requires !(d.merge && a.packet.extendedSeq in d.history.members)
    ensures var (d1, out) := Process(d, a.packet);
            var (r1, ref) := RefProcess(r, d.policy, a);
            Refines(d1.reorder, r1) && SameDeliveries(d.reorder.kind, out, ref)
    ensures Push(d.reorder, a.packet).1 == RefPush(r, a.number, a.packet).1
  {
    hide Push;
    hide RefPush;
    PushRefines(d.reorder, r, a.number, a.packet);
    PushKeepsShape(d.reorder, a.packet);
    if RefPush(r, a.number, a.packet).1 {
      DrainRefines(Push(d.reorder, a.packet).0, RefPush(r, a.number, a.packet).0, d.policy, false);
    }
  }

  /** The downstream loop, with or without the merge history, delivers what the
      reference delivers. */
  lemma {:induction false} ReceiveRefines(k: Kind, window: nat, merge: bool, policy: Policy, arrivals: seq<Arrival>)
    requires WindowFits(k, window) && ArrivalsFit(k, window, policy, arrivals)
    requires merge ==> NoFullTurn(k, window, policy, arrivals)
    ensures var (d, out) := Receive(k, window, merge, policy, arrivals);
            var (r, ref) := RefReceive(window, policy, arrivals);
            && Refines(d.reorder, r) && SameDeliveries(k, out, ref)
            && (merge ==> d.history.ordered == Wrapped(k, TrueHistory(window, policy, arrivals)))
  {
    if arrivals != [] {
      var n := |arrivals| - 1;
      var a := arrivals[n];
      ReceiveRefines(k, window, merge, policy, arrivals[..n]);
      var d, r := Receive(k, window, merge, policy, arrivals[..n]).0, RefReceive(window, policy, arrivals[..n]).0;
      var h := TrueHistory(window, policy, arrivals[..n]);
      if merge && a.packet.extendedSeq in d.history.members {
        var i :| 0 <= i < |h| && Wrap(k, h[i]) == Wrap(k, a.number);
        assert h[i] in h;
        HistoryWasSeen(window, policy, arrivals[..n]);
        RepeatIgnored(window, policy, arrivals[..n], a);
      } else {
        ProcessRefines(d, r, a);
        if merge {
          RememberKeepsValid(d.history, a.packet.extendedSeq, window);
          WrappedLast(k, h, a.number, window);
        }
      }
    } else {
      assert Wrapped(k, TrueHistory(window, policy, arrivals)) == [];
    }
  }

  lemma {:induction false} FirstsFit(k: Kind, window: nat, policy: Policy, arrivals: seq<Arrival>)
    requires 0 < window && ArrivalsFit(k, window, policy, arrivals) && NoFullTurn(k, window, policy, arrivals)
    ensures ArrivalsFit(k, window, policy, Firsts(arrivals)) && NoFullTurn(k, window, policy, Firsts(arrivals))
    ensures TrueHistory(window, policy, Firsts(arrivals)) == TrueHistory(window, policy, arrivals)
  {
    if arrivals != [] {
      var n := |arrivals| - 1;
      FirstsFit(k, window, policy, arrivals[..n]);
      RefIgnoresRepeats(window, policy, arrivals[..n]);
      if arrivals[n].number in Numbers(arrivals[..n]) {
        RepeatIgnored(window, policy, arrivals[..n], arrivals[n]);
      } else {
        var fs := Firsts(arrivals);
        assert fs[..|fs| - 1] == Firsts(arrivals[..n]);
      }
    }
  }

  /** Duplicate transparency: for any interleaving of the legs, dropping every
      repeat beforehand, and switching the merge history on or off, leave the
      delivered stream unchanged. */
  lemma DuplicateTransparency(k: Kind, window: nat, policy: Policy, arrivals: seq<Arrival>, merge: bool, merge': bool)
    requires WindowFits(k, window) && ArrivalsFit(k, window, policy, arrivals) && NoFullTurn(k, window, policy, arrivals)
    ensures Receive(k, window, merge, policy, arrivals).1 == Receive(k, window, merge', policy, Firsts(arrivals)).1
  {
    FirstsFit(k, window, policy, arrivals);
    RefIgnoresRepeats(window, policy, arrivals);
    ReceiveRefines(k, window, merge, policy, arrivals);
    ReceiveRefines(k, window, merge', policy, Firsts(arrivals));
  }
}
