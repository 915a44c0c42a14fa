/** When a stream is not delivered: once the modular loop has passed over a missing
    number, no later packet ever takes its position, whatever arrives then. */
module LossyDelivery {
  import opened Basics
  import opened Packets
  import opened ReorderBuffer
  import opened ReorderReference
  import opened Downstream
  import opened OrderedDelivery
  import opened CompleteDelivery

  ghost predicate AllInWindow(s: State)
    requires IsSeq(s.kind, s.expected)
  {
    forall c :: c in s.packets ==> InWindow(s, c)
  }

  /** The head has passed c, and neither it nor the nearest packet is far from c. */
  ghost predicate Beyond(s: State, c: int) {
    && s.Valid() && s.initialized && IsSeq(s.kind, c) && SmallWindow(s.kind, s.window)
    && AllInWindow(s)
    && 0 < Dist(s.kind, s.expected, c)
    && (s.packets == map[] ==> Dist(s.kind, s.expected, c) <= s.window)
    && (s.packets != map[] ==> exists x :: NearPacket(s, c, x))
  }

  ghost predicate NearPacket(s: State, c: int, x: int) {
    && IsSeq(s.kind, c) && IsSeq(s.kind, s.expected) && IsSeq(s.kind, x)
    && x in s.packets
    && Dist(s.kind, s.expected, c) + Dist(s.kind, x, s.expected) < 2 * s.window
  }

  /** What a push leaves the drain to start from: the head beyond c, perhaps after
      a jump, and then a packet there. */
  ghost predicate Poised(s: State, c: int) {
    Beyond(s, c) || (s.Valid() && s.initialized && s.HasExpected() && s.expected != c)
  }

  lemma JumpTargetDistance(s: State, number: int)
    requires s.Valid() && IsSeq(s.kind, number)
    requires s.window <= Dist(s.kind, number, s.expected) <= LateLimit(s.kind)
    ensures Dist(s.kind, RecoveryTarget(s, number), s.expected) <= LateLimit(s.kind)
    ensures RecoveryTarget(s, number) == number || RecoveryTarget(s, number) in s.packets
  {
    NearestRecoveryIsNearest(s, number, 0);
  }

  lemma SumOfDistances(k: Kind, a: int, b: int, c: int)
    requires IsSeq(k, a) && IsSeq(k, b) && IsSeq(k, c)
    requires Dist(k, a, b) + Dist(k, b, c) < Modulus(k)
    ensures Dist(k, a, c) == Dist(k, a, b) + Dist(k, b, c)
  {
  }

  lemma JumpPoised(s: State, number: int, p: StoredPacket, c: int)
    requires Beyond(s, c) && IsSeq(s.kind, number)
    requires s.window <= Dist(s.kind, number, s.expected) <= LateLimit(s.kind)
    ensures Place(s, number, p).1 && Poised(Place(s, number, p).0, c)
  {
    var target := RecoveryTarget(s, number);
    PlaceAfterJump(s, number, p);
    JumpTargetDistance(s, number);
    SumOfDistances(s.kind, target, s.expected, c);
    assert number in s.packets ==> InWindow(s, number);
  }

  lemma PlacePoised(s: State, number: int, p: StoredPacket, c: int)
    requires Beyond(s, c) && IsSeq(s.kind, number)
    ensures var (t, ok) := Place(s, number, p);
            if ok then Poised(t, c) else Beyond(t, c)
  {
    var t := Place(s, number, p).0;
    var d := Dist(s.kind, number, s.expected);
    if s.window <= d <= LateLimit(s.kind) {
      JumpPoised(s, number, p, c);
    } else if d < s.window {
      if s.packets == map[] {
        assert NearPacket(t, c, number);
      } else {
        var x :| NearPacket(s, c, x);
        assert NearPacket(t, c, x);
      }
    } else if s.packets != map[] {
      var x :| NearPacket(s, c, x);
      assert NearPacket(t, c, x);
    }
  }

  /** A drain either hands over nothing and stays near, or hands over first a packet
      that is not c. */
  lemma {:induction false} DrainBeyond(s: State, policy: Policy, flushUsed: bool, c: int)
    requires Poised(s, c)
    ensures var (t, out) := Drain(s, policy, flushUsed);
            if out == [] then Beyond(t, c) else out[0].number != c
    decreases |s.packets|, Gap(s, 0)
  {
    hide TakeTurn;
    TurnProgress(s, policy, flushUsed);
    DrainUnfolds(s, policy, flushUsed);
    TurnBeyond(s, policy, flushUsed, c);
    var turn := TakeTurn(s, policy, flushUsed);
    if turn.Skip? {
      DrainBeyond(turn.next, policy, true, c);
    }
  }

  lemma FlushBeyond(s: State, c: int)
    requires Beyond(s, c) && FlushMissingOnce(s).1
    ensures Beyond(FlushMissingOnce(s).0, c)
  {
    var next := FlushMissingOnce(s).0;
    var x :| NearPacket(s, c, x);
    assert NearPacket(next, c, x);
  }

  lemma SameBeyond(s: State, t: State, c: int)
    requires Beyond(s, c) && t.(stats := s.stats, headAccounted := s.headAccounted) == s
    ensures Beyond(t, c)
  {
    if s.packets != map[] {
      var x :| NearPacket(s, c, x);
      assert NearPacket(t, c, x);
    }
  }

  lemma TurnBeyond(s: State, policy: Policy, flushUsed: bool, c: int)
    requires Poised(s, c)
    ensures match TakeTurn(s, policy, flushUsed)
            case Hand(_, d) => d.number != c
            case Skip(next) => Beyond(next, c)
            case Stop(next) => Beyond(next, c)
  {
    hide Wants, FlushMissingOnce;
    var popped := PopNext(s).0;
    if PopNext(s).1.None? {
      NoPop(s);
      hide PopNext, Beyond;
      SameBeyond(s, popped, c);
      if FlushMissingOnce(popped).1 {
        FlushBeyond(popped, c);
      }
      NoFlush(popped);
    }
  }

  lemma NoPop(s: State)
    requires s.Valid() && PopNext(s).1.None?
    ensures PopNext(s).0.(stats := s.stats, headAccounted := s.headAccounted) == s
    ensures s.initialized ==> !s.HasExpected()
  {
  }

  lemma NoFlush(s: State)
    requires s.Valid()
    ensures !FlushMissingOnce(s).1 ==> FlushMissingOnce(s).0 == s
  {
  }

  /** Position at is taken by another number than c, or not yet and not soon. */
  ghost predicate NeverAt(s: State, out: seq<Delivery>, at: nat, c: int) {
    if |out| > at then out[at].number != c else |out| == at && Beyond(s, c)
  }

  lemma ProcessNeverAt(d: DownState, p: StoredPacket, out: seq<Delivery>, at: nat, c: int)
    requires d.Valid() && NeverAt(d.reorder, out, at, c)
    ensures var (d1, more) := Process(d, p);
            NeverAt(d1.reorder, out + more, at, c)
  {
    if |out| == at && !(d.merge && p.extendedSeq in d.history.members) {
      var number := SeqOf(d.reorder.kind, p);
      ArriveBeyond(d.reorder, number, c);
      PlacePoised(Arrive(d.reorder, number), number, p, c);
      if Push(d.reorder, p).1 {
        DrainBeyond(Push(d.reorder, p).0, d.policy, false, c);
      }
    }
  }

  lemma ArriveBeyond(s: State, number: int, c: int)
    requires Beyond(s, c)
    ensures Beyond(Arrive(s, number), c)
  {
    if s.packets != map[] {
      var x :| NearPacket(s, c, x);
      assert NearPacket(Arrive(s, number), c, x);
    }
  }

  lemma {:induction false} StaysNeverAt(k: Kind, window: nat, merge: bool, policy: Policy, arrivals: seq<Arrival>,
                                        j: nat, at: nat, c: int)
    requires 0 < window && j <= |arrivals|
    requires NeverAt(Receive(k, window, merge, policy, arrivals[..j]).0.reorder,
                     Receive(k, window, merge, policy, arrivals[..j]).1, at, c)
    ensures NeverAt(Receive(k, window, merge, policy, arrivals).0.reorder,
                    Receive(k, window, merge, policy, arrivals).1, at, c)
    decreases |arrivals|
  {
    hide NeverAt, Process;
    if j < |arrivals| {
      var n := |arrivals| - 1;
      assert arrivals[..n][..j] == arrivals[..j];
      StaysNeverAt(k, window, merge, policy, arrivals[..n], j, at, c);
      var (d, out) := Receive(k, window, merge, policy, arrivals[..n]);
      ProcessNeverAt(d, arrivals[n].packet, out, at, c);
    } else {
      assert arrivals[..j] == arrivals;
    }
  }

  /** Where the modular loop stands when it has just given up on m. */
  lemma GivenUp(k: Kind, window: nat, merge: bool, policy: Policy, base: int, arrivals: seq<Arrival>, m: int)
    requires SmallWindow(k, window) && ArrivalsFit(k, window, policy, arrivals) && arrivals != []
    requires NoFullTurn(k, window, policy, arrivals)
    requires PassedOver(window, base, m, RefReceive(window, policy, arrivals).0, RefReceive(window, policy, arrivals).1)
    ensures NeverAt(Receive(k, window, merge, policy, arrivals).0.reorder,
                    Receive(k, window, merge, policy, arrivals).1, m - base, Wrap(k, m))
  {
    hide ArrivalsFit, NoFullTurn, TrueHistory;
    ReceiveRefines(k, window, merge, policy, arrivals);
    var (r, ref) := RefReceive(window, policy, arrivals);
    var s := Receive(k, window, merge, policy, arrivals).0.reorder;
    WrapDist(k, r.next, m);
    if m - base < |ref| {
      WrapDist(k, ref[m - base].number, m);
    } else {
      RefinedBeyond(s, r, m);
    }
  }

  lemma RefinedBeyond(s: State, r: Ref, m: int)
    requires Refines(s, r) && r.initialized && SmallWindow(s.kind, s.window)
    requires m < r.next <= m + r.window
    ensures Beyond(s, Wrap(s.kind, m))
  {
    WrapDist(s.kind, r.next, m);
    forall c | c in s.packets ensures InWindow(s, c) && NearPacket(s, Wrap(s.kind, m), c) {
      WrapOfUnwrap(s, r, c);
    }
    if s.packets != map[] {
      IntSetEmptyOrElement(s.packets.Keys);
      var x :| x in s.packets;
      assert NearPacket(s, Wrap(s.kind, m), x);
    }
  }

  lemma FirstLoss(k: Kind, window: nat, merge: bool, policy: Policy, base: int, arrivals: seq<Arrival>) returns (m: int)
    requires SmallWindow(k, window) && WellTimed(k, window, base, arrivals) && arrivals != []
    requires AlwaysPatient(policy, base, arrivals[..|arrivals| - 1]) && Impatient(policy, base, arrivals)
    ensures base <= m && exists t :: t in Numbers(arrivals) && m < t
    ensures NeverAt(Receive(k, window, merge, policy, arrivals).0.reorder,
                    Receive(k, window, merge, policy, arrivals).1, m - base, Wrap(k, m))
  {
    hide NeverAt, Receive, Impatient, AlwaysPatient, WellTimed, RefReceive, ArrivalsFit, NoFullTurn, TrueHistory;
    m := ImpatientStep(k, window, policy, base, arrivals);
    PatientRunFits(k, window, policy, base, arrivals);
    PatientNoFullTurn(k, window, policy, base, arrivals);
    GivenUp(k, window, merge, policy, base, arrivals, m);
  }

  /** As soon as the gap policy gives up on a number that is still to come, its
      position in what the modular loop hands over is lost to it for good. */
  lemma {:induction false} ImpatientRunLoses(k: Kind, window: nat, merge: bool, policy: Policy, base: int,
                                             arrivals: seq<Arrival>) returns (m: int)
    requires SmallWindow(k, window) && WellTimed(k, window, base, arrivals)
    requires arrivals != [] && !AlwaysPatient(policy, base, arrivals)
    ensures base <= m && exists t :: t in Numbers(arrivals) && m < t
    ensures NeverAt(Receive(k, window, merge, policy, arrivals).0.reorder,
                    Receive(k, window, merge, policy, arrivals).1, m - base, Wrap(k, m))
  {
    hide NeverAt, Receive, Impatient, LowestMissing;
    var n := |arrivals| - 1;
    if AlwaysPatient(policy, base, arrivals[..n]) {
      m := FirstLoss(k, window, merge, policy, base, arrivals);
    } else {
      m := ImpatientRunLoses(k, window, merge, policy, base, arrivals[..n]);
      StaysNeverAt(k, window, merge, policy, arrivals, n, m - base, Wrap(k, m));
      NumbersSnoc(arrivals);
    }
  }

  /** The exact condition for complete delivery by the modular loop, with or without
      merging: a stream of which nothing is lost is delivered completely, in order
      and without repeats if and only if the gap policy is never impatient. */
  lemma DeliveredIffPatient(k: Kind, window: nat, merge: bool, policy: Policy, base: int, n: nat, arrivals: seq<Arrival>)
    requires SmallWindow(k, window) && WellTimed(k, window, base, arrivals) && NothingLost(base, n, arrivals)
    ensures AlwaysPatient(policy, base, arrivals) <==>
            WholeStream(k, base, n, arrivals, Receive(k, window, merge, policy, arrivals).1)
  {
    hide Receive, AlwaysPatient, WellTimed, Beyond;
    if AlwaysPatient(policy, base, arrivals) {
      StreamDelivered(k, window, merge, policy, base, n, arrivals);
    } else {
      var m := ImpatientRunLoses(k, window, merge, policy, base, arrivals);
    }
  }

  // ---- three packets, two of them swapped -------------------------------------------------

  function PacketOf(k: Kind, t: int, marker: bool): StoredPacket {
    StoredPacket(RtpHeader(2, false, false, 0, marker, 96, 0, 0, 0, 12, 0), [], Wrap(k, t), 0, VideoMedia([]))
  }

  /** Packets 0, 2 and 1 arrive in this order; packet 2 has the marker. */
  function Swapped(k: Kind): seq<Arrival> {
    [Arrival(0, PacketOf(k, 0, false)), Arrival(2, PacketOf(k, 2, true)), Arrival(1, PacketOf(k, 1, false))]
  }

  lemma SwappedNumbers(k: Kind)
    ensures Numbers(Swapped(k)[..0]) == {} && Numbers(Swapped(k)[..1]) == {0}
    ensures Numbers(Swapped(k)[..2]) == {0, 2} && Numbers(Swapped(k)) == {0, 1, 2}
  {
    var s := Swapped(k);
    assert s[..2][..1] == s[..1] && s[..1][..0] == s[..0];
    assert Numbers(s[..0]) == {};
    NumbersSnoc(s[..1]);
    NumbersSnoc(s[..2]);
    NumbersSnoc(s);
  }

  /** It is a stream of which nothing is lost, arriving well within the window. */
  lemma SwappedIsWellTimed(k: Kind, window: nat)
    requires SmallWindow(k, window) && 2 <= window
    ensures WellTimed(k, window, 0, Swapped(k)) && NothingLost(0, 3, Swapped(k))
    ensures Waiting(0, Swapped(k)[..2]) == {2} && Missing(0, Swapped(k)[..2]) == 1
  {
    var s := Swapped(k);
    SwappedNumbers(k);
    LowestMissingUnique(Numbers(s[..1]), 0, 1);
    LowestMissingUnique(Numbers(s[..2]), 0, 1);
    assert s[..2][..1] == s[..1] && s[..1][..0] == s[..0] == [];
    assert WellTimed(k, window, 0, s[..0]);
    assert WellTimed(k, window, 0, s[..1]);
    assert WellTimed(k, window, 0, s[..2]);
  }

  /** Waiting delivers it; each of the other policies, at its most eager, gives up on
      packet 1 when packet 2 comes, with or without merging. */
  lemma SwapLoses(k: Kind, window: nat, merge: bool, policy: Policy)
    requires SmallWindow(k, window) && 2 <= window
    requires policy in {WaitForMissing, FlushGapOnce, FlushAfterN(1), FlushOnMarkerBoundary}
    ensures NothingLost(0, 3, Swapped(k)) && WellTimed(k, window, 0, Swapped(k))
    ensures WholeStream(k, 0, 3, Swapped(k), Receive(k, window, merge, policy, Swapped(k)).1) <==> policy == WaitForMissing
  {
    var s := Swapped(k);
    SwappedIsWellTimed(k, window);
    DeliveredIffPatient(k, window, merge, policy, 0, 3, s);
    if policy == WaitForMissing {
      WaitingIsPatient(0, s);
    } else {
      SwappedNumbers(k);
      assert s[..2][..1] == s[..1];
      assert FirstPacket(s[..2], 2) == s[1].packet;
      assert Impatient(policy, 0, s[..2]);
      assert !AlwaysPatient(policy, 0, s[..2]);
    }
  }
}
