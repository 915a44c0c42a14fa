/** A reorder buffer over true, unbounded packet numbers, and the proof that the
    modular buffer behaves like it as long as every arriving number stays within
    half the number range of the expected one. */
module ReorderReference {
  import opened Basics
  import opened Packets
  import opened ReorderBuffer

  datatype Ref = Ref(window: nat, initialized: bool, next: int, packets: map<int, StoredPacket>) {
    ghost predicate Valid() {
      && 0 < window
      && (forall t :: t in packets ==> next <= t < next + window)
      && (!initialized ==> packets == map[])
    }
  }

  function FreshRef(window: nat): Ref {
    Ref(window, false, 0, map[])
  }

  ghost function Least(ts: set<int>): (m: int)
    requires ts != {}
    ensures m in ts && forall t :: t in ts ==> m <= t
  {
    IntSetEmptyOrElement(ts);
    var x :| x in ts;
    assert forall t :: t in ts ==> t == x || t in ts - {x};
    if ts - {x} == {} then x
    else
      var m := Least(ts - {x});
      if x < m then x else m
  }

  /** The buffered packets that can share a window with packet t. */
  function Sharing(r: Ref, t: int): (m: map<int, StoredPacket>)
    ensures forall k :: k in m <==> k in r.packets && t - k < r.window
    ensures forall k :: k in m ==> m[k] == r.packets[k]
  {
    map k | k in r.packets && t - k < r.window :: r.packets[k]
  }

  function RefArrive(r: Ref, t: int): Ref {
    if r.initialized then r else r.(initialized := true, next := t)
  }

  ghost function RefPlace(r: Ref, t: int, p: StoredPacket): (Ref, bool) {
    if t < r.next then (r, false)
    else if t < r.next + r.window then
      if t in r.packets then (r, false) else (r.(packets := r.packets[t := p]), true)
    else
      var kept := Sharing(r, t);
      (r.(next := if kept.Keys == {} then t else Least(kept.Keys), packets := kept[t := p]), true)
  }

  ghost function RefPush(r: Ref, t: int, p: StoredPacket): (Ref, bool) {
    RefPlace(RefArrive(r, t), t, p)
  }

  function RefPop(r: Ref): (Ref, Option<StoredPacket>) {
    if r.initialized && r.next in r.packets then
      (r.(packets := r.packets - {r.next}, next := r.next + 1), Some(r.packets[r.next]))
    else (r, None)
  }

  predicate CanFlush(r: Ref) {
    r.initialized && r.packets != map[] && r.next !in r.packets
  }

  function RefFlush(r: Ref, wanted: bool): (Ref, bool) {
    if wanted && CanFlush(r) then (r.(next := r.next + 1), true) else (r, false)
  }

  function Enough(r: Ref, n: nat): bool {
    |r.packets| >= (if n == 0 then 1 else n)
  }

  ghost predicate RefHasMarker(r: Ref) {
    exists t :: t in r.packets && r.packets[t].rtp.marker
  }

  // ---- true numbers and their modular images --------------------------------

  function Wrap(k: Kind, t: int): (c: int)
    ensures IsSeq(k, c)
  {
    if k.Video? then t % 0x1_0000_0000 else t % 0x1_0000
  }

  /** Half range around the expected number: video -2^31 <= d < 2^31, audio
      -2^15 < d <= 2^15. */
  predicate InHalfRange(k: Kind, d: int) {
    LateLimit(k) + 1 - Modulus(k) <= d <= LateLimit(k)
  }

  predicate WindowFits(k: Kind, window: nat) {
    0 < window <= LateLimit(k) + 1
  }

  lemma WrapDist(k: Kind, a: int, b: int)
    requires -Modulus(k) < a - b < Modulus(k)
    ensures Dist(k, Wrap(k, a), Wrap(k, b)) == if a >= b then a - b else a - b + Modulus(k)
  {
    if k.Video? {
      var qa, qb := a / 0x1_0000_0000, b / 0x1_0000_0000;
      assert a == qa * 0x1_0000_0000 + a % 0x1_0000_0000 && b == qb * 0x1_0000_0000 + b % 0x1_0000_0000;
      assert -1 <= qa - qb <= 1;
    } else {
      var qa, qb := a / 0x1_0000, b / 0x1_0000;
      assert a == qa * 0x1_0000 + a % 0x1_0000 && b == qb * 0x1_0000 + b % 0x1_0000;
      assert -1 <= qa - qb <= 1;
    }
  }

  ghost predicate Refines(s: State, r: Ref) {
    && s.Valid() && r.Valid()
    && WindowFits(s.kind, s.window)
    && s.window == r.window
    && s.initialized == r.initialized
    && (r.initialized ==> s.expected == Wrap(s.kind, r.next))
    && (forall t {:trigger Down(s, r, t)} :: Down(s, r, t))
    && (forall c {:trigger Up(s, r, c)} :: Up(s, r, c))
  }

  /** The true number of a buffered key. */
  ghost function Unwrap(s: State, r: Ref, c: int): int {
    if IsSeq(s.kind, c) && IsSeq(s.kind, s.expected) then r.next + Dist(s.kind, c, s.expected) else r.next
  }

  /** Every packet of the reference is buffered under its wrapped number. */
  ghost predicate Down(s: State, r: Ref, t: int) {
    t in r.packets ==> Wrap(s.kind, t) in s.packets && s.packets[Wrap(s.kind, t)] == r.packets[t]
  }

  /** Every buffered key is the wrapped number of a reference packet. */
  ghost predicate Up(s: State, r: Ref, c: int) {
    c in s.packets ==> Unwrap(s, r, c) in r.packets && Wrap(s.kind, Unwrap(s, r, c)) == c
  }

  lemma UnwrapOfWrap(s: State, r: Ref, t: int)
    requires Refines(s, r) && r.initialized && r.next <= t < r.next + Modulus(s.kind)
    ensures Unwrap(s, r, Wrap(s.kind, t)) == t
    ensures Wrap(s.kind, t) in s.packets <==> t in r.packets
    ensures t in r.packets ==> s.packets[Wrap(s.kind, t)] == r.packets[t]
  {
    WrapDist(s.kind, t, r.next);
    assert Down(s, r, t) && Up(s, r, Wrap(s.kind, t));
  }

  lemma WrapOfUnwrap(s: State, r: Ref, c: int)
    requires Refines(s, r) && c in s.packets
    ensures Unwrap(s, r, c) in r.packets && Wrap(s.kind, Unwrap(s, r, c)) == c
    ensures s.packets[c] == r.packets[Unwrap(s, r, c)]
    ensures r.initialized && r.next <= Unwrap(s, r, c) < r.next + r.window
  {
    assert Up(s, r, c) && Down(s, r, Unwrap(s, r, c));
  }

  // ---- push -------------------------------------------------------------------

  lemma StoreRefines(s: State, r: Ref, t: int, p: StoredPacket)
    requires Refines(s, r) && r.initialized
    requires r.next <= t < r.next + r.window
    requires t !in r.packets
    ensures Refines(Store(s, Wrap(s.kind, t), p).0, r.(packets := r.packets[t := p]))
    ensures Store(s, Wrap(s.kind, t), p).1
  {
    UnwrapOfWrap(s, r, t);
    var s1, r1 := Store(s, Wrap(s.kind, t), p).0, r.(packets := r.packets[t := p]);
    forall u ensures Down(s1, r1, u) {
      if u in r.packets {
        UnwrapOfWrap(s, r, u);
      }
    }
    forall c ensures Up(s1, r1, c) {
      if c in s.packets {
        WrapOfUnwrap(s, r, c);
      }
    }
  }

  /** Which buffered key the head jumps to, in true numbers. */
  lemma JumpTarget(s: State, r: Ref, t: int)
    requires Refines(s, r) && r.initialized
    requires r.next + r.window <= t && InHalfRange(s.kind, t - r.next)
    ensures var kept := Sharing(r, t).Keys;
            RecoveryTarget(s, Wrap(s.kind, t)) == Wrap(s.kind, if kept == {} then t else Least(kept))
  {
    var w := Wrap(s.kind, t);
    var kept := Sharing(r, t).Keys;
    NearestRecoveryIsNearest(s, w, 0);
    forall c | c in s.packets
      ensures Recovers(s, w, c) <==> Unwrap(s, r, c) in kept
    {
      WrapOfUnwrap(s, r, c);
      WrapDist(s.kind, t, Unwrap(s, r, c));
      WrapDist(s.kind, Unwrap(s, r, c), r.next);
    }
    if kept != {} {
      var m := Least(kept);
      UnwrapOfWrap(s, r, m);
      assert Recovers(s, w, Wrap(s.kind, m));
      var b := NearestRecovery(s, w, 0).value;
      WrapOfUnwrap(s, r, b);
      WrapDist(s.kind, m, r.next);
      assert Unwrap(s, r, b) == m;
    } else {
      assert forall c :: Recovers(s, w, c) ==> Unwrap(s, r, c) in kept;
    }
  }

  function RefJump(r: Ref, t: int, m: int): Ref {
    r.(next := m, packets := Sharing(r, t))
  }

  /** One buffered packet across the jump: it stays exactly when it can share a
      window with packet t, and keeps its true number. */
  lemma JumpKeeps(s: State, r: Ref, t: int, m: int, c: int)
    requires Refines(s, r) && r.initialized
    requires r.next + r.window <= t && InHalfRange(s.kind, t - r.next)
    requires m == (if Sharing(r, t).Keys == {} then t else Least(Sharing(r, t).Keys))
    requires c in s.packets
    ensures var s1 := s.(expected := Wrap(s.kind, m));
            && (InWindow(s1, c) <==> Unwrap(s, r, c) in Sharing(r, t))
            && (InWindow(s1, c) ==> Unwrap(s1, RefJump(r, t, m), c) == Unwrap(s, r, c))
  {
    var u := Unwrap(s, r, c);
    WrapOfUnwrap(s, r, c);
    assert u in Sharing(r, t) ==> m <= u;
    WrapDist(s.kind, u, m);
  }

  lemma JumpRefines(s: State, r: Ref, t: int, m: int)
    requires Refines(s, r) && r.initialized
    requires r.next + r.window <= t && InHalfRange(s.kind, t - r.next)
    requires m == (if Sharing(r, t).Keys == {} then t else Least(Sharing(r, t).Keys))
    ensures Refines(Jump(s, Wrap(s.kind, t)), RefJump(r, t, m))
  {
    var r1, s1 := RefJump(r, t, m), Jump(s, Wrap(s.kind, t));
    JumpTarget(s, r, t);
    forall c ensures Up(s1, r1, c) {
      if c in s1.packets {
        WrapOfUnwrap(s, r, c);
        JumpKeeps(s, r, t, m, c);
      }
    }
    forall u ensures Down(s1, r1, u) {
      if u in r1.packets {
        UnwrapOfWrap(s, r, u);
        JumpKeeps(s, r, t, m, Wrap(s.kind, u));
      }
    }
  }

  lemma PlaceJumpRefines(s: State, r: Ref, t: int, p: StoredPacket)
    requires Refines(s, r) && r.initialized && InHalfRange(s.kind, t - r.next)
    requires r.next + r.window <= t
    ensures Place(s, Wrap(s.kind, t), p).1 && Refines(Place(s, Wrap(s.kind, t), p).0, RefPlace(r, t, p).0)
  {
    var kept := Sharing(r, t);
    var m := if kept.Keys == {} then t else Least(kept.Keys);
    JumpRefines(s, r, t, m);
    WrapDist(s.kind, t, r.next);
    PlaceAfterJump(s, Wrap(s.kind, t), p);
    StoreRefines(Jump(s, Wrap(s.kind, t)), RefJump(r, t, m), t, p);
  }

  lemma PlaceRefines(s: State, r: Ref, t: int, p: StoredPacket)
    requires Refines(s, r) && r.initialized && InHalfRange(s.kind, t - r.next)
    ensures Refines(Place(s, Wrap(s.kind, t), p).0, RefPlace(r, t, p).0)
    ensures Place(s, Wrap(s.kind, t), p).1 == RefPlace(r, t, p).1
  {
    WrapDist(s.kind, t, r.next);
    if r.next + r.window <= t {
      PlaceJumpRefines(s, r, t, p);
    } else if r.next <= t {
      UnwrapOfWrap(s, r, t);
      if t !in r.packets {
        StoreRefines(s, r, t, p);
      } else {
        OnlyCounters(s, Store(s, Wrap(s.kind, t), p).0, r);
      }
    } else {
      OnlyCounters(s, Place(s, Wrap(s.kind, t), p).0, r);
    }
  }

  /** Refinement does not look at the counters. */
  lemma OnlyCounters(s: State, s1: State, r: Ref)
    requires Refines(s, r)
    requires s1.(stats := s.stats, headAccounted := s.headAccounted) == s
    ensures Refines(s1, r)
  {
    forall t ensures Down(s1, r, t) { assert Down(s, r, t); }
    forall c ensures Up(s1, r, c) { assert Up(s, r, c); }
  }

  lemma PushRefines(s: State, r: Ref, t: int, p: StoredPacket)
    requires Refines(s, r)
    requires SeqOf(s.kind, p) == Wrap(s.kind, t)
    requires r.initialized ==> InHalfRange(s.kind, t - r.next)
    ensures Refines(Push(s, p).0, RefPush(r, t, p).0) && Push(s, p).1 == RefPush(r, t, p).1
  {
    var s1, r1 := Arrive(s, SeqOf(s.kind, p)), RefArrive(r, t);
    forall u ensures Down(s1, r1, u) { assert Down(s, r, u); }
    forall c ensures Up(s1, r1, c) { assert Up(s, r, c); }
    PlaceRefines(s1, r1, t, p);
  }

  // ---- pop and flushes ----------------------------------------------------------

  lemma StepHead(k: Kind, e: int)
    ensures Advance(k, Wrap(k, e), 1) == Wrap(k, e + 1)
  {
    WrapDist(k, e + 1, e);
  }

  lemma PopRefines(s: State, r: Ref)
    requires Refines(s, r)
    ensures Refines(PopNext(s).0, RefPop(r).0) && PopNext(s).1 == RefPop(r).1
  {
    if r.initialized {
      UnwrapOfWrap(s, r, r.next);
    }
    var s1, r1 := PopNext(s).0, RefPop(r).0;
    if r.initialized && r.next in r.packets {
      StepHead(s.kind, r.next);
      forall u ensures Down(s1, r1, u) {
        if u in r1.packets {
          UnwrapOfWrap(s, r, u);
        }
      }
      forall c ensures Up(s1, r1, c) {
        if c in s1.packets {
          WrapOfUnwrap(s, r, c);
          WrapDist(s.kind, Unwrap(s, r, c), r.next + 1);
        }
      }
    } else {
      OnlyCounters(s, s1, r);
    }
  }

  lemma FlushRefines(s: State, r: Ref)
    requires Refines(s, r)
    ensures Refines(FlushMissingOnce(s).0, RefFlush(r, true).0) && FlushMissingOnce(s).1 == RefFlush(r, true).1
  {
    SameSize(s, r);
    if r.initialized {
      UnwrapOfWrap(s, r, r.next);
    }
    if CanFlush(r) {
      StepHead(s.kind, r.next);
      var s1, r1 := FlushMissingOnce(s).0, RefFlush(r, true).0;
      forall u ensures Down(s1, r1, u) { assert Down(s, r, u); }
      forall c ensures Up(s1, r1, c) {
        if c in s1.packets {
          WrapOfUnwrap(s, r, c);
          WrapDist(s.kind, Unwrap(s, r, c), r.next + 1);
        }
      }
    }
  }

  /** Wrapping is injective on the window, so both buffers hold equally many
      packets. */
  lemma SameSize(s: State, r: Ref)
    requires Refines(s, r)
    ensures |s.packets| == |r.packets|
  {
    if r.initialized {
      forall t | t in r.packets ensures Wrap(s.kind, t) in s.packets { UnwrapOfWrap(s, r, t); }
      forall c | c in s.packets ensures Unwrap(s, r, c) in r.packets { WrapOfUnwrap(s, r, c); }
      ImageSize(s, r, r.packets.Keys, s.packets.Keys);
    }
  }

  lemma {:induction false} ImageSize(s: State, r: Ref, ts: set<int>, cs: set<int>)
    requires Refines(s, r) && r.initialized
    requires ts <= r.packets.Keys && cs <= s.packets.Keys
    requires forall t :: t in ts ==> Wrap(s.kind, t) in cs
    requires forall c :: c in cs ==> Unwrap(s, r, c) in ts
    ensures |ts| == |cs|
  {
    IntSetEmptyOrElement(ts);
    if ts == {} {
      IntSetEmptyOrElement(cs);
    } else {
      var t :| t in ts;
      UnwrapOfWrap(s, r, t);
      forall u | u in ts - {t} ensures Wrap(s.kind, u) in cs - {Wrap(s.kind, t)} {
        UnwrapOfWrap(s, r, u);
      }
      forall c | c in cs - {Wrap(s.kind, t)} ensures Unwrap(s, r, c) in ts - {t} {
        WrapOfUnwrap(s, r, c);
      }
      ImageSize(s, r, ts - {t}, cs - {Wrap(s.kind, t)});
    }
  }

  lemma SameMarker(s: State, r: Ref)
    requires Refines(s, r)
    ensures s.HasMarker() <==> RefHasMarker(r)
  {
    if s.HasMarker() {
      var c :| c in s.packets && s.packets[c].rtp.marker;
      WrapOfUnwrap(s, r, c);
    }
    if RefHasMarker(r) {
      var t :| t in r.packets && r.packets[t].rtp.marker;
      UnwrapOfWrap(s, r, t);
    }
  }

  lemma GuardedFlushesRefine(s: State, r: Ref, n: nat)
    requires Refines(s, r)
    ensures Refines(FlushAfterNPackets(s, n).0, RefFlush(r, Enough(r, n)).0)
    ensures FlushAfterNPackets(s, n).1 == RefFlush(r, Enough(r, n)).1
    ensures Refines(FlushUntilMarker(s).0, RefFlush(r, RefHasMarker(r)).0)
    ensures FlushUntilMarker(s).1 == RefFlush(r, RefHasMarker(r)).1
  {
    SameSize(s, r);
    SameMarker(s, r);
    FlushRefines(s, r);
  }

  // ---- whole runs ------------------------------------------------------------------

  /** An operation together with the true number of the packet it pushes. */
  datatype TrueOp = TrueOp(op: Op, number: int)

  datatype Observed =
    | Pushed(ok: bool)
    | Popped(packet: Option<StoredPacket>)
    | Flushed(done: bool)

  ghost function Observe(s: State, op: Op): (State, Observed)
    requires s.Valid()
  {
    match op
    case DoPush(p) => var (s1, ok) := Push(s, p); (s1, Pushed(ok))
    case DoPop => var (s1, p) := PopNext(s); (s1, Popped(p))
    case DoFlushOnce => var (s1, b) := FlushMissingOnce(s); (s1, Flushed(b))
    case DoFlushAfterN(n) => var (s1, b) := FlushAfterNPackets(s, n); (s1, Flushed(b))
    case DoFlushMarker => var (s1, b) := FlushUntilMarker(s); (s1, Flushed(b))
  }

  ghost function RefObserve(r: Ref, o: TrueOp): (Ref, Observed) {
    match o.op
    case DoPush(p) => var (r1, ok) := RefPush(r, o.number, p); (r1, Pushed(ok))
    case DoPop => var (r1, p) := RefPop(r); (r1, Popped(p))
    case DoFlushOnce => var (r1, b) := RefFlush(r, true); (r1, Flushed(b))
    case DoFlushAfterN(n) => var (r1, b) := RefFlush(r, Enough(r, n)); (r1, Flushed(b))
    case DoFlushMarker => var (r1, b) := RefFlush(r, RefHasMarker(r)); (r1, Flushed(b))
  }

  ghost predicate OpFits(k: Kind, r: Ref, o: TrueOp) {
    o.op.DoPush? ==>
      && SeqOf(k, o.op.p) == Wrap(k, o.number)
      && (r.initialized ==> InHalfRange(k, o.number - r.next))
  }

  ghost predicate RunFits(k: Kind, r: Ref, ops: seq<TrueOp>)
    decreases |ops|
  {
    ops != [] ==> OpFits(k, r, ops[0]) && RunFits(k, RefObserve(r, ops[0]).0, ops[1..])
  }

  ghost function ObserveAll(s: State, ops: seq<TrueOp>): seq<Observed>
    requires s.Valid()
    decreases |ops|
  {
    if ops == [] then []
    else
      OperationsKeepValidForObserve(s, ops[0].op);
      [Observe(s, ops[0].op).1] + ObserveAll(Observe(s, ops[0].op).0, ops[1..])
  }

  lemma OperationsKeepValidForObserve(s: State, op: Op)
    requires s.Valid()
    ensures Observe(s, op).0.Valid()
  {
    if op.DoPush? {
      OperationsKeepValid(s, op.p);
    }
  }

  ghost function RefObserveAll(r: Ref, ops: seq<TrueOp>): seq<Observed>
    decreases |ops|
  {
    if ops == [] then [] else [RefObserve(r, ops[0]).1] + RefObserveAll(RefObserve(r, ops[0]).0, ops[1..])
  }

  lemma StepRefines(s: State, r: Ref, o: TrueOp)
    requires Refines(s, r) && OpFits(s.kind, r, o)
    ensures Refines(Observe(s, o.op).0, RefObserve(r, o).0) && Observe(s, o.op).1 == RefObserve(r, o).1
    ensures Observe(s, o.op).0.kind == s.kind
  {
    match o.op {
      case DoPush(p) => PushRefines(s, r, o.number, p);
      case DoPop => PopRefines(s, r);
      case DoFlushOnce => FlushRefines(s, r);
      case DoFlushAfterN(n) => GuardedFlushesRefine(s, r, n);
      case DoFlushMarker => GuardedFlushesRefine(s, r, 0);
    }
  }

  /** Refinement over every run: step by step the two buffers accept, pop and
      flush alike. */
  lemma {:induction false} RunRefines(s: State, r: Ref, ops: seq<TrueOp>)
    requires Refines(s, r) && RunFits(s.kind, r, ops)
    ensures ObserveAll(s, ops) == RefObserveAll(r, ops)
    decreases |ops|
  {
    if ops != [] {
      var s1, r1 := Observe(s, ops[0].op).0, RefObserve(r, ops[0]).0;
      StepRefines(s, r, ops[0]);
      RunRefines(s1, r1, ops[1..]);
    }
  }

  lemma RunRefinesFromReset(k: Kind, window: nat, ops: seq<TrueOp>)
    requires WindowFits(k, window)
    requires RunFits(k, FreshRef(window), ops)
    ensures ObserveAll(Fresh(k, window), ops) == RefObserveAll(FreshRef(window), ops)
  {
    RunRefines(Fresh(k, window), FreshRef(window), ops);
  }

  /** The packets a run pops from the modular buffer, and the true numbers the
      reference pops them at. */
  ghost function Pops(s: State, ops: seq<TrueOp>): seq<StoredPacket>
    requires s.Valid()
    decreases |ops|
  {
    if ops == [] then []
    else
      OperationsKeepValidForObserve(s, ops[0].op);
      var (s1, seen) := Observe(s, ops[0].op);
      (if seen.Popped? && seen.packet.Some? then [seen.packet.value] else []) + Pops(s1, ops[1..])
  }

  ghost function PopNumbers(r: Ref, ops: seq<TrueOp>): seq<int>
    decreases |ops|
  {
    if ops == [] then []
    else
      var (r1, seen) := RefObserve(r, ops[0]);
      (if seen.Popped? && seen.packet.Some? then [r.next] else []) + PopNumbers(r1, ops[1..])
  }

  ghost predicate Carried(k: Kind, r: Ref) {
    forall t :: t in r.packets ==> SeqOf(k, r.packets[t]) == Wrap(k, t)
  }

  lemma StepMovesForward(k: Kind, r: Ref, o: TrueOp)
    requires r.Valid() && Carried(k, r) && OpFits(k, r, o)
    ensures var (r1, seen) := RefObserve(r, o);
            && r1.Valid() && Carried(k, r1)
            && (r.initialized ==> r1.initialized && r.next <= r1.next)
            && (seen.Popped? && seen.packet.Some? ==>
                  r.initialized && r.next < r1.next && SeqOf(k, seen.packet.value) == Wrap(k, r.next))
  {
  }

  /** Over every run the true numbers of the popped packets strictly increase. */
  lemma {:induction false} PopsIncrease(s: State, r: Ref, ops: seq<TrueOp>)
    requires Refines(s, r) && RunFits(s.kind, r, ops) && Carried(s.kind, r)
    ensures var ps, ts := Pops(s, ops), PopNumbers(r, ops);
            && |ps| == |ts|
            && (forall i :: 0 <= i < |ps| ==> SeqOf(s.kind, ps[i]) == Wrap(s.kind, ts[i]))
            && (forall i, j :: 0 <= i < j < |ts| ==> ts[i] < ts[j])
            && (r.initialized ==> forall i :: 0 <= i < |ts| ==> r.next <= ts[i])
    decreases |ops|
  {
    if ops != [] {
      var o := ops[0];
      StepRefines(s, r, o);
      StepMovesForward(s.kind, r, o);
      var s1, r1 := Observe(s, o.op).0, RefObserve(r, o).0;
      PopsIncrease(s1, r1, ops[1..]);
    }
  }
}
