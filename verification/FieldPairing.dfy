/** Which units the reconstructor joins when some are lost: segments only with the
    same timestamp, fields with whatever waits, so that pictures can be mixed. */
module FieldPairing {
  import opened Basics
  import opened VideoFrames
  import opened FrameAssembly
  import opened Depacketizing
  import opened Reconstruction
  import opened VideoPipeline

  /** Between pushes at most one half waits. */
  predicate AtRest(pair: Pair) {
    pair.first.None? || pair.second.None?
  }

  /** The half that a unit could complete. */
  function Partner(pair: Pair, u: AssembledUnit): Option<AssembledUnit> {
    if u.subIndex == 0 then pair.second else pair.first
  }

  ghost function Joined(t: Target, u: AssembledUnit, v: AssembledUnit): ReconstructedFrame
    requires UnitFits(t, u) && UnitFits(t, v) && !u.kind.FrameUnit? && !v.kind.FrameUnit?
    requires u.subIndex == 0 != v.subIndex
  {
    ReconstructedFrame(Woven(t, u.frame, v.frame), u.rtpTimestamp, u.receiveTimestamp, u.complete && v.complete)
  }

  /** Joined with its partner and nothing waits, or waiting itself. */
  ghost predicate JoinsOrWaits(t: Target, pair: Pair, u: AssembledUnit, joins: bool)
    requires PairFits(t, pair) && UnitFits(t, u) && !u.kind.FrameUnit? && (joins ==> Partner(pair, u).Some?)
  {
    PushUnit(t, pair, u) ==
    if !joins then (WithUnit(NO_PAIR, u), None)
    else if u.subIndex == 0 then (NO_PAIR, Some(Joined(t, u, Partner(pair, u).value)))
    else (NO_PAIR, Some(Joined(t, Partner(pair, u).value, u)))
  }

  /** A segment is joined exactly with a waiting half of the same timestamp; a half
      of another timestamp is forgotten. */
  lemma SegmentsShareTimestamp(t: Target, pair: Pair, u: AssembledUnit)
    requires PairFits(t, pair) && UnitFits(t, u) && AtRest(pair) && u.kind.SegmentUnit?
    ensures JoinsOrWaits(t, pair, u, Partner(pair, u).Some? && Partner(pair, u).value.rtpTimestamp == u.rtpTimestamp)
    ensures AtRest(PushUnit(t, pair, u).0)
  {
    hide Woven, UnitFits;
  }

  /** A field is joined with whatever other half waits. */
  lemma FieldsJoinAnyway(t: Target, pair: Pair, u: AssembledUnit)
    requires PairFits(t, pair) && UnitFits(t, u) && AtRest(pair) && u.kind.FieldUnit?
    ensures JoinsOrWaits(t, pair, u, Partner(pair, u).Some?)
    ensures AtRest(PushUnit(t, pair, u).0)
  {
    hide Woven, UnitFits;
  }

  // ---- a stream of fields, some of them lost ---------------------------------------------

  /** Field number 2i is the first field of picture i, number 2i + 1 its second. */
  predicate IsFirst(k: nat) {
    k % 2 == 0
  }

  function PictureOf(k: nat): nat {
    k / 2
  }

  lemma Neighbours(j: nat, k: nat)
    requires !IsFirst(k) && j == k - 1
    ensures IsFirst(j) && PictureOf(j) == PictureOf(k)
  {
  }

  lemma Strangers(j: nat, k: nat)
    requires j < k && IsFirst(j) != IsFirst(k) && (IsFirst(k) || j != k - 1)
    ensures PictureOf(j) != PictureOf(k)
  {
  }

  predicate Increasing(ks: seq<nat>) {
    forall i, j :: 0 <= i < j < |ks| ==> ks[i] < ks[j]
  }

  datatype Pairing = Pairing(waiting: Option<nat>, joins: seq<(nat, nat)>)

  /** Which of the received fields wait and which are joined, by position: the first
      field, then the second. */
  function PairUp(ks: seq<nat>): (p: Pairing)
    ensures p.waiting.Some? ==> p.waiting.value < |ks|
    ensures forall i :: 0 <= i < |p.joins| ==> p.joins[i].0 < |ks| && p.joins[i].1 < |ks|
  {
    if ks == [] then Pairing(None, [])
    else
      var n := |ks| - 1;
      var p := PairUp(ks[..n]);
      if p.waiting.None? || IsFirst(ks[p.waiting.value]) == IsFirst(ks[n]) then Pairing(Some(n), p.joins)
      else Pairing(None, p.joins + [if IsFirst(ks[n]) then (n, p.waiting.value) else (p.waiting.value, n)])
  }

  ghost predicate Fields(t: Target, us: seq<AssembledUnit>, ks: seq<nat>) {
    && |us| == |ks|
    && forall i :: 0 <= i < |us| ==> UnitFits(t, us[i]) && us[i].kind.FieldUnit? && (us[i].subIndex == if IsFirst(ks[i]) then 0 else 1)
  }

  ghost predicate JoinOf(t: Target, us: seq<AssembledUnit>, ks: seq<nat>, j: (nat, nat), r: ReconstructedFrame)
    requires Fields(t, us, ks)
  {
    && j.0 < |us| && j.1 < |us| && IsFirst(ks[j.0]) && !IsFirst(ks[j.1])
    && r == Joined(t, us[j.0], us[j.1])
  }

  /** The reconstructor in terms of the pairing. */
  ghost predicate PairsAs(t: Target, us: seq<AssembledUnit>, ks: seq<nat>, pair: Pair, out: seq<ReconstructedFrame>)
    requires Fields(t, us, ks)
  {
    var p := PairUp(ks);
    && pair == (if p.waiting.None? then NO_PAIR else WithUnit(NO_PAIR, us[p.waiting.value]))
    && |out| == |p.joins| && forall i :: 0 <= i < |out| ==> JoinOf(t, us, ks, p.joins[i], out[i])
  }

  lemma PairsNext(t: Target, us: seq<AssembledUnit>, ks: seq<nat>, pair: Pair, out: seq<ReconstructedFrame>)
    requires us != [] && Fields(t, us, ks)
    requires var n := |us| - 1; Fields(t, us[..n], ks[..n]) && PairsAs(t, us[..n], ks[..n], pair, out)
    ensures PairFits(t, pair)
    ensures var (after, frame) := PushUnit(t, pair, us[|us| - 1]);
            PairsAs(t, us, ks, after, out + OneOrNone(frame))
  {
    hide UnitFits, Woven;
    var n := |us| - 1;
    assert us[n] == us[|us| - 1] && UnitFits(t, us[n]);
    var p := PairUp(ks[..n]);
    assert p.waiting.Some? ==> us[..n][p.waiting.value] == us[p.waiting.value];
    FieldsJoinAnyway(t, pair, us[n]);
    hide PushUnit;
    var joins := PairUp(ks).joins;
    var all := out + OneOrNone(PushUnit(t, pair, us[n]).1);
    forall i | 0 <= i < |all| ensures JoinOf(t, us, ks, joins[i], all[i]) {
      if i < |out| {
        assert JoinOf(t, us[..n], ks[..n], p.joins[i], out[i]);
      }
    }
  }

  /** The reconstructor joins exactly the fields that the pairing says, whatever
      their timestamps. */
  lemma {:induction false} FieldsPairUp(t: Target, us: seq<AssembledUnit>, ks: seq<nat>)
    requires Fields(t, us, ks)
    ensures AllUnitsFit(t, us)
    ensures PairsAs(t, us, ks, PushUnits(t, NO_PAIR, us).0, PushUnits(t, NO_PAIR, us).1)
  {
    hide UnitFits, PairFits, PairsAs, PushUnit, PairUp;
    NothingPairs(t);
    if us != [] {
      var n := |us| - 1;
      FieldsPairUp(t, us[..n], ks[..n]);
      var (pair, out) := PushUnits(t, NO_PAIR, us[..n]);
      PairsNext(t, us, ks, pair, out);
    } else {
      assert us == [] && ks == [];
    }
  }

  lemma NothingPairs(t: Target)
    ensures PairFits(t, NO_PAIR) && Fields(t, [], []) && PairsAs(t, [], [], NO_PAIR, [])
  {
  }

  /** A join that mixes two pictures. */
  predicate MixedAt(ks: seq<nat>, i: nat) {
    i < |PairUp(ks).joins| && var j := PairUp(ks).joins[i]; PictureOf(ks[j.0]) != PictureOf(ks[j.1])
  }

  ghost predicate Mixed(ks: seq<nat>) {
    exists i: nat :: MixedAt(ks, i)
  }

  /** A received second field whose own first field was lost. */
  predicate Orphan(ks: seq<nat>, n: nat) {
    n < |ks| && !IsFirst(ks[n]) && (n == 0 || ks[n - 1] != ks[n] - 1)
  }

  ghost predicate HasOrphan(ks: seq<nat>) {
    exists n: nat :: Orphan(ks, n)
  }

  /** The orphan comes straight after another first field, or before any later one. */
  predicate OrphanMeetsFirst(ks: seq<nat>, n: nat) {
    Orphan(ks, n) && ((n > 0 && IsFirst(ks[n - 1])) || exists m :: n < m < |ks| && IsFirst(ks[m]))
  }

  lemma {:induction false} JoinsStay(ks: seq<nat>, n: nat)
    requires n <= |ks|
    ensures PairUp(ks[..n]).joins <= PairUp(ks).joins
  {
    if n < |ks| {
      assert ks[..|ks| - 1][..n] == ks[..n];
      JoinsStay(ks[..|ks| - 1], n);
    } else {
      assert ks[..n] == ks;
    }
  }

  lemma MixedStays(ks: seq<nat>, n: nat, i: nat)
    requires n <= |ks| && MixedAt(ks[..n], i)
    ensures MixedAt(ks, i)
  {
    JoinsStay(ks, n);
    assert PairUp(ks).joins[i] == PairUp(ks[..n]).joins[i];
  }

  lemma FewerOrphans(ks: seq<nat>, n: nat)
    requires n <= |ks| && HasOrphan(ks[..n])
    ensures HasOrphan(ks)
  {
    var i: nat :| Orphan(ks[..n], i);
    assert Orphan(ks, i);
  }

  /** Without orphans every join is within its picture, and just a first field at the
      end waits. */
  lemma {:induction false} NoOrphans(ks: seq<nat>)
    requires Increasing(ks) && !HasOrphan(ks)
    ensures PairUp(ks).waiting == if ks != [] && IsFirst(ks[|ks| - 1]) then Some(|ks| - 1) else None
    ensures !Mixed(ks)
  {
    hide IsFirst, PictureOf, HasOrphan, Mixed;
    if ks != [] {
      var n := |ks| - 1;
      if HasOrphan(ks[..n]) {
        FewerOrphans(ks, n);
      }
      NoOrphans(ks[..n]);
      LastNotOrphan(ks);
      if !IsFirst(ks[n]) {
        Neighbours(ks[n - 1], ks[n]);
      }
      SameJoins(ks);
    } else {
      NothingMixed();
    }
  }

  lemma NothingMixed()
    ensures !Mixed([])
  {
  }

  lemma LastNotOrphan(ks: seq<nat>)
    requires ks != [] && !HasOrphan(ks)
    ensures !Orphan(ks, |ks| - 1)
  {
  }

  /** If what comes last joins nothing, or its own first field, nothing is mixed. */
  lemma SameJoins(ks: seq<nat>)
    requires ks != [] && !Mixed(ks[..|ks| - 1])
    requires var n := |ks| - 1;
             var w := PairUp(ks[..n]).waiting;
             w.Some? && IsFirst(ks[w.value]) != IsFirst(ks[n]) ==> PictureOf(ks[w.value]) == PictureOf(ks[n])
    ensures !Mixed(ks)
  {
    hide IsFirst, PictureOf;
    var n := |ks| - 1;
    forall i: nat ensures !MixedAt(ks, i) {
      assert !MixedAt(ks[..n], i);
      if i < |PairUp(ks[..n]).joins| {
        assert PairUp(ks).joins[i] == PairUp(ks[..n]).joins[i];
      }
    }
  }

  /** While only second fields come, nothing is joined and the last of them waits. */
  lemma {:induction false} OnlySeconds(ks: seq<nat>, o: nat)
    requires o < |ks| && PairUp(ks[..o]).waiting.None?
    requires forall i :: o <= i < |ks| ==> !IsFirst(ks[i])
    ensures PairUp(ks) == Pairing(Some(|ks| - 1), PairUp(ks[..o]).joins)
  {
    hide IsFirst;
    var n := |ks| - 1;
    if o < n {
      assert ks[..n][..o] == ks[..o];
      OnlySeconds(ks[..n], o);
    } else {
      assert ks[..n] == ks[..o];
    }
  }

  /** Two neighbours of different pictures are joined. */
  lemma MixedNow(ks: seq<nat>, m: nat)
    requires 0 < m < |ks| && PairUp(ks[..m]).waiting == Some(m - 1)
    requires IsFirst(ks[m - 1]) != IsFirst(ks[m]) && PictureOf(ks[m - 1]) != PictureOf(ks[m])
    ensures Mixed(ks)
  {
    hide IsFirst, PictureOf;
    assert ks[..m + 1][..m] == ks[..m];
    var i := |PairUp(ks[..m]).joins|;
    assert MixedAt(ks[..m + 1], i);
    MixedStays(ks, m + 1, i);
  }

  /** The orphan waits, and the next first field joins it. */
  lemma MixedLater(ks: seq<nat>, o: nat)
    requires Increasing(ks) && Orphan(ks, o) && PairUp(ks[..o]).waiting.None?
    requires exists m :: o < m < |ks| && IsFirst(ks[m])
    ensures Mixed(ks)
  {
    hide IsFirst, PictureOf, PairUp, Mixed;
    var m := o + 1;
    while !IsFirst(ks[m])
      invariant o < m < |ks| && forall i :: o <= i < m ==> !IsFirst(ks[i])
      invariant exists e :: m <= e < |ks| && IsFirst(ks[e])
      decreases |ks| - m
    {
      m := m + 1;
    }
    assert ks[..m][..o] == ks[..o];
    OnlySeconds(ks[..m], o);
    Strangers(ks[m - 1], ks[m]);
    MixedNow(ks, m);
  }

  lemma NeverMixed(ks: seq<nat>, o: nat)
    requires o < |ks| && PairUp(ks[..o]).waiting.None? && !Mixed(ks[..o])
    requires forall i :: o <= i < |ks| ==> !IsFirst(ks[i])
    ensures !Mixed(ks)
  {
    OnlySeconds(ks, o);
    hide PairUp;
    forall i: nat ensures !MixedAt(ks, i) {
      assert !MixedAt(ks[..o], i);
    }
  }

  /** Pictures are mixed if and only if a second field arrives without its own first
      field and another first field waits for it or comes after it. */
  lemma MixedExactly(ks: seq<nat>)
    requires Increasing(ks)
    ensures Mixed(ks) <==> exists n: nat :: OrphanMeetsFirst(ks, n)
  {
    hide PairUp, IsFirst, PictureOf, Mixed;
    if HasOrphan(ks) {
      var o := FirstOrphan(ks);
      NoOrphans(ks[..o]);
      if o > 0 && IsFirst(ks[o - 1]) {
        Strangers(ks[o - 1], ks[o]);
        MixedNow(ks, o);
        assert OrphanMeetsFirst(ks, o);
      } else if exists m :: o < m < |ks| && IsFirst(ks[m]) {
        MixedLater(ks, o);
        assert OrphanMeetsFirst(ks, o);
      } else {
        NeverMixed(ks, o);
        assert forall n: nat :: OrphanMeetsFirst(ks, n) ==> o <= n;
      }
    } else {
      NoOrphans(ks);
    }
  }

  lemma FirstOrphan(ks: seq<nat>) returns (o: nat)
    requires HasOrphan(ks)
    ensures Orphan(ks, o) && !HasOrphan(ks[..o]) && forall n: nat :: n < o ==> !Orphan(ks, n)
  {
    hide IsFirst;
    var n: nat :| Orphan(ks, n);
    o := 0;
    while !Orphan(ks, o)
      invariant o <= n && forall i: nat :: i < o ==> !Orphan(ks, i)
      decreases n - o
    {
      o := o + 1;
    }
    var part := ks[..o];
    assert forall i: nat :: Orphan(part, i) ==> Orphan(ks, i) && i < o;
  }

  /** One lost first field is enough: the second field it leaves is woven with the
      first field of the next picture. */
  lemma LostFieldMixes()
    ensures Mixed([0, 1, 3, 4]) && !Mixed([0, 1, 2, 4])
  {
    hide PairUp, PictureOf, Mixed;
    var lost: seq<nat>, kept: seq<nat> := [0, 1, 3, 4], [0, 1, 2, 4];
    assert IsFirst(lost[3]) && OrphanMeetsFirst(lost, 2);
    MixedExactly(lost);
    MixedExactly(kept);
  }

  /** Even rows from a, odd rows from b. */
  ghost predicate RowsFrom(a: Frame, b: Frame, f: Frame)
    requires a.Valid() && b.Valid() && f.Valid()
  {
    forall p, row, x :: InPlane(f.Planes(), p, row, x) ==>
      var half := if row % 2 == 0 then a else b;
      InPlane(half.Planes(), p, row / 2, x) && f.At(p, row, x) == half.At(p, row / 2, x)
  }

  lemma JoinedRows(t: Target, u: AssembledUnit, v: AssembledUnit)
    requires UnitFits(t, u) && UnitFits(t, v) && !u.kind.FrameUnit? && !v.kind.FrameUnit?
    requires u.subIndex == 0 != v.subIndex
    ensures Joined(t, u, v).frame.Valid() && RowsFrom(u.frame, v.frame, Joined(t, u, v).frame)
  {
    hide Layout, Woven;
    var f := Joined(t, u, v).frame;
    forall p, row, x | InPlane(f.Planes(), p, row, x)
      ensures var half := if row % 2 == 0 then u.frame else v.frame;
              InPlane(half.Planes(), p, row / 2, x) && f.At(p, row, x) == half.At(p, row / 2, x)
    {
      WovenAt(t, u.frame, v.frame, p, row, x);
    }
  }

  /** On units: when the first field of picture 1 is lost, the second picture that
      comes out has its even rows from picture 2 and its odd rows from picture 1. */
  lemma LostFieldWeaves(t: Target, first0: AssembledUnit, second0: AssembledUnit, second1: AssembledUnit, first2: AssembledUnit)
    requires Fields(t, [first0, second0, second1, first2], [0, 1, 3, 4])
    ensures AllUnitsFit(t, [first0, second0, second1, first2])
    ensures var (pair, out) := PushUnits(t, NO_PAIR, [first0, second0, second1, first2]);
            && pair == NO_PAIR && |out| == 2 && out[0].frame.Valid() && out[1].frame.Valid()
            && first0.frame.Valid() && second0.frame.Valid() && second1.frame.Valid() && first2.frame.Valid()
            && RowsFrom(first0.frame, second0.frame, out[0].frame)
            && RowsFrom(first2.frame, second1.frame, out[1].frame)
  {
    var us, ks: seq<nat> := [first0, second0, second1, first2], [0, 1, 3, 4];
    assert us[0] == first0 && us[1] == second0 && us[2] == second1 && us[3] == first2;
    assert UnitFits(t, us[0]) && UnitFits(t, us[1]) && UnitFits(t, us[2]) && UnitFits(t, us[3]);
    LostFieldPairs(ks);
    FieldsPairUp(t, us, ks);
    hide PairUp, Layout, PushUnits, PushUnit, Woven, RowsFrom, PairFits, FieldsFit;
    var out := PushUnits(t, NO_PAIR, us).1;
    assert JoinOf(t, us, ks, (0, 1), out[0]) && JoinOf(t, us, ks, (3, 2), out[1]);
    JoinedRows(t, us[0], us[1]);
    JoinedRows(t, us[3], us[2]);
  }

  lemma LostFieldPairs(ks: seq<nat>)
    requires ks == [0, 1, 3, 4]
    ensures PairUp(ks) == Pairing(None, [(0, 1), (3, 2)])
  {
    assert ks[..3][..2] == ks[..2] && ks[..2][..1] == ks[..1] && ks[..1][..0] == [];
    assert PairUp(ks[..1]) == Pairing(Some(0), []);
    assert PairUp(ks[..2]) == Pairing(None, [(0, 1)]);
    assert PairUp(ks[..3]) == Pairing(Some(2), [(0, 1)]);
  }
}
