/** What goes in comes out: pictures cut into packets that cover them, with a
    marker on the last packet of each frame or field, leave the video pipeline
    unchanged, complete and in order; segmented ones all but the last. */
module PictureDelivery {
  import opened Basics
  import opened Packets
  import opened VideoFrames
  import opened FrameAssembly
  import opened Depacketizing
  import opened Reconstruction
  import opened UnitGrouping
  import opened VideoPipeline

  /** One unit of a transmission: the picture it carries and its packets. */
  datatype Part = Part(picture: Frame, packets: Group)

  function PartKey(cfg: Config, g: Group, sub: nat): Key
    requires g != []
  {
    Key(UnitKindOf(cfg.mode), g[0].rtp.timestamp, sub)
  }

  ghost predicate Carries(cfg: Config, p: VideoPacketView, src: Frame)
    requires src.Valid() && Supported(cfg.format)
  {
    forall i :: 0 <= i < |p.segments| ==> SliceOf(OpsOf(cfg.format, p.segments)[i], src)
  }

  ghost predicate CoveredBy(cfg: Config, g: Group, p: nat, row: nat, b: nat)
    requires Supported(cfg.format)
  {
    exists i :: 0 <= i < |g| && Covered(OpsOf(cfg.format, g[i].segments), p, row, b)
  }

  /** The packets of a part share one key, where markers end units only the last one
      has one, every segment is cut out of the picture, and together they cover it. */
  ghost predicate GoodPart(cfg: Config, part: Part, sub: nat) {
    && Supported(cfg.format) && part.packets != []
    && part.picture.Valid() && part.picture.width == cfg.width && part.picture.format == cfg.format
    && part.picture.height == UnitHeight(cfg.mode, cfg.height, sub)
    && (forall i :: 0 <= i < |part.packets| ==>
          && KeyOf(cfg.mode, part.packets[i]) == PartKey(cfg, part.packets, sub)
          && (Terminates(cfg, part.packets[i]) <==> cfg.markerTerminates && i == |part.packets| - 1)
          && Carries(cfg, part.packets[i], part.picture))
    && (forall p, row, b :: InPlane(part.picture.Planes(), p, row, b) ==> CoveredBy(cfg, part.packets, p, row, b))
  }

  // ---- one part ---------------------------------------------------------------------

  function AllOps(cfg: Config, g: Group): seq<WriteOp>
    requires Supported(cfg.format)
  {
    if g == [] then [] else AllOps(cfg, g[..|g| - 1]) + OpsOf(cfg.format, g[|g| - 1].segments)
  }

  lemma {:induction false} WriteAllConcat(a: Assembler, ops: seq<WriteOp>, more: seq<WriteOp>)
    requires a.Valid() && AllFit(a.frame.Planes(), ops) && AllFit(a.frame.Planes(), more)
    ensures AllFit(a.frame.Planes(), ops + more)
    ensures WriteAll(a, ops + more) == WriteAll(WriteAll(a, ops), more)
  {
    hide Layout, WriteSegment, OpFits, Assembler.Valid;
    if more == [] {
      assert ops + more == ops;
    } else {
      var n := |more| - 1;
      WriteAllConcat(a, ops, more[..n]);
      assert (ops + more)[..|ops + more| - 1] == ops + more[..n];
    }
  }

  ghost predicate SlicesOf(ops: seq<WriteOp>, src: Frame)
    requires src.Valid()
  {
    forall i :: 0 <= i < |ops| ==> SliceOf(ops[i], src)
  }

  lemma CoveredInConcat(ops: seq<WriteOp>, more: seq<WriteOp>, p: nat, row: nat, b: nat)
    ensures Covered(ops, p, row, b) || Covered(more, p, row, b) ==> Covered(ops + more, p, row, b)
  {
    if Covered(ops, p, row, b) {
      var i :| 0 <= i < |ops| && Covers(ops[i], p, row, b);
      assert (ops + more)[i] == ops[i];
    } else if Covered(more, p, row, b) {
      var i :| 0 <= i < |more| && Covers(more[i], p, row, b);
      assert (ops + more)[|ops| + i] == more[i];
    }
  }

  lemma {:induction false} AllOpsCover(cfg: Config, g: Group, p: nat, row: nat, b: nat)
    requires Supported(cfg.format) && CoveredBy(cfg, g, p, row, b)
    ensures Covered(AllOps(cfg, g), p, row, b)
  {
    hide OpsOf;
    hide Covered;
    var n := |g| - 1;
    CoveredInConcat(AllOps(cfg, g[..n]), OpsOf(cfg.format, g[n].segments), p, row, b);
    if !Covered(OpsOf(cfg.format, g[n].segments), p, row, b) {
      var i :| 0 <= i < |g| && Covered(OpsOf(cfg.format, g[i].segments), p, row, b);
      assert g[..n][i] == g[i];
      AllOpsCover(cfg, g[..n], p, row, b);
    }
  }

  lemma {:induction false} AllOpsAreSlices(cfg: Config, g: Group, src: Frame)
    requires Supported(cfg.format) && src.Valid()
    requires forall i :: 0 <= i < |g| ==> Carries(cfg, g[i], src)
    ensures SlicesOf(AllOps(cfg, g), src)
  {
    hide Layout;
    if g != [] {
      AllOpsAreSlices(cfg, g[..|g| - 1], src);
    }
  }

  lemma PartFits(cfg: Config, part: Part, sub: nat)
    requires GoodPart(cfg, part, sub)
    ensures GroupFits(cfg, part.packets) && Whole(cfg, part.packets)
    ensures Terminates(cfg, Last(part.packets)) == cfg.markerTerminates
  {
    hide Layout;
    forall i | 0 <= i < |part.packets| ensures PacketFits(cfg, part.packets[i]) {
      assert Carries(cfg, part.packets[i], part.picture);
    }
  }

  lemma {:induction false} GroupIsWrites(cfg: Config, g: Group, src: Frame)
    requires GroupFits(cfg, g) && src.Valid()
    requires src.width == cfg.width && src.format == cfg.format
    requires src.height == UnitHeight(cfg.mode, cfg.height, KeyOf(cfg.mode, g[0]).subIndex)
    requires forall i :: 0 <= i < |g| ==> Carries(cfg, g[i], src)
    ensures AllFit(src.Planes(), AllOps(cfg, g))
    ensures GroupAssembler(cfg, g) ==
            WriteAll(FreshAssembler(cfg, KeyOf(cfg.mode, g[0]), g[0].receiveTimestamp), AllOps(cfg, g))
  {
    hide Layout;
    hide FreshAssembler;
    hide WriteAll;
    hide KeyOf;
    var n := |g| - 1;
    var start := FreshAssembler(cfg, KeyOf(cfg.mode, g[0]), g[0].receiveTimestamp);
    AllOpsAreSlices(cfg, g, src);
    AllOpsAreSlices(cfg, g[..n], src);
    if n == 0 {
      assert AllOps(cfg, g[..0]) == [];
      assert AllOps(cfg, g) == OpsOf(cfg.format, g[0].segments);
    } else {
      GroupIsWrites(cfg, g[..n], src);
      WriteAllConcat(start, AllOps(cfg, g[..n]), OpsOf(cfg.format, g[n].segments));
    }
  }

  /** The unit as it leaves the depacketizer. */
  function PartUnit(cfg: Config, part: Part, sub: nat): AssembledUnit
    requires part.packets != []
  {
    AssembledUnit(part.picture, UnitKindOf(cfg.mode), part.packets[0].rtp.timestamp,
                  part.packets[0].receiveTimestamp, sub, cfg.markerTerminates, true, true)
  }

  lemma PartRebuilt(cfg: Config, part: Part, sub: nat)
    requires GoodPart(cfg, part, sub)
    ensures GroupFits(cfg, part.packets)
    ensures IsComplete(GroupAssembler(cfg, part.packets).coverage)
    ensures GroupAssembler(cfg, part.packets).frame == part.picture
    ensures GroupAssembler(cfg, part.packets).rtpTimestamp == part.packets[0].rtp.timestamp
    ensures GroupAssembler(cfg, part.packets).receiveTimestamp == part.packets[0].receiveTimestamp
  {
    hide Layout;
    hide FreshAssembler;
    hide WriteAll;
    hide AllOps;
    hide GroupAssembler;
    hide IsComplete;
    var g, src := part.packets, part.picture;
    PartFits(cfg, part, sub);
    var start := FreshAssembler(cfg, KeyOf(cfg.mode, g[0]), g[0].receiveTimestamp);
    GroupIsWrites(cfg, g, src);
    AllOpsAreSlices(cfg, g, src);
    forall p, row, b | InPlane(src.Planes(), p, row, b) ensures Covered(AllOps(cfg, g), p, row, b) {
      AllOpsCover(cfg, g, p, row, b);
    }
    CompleteIffCovered(start, AllOps(cfg, g));
    SlicesRebuild(start, AllOps(cfg, g), src);
  }

  lemma PartUnits(cfg: Config, part: Part, sub: nat)
    requires GoodPart(cfg, part, sub)
    ensures GroupFits(cfg, part.packets)
    ensures UnitsOf(GroupEnd(cfg, part.packets).0, KeyOf(cfg.mode, part.packets[0])) == [PartUnit(cfg, part, sub)]
  {
    hide Layout;
    hide GroupAssembler;
    hide Carries;
    hide CoveredBy;
    PartRebuilt(cfg, part, sub);
    PartFits(cfg, part, sub);
  }

  // ---- a whole transmission ------------------------------------------------------------

  function SubOf(cfg: Config, i: nat): nat {
    if cfg.mode.Progressive? then 0 else i % 2
  }

  /** The two halves of a picture; segments of one picture have one timestamp. */
  ghost predicate Halves(cfg: Config, f: Frame, a: Part, b: Part)
    requires f.Valid() && a.picture.Valid() && b.picture.Valid()
  {
    && FieldOf(f, 0, a.picture) && FieldOf(f, 1, b.picture)
    && (cfg.mode.PsF? ==>
          a.packets != [] && b.packets != [] && a.packets[0].rtp.timestamp == b.packets[0].rtp.timestamp)
  }

  /** Pictures sent one after the other: whole in Progressive mode, as two fields or
      segments each in the other modes. */
  ghost predicate GoodSending(cfg: Config, frames: seq<Frame>, parts: seq<Part>) {
    && cfg.markerTerminates == !cfg.mode.PsF? && Layout(cfg.width, cfg.height, cfg.format).Some?
    && (forall i :: 0 <= i < |frames| ==>
          && frames[i].Valid() && frames[i].width == cfg.width && frames[i].height == cfg.height
          && frames[i].format == cfg.format)
    && (forall i :: 0 <= i < |parts| ==> GoodPart(cfg, parts[i], SubOf(cfg, i)))
    && if cfg.mode.Progressive? then
         |parts| == |frames| && forall i :: 0 <= i < |frames| ==> parts[i].picture == frames[i]
       else
         |parts| == 2 * |frames| && forall i :: 0 <= i < |frames| ==>
           Halves(cfg, frames[i], parts[2 * i], parts[2 * i + 1])
  }

  /** The second segment of the last picture stays open, since no marker ends it. */
  function ShownCount(cfg: Config, frames: nat): nat {
    if cfg.mode.PsF? && frames > 0 then frames - 1 else frames
  }

  function EndedCount(cfg: Config, parts: nat): nat {
    if cfg.mode.PsF? && parts > 0 then parts - 1 else parts
  }

  function GroupsOf(parts: seq<Part>): (gs: seq<Group>)
    ensures |gs| == |parts| && forall i :: 0 <= i < |gs| ==> gs[i] == parts[i].packets
  {
    seq(|parts|, i requires 0 <= i < |parts| => parts[i].packets)
  }

  function StreamOf(parts: seq<Part>): seq<VideoPacketView> {
    Flatten(GroupsOf(parts))
  }

  function FirstPart(cfg: Config, i: nat): nat {
    if cfg.mode.Progressive? then i else 2 * i
  }

  /** The pictures the sink should get. */
  ghost function Pictures(cfg: Config, frames: seq<Frame>, parts: seq<Part>): (out: seq<ReconstructedFrame>)
    requires GoodSending(cfg, frames, parts)
    ensures |out| == |frames|
    ensures forall i :: 0 <= i < |frames| ==>
              var first := parts[FirstPart(cfg, i)].packets[0];
              out[i] == ReconstructedFrame(frames[i], first.rtp.timestamp, first.receiveTimestamp, true)
  {
    seq(|frames|, i requires 0 <= i < |frames| =>
      assert GoodPart(cfg, parts[FirstPart(cfg, i)], SubOf(cfg, FirstPart(cfg, i)));
      var first := parts[FirstPart(cfg, i)].packets[0];
      ReconstructedFrame(frames[i], first.rtp.timestamp, first.receiveTimestamp, true))
  }

  lemma SendingSplits(cfg: Config, frames: seq<Frame>, parts: seq<Part>)
    requires GoodSending(cfg, frames, parts)
    ensures IsSplit(cfg, StreamOf(parts), GroupsOf(parts)) && AllGroupsFit(cfg, GroupsOf(parts))
    ensures forall i :: 0 <= i < |parts| ==>
              parts[i].packets != [] && Terminates(cfg, Last(parts[i].packets)) == cfg.markerTerminates
  {
    hide Layout, GoodPart, Cut, GroupFits, Flatten;
    var gs := GroupsOf(parts);
    forall i | 0 <= i < |gs|
      ensures GroupFits(cfg, gs[i]) && Whole(cfg, gs[i]) && Terminates(cfg, Last(gs[i])) == cfg.markerTerminates
    {
      PartFits(cfg, parts[i], SubOf(cfg, i));
    }
    forall i | 0 <= i < |gs| - 1 ensures Cut(cfg, Last(gs[i]), gs[i + 1][0]) {
      CutBetween(cfg, parts, i);
    }
  }

  /** A marker cuts, or the change from one segment to the other. */
  lemma CutBetween(cfg: Config, parts: seq<Part>, i: nat)
    requires i + 1 < |parts| && (cfg.markerTerminates || cfg.mode.PsF?)
    requires GoodPart(cfg, parts[i], SubOf(cfg, i)) && GoodPart(cfg, parts[i + 1], SubOf(cfg, i + 1))
    ensures Cut(cfg, Last(parts[i].packets), parts[i + 1].packets[0])
  {
    hide Layout, Carries, CoveredBy;
    assert cfg.mode.PsF? ==> SubOf(cfg, i) != SubOf(cfg, i + 1);
  }

  lemma {:induction false} FlattenFits(cfg: Config, gs: seq<Group>)
    requires AllGroupsFit(cfg, gs)
    ensures StreamFits(cfg, Flatten(gs))
  {
    hide PacketFits;
    if gs != [] {
      FlattenFits(cfg, gs[..|gs| - 1]);
    }
  }

  function UnitsOfParts(cfg: Config, parts: seq<Part>): (us: seq<AssembledUnit>)
    requires forall i :: 0 <= i < |parts| ==> parts[i].packets != []
    ensures |us| == |parts| && forall i :: 0 <= i < |us| ==> us[i] == PartUnit(cfg, parts[i], SubOf(cfg, i))
  {
    seq(|parts|, i requires 0 <= i < |parts| => PartUnit(cfg, parts[i], SubOf(cfg, i)))
  }

  lemma {:induction false} EmittedParts(cfg: Config, parts: seq<Part>)
    requires forall i :: 0 <= i < |parts| ==> GoodPart(cfg, parts[i], SubOf(cfg, i))
    requires AllGroupsFit(cfg, GroupsOf(parts))
    ensures forall i :: 0 <= i < |parts| ==> parts[i].packets != []
    ensures Emitted(cfg, GroupsOf(parts)) == UnitsOfParts(cfg, parts)
  {
    hide Layout;
    hide GroupFits;
    hide GroupEnd;
    hide Carries;
    hide CoveredBy;
    hide KeyOf;
    hide PartUnit;
    hide UnitsOf;
    hide SubOf;
    if parts != [] {
      var n := |parts| - 1;
      assert GroupsOf(parts)[..n] == GroupsOf(parts[..n]);
      EmittedParts(cfg, parts[..n]);
      PartUnits(cfg, parts[n], SubOf(cfg, n));
      assert UnitsOfParts(cfg, parts) == UnitsOfParts(cfg, parts[..n]) + [PartUnit(cfg, parts[n], SubOf(cfg, n))];
    }
  }

  /** When the last group ends at a marker, every group has been emitted. */
  lemma AllEmitted(cfg: Config, gs: seq<Group>, s: Depack, out: seq<AssembledUnit>)
    requires Follows(cfg, gs, s, out) && gs != [] && Whole(cfg, gs[|gs| - 1]) && Terminates(cfg, Last(gs[|gs| - 1]))
    ensures out == Emitted(cfg, gs)
  {
    hide Layout, GroupFits, Emitted, GroupAssembler, KeyOf;
  }

  lemma NoneEmitted(cfg: Config, s: Depack, out: seq<AssembledUnit>)
    requires Follows(cfg, [], s, out)
    ensures out == []
  {
  }

  /** Otherwise it stays open. */
  lemma LastStaysOpen(cfg: Config, gs: seq<Group>, s: Depack, out: seq<AssembledUnit>)
    requires Follows(cfg, gs, s, out) && gs != []
    requires gs[|gs| - 1] != [] && !Terminates(cfg, Last(gs[|gs| - 1]))
    ensures AllGroupsFit(cfg, gs[..|gs| - 1]) && out == Emitted(cfg, gs[..|gs| - 1])
    ensures s.key == Some(KeyOf(cfg.mode, gs[|gs| - 1][0]))
  {
    hide Layout, GroupFits, Emitted, GroupAssembler, KeyOf;
  }

  /** The units the depacketizer emits for the parts, and the one it keeps. */
  ghost predicate Emits(cfg: Config, parts: seq<Part>, s: Depack, out: seq<AssembledUnit>)
    requires forall i :: 0 <= i < |parts| ==> parts[i].packets != []
  {
    && out == UnitsOfParts(cfg, parts[..EndedCount(cfg, |parts|)])
    && (cfg.mode.PsF? && parts != [] ==> s.key == Some(KeyOf(cfg.mode, parts[|parts| - 1].packets[0])))
  }

  lemma SendingUnits(cfg: Config, frames: seq<Frame>, parts: seq<Part>)
    requires GoodSending(cfg, frames, parts)
    ensures StreamFits(cfg, StreamOf(parts))
    ensures forall i :: 0 <= i < |parts| ==> parts[i].packets != []
    ensures Emits(cfg, parts, UnitGrouping.Run(cfg, StreamOf(parts)).0, UnitGrouping.Run(cfg, StreamOf(parts)).1)
  {
    hide Layout, GoodPart, AllGroupsFit, StreamFits, Flatten, Groups, Emitted, Cut, Whole, Halves, Follows, UnitGrouping.Run, Terminates, KeyOf;
    var gs, ps := GroupsOf(parts), StreamOf(parts);
    SendingSplits(cfg, frames, parts);
    FlattenFits(cfg, gs);
    SplitUnique(cfg, ps, gs);
    UnitsAreGroups(cfg, ps);
    var (s, out) := UnitGrouping.Run(cfg, ps);
    var n := EndedCount(cfg, |parts|);
    assert gs[..n] == GroupsOf(parts[..n]) && (n == |parts| ==> gs[..n] == gs && parts[..n] == parts);
    if parts == [] {
      assert gs == [];
      NoneEmitted(cfg, s, out);
    } else {
      if cfg.mode.PsF? {
        LastStaysOpen(cfg, gs, s, out);
      } else {
        PartWhole(cfg, parts, |parts| - 1);
        AllEmitted(cfg, gs, s, out);
      }
      EmittedParts(cfg, parts[..n]);
    }
  }

  lemma PartWhole(cfg: Config, parts: seq<Part>, i: nat)
    requires i < |parts| && GoodPart(cfg, parts[i], SubOf(cfg, i))
    ensures Whole(cfg, parts[i].packets)
  {
    PartFits(cfg, parts[i], SubOf(cfg, i));
  }

  lemma OneFrame(cfg: Config, part: Part)
    requires cfg.mode.Progressive? && Layout(cfg.width, cfg.height, cfg.format).Some? && GoodPart(cfg, part, 0)
    ensures var u := PartUnit(cfg, part, 0);
            && UnitFits(TargetOf(cfg), u)
            && PushUnit(TargetOf(cfg), NO_PAIR, u) ==
               (NO_PAIR, Some(ReconstructedFrame(part.picture, u.rtpTimestamp, u.receiveTimestamp, true)))
  {
  }

  lemma TwoFields(cfg: Config, f: Frame, a: Part, b: Part)
    requires !cfg.mode.Progressive? && GoodPart(cfg, a, 0) && GoodPart(cfg, b, 1)
    requires f.Valid() && f.width == cfg.width && f.height == cfg.height && f.format == cfg.format
    requires Halves(cfg, f, a, b)
    ensures var t, u, v := TargetOf(cfg), PartUnit(cfg, a, 0), PartUnit(cfg, b, 1);
            && UnitFits(t, u) && UnitFits(t, v)
            && PushUnit(t, NO_PAIR, u) == (Pair(Some(u), None), None)
            && PushUnit(t, Pair(Some(u), None), v) ==
               (NO_PAIR, Some(ReconstructedFrame(f, u.rtpTimestamp, u.receiveTimestamp, true)))
  {
    hide Layout;
    hide Woven;
    hide Carries;
    hide CoveredBy;
    WeaveFields(f, a.picture, b.picture);
  }

  lemma PushOne(t: Target, pair: Pair, u: AssembledUnit)
    requires PairFits(t, pair) && UnitFits(t, u)
    ensures PushUnits(t, pair, [u]) == (PushUnit(t, pair, u).0, OneOrNone(PushUnit(t, pair, u).1))
  {
    hide UnitFits;
    hide PairFits;
    hide PushUnit;
    assert [u][..0] == [];
    assert PushUnits(t, pair, [u][..0]) == (pair, []);
    assert [] + OneOrNone(PushUnit(t, pair, u).1) == OneOrNone(PushUnit(t, pair, u).1);
  }

  lemma LastPicture(cfg: Config, frames: seq<Frame>, parts: seq<Part>)
    requires GoodSending(cfg, frames, parts) && frames != []
    ensures var n := |frames| - 1;
            var k := FirstPart(cfg, n);
            && k < |parts| && GoodSending(cfg, frames[..n], parts[..k])
            && Pictures(cfg, frames, parts) == Pictures(cfg, frames[..n], parts[..k]) +
               [ReconstructedFrame(frames[n], parts[k].packets[0].rtp.timestamp, parts[k].packets[0].receiveTimestamp, true)]
  {
    hide Layout;
    hide GoodPart;
    hide FieldOf;
  }

  ghost predicate PushesTo(t: Target, us: seq<AssembledUnit>, f: ReconstructedFrame) {
    AllUnitsFit(t, us) && PushUnits(t, NO_PAIR, us) == (NO_PAIR, [f])
  }

  lemma FieldsPush(cfg: Config, f: Frame, a: Part, b: Part)
    requires !cfg.mode.Progressive? && GoodPart(cfg, a, 0) && GoodPart(cfg, b, 1)
    requires f.Valid() && f.width == cfg.width && f.height == cfg.height && f.format == cfg.format
    requires Halves(cfg, f, a, b)
    ensures PushesTo(TargetOf(cfg), [PartUnit(cfg, a, 0), PartUnit(cfg, b, 1)],
                     ReconstructedFrame(f, a.packets[0].rtp.timestamp, a.packets[0].receiveTimestamp, true))
  {
    hide Layout;
    hide Carries;
    hide CoveredBy;
    hide FieldOf;
    hide UnitFits;
    hide PushUnit;
    hide PushUnits;
    var t, u, v := TargetOf(cfg), PartUnit(cfg, a, 0), PartUnit(cfg, b, 1);
    TwoFields(cfg, f, a, b);
    PushOne(t, NO_PAIR, u);
    PushOne(t, Pair(Some(u), None), v);
    PushUnitsConcat(t, NO_PAIR, [u], [v]);
    assert [u] + [v] == [u, v];
    var f1 := ReconstructedFrame(f, u.rtpTimestamp, u.receiveTimestamp, true);
    assert [] + [f1] == [f1];
  }

  lemma PushLast(cfg: Config, frames: seq<Frame>, parts: seq<Part>, k: nat)
    requires GoodSending(cfg, frames, parts) && frames != []
    requires k == FirstPart(cfg, |frames| - 1) && k < |parts|
    requires forall i :: 0 <= i < |parts| ==> parts[i].packets != []
    ensures UnitsOfParts(cfg, parts)[..k] == UnitsOfParts(cfg, parts[..k])
    ensures PushesTo(TargetOf(cfg), UnitsOfParts(cfg, parts)[k..],
                     ReconstructedFrame(frames[|frames| - 1], parts[k].packets[0].rtp.timestamp,
                                        parts[k].packets[0].receiveTimestamp, true))
  {
    hide Layout;
    hide GoodPart;
    hide Halves;
    hide UnitFits;
    hide PushUnit;
    var n := |frames| - 1;
    var us := UnitsOfParts(cfg, parts);
    var t := TargetOf(cfg);
    if cfg.mode.Progressive? {
      OneFrame(cfg, parts[k]);
      assert us[k..] == [us[k]];
      PushOne(t, NO_PAIR, us[k]);
    } else {
      assert SubOf(cfg, k) == 0 && SubOf(cfg, k + 1) == 1;
      FieldsPush(cfg, frames[n], parts[k], parts[k + 1]);
      assert us[k..] == [us[k], us[k + 1]];
    }
  }

  lemma {:induction false} UnitsBecomePictures(cfg: Config, frames: seq<Frame>, parts: seq<Part>)
    requires GoodSending(cfg, frames, parts)
    requires forall i :: 0 <= i < |parts| ==> parts[i].packets != []
    ensures AllUnitsFit(TargetOf(cfg), UnitsOfParts(cfg, parts))
    ensures PushUnits(TargetOf(cfg), NO_PAIR, UnitsOfParts(cfg, parts)) == (NO_PAIR, Pictures(cfg, frames, parts))
    decreases |frames|
  {
    hide Layout;
    hide GoodSending;
    hide UnitFits;
    hide PushUnit;
    hide PushUnits;
    if frames == [] {
      NoFramesNoParts(cfg, frames, parts);
    } else {
      var n := |frames| - 1;
      var k := FirstPart(cfg, n);
      var us := UnitsOfParts(cfg, parts);
      LastPicture(cfg, frames, parts);
      PushLast(cfg, frames, parts, k);
      UnitsBecomePictures(cfg, frames[..n], parts[..k]);
      PushUnitsConcat(TargetOf(cfg), NO_PAIR, us[..k], us[k..]);
      assert us == us[..k] + us[k..];
    }
  }

  lemma NoFramesNoParts(cfg: Config, frames: seq<Frame>, parts: seq<Part>)
    requires GoodSending(cfg, frames, parts) && frames == []
    ensures parts == [] && PushUnits(TargetOf(cfg), NO_PAIR, []) == (NO_PAIR, []) && Pictures(cfg, frames, parts) == []
  {
  }

  lemma FirstHalfWaits(cfg: Config, frames: seq<Frame>, parts: seq<Part>)
    requires GoodSending(cfg, frames, parts) && cfg.mode.PsF? && frames != []
    requires forall i :: 0 <= i < |parts| ==> parts[i].packets != []
    ensures |parts| >= 2 && FirstPart(cfg, |frames| - 1) == |parts| - 2
    ensures var t, u := TargetOf(cfg), PartUnit(cfg, parts[|parts| - 2], 0);
            UnitFits(t, u) && PushUnits(t, NO_PAIR, [u]) == (Pair(Some(u), None), [])
  {
    hide Layout, GoodPart, Halves, UnitFits, PushUnit, PushUnits, PartUnit;
    var n, k := |frames| - 1, |parts| - 2;
    assert SubOf(cfg, k) == 0 && SubOf(cfg, k + 1) == 1;
    TwoFields(cfg, frames[n], parts[k], parts[k + 1]);
    PushOne(TargetOf(cfg), NO_PAIR, PartUnit(cfg, parts[k], 0));
  }

  lemma UnitsSnoc(cfg: Config, parts: seq<Part>, k: nat)
    requires k < |parts| && forall i :: 0 <= i < |parts| ==> parts[i].packets != []
    ensures UnitsOfParts(cfg, parts[..k + 1]) == UnitsOfParts(cfg, parts[..k]) + [PartUnit(cfg, parts[k], SubOf(cfg, k))]
  {
    hide PartUnit, SubOf;
  }

  /** With the second half of the last picture still open, the first one waits. */
  lemma LastHalfWaits(cfg: Config, frames: seq<Frame>, parts: seq<Part>)
    requires GoodSending(cfg, frames, parts) && cfg.mode.PsF? && frames != []
    requires forall i :: 0 <= i < |parts| ==> parts[i].packets != []
    ensures |parts| >= 2
    ensures var t, us, n := TargetOf(cfg), UnitsOfParts(cfg, parts[..|parts| - 1]), |frames| - 1;
            && AllUnitsFit(t, us)
            && PushUnits(t, NO_PAIR, us) ==
               (Pair(Some(PartUnit(cfg, parts[|parts| - 2], 0)), None), Pictures(cfg, frames, parts)[..n])
  {
    hide GoodSending, UnitFits, PushUnits, PartUnit, UnitsOfParts, Pictures, PairFits;
    FirstHalfWaits(cfg, frames, parts);
    LastPicture(cfg, frames, parts);
    var n, k := |frames| - 1, |parts| - 2;
    var t, u := TargetOf(cfg), PartUnit(cfg, parts[k], 0);
    var before, out := UnitsOfParts(cfg, parts[..k]), Pictures(cfg, frames[..n], parts[..k]);
    UnitsBecomePictures(cfg, frames[..n], parts[..k]);
    UnitsSnoc(cfg, parts, k);
    PushUnitsConcat(t, NO_PAIR, before, [u]);
    assert Pictures(cfg, frames, parts)[..n] == out == out + [];
  }

  /** The pipeline hands on exactly the pictures that were sent, complete and in
      order, with the timestamps of their first packets; of segmented pictures all
      but the last, whose first segment waits while its second one is open. */
  lemma PipelineDelivers(cfg: Config, frames: seq<Frame>, parts: seq<Part>)
    requires GoodSending(cfg, frames, parts)
    ensures StreamFits(cfg, StreamOf(parts))
    ensures PipeRun(cfg, StreamOf(parts)).1 == Pictures(cfg, frames, parts)[..ShownCount(cfg, |frames|)]
    ensures cfg.mode.PsF? && frames != [] ==>
              var pipe, n := PipeRun(cfg, StreamOf(parts)).0, |parts| - 2;
              && parts[n].packets != [] && parts[n + 1].packets != []
              && pipe.pair == Pair(Some(PartUnit(cfg, parts[n], 0)), None)
              && pipe.depack.key == Some(KeyOf(cfg.mode, parts[n + 1].packets[0]))
  {
    hide Layout, PacketFits, UnitFits, PushUnits, GoodPart, Halves, KeyOf, PartUnit, UnitGrouping.Run;
    SendingUnits(cfg, frames, parts);
    PipeIsTwoStages(cfg, StreamOf(parts));
    if cfg.mode.PsF? && frames != [] {
      LastHalfWaits(cfg, frames, parts);
    } else {
      assert parts[..EndedCount(cfg, |parts|)] == parts;
      assert Pictures(cfg, frames, parts)[..|frames|] == Pictures(cfg, frames, parts);
      UnitsBecomePictures(cfg, frames, parts);
    }
  }
}
