/** The video receive pipeline: packets in, pictures out. */
module VideoPipeline {
  import opened Basics
  import opened Packets
  import opened VideoFrames
  import opened FrameAssembly
  import opened Depacketizing
  import opened Reconstruction
  import opened UnitGrouping

  function TargetOf(cfg: Config): Target {
    Target(cfg.format, cfg.width, cfg.height)
  }

  datatype Pipe = Pipe(depack: Depack, pair: Pair) {
    ghost predicate Valid() {
      && depack.Valid() && PairFits(TargetOf(depack.cfg), pair)
      && Layout(depack.cfg.width, depack.cfg.height, depack.cfg.format).Some?
    }
  }

  function FreshPipe(cfg: Config): Pipe
    requires Layout(cfg.width, cfg.height, cfg.format).Some?
  {
    Pipe(FreshDepack(cfg), NO_PAIR)
  }

  ghost predicate AllUnitsFit(t: Target, us: seq<AssembledUnit>) {
    forall i :: 0 <= i < |us| ==> UnitFits(t, us[i])
  }

  function OneOrNone(f: Option<ReconstructedFrame>): seq<ReconstructedFrame> {
    if f.Some? then [f.value] else []
  }

  ghost function PushUnits(t: Target, pair: Pair, us: seq<AssembledUnit>): (r: (Pair, seq<ReconstructedFrame>))
    requires PairFits(t, pair) && AllUnitsFit(t, us)
    ensures PairFits(t, r.0)
  {
    if us == [] then (pair, [])
    else
      var n := |us| - 1;
      var (before, out) := PushUnits(t, pair, us[..n]);
      var (after, frame) := PushUnit(t, before, us[n]);
      (after, out + OneOrNone(frame))
  }

  lemma CloseFits(s: Depack, marker: bool)
    requires s.Valid() && s.key.Some? && Layout(s.cfg.width, s.cfg.height, s.cfg.format).Some?
    ensures AllUnitsFit(TargetOf(s.cfg), CloseUnit(s, marker).1)
  {
  }

  lemma PushFits(s: Depack, p: VideoPacketView)
    requires s.Valid() && PacketFits(s.cfg, p) && Layout(s.cfg.width, s.cfg.height, s.cfg.format).Some?
    ensures AllUnitsFit(TargetOf(s.cfg), Depacketizing.Push(s, p).1)
  {
    hide Layout;
    hide UnitFits;
    hide CloseUnit;
    hide FreshAssembler;
    hide WriteAll;
    if s.key.Some? {
      CloseFits(s.(stats := s.stats.(packetsIn := s.stats.packetsIn + 1)), false);
    }
    CloseFits(WritePacket(Prepare(s, p).0, p), true);
  }

  ghost function PipePush(pipe: Pipe, p: VideoPacketView): (r: (Pipe, seq<ReconstructedFrame>))
    requires pipe.Valid() && PacketFits(pipe.depack.cfg, p)
    ensures r.0.Valid() && r.0.depack.cfg == pipe.depack.cfg
  {
    PushFits(pipe.depack, p);
    var (depack, units) := Depacketizing.Push(pipe.depack, p);
    var (pair, frames) := PushUnits(TargetOf(pipe.depack.cfg), pipe.pair, units);
    (Pipe(depack, pair), frames)
  }

  ghost function PipeRun(cfg: Config, ps: seq<VideoPacketView>): (r: (Pipe, seq<ReconstructedFrame>))
    requires Layout(cfg.width, cfg.height, cfg.format).Some? && StreamFits(cfg, ps)
    ensures r.0.Valid() && r.0.depack.cfg == cfg
  {
    if ps == [] then (FreshPipe(cfg), [])
    else
      var n := |ps| - 1;
      var (pipe, out) := PipeRun(cfg, ps[..n]);
      var (pipe1, more) := PipePush(pipe, ps[n]);
      (pipe1, out + more)
  }

  class VideoReceivePipeline {
    const depacketizer: Depacketizer
    const reconstructor: VideoUnitReconstructor

    ghost function Repr(): set<object>
      reads this, depacketizer, depacketizer.assembler
    {
      {this, reconstructor} + depacketizer.Repr()
    }

    ghost predicate Valid()
      reads this, reconstructor, depacketizer, depacketizer.assembler
      reads depacketizer.assembler.coverage, depacketizer.assembler.frameData
    {
      && depacketizer.Valid() && reconstructor.Valid()
      && reconstructor.target == TargetOf(depacketizer.cfg)
    }

    ghost function Abs(): Pipe
      reads this, reconstructor, depacketizer, depacketizer.assembler
      reads depacketizer.assembler.coverage, depacketizer.assembler.frameData
    {
      Pipe(depacketizer.Abs(), reconstructor.pair)
    }

    constructor (cfg: Config)
      requires Layout(cfg.width, cfg.height, cfg.format).Some?
      ensures Valid() && Abs() == FreshPipe(cfg) && fresh(Repr())
    {
      depacketizer := new Depacketizer(cfg);
      reconstructor := new VideoUnitReconstructor(TargetOf(cfg));
    }

    method Push(p: VideoPacketView) returns (frames: seq<ReconstructedFrame>)
      requires Valid() && PacketFits(depacketizer.cfg, p)
      modifies Repr()
      ensures Valid() && (Abs(), frames) == PipePush(old(Abs()), p)
      ensures fresh(Repr() - old(Repr()))
    {
      hide Layout;
      hide PacketFits;
      hide UnitFits;
      hide Depacketizing.Push;
      hide PushUnit;
      hide PairFits, Shaped;
      PushFits(depacketizer.Abs(), p);
      ghost var pair0 := reconstructor.pair;
      var units := depacketizer.PushPacket(p);
      frames := [];
      ghost var t := reconstructor.target;
      for i := 0 to |units|
        invariant reconstructor.Valid() && depacketizer.Valid()
        invariant depacketizer.Abs() == old(Depacketizing.Push(depacketizer.Abs(), p).0)
        invariant fresh(Repr() - old(Repr()))
        invariant (reconstructor.pair, frames) == PushUnits(t, pair0, units[..i])
      {
        assert units[..i + 1][..i] == units[..i];
        var frame := reconstructor.Push(units[i]);
        if frame.Some? {
          frames := frames + [frame.value];
        } else {
          assert frames + [] == frames;
        }
      }
      assert units[..|units|] == units;
    }
  }

  /** Pushing units in two batches is pushing them in one. */
  lemma {:induction false} PushUnitsConcat(t: Target, pair: Pair, us: seq<AssembledUnit>, more: seq<AssembledUnit>)
    requires PairFits(t, pair) && AllUnitsFit(t, us) && AllUnitsFit(t, more)
    ensures AllUnitsFit(t, us + more)
    ensures var (mid, out) := PushUnits(t, pair, us);
            PushUnits(t, pair, us + more) == (PushUnits(t, mid, more).0, out + PushUnits(t, mid, more).1)
  {
    hide UnitFits;
    hide PairFits;
    hide PushUnit;
    var (mid, out) := PushUnits(t, pair, us);
    if more == [] {
      assert us + more == us && out + [] == out;
    } else {
      var n := |more| - 1;
      PushUnitsConcat(t, pair, us, more[..n]);
      assert (us + more)[..|us + more| - 1] == us + more[..n];
      var frames := PushUnits(t, mid, more[..n]).1;
      var last := OneOrNone(PushUnit(t, PushUnits(t, mid, more[..n]).0, more[n]).1);
      assert out + (frames + last) == (out + frames) + last;
    }
  }

  /** The pipeline pushes through the reconstructor what the depacketizer emits. */
  lemma {:induction false} PipeIsTwoStages(cfg: Config, ps: seq<VideoPacketView>)
    requires Layout(cfg.width, cfg.height, cfg.format).Some? && StreamFits(cfg, ps)
    ensures AllUnitsFit(TargetOf(cfg), UnitGrouping.Run(cfg, ps).1)
    ensures PipeRun(cfg, ps).0.depack == UnitGrouping.Run(cfg, ps).0
    ensures (PipeRun(cfg, ps).0.pair, PipeRun(cfg, ps).1) ==
            PushUnits(TargetOf(cfg), NO_PAIR, UnitGrouping.Run(cfg, ps).1)
  {
    hide Layout;
    hide UnitFits;
    hide PacketFits;
    hide Depacketizing.Push;
    hide PushUnit;
    if ps != [] {
      var n := |ps| - 1;
      PipeIsTwoStages(cfg, ps[..n]);
      var (s, out) := UnitGrouping.Run(cfg, ps[..n]);
      PushFits(s, ps[n]);
      PushUnitsConcat(TargetOf(cfg), NO_PAIR, out, Depacketizing.Push(s, ps[n]).1);
    }
  }
}
