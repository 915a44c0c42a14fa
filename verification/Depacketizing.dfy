/** Packets become units: frames, fields or segments. The depacketizer opens a
    unit, writes the packets of one key into it, and ends it at a marker or when
    the key changes. */
module Depacketizing {
  import opened Basics
  import opened Packets
  import opened VideoFrames
  import opened FrameAssembly

  datatype ScanMode = Progressive | Interlaced | PsF

  datatype Key = Key(kind: UnitKind, timestamp: u32, subIndex: nat)

  datatype Config = Config(
    markerTerminates: bool, mode: ScanMode, format: PixelFormat, width: nat, height: nat, policy: PartialPolicy)

  datatype Stats = Stats(packetsIn: nat, packetsUsed: nat, ok: nat, partial: nat, dropped: nat) {
    function Ended(): nat {
      ok + partial + dropped
    }
  }

  const NO_STATS := Stats(0, 0, 0, 0, 0)

  function UnitHeight(mode: ScanMode, full: nat, subIndex: nat): nat {
    if mode.Progressive? then full
    else if subIndex == 0 then (full + 1) / 2
    else full / 2
  }

  function UnitKindOf(mode: ScanMode): UnitKind {
    match mode
    case Progressive => FrameUnit
    case Interlaced => FieldUnit
    case PsF => SegmentUnit
  }

  function KeyOf(mode: ScanMode, p: VideoPacketView): (key: Key)
    ensures key.subIndex <= 1 && key.kind == UnitKindOf(mode)
  {
    var second := !mode.Progressive? && p.segments != [] && p.segments[0].header.fieldId;
    Key(UnitKindOf(mode), p.rtp.timestamp, if second then 1 else 0)
  }

  /** The byte offset of a sample: None where the code throws. */
  function ByteOffset(format: PixelFormat, sample: nat): Option<nat> {
    match format
    case UYVY => Some(sample * 2)
    case RGB8 => Some(sample * 3)
    case YUV422RFC4175PG2BE10 => Some(sample / 2 * 5)
    case YUV422RFC4175PG2BE12 => Some(sample / 2 * 6)
    case YUV444RFC4175PG4BE10 => Some(sample / 4 * 15)
    case RGBRFC4175PG4BE10 => Some(sample / 4 * 15)
    case YUV444RFC4175PG2BE12 => Some(sample / 2 * 9)
    case RGBRFC4175PG2BE12 => Some(sample / 2 * 9)
    case _ => None
  }

  predicate Supported(format: PixelFormat) {
    ByteOffset(format, 0).Some?
  }

  function WriteOpOf(format: PixelFormat, s: SrdSegment): WriteOp
    requires Supported(format)
  {
    WriteOp(0, s.header.row, ByteOffset(format, s.header.offset).value, s.data)
  }

  function OpsOf(format: PixelFormat, segments: seq<SrdSegment>): (ops: seq<WriteOp>)
    requires Supported(format)
    ensures |ops| == |segments| && forall i :: 0 <= i < |ops| ==> ops[i] == WriteOpOf(format, segments[i])
  {
    seq(|segments|, i requires 0 <= i < |segments| => WriteOpOf(format, segments[i]))
  }

  function UnitLayout(cfg: Config, key: Key): Option<seq<Plane>> {
    Layout(cfg.width, UnitHeight(cfg.mode, cfg.height, key.subIndex), cfg.format)
  }

  /** What the code needs of a packet: a supported format, a unit that is not
      empty, and segments inside their rows. */
  ghost predicate PacketFits(cfg: Config, p: VideoPacketView) {
    && Supported(cfg.format)
    && UnitLayout(cfg, KeyOf(cfg.mode, p)).Some?
    && AllFit(UnitLayout(cfg, KeyOf(cfg.mode, p)).value, OpsOf(cfg.format, p.segments))
  }

  // ---- the depacketizer on values ------------------------------------------------

  datatype Depack = Depack(cfg: Config, key: Option<Key>, asm: Assembler, stats: Stats) {
    ghost predicate Valid() {
      && asm.frame.Valid()
      && (key.Some? ==> asm.Valid() && Shaped(cfg, key.value, asm))
    }
  }

  /** The assembler has the size and policy of the unit with this key. */
  ghost predicate Shaped(cfg: Config, key: Key, a: Assembler) {
    && Supported(cfg.format) && key.kind == UnitKindOf(cfg.mode) && key.subIndex <= 1
    && a.frame.width == cfg.width && a.frame.height == UnitHeight(cfg.mode, cfg.height, key.subIndex)
    && a.frame.format == cfg.format && a.policy == cfg.policy
  }

  function FreshDepack(cfg: Config): Depack
    requires Layout(cfg.width, cfg.height, cfg.format).Some?
  {
    Depack(cfg, None, NewAssembler(cfg.width, cfg.height, cfg.format, cfg.policy), NO_STATS)
  }

  function FreshAssembler(cfg: Config, key: Key, received: u64): (a: Assembler)
    requires UnitLayout(cfg, key).Some?
    requires Supported(cfg.format) && key.kind == UnitKindOf(cfg.mode) && key.subIndex <= 1
    ensures a.Valid() && Shaped(cfg, key, a) && a.coverage == FreshCoverage(a.frame.Planes())
    ensures a.rtpTimestamp == key.timestamp && a.receiveTimestamp == received
  {
    FreshValid(UnitLayout(cfg, key).value);
    Begin(NewAssembler(cfg.width, UnitHeight(cfg.mode, cfg.height, key.subIndex), cfg.format, cfg.policy),
          key.timestamp, received)
  }

  function OpenUnit(s: Depack, key: Key, received: u64): Depack
    requires UnitLayout(s.cfg, key).Some?
    requires Supported(s.cfg.format) && key.kind == UnitKindOf(s.cfg.mode) && key.subIndex <= 1
  {
    s.(asm := FreshAssembler(s.cfg, key, received), key := Some(key))
  }

  /** The unit as handed on: tagged with the key it was assembled under. */
  function Tagged(u: AssembledUnit, key: Key): AssembledUnit {
    u.(kind := key.kind, subIndex := key.subIndex)
  }

  function Counted(stats: Stats, status: EndStatus): Stats {
    match status
    case EmittedComplete => stats.(ok := stats.ok + 1)
    case EmittedPartial => stats.(partial := stats.partial + 1)
    case _ => stats.(dropped := stats.dropped + 1)
  }

  function UnitsOf(u: Option<AssembledUnit>, key: Key): seq<AssembledUnit> {
    if u.Some? then [Tagged(u.value, key)] else []
  }

  function CloseUnit(s: Depack, marker: bool): (Depack, seq<AssembledUnit>)
    requires s.asm.frame.Valid() && s.key.Some?
  {
    var (asm, unit, status) := EndUnit(s.asm, marker, true);
    (s.(asm := asm, key := None, stats := Counted(s.stats, status)), UnitsOf(unit, s.key.value))
  }

  ghost function WritePacket(s: Depack, p: VideoPacketView): (t: Depack)
    requires s.Valid() && s.key == Some(KeyOf(s.cfg.mode, p)) && PacketFits(s.cfg, p)
    ensures t.Valid()
  {
    s.(asm := WriteAll(s.asm, OpsOf(s.cfg.format, p.segments)), stats := s.stats.(packetsUsed := s.stats.packetsUsed + 1))
  }

  predicate Terminates(cfg: Config, p: VideoPacketView) {
    p.rtp.marker && cfg.markerTerminates
  }

  /** What a push does before it writes: end a unit of another key, open one. */
  ghost function Prepare(s: Depack, p: VideoPacketView): (r: (Depack, seq<AssembledUnit>))
    requires s.Valid() && PacketFits(s.cfg, p)
    ensures r.0.Valid() && r.0.cfg == s.cfg && r.0.key == Some(KeyOf(s.cfg.mode, p))
  {
    var key := KeyOf(s.cfg.mode, p);
    var s1 := s.(stats := s.stats.(packetsIn := s.stats.packetsIn + 1));
    if s.key.None? then (OpenUnit(s1, key, p.receiveTimestamp), [])
    else if s.key.value != key then
      var (s2, out) := CloseUnit(s1, false);
      (OpenUnit(s2, key, p.receiveTimestamp), out)
    else (s1, [])
  }

  /** The end of a push: a marker ends the unit where markers do. */
  ghost function Finish(s: Depack, p: VideoPacketView): (r: (Depack, seq<AssembledUnit>))
    requires s.Valid() && s.key.Some?
    ensures r.0.Valid() && r.0.cfg == s.cfg
  {
    if Terminates(s.cfg, p) then CloseUnit(s, true) else (s, [])
  }

  ghost function Push(s: Depack, p: VideoPacketView): (r: (Depack, seq<AssembledUnit>))
    requires s.Valid() && PacketFits(s.cfg, p)
    ensures r.0.Valid() && r.0.cfg == s.cfg
  {
    var (s1, out) := Prepare(s, p);
    var (s2, more) := Finish(WritePacket(s1, p), p);
    (s2, out + more)
  }

  class Depacketizer {
    const cfg: Config
    var assembler: FrameAssembler
    var currentKey: Option<Key>
    var stats: Stats

    ghost function Repr(): set<object>
      reads this, assembler
    {
      {this, assembler, assembler.coverage, assembler.frameData}
    }

    ghost predicate Valid()
      reads this, assembler, assembler.coverage, assembler.frameData
    {
      assembler.Valid() && Abs().Valid()
    }

    ghost function Abs(): Depack
      reads this, assembler, assembler.coverage, assembler.frameData
    {
      Depack(cfg, currentKey, assembler.Abs(), stats)
    }

    constructor (config: Config)
      requires Layout(config.width, config.height, config.format).Some?
      ensures Valid() && Abs() == FreshDepack(config) && fresh(Repr())
    {
      cfg := config;
      assembler := new FrameAssembler(config.width, config.height, config.format, config.policy);
      currentKey := None;
      stats := NO_STATS;
    }

    method Reset()
      requires Valid() && Layout(cfg.width, cfg.height, cfg.format).Some?
      modifies this
      ensures Valid() && Abs() == FreshDepack(cfg) && fresh(Repr() - {this})
    {
      assembler := new FrameAssembler(cfg.width, cfg.height, cfg.format, cfg.policy);
      currentKey := None;
      stats := NO_STATS;
    }

    method BeginUnit(key: Key, received: u64)
      requires assembler.Valid() && UnitLayout(cfg, key).Some?
      requires Supported(cfg.format) && key.kind == UnitKindOf(cfg.mode) && key.subIndex <= 1
      modifies this
      ensures Valid() && Abs() == OpenUnit(old(Abs()), key, received) && fresh(Repr() - {this})
    {
      hide Layout;
      hide TotalSize;
      hide FreshPlanes;
      hide SumExpected;
      hide SumUnique;
      assembler := new FrameAssembler(cfg.width, UnitHeight(cfg.mode, cfg.height, key.subIndex), cfg.format, cfg.policy);
      assembler.BeginUnit(key.timestamp, received);
      currentKey := Some(key);
    }

    method EndCurrentUnit(marker: bool) returns (out: seq<AssembledUnit>)
      requires Valid() && currentKey.Some?
      modifies this, assembler`frameData
      ensures Valid() && (Abs(), out) == CloseUnit(old(Abs()), marker)
      ensures assembler == old(assembler) && fresh(assembler.frameData)
    {
      hide Layout;
      var emitted, status := assembler.End(marker, true);
      if status == EmittedComplete {
        stats := stats.(ok := stats.ok + 1);
      } else if status == EmittedPartial {
        stats := stats.(partial := stats.partial + 1);
      } else {
        stats := stats.(dropped := stats.dropped + 1);
      }
      out := [];
      if emitted.Some? {
        var unit := emitted.value;
        if currentKey.Some? {
          unit := unit.(kind := currentKey.value.kind, subIndex := currentKey.value.subIndex);
        }
        out := [unit];
      }
      currentKey := None;
    }

    method WritePacketSegments(p: VideoPacketView)
      requires Valid() && currentKey == Some(KeyOf(cfg.mode, p)) && PacketFits(cfg, p)
      modifies assembler.coverage, assembler.frameData
      ensures Valid()
      ensures assembler.Abs() == WriteAll(old(assembler.Abs()), OpsOf(cfg.format, p.segments))
    {
      hide Layout, WriteSegment, TotalSize, SumExpected, SumUnique, UnitHeight;
      ghost var ops := OpsOf(cfg.format, p.segments);
      ghost var a := assembler.Abs();
      for i := 0 to |p.segments|
        invariant Valid() && i <= |ops|
        invariant assembler.Abs() == WriteAll(a, ops[..i])
      {
        assert ops[..i + 1][..i] == ops[..i];
        assembler.Write(WriteOpOf(cfg.format, p.segments[i]));
      }
      assert ops[..|ops|] == ops;
    }

    /** The first half of a push: a unit with the packet's key is open. */
    method OpenUnitFor(p: VideoPacketView) returns (out: seq<AssembledUnit>)
      requires Valid() && PacketFits(cfg, p)
      modifies this, assembler`frameData
      ensures Valid() && (Abs(), out) == Prepare(old(Abs()), p)
      ensures fresh(Repr() - old(Repr()))
    {
      hide Layout;
      hide AllFit;
      hide EndUnit;
      hide FreshAssembler;
      hide Blank;
      hide UnitHeight;
      hide ByteOffset;
      hide TotalSize;
      hide SumExpected;
      hide SumUnique;
      stats := stats.(packetsIn := stats.packetsIn + 1);
      var key := KeyOf(cfg.mode, p);
      out := [];
      if currentKey.None? {
        BeginUnit(key, p.receiveTimestamp);
      } else if currentKey.value != key {
        out := EndCurrentUnit(false);
        BeginUnit(key, p.receiveTimestamp);
      }
    }

    method PushPacket(p: VideoPacketView) returns (out: seq<AssembledUnit>)
      requires Valid() && PacketFits(cfg, p)
      modifies Repr()
      ensures Valid() && (Abs(), out) == Push(old(Abs()), p)
      ensures fresh(Repr() - old(Repr()))
    {
      hide Layout;
      hide WriteAll;
      hide AllFit;
      hide Prepare;
      hide CloseUnit, FreshAssembler, Blank, UnitHeight, TotalSize, SumExpected, SumUnique, PacketFits, KeyOf;
      out := OpenUnitFor(p);
      WritePacketSegments(p);
      stats := stats.(packetsUsed := stats.packetsUsed + 1);
      if p.rtp.marker && cfg.markerTerminates {
        var more := EndCurrentUnit(true);
        out := out + more;
      } else {
        assert out + [] == out;
      }
    }
  }
}
