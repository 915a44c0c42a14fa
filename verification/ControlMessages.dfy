/** The requests and events of the worker control channel and their encoding. */
module ControlMessages {
  import opened Basics
  import opened RingLayout
  import opened RingSlots
  import opened WireFormat

  type Ip4 = s: seq<u8> | |s| == 4 witness [0, 0, 0, 0]

  datatype RuntimePort = RuntimePort(name: seq<u8>, ip: Ip4)

  datatype RuntimeConfig = RuntimeConfig(primary: RuntimePort, redundant: Option<RuntimePort>)

  datatype SessionPort = SessionPort(ip: Ip4, source: Option<Ip4>, udpPort: u16)

  /** Enumerations other than the media kind travel as raw 32-bit numbers. */
  datatype VideoConfig = VideoConfig(
    runtime: RuntimeConfig,
    primary: SessionPort,
    redundant: Option<SessionPort>,
    payloadType: u8,
    width: u32,
    height: u32,
    fps: u32,
    scanMode: u32,
    transportFormat: u32,
    outputFormat: u32,
    frameBufferCount: u16)

  datatype AudioMedia = AudioMedia(encoding: u32, bitDepth: u32, samplingRate: u32, packetTimeUs: u32, channels: u16)

  datatype AudioConfig = AudioConfig(
    runtime: RuntimeConfig,
    primary: SessionPort,
    redundant: Option<SessionPort>,
    payloadType: u8,
    media: AudioMedia,
    samplesPerPacket: u32,
    pcmFormat: u32,
    sampling: u32,
    packetTime: u32,
    frameBufferCount: u16,
    frameBufferDurationNs: u64)

  datatype Request =
    | ConfigHandshake(requestId: u64, runtime: RuntimeConfig)
    | StartSessions(requestId: u64, graphId: u64, video: Option<VideoConfig>, audio: Option<AudioConfig>, rings: seq<RingDescriptor>)
    | StopSessions(requestId: u64, graphId: u64)
    | Shutdown(requestId: u64)
    | StatsRequest(requestId: u64, graphId: u64)
    | HealthCheck(requestId: u64)

  /** A counter or an availability flag of the statistics event. */
  datatype Stat = Counter(n: u64) | Available(b: bool)

  datatype Event =
    | Health(requestId: u64, healthy: bool, message: seq<u8>)
    | Failure(requestId: u64, graphId: u64, error: u32, message: seq<u8>)
    | Started(requestId: u64, graphId: u64)
    | Stopped(requestId: u64, graphId: u64)
    | Statistics(requestId: u64, graphId: u64, fields: seq<Stat>)
    | FrameReady(graphId: u64, ringId: u64, slotId: u64, sequence: u64)
    | AudioBlockReady(graphId: u64, ringId: u64, slotId: u64, sequence: u64)

  /** Which statistics fields are flags, in the order they are written. */
  function Counters(n: nat): seq<bool> {
    seq(n, _ => false)
  }

  const STATS_LAYOUT: seq<bool> :=
    Counters(10) + [true] + Counters(12 + 10 + 52 + 4) + [true] + Counters(12 + 9) + [true] + Counters(5) + [true] + Counters(5 + 1 + 10)

  ghost predicate StatsFit(fields: seq<Stat>, layout: seq<bool>) {
    && |fields| == |layout|
    && forall i :: 0 <= i < |fields| ==> (fields[i].Available? <==> layout[i])
  }

  // ---- validity -----------------------------------------------------------------

  ghost predicate DistinctRings(rings: seq<RingDescriptor>) {
    forall i, j :: 0 <= i < j < |rings| ==> rings[i].ringId != rings[j].ringId
  }

  ghost predicate ValidRings(rings: seq<RingDescriptor>) {
    && |rings| <= MAX_LIST
    && (forall i :: 0 <= i < |rings| ==> ValidDescriptor(rings[i]))
    && DistinctRings(rings)
  }

  /** Every ring belongs to a medium that is started. */
  ghost predicate RingsMatch(video: bool, audio: bool, rings: seq<RingDescriptor>) {
    forall i :: 0 <= i < |rings| ==> if rings[i].kind.VideoMedium? then video else audio
  }

  method ValidateDescriptors(rings: seq<RingDescriptor>) returns (ok: bool)
    ensures ok <==> ValidRings(rings)
  {
    if |rings| > MAX_LIST {
      return false;
    }
    for i := 0 to |rings|
      invariant forall j :: 0 <= j < i ==> ValidDescriptor(rings[j])
      invariant forall j, k :: 0 <= j < k < i ==> rings[j].ringId != rings[k].ringId
    {
      var valid := ValidateDescriptor(rings[i]);
      if !valid {
        return false;
      }
      for j := 0 to i
        invariant forall k :: 0 <= k < j ==> rings[k].ringId != rings[i].ringId
      {
        if rings[j].ringId == rings[i].ringId {
          return false;
        }
      }
    }
    return true;
  }

  method ValidateStartRings(video: bool, audio: bool, rings: seq<RingDescriptor>) returns (ok: bool)
    ensures ok <==> ValidRings(rings) && RingsMatch(video, audio, rings)
  {
    ok := ValidateDescriptors(rings);
    if !ok {
      return;
    }
    for i := 0 to |rings|
      invariant forall j :: 0 <= j < i ==> if rings[j].kind.VideoMedium? then video else audio
    {
      if !(if rings[i].kind.VideoMedium? then video else audio) {
        return false;
      }
    }
  }

  // ---- messages as field sequences ---------------------------------------------------

  const PORT_SHAPE := SPair(SText, SIpv4)
  const RUNTIME_SHAPE := SPair(PORT_SHAPE, SOptional(PORT_SHAPE))
  const SESSION_SHAPE := SPair(SIpv4, SPair(SOptional(SIpv4), SU16))
  const PORTS_SHAPE := SPair(RUNTIME_SHAPE, SPair(SESSION_SHAPE, SPair(SOptional(SESSION_SHAPE), SU8)))
  const FORMAT_SHAPE := SPair(SU32, SPair(SU32, SPair(SU32, SU32)))
  const VIDEO_SHAPE := SPair(PORTS_SHAPE, SPair(FORMAT_SHAPE, SPair(SU32, SPair(SU32, SU16))))
  const AUDIO_MEDIA_SHAPE := SPair(FORMAT_SHAPE, SU16)
  const AUDIO_SHAPE := SPair(PORTS_SHAPE, SPair(AUDIO_MEDIA_SHAPE, SPair(FORMAT_SHAPE, SPair(SU16, SU64))))
  const RING_SHAPE := SPair(SPair(SU64, SPair(SKind, SPair(SU32, SU32))),
                            SPair(SPair(SU64, SPair(SU64, SU32)), SPair(SU64, SPair(SU64, SU64))))

  function StatShape(flag: bool): Shape {
    if flag then SFlag else SU64
  }

  function StatsShape(layout: seq<bool>): Shape {
    if layout == [] then SUnit else SPair(StatShape(layout[0]), StatsShape(layout[1..]))
  }

  function OptionOf<T>(o: Option<T>, f: T -> Value): Value {
    if o.Some? then VSome(f(o.value)) else VNone
  }

  function PortValue(p: RuntimePort): Value {
    VPair(VText(p.name), VIpv4(p.ip))
  }

  function RuntimeValue(r: RuntimeConfig): Value {
    VPair(PortValue(r.primary), OptionOf(r.redundant, PortValue))
  }

  function SessionValue(p: SessionPort): Value {
    VPair(VIpv4(p.ip), VPair(OptionOf(p.source, a => VIpv4(a)), VU16(p.udpPort)))
  }

  function PortsValue(runtime: RuntimeConfig, primary: SessionPort, redundant: Option<SessionPort>, payloadType: u8): Value {
    VPair(RuntimeValue(runtime), VPair(SessionValue(primary), VPair(OptionOf(redundant, SessionValue), VU8(payloadType))))
  }

  function FourValue(a: u32, b: u32, c: u32, d: u32): Value {
    VPair(VU32(a), VPair(VU32(b), VPair(VU32(c), VU32(d))))
  }

  function VideoValue(c: VideoConfig): Value {
    VPair(PortsValue(c.runtime, c.primary, c.redundant, c.payloadType),
          VPair(FourValue(c.width, c.height, c.fps, c.scanMode),
                VPair(VU32(c.transportFormat), VPair(VU32(c.outputFormat), VU16(c.frameBufferCount)))))
  }

  function AudioMediaValue(m: AudioMedia): Value {
    VPair(FourValue(m.encoding, m.bitDepth, m.samplingRate, m.packetTimeUs), VU16(m.channels))
  }

  function AudioValue(c: AudioConfig): Value {
    VPair(PortsValue(c.runtime, c.primary, c.redundant, c.payloadType),
          VPair(AudioMediaValue(c.media),
                VPair(FourValue(c.samplesPerPacket, c.pcmFormat, c.sampling, c.packetTime),
                      VPair(VU16(c.frameBufferCount), VU64(c.frameBufferDurationNs)))))
  }

  function KindNumber(k: MediaKind): u32 {
    if k.VideoMedium? then 0 else 1
  }

  function RingValue(d: RingDescriptor): Value {
    VPair(VPair(VU64(d.ringId), VPair(VU32(KindNumber(d.kind)), VPair(VU32(d.fdIndex), VU32(d.layoutVersion)))),
          VPair(VPair(VU64(d.mappedSize), VPair(VU64(d.regionOffset), VU32(d.slotCount))),
                VPair(VU64(d.stride), VPair(VU64(d.payloadOffset), VU64(d.capacity)))))
  }

  function RingChain(rings: seq<RingDescriptor>): Value {
    if rings == [] then VUnit else VPair(RingValue(rings[0]), RingChain(rings[1..]))
  }

  function StatValue(f: Stat): Value {
    match f
    case Counter(n) => VU64(n)
    case Available(b) => VFlag(b)
  }

  function StatsValue(fields: seq<Stat>): Value {
    if fields == [] then VUnit else VPair(StatValue(fields[0]), StatsValue(fields[1..]))
  }

  // ---- and back ------------------------------------------------------------------------

  function PortOf(v: Value): RuntimePort
    requires Fits(v, PORT_SHAPE)
  {
    RuntimePort(v.first.text, v.rest.address)
  }

  function RuntimeOf(v: Value): RuntimeConfig
    requires Fits(v, RUNTIME_SHAPE)
  {
    RuntimeConfig(PortOf(v.first), if v.rest.VSome? then Some(PortOf(v.rest.inner)) else None)
  }

  function SessionOf(v: Value): SessionPort
    requires Fits(v, SESSION_SHAPE)
  {
    SessionPort(v.first.address, if v.rest.first.VSome? then Some(v.rest.first.inner.address) else None, v.rest.rest.n16)
  }

  function RedundantOf(v: Value): Option<SessionPort>
    requires Fits(v, PORTS_SHAPE)
  {
    var r := v.rest.rest.first;
    if r.VSome? then Some(SessionOf(r.inner)) else None
  }

  function VideoOf(v: Value): VideoConfig
    requires Fits(v, VIDEO_SHAPE)
  {
    var p, f, t := v.first, v.rest.first, v.rest.rest;
    VideoConfig(RuntimeOf(p.first), SessionOf(p.rest.first), RedundantOf(p), p.rest.rest.rest.n8,
                f.first.n32, f.rest.first.n32, f.rest.rest.first.n32, f.rest.rest.rest.n32,
                t.first.n32, t.rest.first.n32, t.rest.rest.n16)
  }

  function AudioMediaOf(v: Value): AudioMedia
    requires Fits(v, AUDIO_MEDIA_SHAPE)
  {
    var f := v.first;
    AudioMedia(f.first.n32, f.rest.first.n32, f.rest.rest.first.n32, f.rest.rest.rest.n32, v.rest.n16)
  }

  function AudioOf(v: Value): AudioConfig
    requires Fits(v, AUDIO_SHAPE)
  {
    var p, m, f, t := v.first, v.rest.first, v.rest.rest.first, v.rest.rest.rest;
    AudioConfig(RuntimeOf(p.first), SessionOf(p.rest.first), RedundantOf(p), p.rest.rest.rest.n8, AudioMediaOf(m),
                f.first.n32, f.rest.first.n32, f.rest.rest.first.n32, f.rest.rest.rest.n32, t.first.n16, t.rest.n64)
  }

  function RingOf(v: Value): RingDescriptor
    requires Fits(v, RING_SHAPE)
  {
    var a, b, c := v.first, v.rest.first, v.rest.rest;
    RingDescriptor(a.first.n64, if a.rest.first.n32 == 0 then VideoMedium else AudioMedium,
                   a.rest.rest.first.n32, a.rest.rest.rest.n32,
                   b.first.n64, b.rest.first.n64, b.rest.rest.n32, c.first.n64, c.rest.first.n64, c.rest.rest.n64)
  }

  function RingsOf(chain: Value, n: nat): (rings: seq<RingDescriptor>)
    requires ChainFits(chain, RING_SHAPE, n)
    ensures |rings| == n
  {
    if n == 0 then [] else [RingOf(chain.first)] + RingsOf(chain.rest, n - 1)
  }

  function StatOf(v: Value): Stat
    requires v.VFlag? || v.VU64?
  {
    if v.VFlag? then Available(v.flag) else Counter(v.n64)
  }

  function StatsOf(v: Value, layout: seq<bool>): (fields: seq<Stat>)
    requires Fits(v, StatsShape(layout))
  {
    if layout == [] then []
    else
      assert Fits(v.first, StatShape(layout[0]));
      [StatOf(v.first)] + StatsOf(v.rest, layout[1..])
  }

  // ---- the parts map back and forth ------------------------------------------------------

  predicate ShortName(p: RuntimePort) {
    |p.name| < TWO_32
  }

  predicate ShortNames(r: RuntimeConfig) {
    ShortName(r.primary) && (r.redundant.Some? ==> ShortName(r.redundant.value))
  }

  lemma RuntimeMaps(r: RuntimeConfig, v: Value)
    ensures ShortNames(r) <==> Fits(RuntimeValue(r), RUNTIME_SHAPE)
    ensures Fits(RuntimeValue(r), RUNTIME_SHAPE) ==> RuntimeOf(RuntimeValue(r)) == r
    ensures Fits(v, RUNTIME_SHAPE) ==> RuntimeValue(RuntimeOf(v)) == v
  {
  }

  lemma SessionMaps(p: SessionPort, v: Value)
    ensures Fits(SessionValue(p), SESSION_SHAPE) && SessionOf(SessionValue(p)) == p
    ensures Fits(v, SESSION_SHAPE) ==> SessionValue(SessionOf(v)) == v
  {
  }

  lemma PortsMap(runtime: RuntimeConfig, primary: SessionPort, redundant: Option<SessionPort>, payloadType: u8)
    ensures var v := PortsValue(runtime, primary, redundant, payloadType);
            && (ShortNames(runtime) <==> Fits(v, PORTS_SHAPE))
            && (Fits(v, PORTS_SHAPE) ==>
                  && RuntimeOf(v.first) == runtime && SessionOf(v.rest.first) == primary
                  && RedundantOf(v) == redundant && v.rest.rest.rest.n8 == payloadType)
  {
    hide RuntimeValue;
    hide RuntimeOf;
    hide SessionValue;
    hide SessionOf;
    RuntimeMaps(runtime, VUnit);
    SessionMaps(primary, VUnit);
    if redundant.Some? {
      SessionMaps(redundant.value, VUnit);
    }
  }

  lemma VideoMaps(c: VideoConfig)
    ensures ShortNames(c.runtime) <==> Fits(VideoValue(c), VIDEO_SHAPE)
    ensures Fits(VideoValue(c), VIDEO_SHAPE) ==> VideoOf(VideoValue(c)) == c
  {
    hide RuntimeOf;
    hide SessionOf;
    hide PortsValue;
    hide RedundantOf;
    PortsMap(c.runtime, c.primary, c.redundant, c.payloadType);
  }

  lemma VideoMapsBack(v: Value)
    requires Fits(v, VIDEO_SHAPE)
    ensures VideoValue(VideoOf(v)) == v
  {
  }

  lemma AudioMaps(c: AudioConfig)
    ensures ShortNames(c.runtime) <==> Fits(AudioValue(c), AUDIO_SHAPE)
    ensures Fits(AudioValue(c), AUDIO_SHAPE) ==> AudioOf(AudioValue(c)) == c
  {
    hide RuntimeOf;
    hide SessionOf;
    hide PortsValue;
    hide RedundantOf;
    PortsMap(c.runtime, c.primary, c.redundant, c.payloadType);
  }

  lemma AudioMapsBack(v: Value)
    requires Fits(v, AUDIO_SHAPE)
    ensures AudioValue(AudioOf(v)) == v
  {
  }

  lemma RingMaps(d: RingDescriptor)
    ensures Fits(RingValue(d), RING_SHAPE) && RingOf(RingValue(d)) == d
  {
  }

  lemma RingMapsBack(v: Value)
    requires Fits(v, RING_SHAPE)
    ensures RingValue(RingOf(v)) == v
  {
  }

  lemma {:induction false} RingsMap(rings: seq<RingDescriptor>)
    ensures ChainFits(RingChain(rings), RING_SHAPE, |rings|)
    ensures RingsOf(RingChain(rings), |rings|) == rings
  {
    hide RingValue;
    hide RingOf;
    if rings != [] {
      RingMaps(rings[0]);
      RingsMap(rings[1..]);
    }
  }

  lemma {:induction false} RingsMapBack(chain: Value, n: nat)
    requires ChainFits(chain, RING_SHAPE, n)
    ensures RingChain(RingsOf(chain, n)) == chain
    decreases n
  {
    hide RingValue;
    hide RingOf;
    if n > 0 {
      RingMapsBack(chain.first);
      RingsMapBack(chain.rest, n - 1);
    }
  }

  lemma {:induction false} StatsMap(fields: seq<Stat>, layout: seq<bool>)
    ensures StatsFit(fields, layout) <==> Fits(StatsValue(fields), StatsShape(layout))
    ensures StatsFit(fields, layout) ==> StatsOf(StatsValue(fields), layout) == fields
    decreases |layout|
  {
    if layout != [] && fields != [] {
      StatsMap(fields[1..], layout[1..]);
      assert StatsFit(fields, layout) <==>
             (fields[0].Available? <==> layout[0]) && StatsFit(fields[1..], layout[1..]) by {
        assert forall i :: 1 <= i < |fields| ==> fields[i] == fields[1..][i - 1];
        assert forall i :: 1 <= i < |layout| ==> layout[i] == layout[1..][i - 1];
      }
    }
  }

  lemma {:induction false} StatsMapBack(v: Value, layout: seq<bool>)
    requires Fits(v, StatsShape(layout))
    ensures StatsValue(StatsOf(v, layout)) == v
    decreases |layout|
  {
    if layout != [] {
      StatsMapBack(v.rest, layout[1..]);
    }
  }

  // ---- requests ----------------------------------------------------------------------------

  const HANDSHAKE_SHAPE := SPair(SU64, RUNTIME_SHAPE)
  const TWO_IDS_SHAPE := SPair(SU64, SU64)
  const START_SHAPE := SPair(TWO_IDS_SHAPE, SPair(SOptional(VIDEO_SHAPE), SPair(SOptional(AUDIO_SHAPE), SList(RING_SHAPE))))

  function RequestShape(tag: u8): Option<Shape> {
    if tag == 1 then Some(HANDSHAKE_SHAPE)
    else if tag == 2 then Some(START_SHAPE)
    else if tag == 3 || tag == 5 then Some(TWO_IDS_SHAPE)
    else if tag == 4 || tag == 6 then Some(SU64)
    else None
  }

  function RequestTag(r: Request): u8 {
    match r
    case ConfigHandshake(_, _) => 1
    case StartSessions(_, _, _, _, _) => 2
    case StopSessions(_, _) => 3
    case Shutdown(_) => 4
    case StatsRequest(_, _) => 5
    case HealthCheck(_) => 6
  }

  function TwoIds(a: u64, b: u64): Value {
    VPair(VU64(a), VU64(b))
  }

  function RequestValue(r: Request): Value {
    match r
    case ConfigHandshake(id, runtime) => VPair(VU64(id), RuntimeValue(runtime))
    case StartSessions(id, graph, video, audio, rings) =>
      VPair(TwoIds(id, graph),
            VPair(OptionOf(video, VideoValue), VPair(OptionOf(audio, AudioValue), VList(|rings|, RingChain(rings)))))
    case StopSessions(id, graph) => TwoIds(id, graph)
    case Shutdown(id) => VU64(id)
    case StatsRequest(id, graph) => TwoIds(id, graph)
    case HealthCheck(id) => VU64(id)
  }

  function RequestOf(tag: u8, v: Value): Request
    requires RequestShape(tag).Some? && Fits(v, RequestShape(tag).value)
  {
    if tag == 1 then ConfigHandshake(v.first.n64, RuntimeOf(v.rest))
    else if tag == 2 then StartOf(v)
    else if tag == 3 then StopSessions(v.first.n64, v.rest.n64)
    else if tag == 4 then Shutdown(v.n64)
    else if tag == 5 then StatsRequest(v.first.n64, v.rest.n64)
    else HealthCheck(v.n64)
  }

  function VideoPartOf(v: Value): Option<VideoConfig>
    requires Fits(v, SOptional(VIDEO_SHAPE))
  {
    if v.VSome? then Some(VideoOf(v.inner)) else None
  }

  function AudioPartOf(v: Value): Option<AudioConfig>
    requires Fits(v, SOptional(AUDIO_SHAPE))
  {
    if v.VSome? then Some(AudioOf(v.inner)) else None
  }

  function RingListOf(v: Value): seq<RingDescriptor>
    requires Fits(v, SList(RING_SHAPE))
  {
    RingsOf(v.chain, v.count)
  }

  function StartOf(v: Value): Request
    requires Fits(v, START_SHAPE)
  {
    var w := v.rest;
    assert Fits(w.first, SOptional(VIDEO_SHAPE)) && Fits(w.rest.first, SOptional(AUDIO_SHAPE));
    StartSessions(v.first.first.n64, v.first.rest.n64,
                  VideoPartOf(w.first), AudioPartOf(w.rest.first), RingListOf(w.rest.rest))
  }

  /** What serialization demands: names that fit their length prefix, and rings
      that are valid, distinct and of a medium that is started. */
  ghost predicate Encodable(r: Request) {
    match r
    case ConfigHandshake(_, runtime) => ShortNames(runtime)
    case StartSessions(_, _, video, audio, rings) =>
      && (video.Some? ==> ShortNames(video.value.runtime))
      && (audio.Some? ==> ShortNames(audio.value.runtime))
      && ValidRings(rings) && RingsMatch(video.Some?, audio.Some?, rings)
    case _ => true
  }

  /** Deserialization demands a medium besides. */
  predicate HasMedia(r: Request) {
    r.StartSessions? ==> r.video.Some? || r.audio.Some?
  }

  ghost function Serialize(r: Request): Result<seq<u8>> {
    if Encodable(r) then Ok([RequestTag(r)] + Encode(RequestValue(r))) else Err(InvalidValue)
  }

  ghost predicate Acceptable(r: Request) {
    HasMedia(r) && (r.StartSessions? ==> ValidRings(r.rings) && RingsMatch(r.video.Some?, r.audio.Some?, r.rings))
  }

  ghost function Deserialize(b: seq<u8>): Result<Request> {
    if b == [] then Err(InvalidValue)
    else
      var shape := RequestShape(b[0]);
      if shape.None? then Err(Unsupported)
      else
        var t := Decode(shape.value, b, 1);
        if t.None? then Err(InvalidValue)
        else
          DecodedFits(shape.value, b, 1);
          var r := RequestOf(b[0], t.value.v);
          if !Acceptable(r) || t.value.end != |b| then Err(InvalidValue) else Ok(r)
  }

  lemma DecodedFits(s: Shape, b: seq<u8>, at: nat)
    requires at <= |b| && Decode(s, b, at).Some?
    ensures Fits(Decode(s, b, at).value.v, s)
    ensures StartsWith(b, at, Encode(Decode(s, b, at).value.v))
    ensures Decode(s, b, at).value.end == at + |Encode(Decode(s, b, at).value.v)|
  {
    hide Fits, Decode, Encode, StartsWith;
    DecodedLength(s, b, at);
    DecodeIffEncoded(s, b, at, Decode(s, b, at).value.v);
  }

  lemma StartUnfolds(ids: Value, video: Value, audio: Value, rings: Value)
    ensures Fits(VPair(ids, VPair(video, VPair(audio, rings))), START_SHAPE) <==>
            && Fits(ids, TWO_IDS_SHAPE) && Fits(video, SOptional(VIDEO_SHAPE))
            && Fits(audio, SOptional(AUDIO_SHAPE)) && Fits(rings, SList(RING_SHAPE))
  {
  }

  lemma OptionalMaps(video: Option<VideoConfig>, audio: Option<AudioConfig>)
    requires video.Some? ==> ShortNames(video.value.runtime)
    requires audio.Some? ==> ShortNames(audio.value.runtime)
    ensures var v, a := OptionOf(video, VideoValue), OptionOf(audio, AudioValue);
            && Fits(v, SOptional(VIDEO_SHAPE)) && Fits(a, SOptional(AUDIO_SHAPE))
            && v.VSome? == video.Some? && a.VSome? == audio.Some?
            && (video.Some? ==> Fits(v.inner, VIDEO_SHAPE) && VideoOf(v.inner) == video.value)
            && (audio.Some? ==> Fits(a.inner, AUDIO_SHAPE) && AudioOf(a.inner) == audio.value)
  {
    hide VideoValue;
    hide AudioValue;
    hide VideoOf;
    hide AudioOf;
    if video.Some? {
      VideoMaps(video.value);
    }
    if audio.Some? {
      AudioMaps(audio.value);
    }
  }

  lemma StartMaps(r: Request)
    requires r.StartSessions? && Encodable(r)
    ensures Fits(RequestValue(r), START_SHAPE) && StartOf(RequestValue(r)) == r
  {
    hide Fits;
    hide VideoValue;
    hide AudioValue;
    hide VideoOf;
    hide AudioOf;
    hide RingChain;
    hide RingsOf;
    hide ChainFits;
    var ids, rings := TwoIds(r.requestId, r.graphId), VList(|r.rings|, RingChain(r.rings));
    OptionalMaps(r.video, r.audio);
    RingsMap(r.rings);
    RingListFits(r.rings);
    StartUnfolds(ids, OptionOf(r.video, VideoValue), OptionOf(r.audio, AudioValue), rings);
  }

  lemma RingListFits(rings: seq<RingDescriptor>)
    requires |rings| <= MAX_LIST
    ensures Fits(VList(|rings|, RingChain(rings)), SList(RING_SHAPE))
    ensures forall a: u64, b: u64 {:trigger TwoIds(a, b)} :: Fits(TwoIds(a, b), TWO_IDS_SHAPE)
  {
  }

  lemma VideoPartMapsBack(v: Value)
    requires Fits(v, SOptional(VIDEO_SHAPE))
    ensures OptionOf(VideoPartOf(v), VideoValue) == v
  {
    hide VideoValue;
    hide VideoOf;
    if v.VSome? {
      VideoMapsBack(v.inner);
    }
  }

  lemma AudioPartMapsBack(v: Value)
    requires Fits(v, SOptional(AUDIO_SHAPE))
    ensures OptionOf(AudioPartOf(v), AudioValue) == v
  {
    hide AudioValue;
    hide AudioOf;
    if v.VSome? {
      AudioMapsBack(v.inner);
    }
  }

  lemma RingListMapsBack(v: Value)
    requires Fits(v, SList(RING_SHAPE))
    ensures v.VList? && |RingListOf(v)| == v.count && RingChain(RingListOf(v)) == v.chain
  {
    hide RingChain;
    hide RingsOf;
    hide ChainFits;
    RingsMapBack(v.chain, v.count);
  }

  lemma StartShaped(v: Value)
    requires Fits(v, START_SHAPE)
    ensures v.VPair? && v.first.VPair? && v.first.first.VU64? && v.first.rest.VU64?
    ensures v.rest.VPair? && v.rest.rest.VPair? && v.rest.rest.rest.VList?
    ensures Fits(v.rest.first, SOptional(VIDEO_SHAPE)) && Fits(v.rest.rest.first, SOptional(AUDIO_SHAPE))
    ensures Fits(v.rest.rest.rest, SList(RING_SHAPE))
  {
  }

  lemma StartMapsBack(v: Value)
    requires Fits(v, START_SHAPE)
    ensures RequestValue(StartOf(v)) == v
  {
    hide Fits;
    hide VideoPartOf;
    hide AudioPartOf;
    hide RingListOf;
    hide RingChain;
    hide OptionOf;
    StartShaped(v);
    VideoPartMapsBack(v.rest.first);
    AudioPartMapsBack(v.rest.rest.first);
    RingListMapsBack(v.rest.rest.rest);
  }

  lemma RequestMaps(r: Request)
    requires Encodable(r)
    ensures var shape := RequestShape(RequestTag(r));
            && shape.Some? && Fits(RequestValue(r), shape.value)
            && RequestOf(RequestTag(r), RequestValue(r)) == r
  {
    hide StartOf;
    hide RuntimeValue;
    hide RuntimeOf;
    if r.StartSessions? {
      StartMaps(r);
    } else if r.ConfigHandshake? {
      RuntimeMaps(r.runtime, VUnit);
    }
  }

  lemma NamesShort(v: Value, w: Value)
    ensures Fits(v, VIDEO_SHAPE) ==> ShortNames(VideoOf(v).runtime)
    ensures Fits(w, AUDIO_SHAPE) ==> ShortNames(AudioOf(w).runtime)
  {
    hide RuntimeValue;
    hide RuntimeOf;
    if Fits(v, VIDEO_SHAPE) {
      RuntimeMaps(RuntimeOf(v.first.first), v.first.first);
    }
    if Fits(w, AUDIO_SHAPE) {
      RuntimeMaps(RuntimeOf(w.first.first), w.first.first);
    }
  }

  lemma StartNamesShort(v: Value)
    requires Fits(v, START_SHAPE)
    ensures var r := StartOf(v);
            && (r.video.Some? ==> ShortNames(r.video.value.runtime))
            && (r.audio.Some? ==> ShortNames(r.audio.value.runtime))
  {
    hide VideoOf;
    hide AudioOf;
    hide RingsOf;
    hide ChainFits;
    hide ShortNames;
    if v.rest.first.VSome? {
      NamesShort(v.rest.first.inner, VUnit);
    }
    if v.rest.rest.first.VSome? {
      NamesShort(VUnit, v.rest.rest.first.inner);
    }
  }

  lemma RequestMapsBack(tag: u8, v: Value)
    requires RequestShape(tag).Some? && Fits(v, RequestShape(tag).value)
    ensures RequestTag(RequestOf(tag, v)) == tag && RequestValue(RequestOf(tag, v)) == v
    ensures Acceptable(RequestOf(tag, v)) ==> Encodable(RequestOf(tag, v))
  {
    hide RuntimeValue;
    hide RuntimeOf;
    hide ValidRings;
    hide ShortNames;
    if tag == 2 {
      StartMapsBack(v);
      StartNamesShort(v);
    } else if tag == 1 {
      RuntimeMaps(RuntimeOf(v.rest), v.rest);
    }
  }

  /** Every request that can be encoded is decoded to itself, if and only if it
      starts some medium when it starts sessions. */
  lemma RequestRoundTrip(r: Request)
    requires Encodable(r)
    ensures Deserialize(Serialize(r).value) == if HasMedia(r) then Ok(r) else Err(InvalidValue)
  {
    hide RequestShape;
    hide RequestValue;
    hide RequestOf;
    hide Fits;
    hide Encode;
    hide Decode;
    var b, v := Serialize(r).value, RequestValue(r);
    RequestMaps(r);
    assert b[1..1 + |Encode(v)|] == Encode(v);
    DecodeIffEncoded(RequestShape(RequestTag(r)).value, b, 1, v);
  }

  /** Such a request: start nothing, with no rings. It is encoded, and refused. */
  lemma StartOfNothing(id: u64, graph: u64)
    ensures var r := StartSessions(id, graph, None, None, []);
            Serialize(r).Ok? && Deserialize(Serialize(r).value) == Err(InvalidValue)
  {
    hide Encode, Decode, RequestValue, RequestShape, RequestOf;
    RequestRoundTrip(StartSessions(id, graph, None, None, []));
  }

  /** Every accepted request is encoded as exactly the bytes it came in. */
  lemma AcceptedRequestBytes(b: seq<u8>)
    requires Deserialize(b).Ok?
    ensures Serialize(Deserialize(b).value) == Ok(b)
  {
    hide RequestShape;
    hide RequestValue;
    hide RequestOf;
    hide Fits;
    hide Encode;
    hide Decode;
    hide Acceptable;
    hide Encodable;
    var shape := RequestShape(b[0]).value;
    var v := Decode(shape, b, 1).value.v;
    DecodedFits(shape, b, 1);
    RequestMapsBack(b[0], v);
    assert b == [b[0]] + b[1..1 + |Encode(v)|];
  }

  /** No two accepted strings mean the same request, and none is a proper prefix
      of another. */
  lemma RequestsPrefixFree(a: seq<u8>, b: seq<u8>)
    requires Deserialize(a).Ok? && Deserialize(b).Ok?
    ensures Deserialize(a) == Deserialize(b) ==> a == b
    ensures a <= b ==> a == b
  {
    hide RequestShape;
    hide RequestOf;
    hide Fits;
    hide Encode;
    hide Decode;
    hide Acceptable;
    AcceptedRequestBytes(a);
    AcceptedRequestBytes(b);
    if a <= b {
      var shape := RequestShape(a[0]).value;
      DecodedFits(shape, a, 1);
      DecodedFits(shape, b, 1);
      var v, w := Decode(shape, a, 1).value.v, Decode(shape, b, 1).value.v;
      assert a[1..] == Encode(v) && b[1..] == Encode(w);
      assert a[1..] <= b[1..];
      PrefixFree(shape, v, w);
      assert a == [a[0]] + a[1..] && b == [b[0]] + b[1..];
    }
  }

  lemma {:induction false} FitsWritable(v: Value, s: Shape)
    requires Fits(v, s)
    ensures Writable(v)
    decreases s, 0
  {
    match s
    case SPair(a, b) => FitsWritable(v.first, a); FitsWritable(v.rest, b);
    case SOptional(a) => if v.VSome? { FitsWritable(v.inner, a); }
    case SList(a) => ChainWritable(v.chain, a, v.count);
    case _ =>
  }

  lemma {:induction false} ChainWritable(v: Value, elem: Shape, n: nat)
    requires ChainFits(v, elem, n)
    ensures Writable(v)
    decreases elem, n + 1
  {
    if n > 0 {
      FitsWritable(v.first, elem);
      ChainWritable(v.rest, elem, n - 1);
    }
  }

  lemma RuntimeWritable(r: RuntimeConfig)
    ensures Writable(RuntimeValue(r)) ==> ShortNames(r)
  {
    if Writable(RuntimeValue(r)) {
      assert Writable(PortValue(r.primary)) && Writable(VText(r.primary.name));
      if r.redundant.Some? {
        assert Writable(VSome(PortValue(r.redundant.value)));
        assert Writable(PortValue(r.redundant.value)) && Writable(VText(r.redundant.value.name));
      }
    }
  }

  lemma PortsWritable(runtime: RuntimeConfig, primary: SessionPort, redundant: Option<SessionPort>, payloadType: u8)
    ensures Writable(PortsValue(runtime, primary, redundant, payloadType)) ==> ShortNames(runtime)
  {
    RuntimeWritable(runtime);
  }

  /** The writer fails exactly on a name too long for its prefix. */
  lemma WritableNames(r: Request)
    requires r.StartSessions? ==> ValidRings(r.rings) && RingsMatch(r.video.Some?, r.audio.Some?, r.rings)
    ensures Writable(RequestValue(r)) <==> Encodable(r)
  {
    hide PortsValue;
    hide RuntimeValue;
    hide ShortNames;
    hide RingChain;
    hide ValidRings;
    hide Fits;
    if Encodable(r) {
      RequestMaps(r);
      FitsWritable(RequestValue(r), RequestShape(RequestTag(r)).value);
    }
    if Writable(RequestValue(r)) {
      if r.ConfigHandshake? {
        RuntimeWritable(r.runtime);
      } else if r.StartSessions? {
        var media := RequestValue(r).rest;
        assert Writable(media) && Writable(media.rest);
        if r.video.Some? {
          var c := r.video.value;
          assert Writable(VSome(VideoValue(c))) && Writable(VideoValue(c));
          PortsWritable(c.runtime, c.primary, c.redundant, c.payloadType);
        }
        if r.audio.Some? {
          var c := r.audio.value;
          assert Writable(VSome(AudioValue(c))) && Writable(AudioValue(c));
          PortsWritable(c.runtime, c.primary, c.redundant, c.payloadType);
        }
      }
    }
  }

  method SerializeRequest(r: Request) returns (out: Result<seq<u8>>)
    ensures out == Serialize(r)
  {
    hide RequestShape;
    hide RequestValue;
    hide Fits;
    hide Encode;
    hide ValidRings;
    var writer := new Writer();
    writer.PutU8(RequestTag(r));
    if r.StartSessions? {
      var valid := ValidateStartRings(r.video.Some?, r.audio.Some?, r.rings);
      if !valid {
        return Err(InvalidValue);
      }
    }
    var wrote := writer.Put(RequestValue(r));
    WritableNames(r);
    if wrote.Err? {
      return Err(wrote.error);
    }
    assert [] + [RequestTag(r)] == [RequestTag(r)];
    return Ok(writer.bytes);
  }

  method DeserializeRequest(b: seq<u8>) returns (out: Result<Request>)
    ensures out == Deserialize(b)
  {
    hide Encode;
    hide Decode;
    hide Fits;
    hide RequestOf;
    hide ValidRings;
    if |b| < 1 {
      return Err(InvalidValue);
    }
    var shape := RequestShape(b[0]);
    if shape.None? {
      return Err(Unsupported);
    }
    var reader := new Reader(b);
    var tag := reader.GetU8();
    OneOctet(b);
    var v := reader.Get(shape.value);
    if v.None? {
      return Err(InvalidValue);
    }
    DecodedFits(shape.value, b, 1);
    var r := RequestOf(b[0], v.value);
    if r.StartSessions? {
      var valid := ValidateStartRings(r.video.Some?, r.audio.Some?, r.rings);
      if !valid {
        return Err(InvalidValue);
      }
      if r.video.None? && r.audio.None? {
        return Err(InvalidValue);
      }
    }
    if reader.offset != |b| {
      return Err(InvalidValue);
    }
    return Ok(r);
  }

  lemma OneOctet(b: seq<u8>)
    requires b != []
    ensures Decode(SU8, b, 0) == Some(Taken(VU8(b[0]), 1))
  {
  }

  // ---- events -----------------------------------------------------------------------------------

  const READY_SHAPE := SPair(SU64, SPair(SU64, SPair(SU64, SU64)))
  const HEALTH_SHAPE := SPair(SU64, SPair(SFlag, SText))
  const FAILURE_SHAPE := SPair(TWO_IDS_SHAPE, SPair(SU32, SText))
  const STATISTICS_SHAPE := SPair(TWO_IDS_SHAPE, StatsShape(STATS_LAYOUT))

  function EventShape(tag: u8): Option<Shape> {
    if tag == 101 then Some(HEALTH_SHAPE)
    else if tag == 102 then Some(FAILURE_SHAPE)
    else if tag == 103 || tag == 104 then Some(TWO_IDS_SHAPE)
    else if tag == 105 then Some(STATISTICS_SHAPE)
    else if tag == 106 || tag == 107 then Some(READY_SHAPE)
    else None
  }

  function EventTag(e: Event): u8 {
    match e
    case Health(_, _, _) => 101
    case Failure(_, _, _, _) => 102
    case Started(_, _) => 103
    case Stopped(_, _) => 104
    case Statistics(_, _, _) => 105
    case FrameReady(_, _, _, _) => 106
    case AudioBlockReady(_, _, _, _) => 107
  }

  function ReadyValue(graph: u64, ring: u64, slot: u64, sequence: u64): Value {
    VPair(VU64(graph), VPair(VU64(ring), VPair(VU64(slot), VU64(sequence))))
  }

  function EventValue(e: Event): Value {
    match e
    case Health(id, healthy, message) => VPair(VU64(id), VPair(VFlag(healthy), VText(message)))
    case Failure(id, graph, error, message) => VPair(TwoIds(id, graph), VPair(VU32(error), VText(message)))
    case Started(id, graph) => TwoIds(id, graph)
    case Stopped(id, graph) => TwoIds(id, graph)
    case Statistics(id, graph, fields) => VPair(TwoIds(id, graph), StatsValue(fields))
    case FrameReady(graph, ring, slot, number) => ReadyValue(graph, ring, slot, number)
    case AudioBlockReady(graph, ring, slot, number) => ReadyValue(graph, ring, slot, number)
  }

  function EventOf(tag: u8, v: Value): Event
    requires EventShape(tag).Some? && Fits(v, EventShape(tag).value)
  {
    if tag == 101 then Health(v.first.n64, v.rest.first.flag, v.rest.rest.text)
    else if tag == 102 then Failure(v.first.first.n64, v.first.rest.n64, v.rest.first.n32, v.rest.rest.text)
    else if tag == 103 then Started(v.first.n64, v.rest.n64)
    else if tag == 104 then Stopped(v.first.n64, v.rest.n64)
    else if tag == 105 then
      assert Fits(v.first, TWO_IDS_SHAPE);
      Statistics(v.first.first.n64, v.first.rest.n64, StatsOf(v.rest, STATS_LAYOUT))
    else if tag == 106 then FrameReady(v.first.n64, v.rest.first.n64, v.rest.rest.first.n64, v.rest.rest.rest.n64)
    else AudioBlockReady(v.first.n64, v.rest.first.n64, v.rest.rest.first.n64, v.rest.rest.rest.n64)
  }

  /** Messages that fit their length prefix; statistics with their fixed fields. */
  ghost predicate EncodableEvent(e: Event) {
    match e
    case Health(_, _, message) => |message| < TWO_32
    case Failure(_, _, _, message) => |message| < TWO_32
    case Statistics(_, _, fields) => StatsFit(fields, STATS_LAYOUT)
    case _ => true
  }

  ghost function SerializeE(e: Event): Result<seq<u8>> {
    if EncodableEvent(e) then Ok([EventTag(e)] + Encode(EventValue(e))) else Err(InvalidValue)
  }

  ghost function DeserializeE(b: seq<u8>): Result<Event> {
    if b == [] then Err(InvalidValue)
    else
      var shape := EventShape(b[0]);
      if shape.None? then Err(Unsupported)
      else
        var t := Decode(shape.value, b, 1);
        if t.None? then Err(InvalidValue)
        else
          DecodedFits(shape.value, b, 1);
          if t.value.end != |b| then Err(InvalidValue) else Ok(EventOf(b[0], t.value.v))
  }

  lemma EventMaps(e: Event)
    ensures var shape := EventShape(EventTag(e));
            && shape.Some? && (EncodableEvent(e) <==> Fits(EventValue(e), shape.value))
            && (EncodableEvent(e) ==> EventOf(EventTag(e), EventValue(e)) == e)
  {
    hide StatsShape;
    hide StatsValue;
    hide StatsOf;
    if e.Statistics? {
      StatsMap(e.fields, STATS_LAYOUT);
    }
  }

  lemma EventMapsBack(tag: u8, v: Value)
    requires EventShape(tag).Some? && Fits(v, EventShape(tag).value)
    ensures EventTag(EventOf(tag, v)) == tag && EventValue(EventOf(tag, v)) == v
  {
    hide StatsShape;
    hide StatsValue;
    hide StatsOf;
    if tag == 105 {
      StatsMapBack(v.rest, STATS_LAYOUT);
    }
  }

  /** Every event is decoded to itself. */
  lemma EventRoundTrip(e: Event)
    requires EncodableEvent(e)
    ensures DeserializeE(SerializeE(e).value) == Ok(e)
  {
    hide EventShape;
    hide EventValue;
    hide EventOf;
    hide EncodableEvent;
    hide Fits;
    hide Encode;
    hide Decode;
    var b, v := SerializeE(e).value, EventValue(e);
    EventMaps(e);
    assert b[1..1 + |Encode(v)|] == Encode(v);
    DecodeIffEncoded(EventShape(EventTag(e)).value, b, 1, v);
  }

  /** Every accepted event is encoded as exactly the bytes it came in. */
  lemma AcceptedEventBytes(b: seq<u8>)
    requires DeserializeE(b).Ok?
    ensures SerializeE(DeserializeE(b).value) == Ok(b)
  {
    hide EventShape;
    hide EventValue;
    hide EventOf;
    hide EncodableEvent;
    hide Fits;
    hide Encode;
    hide Decode;
    var shape := EventShape(b[0]).value;
    var v := Decode(shape, b, 1).value.v;
    DecodedFits(shape, b, 1);
    EventMapsBack(b[0], v);
    EventMaps(EventOf(b[0], v));
    assert b == [b[0]] + b[1..1 + |Encode(v)|];
  }

  /** No two accepted strings mean the same event, and none is a proper prefix of
      another. */
  lemma EventsPrefixFree(a: seq<u8>, b: seq<u8>)
    requires DeserializeE(a).Ok? && DeserializeE(b).Ok?
    ensures DeserializeE(a) == DeserializeE(b) ==> a == b
    ensures a <= b ==> a == b
  {
    hide EventShape;
    hide EventOf;
    hide EncodableEvent;
    hide Fits;
    hide Encode;
    hide Decode;
    AcceptedEventBytes(a);
    AcceptedEventBytes(b);
    if a <= b {
      var shape := EventShape(a[0]).value;
      DecodedFits(shape, a, 1);
      DecodedFits(shape, b, 1);
      var v, w := Decode(shape, a, 1).value.v, Decode(shape, b, 1).value.v;
      assert a[1..] == Encode(v) && b[1..] == Encode(w);
      assert a[1..] <= b[1..];
      PrefixFree(shape, v, w);
      assert a == [a[0]] + a[1..] && b == [b[0]] + b[1..];
    }
  }

  lemma EventWritable(e: Event)
    requires e.Statistics? ==> StatsFit(e.fields, STATS_LAYOUT)
    ensures Writable(EventValue(e)) <==> EncodableEvent(e)
  {
    hide Fits;
    hide StatsFit;
    if EncodableEvent(e) {
      EventMaps(e);
      FitsWritable(EventValue(e), EventShape(EventTag(e)).value);
    }
    if Writable(EventValue(e)) && (e.Health? || e.Failure?) {
      assert Writable(EventValue(e).rest) && Writable(EventValue(e).rest.rest);
    }
  }

  method SerializeEvent(e: Event) returns (out: Result<seq<u8>>)
    requires e.Statistics? ==> StatsFit(e.fields, STATS_LAYOUT)
    ensures out == SerializeE(e)
  {
    hide EventShape;
    hide Fits;
    hide Encode;
    hide StatsFit;
    var writer := new Writer();
    writer.PutU8(EventTag(e));
    var wrote := writer.Put(EventValue(e));
    EventWritable(e);
    if wrote.Err? {
      return Err(wrote.error);
    }
    assert [] + [EventTag(e)] == [EventTag(e)];
    return Ok(writer.bytes);
  }

  method DeserializeEvent(b: seq<u8>) returns (out: Result<Event>)
    ensures out == DeserializeE(b)
  {
    hide Encode;
    hide Decode;
    hide Fits;
    hide EventOf;
    if |b| < 1 {
      return Err(InvalidValue);
    }
    var shape := EventShape(b[0]);
    if shape.None? {
      return Err(Unsupported);
    }
    var reader := new Reader(b);
    var tag := reader.GetU8();
    OneOctet(b);
    var v := reader.Get(shape.value);
    if v.None? {
      return Err(InvalidValue);
    }
    DecodedFits(shape.value, b, 1);
    if reader.offset != |b| {
      return Err(InvalidValue);
    }
    return Ok(EventOf(b[0], v.value));
  }
}
