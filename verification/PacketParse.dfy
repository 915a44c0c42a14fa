/** A datagram becomes a packet view: the RTP header (section 5.1 of RFC 3550),
    the sample row data headers (section 4.2 of RFC 4175), and the payload cut
    along them; and the owned copy that the reorder buffer stores. */
module PacketParse {
  import opened Basics
  import opened BigEndian
  import opened Packets

  // ---- the RTP header ---------------------------------------------------------

  function HeaderEnd(d: seq<u8>): Result<nat>
    requires |d| >= 12
  {
    var offset := 12 + 4 * (d[0] % 16);
    if |d| < offset then Err(ShortPacket)
    else if (d[0] / 16) % 2 == 0 then Ok(offset)
    else if |d| < offset + 4 then Err(ShortPacket)
    else
      var end := offset + 4 + 4 * Get16(d, offset + 2);
      if |d| < end then Err(ShortPacket) else Ok(end)
  }

  /** The length of the RTP payload behind `offset`, less the padding. */
  function PayloadLength(d: seq<u8>, offset: nat): Result<nat>
    requires 12 <= offset <= |d|
  {
    if (d[0] / 32) % 2 == 0 then Ok(|d| - offset)
    else
      var pad := d[|d| - 1];
      if pad == 0 || pad > |d| - offset then Err(InvalidValue) else Ok(|d| - pad - offset)
  }

  function ParseRtp(d: seq<u8>): (r: Result<RtpHeader>)
    ensures r.Ok? ==> r.value.payloadOffset + r.value.payloadLen <= |d|
  {
    if |d| < 12 then Err(ShortPacket)
    else if d[0] / 64 != 2 then Err(BadRtpVersion)
    else match HeaderEnd(d)
      case Err(e) => Err(e)
      case Ok(offset) =>
        match PayloadLength(d, offset)
        case Err(e) => Err(e)
        case Ok(len) =>
          Ok(RtpHeader(d[0] / 64, (d[0] / 32) % 2 == 1, (d[0] / 16) % 2 == 1, d[0] % 16,
                       d[1] / 128 == 1, d[1] % 128, Get16(d, 2), Get32(d, 4), Get32(d, 8), offset, len))
  }

  // ---- the sample row data headers ----------------------------------------------

  datatype PayloadHeader = PayloadHeader(extSeq: u16, srds: seq<SrdHeader>, headerBytes: nat)

  function ReadSrd(p: seq<u8>, at: nat): SrdHeader
    requires at + 6 <= |p|
  {
    SrdHeader(Get16(p, at), Get16(p, at + 2) % 0x8000, Get16(p, at + 4) % 0x8000,
              Get16(p, at + 2) / 0x8000 == 1, Get16(p, at + 4) / 0x8000 == 1)
  }

  /** The headers that follow the first `count` ones. */
  function SrdsFrom(p: seq<u8>, at: nat, count: nat): (r: Result<seq<SrdHeader>>)
    requires at <= |p| && count < 3
    ensures r.Ok? ==> 1 <= |r.value| <= 3 - count && at + 6 * |r.value| <= |p|
    ensures r.Ok? ==> forall i :: 0 <= i < |r.value| ==>
              r.value[i] == ReadSrd(p, at + 6 * i) && (r.value[i].continuation <==> i < |r.value| - 1)
    decreases 3 - count
  {
    if |p| - at < 6 then Err(ShortPacket)
    else
      var srd := ReadSrd(p, at);
      if count == 2 then if srd.continuation then Err(InvalidValue) else Ok([srd])
      else if !srd.continuation then Ok([srd])
      else match SrdsFrom(p, at + 6, count + 1)
        case Err(e) => Err(e)
        case Ok(rest) => Ok([srd] + rest)
  }

  function ParsePayloadHeader(p: seq<u8>): (r: Result<PayloadHeader>)
    ensures r.Ok? ==> r.value.headerBytes == 2 + 6 * |r.value.srds| <= |p|
  {
    if |p| < 8 then Err(ShortPacket)
    else match SrdsFrom(p, 2, 0)
      case Err(e) => Err(e)
      case Ok(srds) => Ok(PayloadHeader(Get16(p, 0), srds, 2 + 6 * |srds|))
  }

  method ParseSt211020PayloadHeader(p: seq<u8>) returns (r: Result<PayloadHeader>)
    ensures r == ParsePayloadHeader(p)
  {
    if |p| < 8 {
      return Err(ShortPacket);
    }
    var offset: nat, srds: seq<SrdHeader> := 2, [];
    assert forall rest: seq<SrdHeader> :: srds + rest == rest;
    while true
      invariant |srds| < 3 && offset == 2 + 6 * |srds| <= |p|
      invariant match SrdsFrom(p, offset, |srds|)
                case Err(e) => SrdsFrom(p, 2, 0) == Err(e)
                case Ok(rest) => SrdsFrom(p, 2, 0) == Ok(srds + rest)
      decreases 3 - |srds|
    {
      if |p| - offset < 6 {
        return Err(ShortPacket);
      }
      var srd := ReadSrd(p, offset);
      ghost var before := srds;
      srds := srds + [srd];
      offset := offset + 6;
      if |srds| == 3 {
        if srd.continuation {
          return Err(InvalidValue);
        }
        break;
      } else if !srd.continuation {
        break;
      }
      assert forall rest :: before + ([srd] + rest) == srds + rest;
    }
    return Ok(PayloadHeader(Get16(p, 0), srds, offset));
  }

  predicate Before(a: SrdHeader, b: SrdHeader) {
    a.row < b.row || (a.row == b.row && a.offset < b.offset)
  }

  /** One to three headers, chained by their continuation bits, in strictly
      increasing raster order, and empty only if there is just one. */
  ghost predicate ValidSrds(srds: seq<SrdHeader>) {
    && 1 <= |srds| <= 3
    && (forall i :: 0 <= i < |srds| ==> (srds[i].continuation <==> i < |srds| - 1))
    && (forall i :: 0 <= i < |srds| - 1 ==> Before(srds[i], srds[i + 1]))
    && (|srds| > 1 ==> forall i :: 0 <= i < |srds| ==> srds[i].length > 0)
  }

  method ValidateSrdOrdering(srds: seq<SrdHeader>) returns (ok: bool)
    ensures ok <==> forall i :: 0 <= i < |srds| - 1 ==> Before(srds[i], srds[i + 1])
  {
    if |srds| > 1 {
      for i := 0 to |srds| - 1
        invariant forall j :: 0 <= j < i ==> Before(srds[j], srds[j + 1])
      {
        if srds[i].row > srds[i + 1].row {
          return false;
        }
        if srds[i].row == srds[i + 1].row && srds[i].offset >= srds[i + 1].offset {
          return false;
        }
      }
    }
    return true;
  }

  method ValidatePayloadHeader(h: PayloadHeader) returns (ok: bool)
    ensures ok <==> ValidSrds(h.srds) && h.headerBytes == 2 + 6 * |h.srds|
  {
    var n := |h.srds|;
    if n == 0 || n > 3 {
      return false;
    }
    if n == 1 {
      if h.srds[0].continuation {
        return false;
      }
    } else {
      for i := 0 to n
        invariant forall j :: 0 <= j < i ==>
          h.srds[j].length > 0 && (h.srds[j].continuation <==> j < n - 1)
      {
        if h.srds[i].length == 0 {
          return false;
        }
        if !h.srds[i].continuation && i != n - 1 {
          return false;
        }
        if h.srds[i].continuation && i == n - 1 {
          return false;
        }
      }
    }
    var ordered := ValidateSrdOrdering(h.srds);
    return ordered && h.headerBytes == 2 + 6 * n;
  }

  // ---- cutting the payload ---------------------------------------------------------

  function TotalLength(srds: seq<SrdHeader>): nat {
    if srds == [] then 0 else TotalLength(srds[..|srds| - 1]) + srds[|srds| - 1].length
  }

  /** Consecutive slices of the payload, one for each header. */
  function Segments(srds: seq<SrdHeader>, payload: seq<u8>): (s: seq<SrdSegment>)
    requires TotalLength(srds) <= |payload|
    ensures |s| == |srds|
  {
    if srds == [] then []
    else
      var n := |srds| - 1;
      Segments(srds[..n], payload) +
      [SrdSegment(srds[n], payload[TotalLength(srds[..n])..TotalLength(srds)])]
  }

  function CombineExtendedSeq(hi: u16, lo: u16): u32 {
    (hi as int) * 0x1_0000 + lo
  }

  /** The last steps: reject what cannot be cut, then cut. */
  function Cut(rtp: RtpHeader, extSeq: u16, srds: seq<SrdHeader>, payload: seq<u8>): Result<VideoPacketView> {
    if |srds| == 1 && srds[0].length == 0 && payload != [] then Err(InvalidValue)
    else if |payload| < TotalLength(srds) then Err(ShortPacket)
    else Ok(VideoPacketView(rtp, payload, 0, Segments(srds, payload),
                            CombineExtendedSeq(extSeq, rtp.seqNumber), payload[TotalLength(srds)..]))
  }

  ghost function ParseBody(rtp: RtpHeader, body: seq<u8>): Result<VideoPacketView> {
    match ParsePayloadHeader(body)
    case Err(e) => Err(e)
    case Ok(h) =>
      if !ValidSrds(h.srds) then Err(InvalidValue)
      else Cut(rtp, h.extSeq, h.srds, body[h.headerBytes..])
  }

  function RtpPayload(d: seq<u8>, rtp: RtpHeader): seq<u8>
    requires rtp.payloadOffset + rtp.payloadLen <= |d|
  {
    d[rtp.payloadOffset..rtp.payloadOffset + rtp.payloadLen]
  }

  ghost function ParseView(d: seq<u8>): Result<VideoPacketView> {
    match ParseRtp(d)
    case Err(e) => Err(e)
    case Ok(rtp) => ParseBody(rtp, RtpPayload(d, rtp))
  }

  method SplitPayload(srds: seq<SrdHeader>, payload: seq<u8>) returns (segments: seq<SrdSegment>)
    requires TotalLength(srds) <= |payload|
    ensures segments == Segments(srds, payload)
  {
    segments := [];
    var size := 0;
    for i := 0 to |srds|
      invariant size == TotalLength(srds[..i]) <= TotalLength(srds)
      invariant size <= |payload| && segments == Segments(srds[..i], payload)
    {
      assert srds[..i + 1][..i] == srds[..i];
      TotalGrows(srds, i + 1);
      segments := segments + [SrdSegment(srds[i], payload[size..size + srds[i].length])];
      size := size + srds[i].length;
    }
    assert srds[..|srds|] == srds;
  }

  lemma {:induction false} TotalGrows(srds: seq<SrdHeader>, n: nat)
    requires n <= |srds|
    ensures TotalLength(srds[..n]) <= TotalLength(srds)
  {
    if n < |srds| {
      TotalGrows(srds[..|srds| - 1], n);
      assert srds[..|srds| - 1][..n] == srds[..n];
    } else {
      assert srds[..n] == srds;
    }
  }

  method CutPayload(rtp: RtpHeader, extSeq: u16, srds: seq<SrdHeader>, payload: seq<u8>) returns (r: Result<VideoPacketView>)
    ensures r == Cut(rtp, extSeq, srds, payload)
  {
    var sumLength := 0;
    for i := 0 to |srds|
      invariant sumLength == TotalLength(srds[..i])
    {
      assert srds[..i + 1][..i] == srds[..i];
      sumLength := sumLength + srds[i].length;
    }
    assert srds[..|srds|] == srds;
    if |srds| == 1 && srds[0].length == 0 {
      if payload != [] {
        return Err(InvalidValue);
      }
    }
    if |payload| < sumLength {
      return Err(ShortPacket);
    }
    var segments := SplitPayload(srds, payload);
    return Ok(VideoPacketView(rtp, payload, 0, segments, CombineExtendedSeq(extSeq, rtp.seqNumber), payload[sumLength..]));
  }

  method ParsePacketView(d: seq<u8>) returns (r: Result<VideoPacketView>)
    ensures r == ParseView(d)
  {
    hide ParseRtp;
    var header := ParseRtp(d);
    if header.Err? {
      return Err(header.error);
    }
    var body := RtpPayload(d, header.value);
    var h := ParseSt211020PayloadHeader(body);
    if h.Err? {
      return Err(h.error);
    }
    var valid := ValidatePayloadHeader(h.value);
    if !valid {
      return Err(InvalidValue);
    }
    r := CutPayload(header.value, h.value.extSeq, h.value.srds, body[h.value.headerBytes..]);
  }

  // ---- which views the parser yields ----------------------------------------------

  function HeadersOf(segments: seq<SrdSegment>): (srds: seq<SrdHeader>)
    ensures |srds| == |segments| && forall i :: 0 <= i < |srds| ==> srds[i] == segments[i].header
  {
    seq(|segments|, i requires 0 <= i < |segments| => segments[i].header)
  }

  function Joined(segments: seq<SrdSegment>): seq<u8> {
    if segments == [] then [] else Joined(segments[..|segments| - 1]) + segments[|segments| - 1].data
  }

  ghost predicate RtpWellFormed(h: RtpHeader) {
    && h.version == 2 && h.csrcCount < 16 && h.payloadType < 128
    && if h.extension then
         h.payloadOffset >= 16 + 4 * h.csrcCount && (h.payloadOffset - 16 - 4 * h.csrcCount) % 4 == 0
         && (h.payloadOffset - 16 - 4 * h.csrcCount) / 4 < 0x1_0000
       else h.payloadOffset == 12 + 4 * h.csrcCount
  }

  lemma SnocSegments(segments: seq<SrdSegment>, last: SrdSegment)
    ensures HeadersOf(segments + [last]) == HeadersOf(segments) + [last.header]
    ensures Joined(segments + [last]) == Joined(segments) + last.data
  {
    assert (segments + [last])[..|segments|] == segments;
  }

  lemma SegmentsSnoc(srds: seq<SrdHeader>, payload: seq<u8>)
    requires srds != [] && TotalLength(srds) <= |payload|
    ensures var n := |srds| - 1;
            && TotalLength(srds) == TotalLength(srds[..n]) + srds[n].length
            && Segments(srds, payload) == Segments(srds[..n], payload) +
               [SrdSegment(srds[n], payload[TotalLength(srds[..n])..TotalLength(srds)])]
  {
  }

  lemma {:induction false} SegmentsJoin(srds: seq<SrdHeader>, payload: seq<u8>)
    requires TotalLength(srds) <= |payload|
    ensures HeadersOf(Segments(srds, payload)) == srds
    ensures Joined(Segments(srds, payload)) == payload[..TotalLength(srds)]
    ensures forall i :: 0 <= i < |srds| ==> |Segments(srds, payload)[i].data| == srds[i].length
    decreases |srds|, 1
  {
    if srds == [] {
      NoSegments();
    } else {
      SegmentsJoinStep(srds, payload);
    }
  }

  lemma {:induction false} SegmentsJoinStep(srds: seq<SrdHeader>, payload: seq<u8>)
    requires srds != [] && TotalLength(srds) <= |payload|
    ensures HeadersOf(Segments(srds, payload)) == srds
    ensures Joined(Segments(srds, payload)) == payload[..TotalLength(srds)]
    ensures forall i :: 0 <= i < |srds| ==> |Segments(srds, payload)[i].data| == srds[i].length
    decreases |srds|, 0
  {
    hide HeadersOf;
    hide Joined;
    hide Segments;
    hide TotalLength;
    var n := |srds| - 1;
    SegmentsSnoc(srds, payload);
    var from, to := TotalLength(srds[..n]), TotalLength(srds);
    SegmentsJoin(srds[..n], payload);
    SnocSegments(Segments(srds[..n], payload), SrdSegment(srds[n], payload[from..to]));
    assert srds == srds[..n] + [srds[n]];
    assert payload[..to] == payload[..from] + payload[from..to];
  }

  lemma NoSegments()
    ensures HeadersOf([]) == [] && Joined([]) == []
  {
  }

  lemma LastJoined(segments: seq<SrdSegment>)
    requires segments != []
    ensures var n := |segments| - 1;
            && HeadersOf(segments)[..n] == HeadersOf(segments[..n])
            && TotalLength(HeadersOf(segments)) == TotalLength(HeadersOf(segments[..n])) + segments[n].header.length
            && Joined(segments) == Joined(segments[..n]) + segments[n].data
  {
    assert HeadersOf(segments)[..|segments| - 1] == HeadersOf(segments[..|segments| - 1]);
  }

  lemma LastCut(srds: seq<SrdHeader>, payload: seq<u8>)
    requires srds != [] && TotalLength(srds) <= |payload|
    ensures var n := |srds| - 1;
            && TotalLength(srds[..n]) <= TotalLength(srds)
            && Segments(srds, payload) == Segments(srds[..n], payload) +
               [SrdSegment(srds[n], payload[TotalLength(srds[..n])..TotalLength(srds)])]
  {
  }

  /** Cutting the joined segments along their own headers gives them back. */
  lemma {:induction false} JoinSegments(segments: seq<SrdSegment>, rest: seq<u8>)
    requires forall i :: 0 <= i < |segments| ==> segments[i].header.length == |segments[i].data|
    ensures TotalLength(HeadersOf(segments)) == |Joined(segments)|
    ensures Segments(HeadersOf(segments), Joined(segments) + rest) == segments
  {
    if segments != [] {
      hide TotalLength, Joined, Segments, HeadersOf;
      var n := |segments| - 1;
      var front, data := Joined(segments[..n]), segments[n].data;
      LastJoined(segments);
      JoinSegments(segments[..n], data + rest);
      var payload := Joined(segments) + rest;
      assert payload == front + (data + rest);
      LastCut(HeadersOf(segments), payload);
      assert payload[|front|..|front| + |data|] == data;
      assert segments == segments[..n] + [segments[n]];
    }
  }

  lemma ParseRtpWellFormed(d: seq<u8>)
    requires ParseRtp(d).Ok?
    ensures RtpWellFormed(ParseRtp(d).value)
  {
  }

  ghost predicate BodyWellFormed(v: VideoPacketView) {
    && ValidSrds(HeadersOf(v.segments))
    && (forall i :: 0 <= i < |v.segments| ==>
          && v.segments[i].header.row < 0x8000 && v.segments[i].header.offset < 0x8000
          && v.segments[i].header.length == |v.segments[i].data|)
    && v.payload == Joined(v.segments) + v.trailingPadding
    && (|v.segments| == 1 && v.segments[0].data == [] ==> v.trailingPadding == [])
    && v.extendedSeq % 0x1_0000 == v.rtp.seqNumber
  }

  /** The payload is exactly the segments in order, and then the padding. */
  ghost predicate WellFormed(v: VideoPacketView) {
    RtpWellFormed(v.rtp) && BodyWellFormed(v) && v.rtp.payloadLen == 2 + 6 * |v.segments| + |v.payload|
  }

  lemma CutWellFormed(rtp: RtpHeader, extSeq: u16, srds: seq<SrdHeader>, payload: seq<u8>)
    requires ValidSrds(srds) && forall i :: 0 <= i < |srds| ==> srds[i].row < 0x8000 && srds[i].offset < 0x8000
    requires Cut(rtp, extSeq, srds, payload).Ok?
    ensures var v := Cut(rtp, extSeq, srds, payload).value;
            && BodyWellFormed(v) && v.rtp == rtp && v.payload == payload
            && |v.segments| == |srds| && v.receiveTimestamp == 0
  {
    hide Segments;
    hide Joined;
    hide TotalLength;
    var v := Cut(rtp, extSeq, srds, payload).value;
    SegmentsJoin(srds, payload);
    assert payload == payload[..TotalLength(srds)] + payload[TotalLength(srds)..];
    forall i | 0 <= i < |v.segments| ensures v.segments[i].header == srds[i] {
      assert HeadersOf(v.segments)[i] == srds[i];
    }
  }

  /** Everything the parser accepts is well formed. */
  lemma ParseYieldsWellFormed(d: seq<u8>)
    requires ParseView(d).Ok?
    ensures WellFormed(ParseView(d).value) && ParseView(d).value.receiveTimestamp == 0
  {
    hide Cut;
    hide RtpWellFormed;
    ParseRtpWellFormed(d);
    var rtp := ParseRtp(d).value;
    var body := RtpPayload(d, rtp);
    var h := ParsePayloadHeader(body).value;
    forall i | 0 <= i < |h.srds| ensures h.srds[i].row < 0x8000 && h.srds[i].offset < 0x8000 {
      assert h.srds[i] == ReadSrd(body, 2 + 6 * i);
    }
    CutWellFormed(rtp, h.extSeq, h.srds, body[h.headerBytes..]);
  }

  // ---- the store and view copies -----------------------------------------------------

  function Stored(v: VideoPacketView): StoredPacket {
    StoredPacket(v.rtp, v.payload, v.extendedSeq, v.receiveTimestamp, VideoMedia(HeadersOf(v.segments)))
  }

  ghost predicate Viewable(p: StoredPacket) {
    p.media.VideoMedia? && TotalLength(p.media.headers) <= |p.payload|
  }

  ghost function View(p: StoredPacket): VideoPacketView
    requires Viewable(p)
  {
    VideoPacketView(p.rtp, p.payload, p.receiveTimestamp, Segments(p.media.headers, p.payload),
                    p.extendedSeq, p.payload[TotalLength(p.media.headers)..])
  }

  method ViewPacket(p: StoredPacket) returns (v: VideoPacketView)
    requires Viewable(p)
    ensures v == View(p)
  {
    var segments := SplitPayload(p.media.headers, p.payload);
    var offset := 0;
    for i := 0 to |p.media.headers|
      invariant offset == TotalLength(p.media.headers[..i])
    {
      assert p.media.headers[..i + 1][..i] == p.media.headers[..i];
      offset := offset + p.media.headers[i].length;
    }
    assert p.media.headers[..|p.media.headers|] == p.media.headers;
    v := VideoPacketView(p.rtp, p.payload, p.receiveTimestamp, segments, p.extendedSeq, p.payload[offset..]);
  }

  /** Viewing a stored packet gives back the view that was stored. */
  lemma StoreThenView(v: VideoPacketView)
    requires WellFormed(v)
    ensures Viewable(Stored(v)) && View(Stored(v)) == v
  {
    JoinSegments(v.segments, v.trailingPadding);
  }

  // ---- a writer of datagrams ------------------------------------------------------------

  function Zeros(n: nat): (z: seq<u8>)
    ensures |z| == n
  {
    seq(n, _ => 0)
  }

  function Flag(b: bool, weight: nat): nat {
    if b then weight else 0
  }

  function FixedHeader(h: RtpHeader): (s: seq<u8>)
    requires h.csrcCount < 16 && h.payloadType < 128
    ensures |s| == 12
    ensures s[0] == 128 + Flag(h.padding, 32) + Flag(h.extension, 16) + h.csrcCount
    ensures s[1] == Flag(h.marker, 128) + h.payloadType
  {
    [128 + Flag(h.padding, 32) + Flag(h.extension, 16) + h.csrcCount, Flag(h.marker, 128) + h.payloadType]
    + Put16(h.seqNumber) + Put32(h.timestamp) + Put32(h.ssrc)
  }

  function ExtensionBytes(h: RtpHeader): (s: seq<u8>)
    requires h.extension ==> h.payloadOffset >= 16 + 4 * h.csrcCount
                             && (h.payloadOffset - 16 - 4 * h.csrcCount) / 4 < 0x1_0000
  {
    if h.extension then
      var words := (h.payloadOffset - 16 - 4 * h.csrcCount) / 4;
      [0, 0] + Put16(words) + Zeros(4 * words)
    else []
  }

  function SrdBytes(s: SrdHeader): (b: seq<u8>)
    requires s.row < 0x8000 && s.offset < 0x8000
    ensures |b| == 6
  {
    Put16(s.length) + Put16(Flag(s.fieldId, 0x8000) + s.row) + Put16(Flag(s.continuation, 0x8000) + s.offset)
  }

  function AllSrdBytes(segments: seq<SrdSegment>): (b: seq<u8>)
    requires forall i :: 0 <= i < |segments| ==> segments[i].header.row < 0x8000 && segments[i].header.offset < 0x8000
    ensures |b| == 6 * |segments|
  {
    if segments == [] then [] else SrdBytes(segments[0].header) + AllSrdBytes(segments[1..])
  }

  ghost function Body(v: VideoPacketView): (b: seq<u8>)
    requires WellFormed(v)
    ensures |b| == v.rtp.payloadLen
  {
    Put16(v.extendedSeq / 0x1_0000) + AllSrdBytes(v.segments) + v.payload
  }

  /** The padding octets that may follow: their number is the last of them. */
  ghost predicate PaddingFor(v: VideoPacketView, pad: seq<u8>) {
    if v.rtp.padding then pad != [] && pad[|pad| - 1] == |pad| else pad == []
  }

  /** Everything before the payload. */
  ghost function Front(h: RtpHeader): (s: seq<u8>)
    requires RtpWellFormed(h)
    ensures |s| == h.payloadOffset
  {
    FixedHeader(h) + Zeros(4 * h.csrcCount) + ExtensionBytes(h)
  }

  ghost function Datagram(v: VideoPacketView, pad: seq<u8>): (d: seq<u8>)
    requires WellFormed(v)
    ensures |d| == v.rtp.payloadOffset + v.rtp.payloadLen + |pad|
  {
    Front(v.rtp) + (Body(v) + pad)
  }

  lemma FrontFields(h: RtpHeader, rest: seq<u8>)
    requires RtpWellFormed(h)
    ensures var d := Front(h) + rest;
            && d[0] == FixedHeader(h)[0] && d[1] == FixedHeader(h)[1]
            && Get16(d, 2) == h.seqNumber && Get32(d, 4) == h.timestamp && Get32(d, 8) == h.ssrc
  {
    hide ExtensionBytes;
    var d, fixed := Front(h) + rest, FixedHeader(h);
    assert d[..12] == fixed;
    assert d[2..4] == d[..12][2..4] == fixed[2..4] == Put16(h.seqNumber);
    assert d[4..8] == d[..12][4..8] == fixed[4..8] == Put32(h.timestamp);
    assert d[8..12] == d[..12][8..12] == fixed[8..12] == Put32(h.ssrc);
    GetPut16(d, 2, h.seqNumber);
    GetPut32(d, 4, h.timestamp);
    GetPut32(d, 8, h.ssrc);
  }

  lemma ExtensionWords(h: RtpHeader, rest: seq<u8>)
    requires RtpWellFormed(h) && h.extension
    ensures Get16(Front(h) + rest, 14 + 4 * h.csrcCount) == (h.payloadOffset - 16 - 4 * h.csrcCount) / 4
  {
    hide FixedHeader;
    var start, ext := FixedHeader(h) + Zeros(4 * h.csrcCount), ExtensionBytes(h);
    var words := (h.payloadOffset - 16 - 4 * h.csrcCount) / 4;
    var d := Front(h) + rest;
    assert d == start + (ext + rest);
    var at := |start|;
    assert d[at + 2] == (ext + rest)[2] == ext[2] == Put16(words)[0];
    assert d[at + 3] == (ext + rest)[3] == ext[3] == Put16(words)[1];
    assert d[at + 2..at + 4] == Put16(words);
    GetPut16(d, at + 2, words);
  }

  lemma FirstOctet(h: RtpHeader, b: u8)
    requires h.csrcCount < 16 && b == 128 + Flag(h.padding, 32) + Flag(h.extension, 16) + h.csrcCount
    ensures b / 64 == 2 && (b / 32) % 2 == Flag(h.padding, 1) && (b / 16) % 2 == Flag(h.extension, 1)
    ensures b % 16 == h.csrcCount
  {
    assert b / 32 == 4 + Flag(h.padding, 1);
    assert b / 16 == 8 + 2 * Flag(h.padding, 1) + Flag(h.extension, 1);
  }

  lemma FrontEnds(h: RtpHeader, rest: seq<u8>)
    requires RtpWellFormed(h)
    ensures HeaderEnd(Front(h) + rest) == Ok(h.payloadOffset)
  {
    hide Front;
    hide FixedHeader;
    FrontFields(h, rest);
    FirstOctet(h, FixedHeader(h)[0]);
    if h.extension {
      ExtensionWords(h, rest);
    }
  }

  lemma WrittenHeader(v: VideoPacketView, pad: seq<u8>)
    requires WellFormed(v) && PaddingFor(v, pad)
    ensures ParseRtp(Datagram(v, pad)) == Ok(v.rtp)
    ensures RtpPayload(Datagram(v, pad), v.rtp) == Body(v)
  {
    hide Front, HeaderEnd, BodyWellFormed, Body, FixedHeader, AllSrdBytes, TotalLength, Joined;
    hide Get16;
    hide Get32;
    var h, d := v.rtp, Datagram(v, pad);
    FrontFields(h, Body(v) + pad);
    FrontEnds(h, Body(v) + pad);
    if h.padding {
      assert d[|d| - 1] == pad[|pad| - 1];
    }
    assert d[h.payloadOffset..] == Body(v) + pad;
    assert RtpPayload(d, h) == d[h.payloadOffset..][..h.payloadLen];
  }

  lemma WrittenSrd(b: seq<u8>, at: nat, s: SrdHeader)
    requires s.row < 0x8000 && s.offset < 0x8000 && at + 6 <= |b| && b[at..at + 6] == SrdBytes(s)
    ensures ReadSrd(b, at) == s
  {
    var row, offset := Flag(s.fieldId, 0x8000) + s.row, Flag(s.continuation, 0x8000) + s.offset;
    var e := SrdBytes(s);
    assert e == Put16(s.length) + Put16(row) + Put16(offset);
    hide SrdBytes, Put16, Get16;
    forall k | 0 <= k < 6 ensures b[at + k] == e[k] {
      assert b[at + k] == b[at..at + 6][k];
    }
    assert b[at..at + 2] == e[..2] == Put16(s.length);
    assert b[at + 2..at + 4] == e[2..4] == Put16(row);
    assert b[at + 4..at + 6] == e[4..6] == Put16(offset);
    GetPut16(b, at, s.length);
    GetPut16(b, at + 2, row);
    GetPut16(b, at + 4, offset);
  }

  lemma {:induction false} WrittenSrds(b: seq<u8>, at: nat, segments: seq<SrdSegment>, count: nat)
    requires forall i :: 0 <= i < |segments| ==> segments[i].header.row < 0x8000 && segments[i].header.offset < 0x8000
    requires forall i :: 0 <= i < |segments| ==> (segments[i].header.continuation <==> i < |segments| - 1)
    requires 1 <= |segments| <= 3 - count && at + 6 * |segments| <= |b|
    requires b[at..at + 6 * |segments|] == AllSrdBytes(segments)
    ensures SrdsFrom(b, at, count) == Ok(HeadersOf(segments))
    decreases |segments|
  {
    var first := segments[0].header;
    var all := AllSrdBytes(segments);
    assert b[at..at + 6] == all[..6] == SrdBytes(first);
    WrittenSrd(b, at, first);
    if |segments| > 1 {
      assert b[at + 6..at + 6 * |segments|] == all[6..] == AllSrdBytes(segments[1..]);
      WrittenSrds(b, at + 6, segments[1..], count + 1);
      assert HeadersOf(segments) == [first] + HeadersOf(segments[1..]);
    } else {
      assert HeadersOf(segments) == [first];
    }
  }

  lemma WrittenBody(v: VideoPacketView)
    requires WellFormed(v)
    ensures ParsePayloadHeader(Body(v)) ==
            Ok(PayloadHeader(v.extendedSeq / 0x1_0000, HeadersOf(v.segments), 2 + 6 * |v.segments|))
    ensures Body(v)[2 + 6 * |v.segments|..] == v.payload
  {
    hide RtpWellFormed;
    hide AllSrdBytes;
    var b := Body(v);
    var n := 2 + 6 * |v.segments|;
    assert b[0..2] == Put16(v.extendedSeq / 0x1_0000);
    GetPut16(b, 0, v.extendedSeq / 0x1_0000);
    assert b[2..n] == AllSrdBytes(v.segments);
    forall i | 0 <= i < |v.segments| ensures v.segments[i].header.continuation <==> i < |v.segments| - 1 {
      assert HeadersOf(v.segments)[i] == v.segments[i].header;
    }
    WrittenSrds(b, 2, v.segments, 0);
  }

  lemma WrittenCut(v: VideoPacketView)
    requires WellFormed(v) && v.receiveTimestamp == 0
    ensures Cut(v.rtp, v.extendedSeq / 0x1_0000, HeadersOf(v.segments), v.payload) == Ok(v)
  {
    hide Segments;
    hide TotalLength;
    hide RtpWellFormed;
    hide ValidSrds;
    var srds := HeadersOf(v.segments);
    JoinSegments(v.segments, v.trailingPadding);
    if |srds| == 1 && srds[0].length == 0 {
      assert Joined(v.segments[..0]) == [];
      assert v.segments[0].data == [];
      assert v.payload == [];
    }
    assert v.payload[|Joined(v.segments)|..] == v.trailingPadding;
  }

  /** Round trip: the parser reads every well-formed view back from the datagram
      that spells it, whatever the padding. */
  lemma WriteThenParse(v: VideoPacketView, pad: seq<u8>)
    requires WellFormed(v) && v.receiveTimestamp == 0 && PaddingFor(v, pad)
    ensures ParseView(Datagram(v, pad)) == Ok(v)
  {
    hide ParseRtp;
    hide ParsePayloadHeader;
    hide RtpPayload;
    hide Datagram;
    hide Body;
    WrittenHeader(v, pad);
    WrittenBody(v);
    WrittenCut(v);
  }
}
