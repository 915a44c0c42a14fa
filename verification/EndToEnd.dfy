/** From datagrams to pictures: ingress, merge, reorder, drain, depacketize and
    reconstruct, in one statement. */
module EndToEnd {
  import opened Basics
  import opened Packets
  import opened PacketParse
  import opened ReorderBuffer
  import opened ReorderReference
  import opened Downstream
  import opened OrderedDelivery
  import opened CompleteDelivery
  import opened VideoFrames
  import opened FrameAssembly
  import opened Depacketizing
  import opened Reconstruction
  import opened UnitGrouping
  import opened VideoPipeline
  import opened PictureDelivery

  // ---- ingress ----------------------------------------------------------------

  const UDP_HEADER_BYTES := 8

  datatype Ingress = Admitted(packet: StoredPacket) | Control | Rejected | NonMedia

  /** Second octet 192..223: taken for RTCP, whatever it is. */
  predicate RtcpLike(d: seq<u8>) {
    |d| >= 2 && d[0] / 64 == 2 && 192 <= d[1] <= 223
  }

  ghost function Admit(d: seq<u8>, receivedAt: u64, maxUdp: nat, payloadType: u8): Ingress {
    if RtcpLike(d) then Control
    else if |d| + UDP_HEADER_BYTES > maxUdp then Rejected
    else match ParseView(d)
      case Err(_) => Rejected
      case Ok(v) =>
        if v.rtp.payloadType != payloadType then NonMedia
        else Admitted(Stored(v.(receiveTimestamp := receivedAt)))
  }

  method ProcessReceivedDatagram(d: seq<u8>, receivedAt: u64, maxUdp: nat, payloadType: u8) returns (r: Ingress)
    ensures r == Admit(d, receivedAt, maxUdp, payloadType)
  {
    if RtcpLike(d) {
      return Control;
    }
    if |d| + UDP_HEADER_BYTES > maxUdp {
      return Rejected;
    }
    var packet := ParsePacketView(d);
    if packet.Err? {
      return Rejected;
    }
    if packet.value.rtp.payloadType != payloadType {
      return NonMedia;
    }
    return Admitted(Stored(packet.value.(receiveTimestamp := receivedAt)));
  }

  lemma SecondOctet(v: VideoPacketView, pad: seq<u8>)
    requires WellFormed(v)
    ensures var d := Datagram(v, pad);
            |d| >= 12 && d[0] / 64 == 2 && d[1] == Flag(v.rtp.marker, 128) + v.rtp.payloadType
  {
  }

  /** The datagram of a well-formed packet is admitted if and only if it is not too
      long, has the expected payload type, and is not a marker packet of payload
      type 64 to 95, whose second octet looks like RTCP. */
  lemma AdmittedExactly(v: VideoPacketView, pad: seq<u8>, receivedAt: u64, maxUdp: nat, payloadType: u8)
    requires WellFormed(v) && v.receiveTimestamp == 0 && PaddingFor(v, pad)
    ensures Admit(Datagram(v, pad), receivedAt, maxUdp, payloadType) == Admitted(Stored(v.(receiveTimestamp := receivedAt)))
            <==> && |Datagram(v, pad)| + UDP_HEADER_BYTES <= maxUdp
                 && v.rtp.payloadType == payloadType
                 && !(v.rtp.marker && 64 <= v.rtp.payloadType <= 95)
  {
    hide Datagram;
    hide BodyWellFormed;
    hide ParseView;
    SecondOctet(v, pad);
    WriteThenParse(v, pad);
  }

  // ---- the run ------------------------------------------------------------------

  /** A datagram off one of the legs; number is its true packet number if it
      carries a packet of the stream. */
  datatype Incoming = Incoming(number: int, datagram: seq<u8>, receivedAt: u64)

  datatype Socket = Socket(maxUdp: nat, payloadType: u8)

  ghost function ArrivalsOf(socket: Socket, incoming: seq<Incoming>): seq<Arrival> {
    if incoming == [] then []
    else
      var n := |incoming| - 1;
      var r := Admit(incoming[n].datagram, incoming[n].receivedAt, socket.maxUdp, socket.payloadType);
      ArrivalsOf(socket, incoming[..n]) + if r.Admitted? then [Arrival(incoming[n].number, r.packet)] else []
  }

  ghost predicate AllViewable(out: seq<Delivery>) {
    forall i :: 0 <= i < |out| ==> Viewable(out[i].packet)
  }

  ghost function Views(out: seq<Delivery>): (ps: seq<VideoPacketView>)
    requires AllViewable(out)
    ensures |ps| == |out| && forall i :: 0 <= i < |ps| ==> ps[i] == View(out[i].packet)
  {
    seq(|out|, i requires 0 <= i < |out| => View(out[i].packet))
  }

  /** Whatever is admitted carries the packet of the stream with its number. */
  ghost predicate Faithful(socket: Socket, base: int, stream: seq<VideoPacketView>, incoming: seq<Incoming>) {
    forall i :: 0 <= i < |incoming| ==>
      Admit(incoming[i].datagram, incoming[i].receivedAt, socket.maxUdp, socket.payloadType).Admitted? ==>
        && base <= incoming[i].number < base + |stream|
        && ParseView(incoming[i].datagram) == Ok(stream[incoming[i].number - base])
  }

  ghost predicate Numbered(base: int, stream: seq<VideoPacketView>) {
    forall i :: 0 <= i < |stream| ==>
      WellFormed(stream[i]) && stream[i].receiveTimestamp == 0 && stream[i].extendedSeq == Wrap(Video, base + i)
  }

  /** A copy of a packet that arrived at some time. */
  ghost predicate CopyOf(p: StoredPacket, v: VideoPacketView) {
    p == Stored(v.(receiveTimestamp := p.receiveTimestamp))
  }

  ghost predicate ArrivalsCopy(base: int, stream: seq<VideoPacketView>, arrivals: seq<Arrival>) {
    forall i :: 0 <= i < |arrivals| ==>
      base <= arrivals[i].number < base + |stream| && CopyOf(arrivals[i].packet, stream[arrivals[i].number - base])
  }

  lemma {:induction false} FaithfulArrivals(socket: Socket, base: int, stream: seq<VideoPacketView>, incoming: seq<Incoming>)
    requires Faithful(socket, base, stream, incoming)
    ensures ArrivalsCopy(base, stream, ArrivalsOf(socket, incoming))
  {
    hide ParseView;
    if incoming != [] {
      FaithfulArrivals(socket, base, stream, incoming[..|incoming| - 1]);
    }
  }

  lemma {:induction false} FirstIsCopy(base: int, stream: seq<VideoPacketView>, arrivals: seq<Arrival>, t: int)
    requires ArrivalsCopy(base, stream, arrivals) && t in Numbers(arrivals)
    ensures base <= t < base + |stream| && CopyOf(FirstPacket(arrivals, t), stream[t - base])
  {
    hide CopyOf;
    var n := |arrivals| - 1;
    if t in Numbers(arrivals[..n]) {
      FirstIsCopy(base, stream, arrivals[..n], t);
    } else {
      NumbersSnoc(arrivals);
    }
  }

  lemma CopyViews(p: StoredPacket, v: VideoPacketView)
    requires WellFormed(v) && CopyOf(p, v)
    ensures Viewable(p) && View(p) == v.(receiveTimestamp := p.receiveTimestamp)
  {
    var w := v.(receiveTimestamp := p.receiveTimestamp);
    assert HeadersOf(w.segments) == HeadersOf(v.segments);
    StoreThenView(w);
  }

  // ---- the same transmission, as it was received -------------------------------------

  /** The same packets up to the time they were received. */
  ghost predicate Restamped(ps: seq<VideoPacketView>, qs: seq<VideoPacketView>) {
    && |ps| == |qs|
    && forall i :: 0 <= i < |ps| ==> qs[i] == ps[i].(receiveTimestamp := qs[i].receiveTimestamp)
  }

  ghost function Received(parts: seq<Part>, qs: seq<VideoPacketView>): (out: seq<Part>)
    requires |qs| == |StreamOf(parts)|
    ensures |out| == |parts|
    ensures forall i :: 0 <= i < |parts| ==> out[i].picture == parts[i].picture && |out[i].packets| == |parts[i].packets|
  {
    if parts == [] then []
    else
      var n := |parts| - 1;
      StreamSnoc(parts);
      var at := |qs| - |parts[n].packets|;
      Received(parts[..n], qs[..at]) + [Part(parts[n].picture, qs[at..])]
  }

  lemma StreamSnoc(parts: seq<Part>)
    requires parts != []
    ensures StreamOf(parts) == StreamOf(parts[..|parts| - 1]) + parts[|parts| - 1].packets
  {
    assert GroupsOf(parts)[..|parts| - 1] == GroupsOf(parts[..|parts| - 1]);
  }

  lemma {:induction false} ReceivedStream(parts: seq<Part>, qs: seq<VideoPacketView>)
    requires |qs| == |StreamOf(parts)|
    ensures StreamOf(Received(parts, qs)) == qs
  {
    if parts != [] {
      var n := |parts| - 1;
      StreamSnoc(parts);
      var at := |qs| - |parts[n].packets|;
      var out := Received(parts, qs);
      ReceivedStream(parts[..n], qs[..at]);
      StreamSnoc(out);
      assert out[..n] == Received(parts[..n], qs[..at]);
    }
  }

  lemma LastReceived(parts: seq<Part>, qs: seq<VideoPacketView>, at: int)
    requires parts != [] && Restamped(StreamOf(parts), qs) && at == |qs| - |parts[|parts| - 1].packets|
    ensures var n := |parts| - 1;
            && at == |StreamOf(parts[..n])| <= |qs|
            && Restamped(StreamOf(parts[..n]), qs[..at]) && Restamped(parts[n].packets, qs[at..])
            && Received(parts, qs) == Received(parts[..n], qs[..at]) + [Part(parts[n].picture, qs[at..])]
  {
    var n := |parts| - 1;
    var ps, init := StreamOf(parts), StreamOf(parts[..n]);
    assert GroupsOf(parts)[..n] == GroupsOf(parts[..n]);
    assert ps == init + parts[n].packets;
    forall i | 0 <= i < |parts[n].packets|
      ensures qs[at..][i] == parts[n].packets[i].(receiveTimestamp := qs[at..][i].receiveTimestamp)
    {
      assert ps[at + i] == parts[n].packets[i];
    }
  }

  ghost predicate ReceivedPart(parts: seq<Part>, out: seq<Part>, qs: seq<VideoPacketView>, i: nat)
    requires i < |parts| == |out|
  {
    && Restamped(parts[i].packets, out[i].packets)
    && (parts[i].packets != [] ==> |StreamOf(parts[..i])| < |qs| && out[i].packets[0] == qs[|StreamOf(parts[..i])|])
  }

  lemma {:induction false} ReceivedParts(parts: seq<Part>, qs: seq<VideoPacketView>)
    requires Restamped(StreamOf(parts), qs)
    ensures forall i :: 0 <= i < |parts| ==> ReceivedPart(parts, Received(parts, qs), qs, i)
  {
    hide StreamOf;
    hide Received;
    if parts != [] {
      var n := |parts| - 1;
      var at := |qs| - |parts[n].packets|;
      LastReceived(parts, qs, at);
      ReceivedParts(parts[..n], qs[..at]);
      forall i | 0 <= i < |parts| ensures ReceivedPart(parts, Received(parts, qs), qs, i) {
        if i < n {
          assert ReceivedPart(parts[..n], Received(parts[..n], qs[..at]), qs[..at], i);
          assert parts[..n][..i] == parts[..i];
        }
      }
    }
  }

  lemma RestampedGood(cfg: Config, part: Part, sub: nat, qs: Group)
    requires GoodPart(cfg, part, sub) && Restamped(part.packets, qs)
    ensures GoodPart(cfg, Part(part.picture, qs), sub)
  {
  }

  lemma PartValid(cfg: Config, part: Part, sub: nat)
    requires GoodPart(cfg, part, sub)
    ensures part.picture.Valid()
  {
    hide Carries, CoveredBy, Frame.Valid;
  }

  /** The same parts with other receive times are a sending of the same frames. */
  lemma SentAgain(cfg: Config, frames: seq<Frame>, parts: seq<Part>, out: seq<Part>)
    requires GoodSending(cfg, frames, parts) && |out| == |parts|
    requires forall i :: 0 <= i < |parts| ==>
               && out[i].picture == parts[i].picture && |out[i].packets| == |parts[i].packets|
               && (parts[i].packets != [] ==> out[i].packets[0].rtp == parts[i].packets[0].rtp)
               && GoodPart(cfg, out[i], SubOf(cfg, i))
    ensures GoodSending(cfg, frames, out)
  {
    hide Layout, GoodPart, FieldOf;
    assert forall i :: 0 <= i < |parts| ==> GoodPart(cfg, parts[i], SubOf(cfg, i));
    if !cfg.mode.Progressive? {
      forall i | 0 <= i < |frames|
        ensures out[2 * i].picture.Valid() && out[2 * i + 1].picture.Valid()
        ensures Halves(cfg, frames[i], out[2 * i], out[2 * i + 1])
      {
        PartValid(cfg, out[2 * i], SubOf(cfg, 2 * i));
        PartValid(cfg, out[2 * i + 1], SubOf(cfg, 2 * i + 1));
        assert Halves(cfg, frames[i], parts[2 * i], parts[2 * i + 1]);
      }
    }
  }

  lemma ReceivedGood(cfg: Config, frames: seq<Frame>, parts: seq<Part>, qs: seq<VideoPacketView>)
    requires GoodSending(cfg, frames, parts) && Restamped(StreamOf(parts), qs)
    ensures GoodSending(cfg, frames, Received(parts, qs))
  {
    hide Layout;
    hide GoodPart;
    hide FieldOf, Received;
    ReceivedParts(parts, qs);
    var out := Received(parts, qs);
    forall i | 0 <= i < |out|
      ensures GoodPart(cfg, out[i], SubOf(cfg, i))
      ensures parts[i].packets != [] ==> out[i].packets[0].rtp == parts[i].packets[0].rtp
    {
      assert ReceivedPart(parts, out, qs, i);
      RestampedGood(cfg, parts[i], SubOf(cfg, i), out[i].packets);
      assert out[i] == Part(parts[i].picture, out[i].packets);
    }
    hide GoodSending, GoodPart, StreamOf;
    SentAgain(cfg, frames, parts, out);
  }

  // ---- the statement ---------------------------------------------------------------------

  /** What reaches the sink: the pictures made of the packets the backend hands on. */
  ghost function Shown(cfg: Config, out: seq<Delivery>): seq<ReconstructedFrame>
    requires Layout(cfg.width, cfg.height, cfg.format).Some?
    requires AllViewable(out) && StreamFits(cfg, Views(out))
  {
    PipeRun(cfg, Views(out)).1
  }

  /** The stream arrives: in whatever order and however often, none missing, the
      lowest number first, each number within the window of the lowest one still
      missing, and never so that the gap policy gives up. */
  ghost predicate Arrives(window: nat, policy: Policy, base: int, n: nat, arrivals: seq<Arrival>) {
    && WellTimed(Video, window, base, arrivals) && NothingLost(base, n, arrivals)
    && AlwaysPatient(policy, base, arrivals)
  }

  /** One packet after the other, each with the time its first copy came. */
  ghost predicate HandedOn(base: int, stream: seq<VideoPacketView>, arrivals: seq<Arrival>, out: seq<Delivery>) {
    && |out| == |stream| && AllViewable(out) && Restamped(stream, Views(out))
    && forall i :: 0 <= i < |out| ==>
         && base + i in Numbers(arrivals)
         && Views(out)[i].receiveTimestamp == FirstPacket(arrivals, base + i).receiveTimestamp
  }

  /** With or without merging, the packets handed on are the stream, each with the time its first copy came. */
  lemma StreamHandedOn(window: nat, merge: bool, policy: Policy, base: int, stream: seq<VideoPacketView>, arrivals: seq<Arrival>)
    requires SmallWindow(Video, window) && Numbered(base, stream) && ArrivalsCopy(base, stream, arrivals)
    requires Arrives(window, policy, base, |stream|, arrivals)
    ensures HandedOn(base, stream, arrivals, Receive(Video, window, merge, policy, arrivals).1)
  {
    hide CopyOf, WellFormed, Numbers, Wrap;
    hide WellTimed;
    hide AlwaysPatient;
    hide Receive;
    hide FirstPacket;
    hide View;
    hide Viewable;
    StreamDelivered(Video, window, merge, policy, base, |stream|, arrivals);
    var out := Receive(Video, window, merge, policy, arrivals).1;
    forall i | 0 <= i < |out|
      ensures Viewable(out[i].packet)
      ensures View(out[i].packet) == stream[i].(receiveTimestamp := out[i].packet.receiveTimestamp)
    {
      FirstIsCopy(base, stream, arrivals, base + i);
      CopyViews(out[i].packet, stream[i]);
    }
  }

  /** A complete picture with the RTP timestamp of its first packet, which has the
      given number, and the time of its first arrival. */
  ghost predicate PictureAsSent(frame: Frame, first: VideoPacketView, number: int, arrivals: seq<Arrival>,
                                shown: ReconstructedFrame) {
    && number in Numbers(arrivals)
    && shown == ReconstructedFrame(frame, first.rtp.timestamp, FirstPacket(arrivals, number).receiveTimestamp, true)
  }

  ghost predicate ShownAsSent(cfg: Config, base: int, frames: seq<Frame>, parts: seq<Part>, arrivals: seq<Arrival>,
                              shown: seq<ReconstructedFrame>) {
    && |shown| == ShownCount(cfg, |frames|)
    && forall i :: 0 <= i < |shown| ==>
         var first := FirstPart(cfg, i);
         && first < |parts| && parts[first].packets != []
         && PictureAsSent(frames[i], parts[first].packets[0], base + |StreamOf(parts[..first])|, arrivals, shown[i])
  }

  /** End to end: pictures cut into packets that cover them, marked at the end of
      each frame or field, and received as above, reach the sink exactly as they
      were sent: the same pictures, in order, all complete, stamped with the RTP
      timestamp and the first arrival of their first packet. */
  lemma PicturesArrive(cfg: Config, socket: Socket, window: nat, merge: bool, policy: Policy,
                       base: int, frames: seq<Frame>, parts: seq<Part>, incoming: seq<Incoming>)
    requires GoodSending(cfg, frames, parts) && Numbered(base, StreamOf(parts))
    requires Faithful(socket, base, StreamOf(parts), incoming)
    requires SmallWindow(Video, window)
    requires Arrives(window, policy, base, |StreamOf(parts)|, ArrivalsOf(socket, incoming))
    ensures var arrivals := ArrivalsOf(socket, incoming);
            var out := Receive(Video, window, merge, policy, arrivals).1;
            && AllViewable(out) && StreamFits(cfg, Views(out))
            && ShownAsSent(cfg, base, frames, parts, arrivals, Shown(cfg, out))
  {
    hide Layout, GoodPart, Receive, Received, StreamFits, Numbered, Faithful, PipeRun, StreamOf, View, Viewable, WellTimed;
    hide AlwaysPatient, FirstPacket, GoodSending, HandedOn, ReceivedPart, PictureAsSent, Restamped, Pictures;
    var arrivals := ArrivalsOf(socket, incoming);
    FaithfulArrivals(socket, base, StreamOf(parts), incoming);
    StreamHandedOn(window, merge, policy, base, StreamOf(parts), arrivals);
    var out := Receive(Video, window, merge, policy, arrivals).1;
    HandedOnViews(base, StreamOf(parts), arrivals, out);
    ReceivedGood(cfg, frames, parts, Views(out));
    var back := Received(parts, Views(out));
    ReceivedStream(parts, Views(out));
    PipelineDelivers(cfg, frames, back);
    ReceivedParts(parts, Views(out));
    forall i | 0 <= i < ShownCount(cfg, |frames|)
      ensures var first := FirstPart(cfg, i);
              && first < |parts| && parts[first].packets != []
              && PictureAsSent(frames[i], parts[first].packets[0], base + |StreamOf(parts[..first])|, arrivals, Shown(cfg, out)[i])
    {
      var first := FirstPart(cfg, i);
      FirstPartSent(cfg, frames, parts, i);
      FirstPartSent(cfg, frames, back, i);
      PictureStamped(base, parts, back, arrivals, out, first, Shown(cfg, out)[i], frames[i]);
    }
  }

  lemma HandedOnViews(base: int, stream: seq<VideoPacketView>, arrivals: seq<Arrival>, out: seq<Delivery>)
    requires HandedOn(base, stream, arrivals, out)
    ensures AllViewable(out) && Restamped(stream, Views(out)) && |Views(out)| == |stream|
  {
  }

  lemma PictureStamped(base: int, parts: seq<Part>, back: seq<Part>, arrivals: seq<Arrival>, out: seq<Delivery>,
                       k: nat, shown: ReconstructedFrame, frame: Frame)
    requires k < |parts| == |back| && parts[k].packets != [] && back[k].packets != []
    requires HandedOn(base, StreamOf(parts), arrivals, out) && ReceivedPart(parts, back, Views(out), k)
    requires shown == ReconstructedFrame(frame, back[k].packets[0].rtp.timestamp, back[k].packets[0].receiveTimestamp, true)
    ensures PictureAsSent(frame, parts[k].packets[0], base + |StreamOf(parts[..k])|, arrivals, shown)
  {
    hide StreamOf, View, Viewable, FirstPacket;
  }

  lemma FirstPartSent(cfg: Config, frames: seq<Frame>, parts: seq<Part>, i: nat)
    requires GoodSending(cfg, frames, parts) && i < |frames|
    ensures FirstPart(cfg, i) < |parts| && parts[FirstPart(cfg, i)].packets != []
  {
    hide Layout, Halves;
    assert GoodPart(cfg, parts[FirstPart(cfg, i)], SubOf(cfg, FirstPart(cfg, i)));
  }
}
