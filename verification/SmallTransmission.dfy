/** One picture of two rows in two packets, the first of them received twice: a run
    that meets every condition of the end-to-end statement, and the same packets
    with a payload type that is mistaken for RTCP. */
module SmallTransmission {
  import opened Basics
  import opened Packets
  import opened PacketParse
  import opened ReorderBuffer
  import opened ReorderReference
  import opened Downstream
  import opened OrderedDelivery
  import opened CompleteDelivery
  import opened VideoFrames
  import opened FrameAssembly
  import opened Depacketizing
  import opened Reconstruction
  import opened UnitGrouping
  import opened VideoPipeline
  import opened PictureDelivery
  import opened EndToEnd

  const PICTURE := Frame(2, 2, UYVY, [1, 2, 3, 4, 5, 6, 7, 8])

  const CONFIG := Config(true, Progressive, UYVY, 2, 2, EmitWithFlag)

  function Row(n: u16): seq<u8> {
    if n == 0 then [1, 2, 3, 4] else [5, 6, 7, 8]
  }

  /** Row n of the picture in packet n. */
  function RowPacket(n: u16, marker: bool, payloadType: u8): VideoPacketView {
    VideoPacketView(RtpHeader(2, false, false, 0, marker, payloadType, n, 0, 0, 12, 12), Row(n), 0,
                    [SrdSegment(SrdHeader(4, n, 0, false, false), Row(n))], n, [])
  }

  lemma RowPacketWellFormed(n: u16, marker: bool, payloadType: u8)
    requires n < 2 && payloadType < 128
    ensures WellFormed(RowPacket(n, marker, payloadType)) && PaddingFor(RowPacket(n, marker, payloadType), [])
    ensures |Datagram(RowPacket(n, marker, payloadType), [])| == 24
  {
    var v := RowPacket(n, marker, payloadType);
    assert v.segments[..0] == [];
    assert Joined(v.segments) == Row(n);
  }

  /** The last packet of the picture is dropped as RTCP when its payload type is one
      of 64 to 95, and stored when it is 96. */
  lemma MarkerRefused(payloadType: u8)
    requires 64 <= payloadType <= 96
    ensures WellFormed(RowPacket(1, true, payloadType))
    ensures var d := Datagram(RowPacket(1, true, payloadType), []);
            Admit(d, 0, 1500, payloadType) ==
            if payloadType == 96 then Admitted(Stored(RowPacket(1, true, 96))) else Control
  {
    hide Datagram, ParseView;
    RowPacketWellFormed(1, true, payloadType);
    SecondOctet(RowPacket(1, true, payloadType), []);
    AdmittedExactly(RowPacket(1, true, payloadType), [], 0, 1500, payloadType);
    var v := RowPacket(1, true, payloadType);
    assert v.(receiveTimestamp := 0) == v;
  }

  const PART := Part(PICTURE, [RowPacket(0, false, 96), RowPacket(1, true, 96)])

  lemma PictureLayout()
    ensures Layout(2, 2, UYVY) == Some([Plane(0, 4, 4, 2)]) && TotalSize([Plane(0, 4, 4, 2)]) == 8 && PICTURE.Valid()
  {
    assert [Plane(0, 4, 4, 2)][..0] == [];
  }

  lemma RowIsSlice(n: u16, marker: bool)
    requires n < 2
    ensures PICTURE.Valid() && Carries(CONFIG, RowPacket(n, marker, 96), PICTURE)
    ensures OpsOf(UYVY, RowPacket(n, marker, 96).segments) == [WriteOp(0, n, 0, Row(n))]
  {
    PictureLayout();
    var op := WriteOp(0, n, 0, Row(n));
    assert OpsOf(UYVY, RowPacket(n, marker, 96).segments)[0] == op;
    forall i | 0 <= i < 4 ensures op.bytes[i] == PICTURE.At(0, n, i) {
      assert PICTURE.At(0, n, i) == PICTURE.data[n * 4 + i];
    }
  }

  lemma Sending()
    ensures GoodSending(CONFIG, [PICTURE], [PART])
    ensures StreamOf([PART]) == PART.packets
  {
    PictureLayout();
    RowIsSlice(0, false);
    RowIsSlice(1, true);
    forall p, row, b | InPlane(PICTURE.Planes(), p, row, b) ensures CoveredBy(CONFIG, PART.packets, p, row, b) {
      assert row == 0 || row == 1;
      var op := WriteOp(0, row, 0, Row(row));
      assert OpsOf(UYVY, PART.packets[row].segments)[0] == op;
      assert Covers(op, p, row, b);
      assert Covered(OpsOf(UYVY, PART.packets[row].segments), p, row, b);
    }
    assert GoodPart(CONFIG, PART, 0);
    assert GroupsOf([PART]) == [PART.packets];
    assert [PART.packets][..0] == [];
    assert Flatten([PART.packets]) == Flatten([]) + PART.packets;
  }

  const SOCKET := Socket(1500, 96)

  ghost function Bytes(n: u16): seq<u8>
    requires n < 2
  {
    RowPacketWellFormed(n, n == 1, 96);
    Datagram(RowPacket(n, n == 1, 96), [])
  }

  ghost function Transmission(): seq<Incoming> {
    [Incoming(0, Bytes(0), 10), Incoming(1, Bytes(1), 11), Incoming(0, Bytes(0), 12)]
  }

  function Copy(n: u16, at: u64): Arrival
    requires n < 2
  {
    Arrival(n, Stored(RowPacket(n, n == 1, 96).(receiveTimestamp := at)))
  }

  lemma DatagramAdmitted(n: u16, at: u64)
    requires n < 2
    ensures Admit(Bytes(n), at, 1500, 96) == Admitted(Copy(n, at).packet)
    ensures ParseView(Bytes(n)) == Ok(PART.packets[n])
  {
    hide Datagram, ParseView;
    RowPacketWellFormed(n, n == 1, 96);
    AdmittedExactly(RowPacket(n, n == 1, 96), [], at, 1500, 96);
    WriteThenParse(RowPacket(n, n == 1, 96), []);
  }

  lemma PacketNumbered(n: u16)
    requires n < 2
    ensures WellFormed(RowPacket(n, n == 1, 96)) && RowPacket(n, n == 1, 96).extendedSeq == Wrap(Video, n)
  {
    hide WellFormed, Datagram, PaddingFor;
    RowPacketWellFormed(n, n == 1, 96);
  }

  lemma TransmissionNumbered()
    ensures Numbered(0, PART.packets)
  {
    hide WellFormed, Wrap;
    PacketNumbered(0);
    PacketNumbered(1);
  }

  lemma OneMore(incoming: seq<Incoming>, n: u16, at: u64)
    requires n < 2
    ensures ArrivalsOf(SOCKET, incoming + [Incoming(n, Bytes(n), at)]) == ArrivalsOf(SOCKET, incoming) + [Copy(n, at)]
  {
    DatagramAdmitted(n, at);
    hide Admit, ParseView, Bytes;
    var more := incoming + [Incoming(n, Bytes(n), at)];
    assert more[..|more| - 1] == incoming;
  }

  lemma TransmissionArrivals()
    ensures ArrivalsOf(SOCKET, Transmission()) == [Copy(0, 10), Copy(1, 11), Copy(0, 12)]
  {
    hide Bytes, Copy, ArrivalsOf;
    NoArrivals();
    OneMore([], 0, 10);
    OneMore([Incoming(0, Bytes(0), 10)], 1, 11);
    OneMore([Incoming(0, Bytes(0), 10), Incoming(1, Bytes(1), 11)], 0, 12);
    assert [] + [Incoming(0, Bytes(0), 10)] == [Incoming(0, Bytes(0), 10)];
    assert [Incoming(0, Bytes(0), 10)] + [Incoming(1, Bytes(1), 11)] == [Incoming(0, Bytes(0), 10), Incoming(1, Bytes(1), 11)];
    assert [Incoming(0, Bytes(0), 10), Incoming(1, Bytes(1), 11)] + [Incoming(0, Bytes(0), 12)] == Transmission();
  }

  lemma NoArrivals()
    ensures ArrivalsOf(SOCKET, []) == []
  {
  }

  lemma TransmissionFaithful()
    ensures Faithful(SOCKET, 0, PART.packets, Transmission())
  {
    hide Admit, ParseView, Bytes;
    DatagramAdmitted(0, 10);
    DatagramAdmitted(1, 11);
    var incoming := Transmission();
    forall i | 0 <= i < |incoming|
      ensures 0 <= incoming[i].number < 2
      ensures ParseView(incoming[i].datagram) == Ok(PART.packets[incoming[i].number])
    {
    }
  }

  /** It arrives as it should, under every policy. */
  lemma TransmissionArrives(policy: Policy)
    ensures Arrives(8192, policy, 0, 2, [Copy(0, 10), Copy(1, 11), Copy(0, 12)])
  {
    var s := [Copy(0, 10), Copy(1, 11), Copy(0, 12)];
    assert s[..2][..1] == s[..1] && s[..1][..0] == s[..0] == [];
    assert Numbers(s[..0]) == {};
    NumbersSnoc(s[..1]);
    NumbersSnoc(s[..2]);
    NumbersSnoc(s);
    assert Numbers(s[..1]) == {0} && Numbers(s[..2]) == {0, 1} == Numbers(s);
    LowestMissingUnique(Numbers(s[..1]), 0, 1);
    LowestMissingUnique(Numbers(s[..2]), 0, 2);
    assert Waiting(0, s[..1]) == {} == Waiting(0, s[..2]) == Waiting(0, s);
    assert WellTimed(Video, 8192, 0, s[..0]) && AlwaysPatient(policy, 0, s[..0]);
    assert WellTimed(Video, 8192, 0, s[..1]) && AlwaysPatient(policy, 0, s[..1]);
    assert WellTimed(Video, 8192, 0, s[..2]) && AlwaysPatient(policy, 0, s[..2]);
  }

  /** So the sink gets this one picture, stamped with the first arrival of packet 0. */
  lemma PictureArrives(merge: bool, policy: Policy)
    ensures var out := Receive(Video, 8192, merge, policy, ArrivalsOf(SOCKET, Transmission())).1;
            && Layout(2, 2, UYVY).Some? && AllViewable(out) && StreamFits(CONFIG, Views(out))
            && Shown(CONFIG, out) == [ReconstructedFrame(PICTURE, 0, 10, true)]
  {
    hide Layout, Receive, GoodSending, Faithful, Numbered, Arrives, StreamOf, PipeRun, Transmission, View, Viewable;
    PictureLayout();
    Sending();
    TransmissionNumbered();
    TransmissionFaithful();
    TransmissionArrivals();
    TransmissionArrives(policy);
    PicturesArrive(CONFIG, SOCKET, 8192, merge, policy, 0, [PICTURE], [PART], Transmission());
    var s := [Copy(0, 10), Copy(1, 11), Copy(0, 12)];
    FirstOfThree(s);
    assert [PART][..0] == [];
    NoPackets();
  }

  lemma NoPackets()
    ensures StreamOf([]) == []
  {
  }

  lemma FirstOfThree(s: seq<Arrival>)
    requires s == [Copy(0, 10), Copy(1, 11), Copy(0, 12)]
    ensures 0 in Numbers(s) && FirstPacket(s, 0).receiveTimestamp == 10
  {
    assert s[..2][..1] == s[..1] && s[..1][..0] == [];
    assert s[..1][0].number == 0 && s[..2][0].number == 0;
    assert FirstPacket(s[..1], 0) == s[0].packet;
    assert FirstPacket(s[..2], 0) == FirstPacket(s[..1], 0);
  }
}
