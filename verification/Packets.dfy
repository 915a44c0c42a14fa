/** RTP packets as the receive path holds them: the header, the view of a
    parsed datagram, and the owned copy the reorder buffer stores. */
module Packets {
  import opened Basics

  datatype RtpHeader = RtpHeader(
    version: u8,
    padding: bool,
    extension: bool,
    csrcCount: u8,
    marker: bool,
    payloadType: u8,
    seqNumber: u16,
    timestamp: u32,
    ssrc: u32,
    payloadOffset: nat,
    payloadLen: nat)

  /** One sample row data header of section 4.2 of RFC 4175. */
  datatype SrdHeader = SrdHeader(length: u16, row: u16, offset: u16, fieldId: bool, continuation: bool)

  datatype SrdSegment = SrdSegment(header: SrdHeader, data: seq<u8>)

  datatype VideoPacketView = VideoPacketView(
    rtp: RtpHeader,
    payload: seq<u8>,
    receiveTimestamp: u64,
    segments: seq<SrdSegment>,
    extendedSeq: u32,
    trailingPadding: seq<u8>)

  /** What the two subclasses of StoredPacket add to the base. */
  datatype StoredMedia =
    | VideoMedia(headers: seq<SrdHeader>)
    | AudioMedia(samplingRate: u32, channels: u16, samplesPerChannel: u32, bitDepth: nat)

  datatype StoredPacket = StoredPacket(
    rtp: RtpHeader,
    payload: seq<u8>,
    extendedSeq: u32,
    receiveTimestamp: u64,
    media: StoredMedia)
}
