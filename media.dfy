/** Value types shared by the forwarding engine: fixed-width integers,
    codec parameters, RTP headers and packets, RTCP batches and the
    DownTrack handle a Receiver fans packets out to. */
module Media {

  type uint8 = x: int | 0 <= x < 0x100
  type uint16 = x: int | 0 <= x < 0x1_0000
  type uint32 = x: int | 0 <= x < 0x1_0000_0000
  type uint64 = x: int | 0 <= x < 0x1_0000_0000_0000_0000

  /** RTPCodecType: which media kind a track or codec belongs to. */
  datatype Kind = Audio | Video

  /** RTPCodecParameters: a codec capability plus its payload type.
      RTCP feedback lists are not modelled (see README). */
  datatype CodecParameters = CodecParameters(
    mimeType: string,
    clockRate: uint32,
    channels: uint16,
    sdpFmtpLine: string,
    payloadType: uint8)

  /** The zero value `webrtc.RTPCodecParameters{}`. */
  const ZeroCodec := CodecParameters("", 0, 0, "", 0)

  /** The RTP fixed header fields (RFC 3550 section 5.1) the SFU rewrites. */
  datatype RtpHeader = RtpHeader(
    sequenceNumber: uint16,
    timestamp: uint32,
    ssrc: uint32,
    payloadType: uint8,
    marker: bool)

  datatype RtpPacket = RtpPacket(header: RtpHeader, payload: seq<uint8>)

  /** The RTCP packet kinds seen at the boundary; only the first one of a
      batch is inspected, for Picture Loss Indication (RFC 4585 section 6.3.1). */
  datatype RtcpPacket =
    | PictureLossIndication(senderSsrc: uint32, mediaSsrc: uint32)
    | Nack(mediaSsrc: uint32, lost: seq<uint16>)
    | ReceiverEstimatedMaxBitrate(bitrate: nat)
    | ReceiverReport(ssrc: uint32)
    | SenderReport(ssrc: uint32, ntpTime: uint64, rtpTime: uint32)
    | SourceDescription(cname: string)

  type RtcpBatch = seq<RtcpPacket>

  /** A DownTrack as the Receiver and Router see it. `handle` stands for the
      Go pointer (object identity); `id` is the track id DownTracks are
      deleted and looked up by; `ssrc` and `payloadType` are the values a
      retransmitted packet is rewritten to. */
  datatype DownTrack = DownTrack(
    handle: nat,
    id: string,
    streamId: string,
    ssrc: uint32,
    payloadType: uint8)

  /** The inbound (publisher) track a Receiver is built from and bound to. */
  datatype RemoteTrack = RemoteTrack(
    id: string,
    streamId: string,
    ssrc: uint32,
    codec: CodecParameters,
    kind: Kind)

  /** packetMeta: what the DownTrack's sequencer remembers of a sent packet. */
  datatype PacketMeta = PacketMeta(
    sourceSeqNo: uint16,
    targetSeqNo: uint16,
    timestamp: uint32)
}
