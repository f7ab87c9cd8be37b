/** The Receiver: one per inbound (publisher) track. It keeps the
    copy-on-write snapshot of the DownTracks it feeds, forwards every packet
    its buffer yields to each of them, rate-limits Picture Loss Indication
    (RFC 4585 section 6.3.1) and answers NACKs (RFC 4585 section 6.2.1) by
    re-sending stored packets with rewritten RTP headers (RFC 3550 section
    5.1). Goroutines, the mutex, atomic.Value, sync.Once and the worker pool
    are read sequentially: each becomes a plain field or a log. */
module Receiver {
  import opened Media
  import opened Wrappers
  import Helpers

  /** The buffer.Buffer a Receiver results from, by identity. */
  type BufferId = nat

  /** One result of Buffer.ReadExtended. */
  datatype ReadResult = Packet(packet: RtpPacket) | EndOfFile

  /** What DownTrack.WriteRTP returned. */
  datatype WriteOutcome = Written | WriteEOF | WriteClosedPipe | WriteFailed

  /** One forwarding attempt of the writeRTP loop, kept whatever its outcome. */
  datatype Delivery = Delivery(packet: RtpPacket, track: DownTrack, outcome: WriteOutcome)

  /** Buffer.GetPacket for one sequence number, followed by rtp.Packet.Unmarshal
      of the bytes it copied (`size` of them). */
  datatype Lookup = Hit(packet: RtpPacket, size: uint32) | Unparsable | Miss | EndOfBuffer

  /** One retransmission handed to a DownTrack's write stream; `written` is
      false when that write failed (the DownTrack's stats are then not
      updated with `size`). */
  datatype RtxWrite = RtxWrite(track: DownTrack, packet: RtpPacket, written: bool, size: uint32)

  datatype ReceiverError = ErrClosedPipe

  /** At most one PLI every 500 ms, in nanoseconds. */
  const PliInterval: int := 500_000_000

  // ---------------------------------------------------------------------
  // The DownTrack snapshot
  // ---------------------------------------------------------------------

  /** downTrackSubscribed: this very DownTrack (pointer identity) is in the snapshot. */
  predicate Subscribed(s: seq<DownTrack>, dt: DownTrack)
  {
    exists i :: 0 <= i < |s| && s[i].handle == dt.handle
  }

  predicate DistinctHandles(s: seq<DownTrack>)
  {
    forall i, j :: 0 <= i < j < |s| ==> s[i].handle != s[j].handle
  }

  /** The snapshot after AddDownTrack on an open receiver. */
  function WithDownTrack(s: seq<DownTrack>, dt: DownTrack): seq<DownTrack>
  {
    if Subscribed(s, dt) then s else s + [dt]
  }

  /** The snapshot after deleteDownTrack(id): every entry whose id differs,
      in snapshot order. */
  function Without(s: seq<DownTrack>, id: string): seq<DownTrack>
  {
    if s == [] then []
    else if s[|s| - 1].id != id then Without(s[..|s| - 1], id) + [s[|s| - 1]]
    else Without(s[..|s| - 1], id)
  }

  /** Adding keeps every earlier entry in place, appends only an entry not
      yet present, and a second add of the same DownTrack changes nothing. */
  lemma WithDownTrackAppends(s: seq<DownTrack>, dt: DownTrack)
    ensures var r := WithDownTrack(s, dt);
      && Subscribed(r, dt)
      && r[..|s|] == s
      && (Subscribed(s, dt) ==> r == s)
      && (!Subscribed(s, dt) ==> r == s + [dt])
      && WithDownTrack(r, dt) == r
  {
    var r := WithDownTrack(s, dt);
    if !Subscribed(s, dt) {
      assert r[|s|] == dt;
    }
  }

  /** A snapshot built only by AddDownTrack never holds a DownTrack twice. */
  lemma WithDownTrackKeepsDistinct(s: seq<DownTrack>, dt: DownTrack)
    requires DistinctHandles(s)
    ensures DistinctHandles(WithDownTrack(s, dt))
  {
    if !Subscribed(s, dt) {
      var r := s + [dt];
      forall i, j | 0 <= i < j < |r| ensures r[i].handle != r[j].handle {
        if j == |s| {
          assert r[i] == s[i];
        }
      }
    }
  }

  /** deleteDownTrack keeps exactly the entries whose id differs. */
  lemma {:induction false} WithoutMembers(s: seq<DownTrack>, id: string)
    ensures forall x :: x in Without(s, id) <==> x in s && x.id != id
  {
    if s != [] {
      var init := s[..|s| - 1];
      WithoutMembers(init, id);
      assert s == init + [s[|s| - 1]];
    }
  }

  /** Filtering a concatenation filters each part: the kept entries stay in
      snapshot order. */
  lemma {:induction false} WithoutSplits(a: seq<DownTrack>, b: seq<DownTrack>, id: string)
    ensures Without(a + b, id) == Without(a, id) + Without(b, id)
  {
    if b == [] {
      assert a + b == a;
    } else {
      var init := b[..|b| - 1];
      WithoutSplits(a, init, id);
      assert (a + b)[..|a + b| - 1] == a + init;
    }
  }

  /** Deleting an id that is absent, or deleting it twice, changes nothing. */
  lemma {:induction false} WithoutAbsent(s: seq<DownTrack>, id: string)
    requires forall x :: x in s ==> x.id != id
    ensures Without(s, id) == s
  {
    if s != [] {
      var init := s[..|s| - 1];
      assert s == init + [s[|s| - 1]];
      WithoutAbsent(init, id);
    }
  }

  lemma WithoutIdempotent(s: seq<DownTrack>, id: string)
    ensures Without(Without(s, id), id) == Without(s, id)
  {
    WithoutMembers(s, id);
    WithoutAbsent(Without(s, id), id);
  }

  lemma {:induction false} WithoutKeepsDistinct(s: seq<DownTrack>, id: string)
    requires DistinctHandles(s)
    ensures DistinctHandles(Without(s, id))
  {
    if s != [] {
      var init, x := s[..|s| - 1], s[|s| - 1];
      WithoutKeepsDistinct(init, id);
      if x.id != id {
        var w := Without(init, id);
        WithoutMembers(init, id);
        var r := w + [x];
        forall i, j | 0 <= i < j < |r| ensures r[i].handle != r[j].handle {
          if j == |w| {
            assert r[i] in init;
            var k :| 0 <= k < |init| && init[k] == r[i];
            assert s[k] == r[i];
          }
        }
      }
    }
  }

  // ---------------------------------------------------------------------
  // Forwarding (writeRTP)
  // ---------------------------------------------------------------------

  /** The test at the self-healing delete, exactly as written: one error
      value compared for equality with two distinct errors at once. */
  predicate SelfHeal(o: WriteOutcome)
  {
    o == WriteEOF && o == WriteClosedPipe
  }

  /** The self-healing delete never fires, whatever a write returns. */
  lemma SelfHealNeverFires(o: WriteOutcome)
    ensures !SelfHeal(o)
  {
  }

  /** Index of the first end-of-file read, or the number of results. */
  function FirstEnd(results: seq<ReadResult>): (k: nat)
    ensures k <= |results|
    ensures forall j :: 0 <= j < k ==> results[j].Packet?
    ensures k < |results| ==> results[k].EndOfFile?
  {
    if results == [] || results[0].EndOfFile? then 0 else 1 + FirstEnd(results[1..])
  }

  lemma {:induction false} FirstEndIs(results: seq<ReadResult>, k: nat)
    requires k <= |results|
    requires forall j :: 0 <= j < k ==> results[j].Packet?
    requires k < |results| ==> results[k].EndOfFile?
    ensures FirstEnd(results) == k
  {
    if k > 0 {
      FirstEndIs(results[1..], k - 1);
    }
  }

  /** One packet written to every DownTrack of a snapshot, in snapshot order. */
  function FanoutOne(p: RtpPacket, dts: seq<DownTrack>,
                     outcome: (RtpPacket, DownTrack) -> WriteOutcome): seq<Delivery>
  {
    if dts == [] then []
    else FanoutOne(p, dts[..|dts| - 1], outcome) + [Delivery(p, dts[|dts| - 1], outcome(p, dts[|dts| - 1]))]
  }

  /** Every packet read written to every DownTrack of a snapshot. */
  function Fanout(results: seq<ReadResult>, dts: seq<DownTrack>,
                  outcome: (RtpPacket, DownTrack) -> WriteOutcome): seq<Delivery>
  {
    if results == [] then []
    else
      Fanout(results[..|results| - 1], dts, outcome) +
      match results[|results| - 1]
      case Packet(p) => FanoutOne(p, dts, outcome)
      case EndOfFile => []
  }

  lemma {:induction false} FanoutOneAt(p: RtpPacket, dts: seq<DownTrack>,
                                       outcome: (RtpPacket, DownTrack) -> WriteOutcome, b: nat)
    requires b < |dts|
    ensures |FanoutOne(p, dts, outcome)| == |dts|
    ensures FanoutOne(p, dts, outcome)[b] == Delivery(p, dts[b], outcome(p, dts[b]))
  {
    var init := dts[..|dts| - 1];
    if b < |init| {
      FanoutOneAt(p, init, outcome, b);
    } else if init != [] {
      FanoutOneAt(p, init, outcome, 0);
    }
  }

  lemma {:induction false} FanoutOneLength(p: RtpPacket, dts: seq<DownTrack>,
                                           outcome: (RtpPacket, DownTrack) -> WriteOutcome)
    ensures |FanoutOne(p, dts, outcome)| == |dts|
  {
    if dts != [] {
      FanoutOneLength(p, dts[..|dts| - 1], outcome);
    }
  }

  /** Reading one more packet appends its writes to every DownTrack. */
  lemma FanoutSnoc(results: seq<ReadResult>, dts: seq<DownTrack>,
                   outcome: (RtpPacket, DownTrack) -> WriteOutcome)
    requires results != [] && results[|results| - 1].Packet?
    ensures Fanout(results, dts, outcome)
         == Fanout(results[..|results| - 1], dts, outcome) + FanoutOne(results[|results| - 1].packet, dts, outcome)
  {
  }

  lemma {:induction false} FanoutLength(results: seq<ReadResult>, dts: seq<DownTrack>,
                                        outcome: (RtpPacket, DownTrack) -> WriteOutcome)
    requires forall j :: 0 <= j < |results| ==> results[j].Packet?
    ensures |Fanout(results, dts, outcome)| == |results| * |dts|
  {
    if results != [] {
      var n, d := |results|, |dts|;
      var init := results[..n - 1];
      assert forall j :: 0 <= j < |init| ==> init[j] == results[j];
      FanoutLength(init, dts, outcome);
      FanoutSnoc(results, dts, outcome);
      FanoutOneLength(results[n - 1].packet, dts, outcome);
      LastBlock(n, d);
    }
  }

  lemma AppendAssoc<T>(a: seq<T>, b: seq<T>, c: seq<T>)
    ensures (a + b) + c == a + (b + c)
  {
  }

  lemma ConcatIndex<T>(x: seq<T>, y: seq<T>, k: nat)
    requires k < |x| + |y|
    ensures k < |x| ==> (x + y)[k] == x[k]
    ensures k >= |x| ==> (x + y)[k] == y[k - |x|]
  {
  }

  lemma LastBlock(n: nat, d: nat)
    requires n > 0
    ensures n * d == (n - 1) * d + d
  {
  }

  /** Block `a`, offset `b` of `n` blocks of `d`: inside the layout. */
  lemma BlockBound(a: nat, b: nat, n: nat, d: nat)
    requires a < n && b < d
    ensures a * d + b < n * d
  {
    Helpers.MulMono(a + 1, n, d);
    assert (a + 1) * d == a * d + d;
  }

  /** Fewer packets read write a prefix of the deliveries. */
  lemma {:induction false} FanoutPrefix(results: seq<ReadResult>, dts: seq<DownTrack>,
                                        outcome: (RtpPacket, DownTrack) -> WriteOutcome, m: nat)
    requires m <= |results|
    ensures Fanout(results[..m], dts, outcome) <= Fanout(results, dts, outcome)
    decreases |results|
  {
    if m == |results| {
      assert results[..m] == results;
    } else {
      var init := results[..|results| - 1];
      assert init[..m] == results[..m];
      FanoutPrefix(init, dts, outcome, m);
    }
  }

  /** Forwarding: delivery number `a * |dts| + b` writes packet `a` to the
      `b`-th DownTrack of the snapshot, whatever earlier writes returned. */
  lemma FanoutAt(results: seq<ReadResult>, dts: seq<DownTrack>,
                 outcome: (RtpPacket, DownTrack) -> WriteOutcome, a: nat, b: nat)
    requires forall j :: 0 <= j < |results| ==> results[j].Packet?
    requires a < |results| && b < |dts|
    ensures |Fanout(results, dts, outcome)| == |results| * |dts|
    ensures a * |dts| + b < |results| * |dts|
    ensures Fanout(results, dts, outcome)[a * |dts| + b]
         == Delivery(results[a].packet, dts[b], outcome(results[a].packet, dts[b]))
  {
    var d := |dts|;
    var pre, upto := results[..a], results[..a + 1];
    assert upto[..a] == pre && upto[a] == results[a];
    FanoutSnoc(upto, dts, outcome);
    FanoutLength(pre, dts, outcome);
    FanoutOneAt(results[a].packet, dts, outcome, b);
    var before, here := Fanout(pre, dts, outcome), FanoutOne(results[a].packet, dts, outcome);
    ConcatIndex(before, here, a * d + b);
    FanoutPrefix(results, dts, outcome, a + 1);
    FanoutLength(results, dts, outcome);
    BlockBound(a, b, |results|, d);
  }

  // ---------------------------------------------------------------------
  // Retransmission (RetransmitPackets)
  // ---------------------------------------------------------------------

  /** A stored packet as it is re-sent on a DownTrack: the sequencer's target
      sequence number and timestamp, the DownTrack's SSRC and payload type;
      marker and payload are kept. */
  function Rewrite(p: RtpPacket, meta: PacketMeta, track: DownTrack): RtpPacket
  {
    RtpPacket(
      p.header.(sequenceNumber := meta.targetSeqNo, timestamp := meta.timestamp,
                ssrc := track.ssrc, payloadType := track.payloadType),
      p.payload)
  }

  /** What the worker writes for one NACK batch, given a buffer. */
  function RtxBatch(track: DownTrack, metas: seq<PacketMeta>, lookup: uint16 -> Lookup,
                    writeOk: RtpPacket -> bool): seq<RtxWrite>
  {
    if metas == [] then []
    else
      match lookup(metas[0].sourceSeqNo)
      case EndOfBuffer => []
      case Miss => RtxBatch(track, metas[1..], lookup, writeOk)
      case Unparsable => RtxBatch(track, metas[1..], lookup, writeOk)
      case Hit(p, size) =>
        var q := Rewrite(p, metas[0], track);
        [RtxWrite(track, q, writeOk(q), size)] + RtxBatch(track, metas[1..], lookup, writeOk)
  }

  /** `w` re-sends, on `track`, the packet the buffer holds for `meta`. */
  predicate RewrittenFrom(w: RtxWrite, meta: PacketMeta, lookup: uint16 -> Lookup, track: DownTrack)
  {
    && lookup(meta.sourceSeqNo).Hit?
    && w.track == track
    && w.size == lookup(meta.sourceSeqNo).size
    && w.packet.payload == lookup(meta.sourceSeqNo).packet.payload
    && w.packet.header.marker == lookup(meta.sourceSeqNo).packet.header.marker
    && w.packet.header.sequenceNumber == meta.targetSeqNo
    && w.packet.header.timestamp == meta.timestamp
    && w.packet.header.ssrc == track.ssrc
    && w.packet.header.payloadType == track.payloadType
  }

  /** Every retransmission answers one requested packet the buffer holds,
      with its header rewritten for the DownTrack, and there are never more
      retransmissions than requests. */
  lemma {:induction false} RtxHeadersRewritten(track: DownTrack, metas: seq<PacketMeta>,
                                               lookup: uint16 -> Lookup, writeOk: RtpPacket -> bool)
    ensures |RtxBatch(track, metas, lookup, writeOk)| <= |metas|
    ensures forall w :: w in RtxBatch(track, metas, lookup, writeOk) ==>
              exists j :: 0 <= j < |metas| && RewrittenFrom(w, metas[j], lookup, track)
  {
    if metas != [] {
      var rest := metas[1..];
      RtxHeadersRewritten(track, rest, lookup, writeOk);
      forall w | w in RtxBatch(track, metas, lookup, writeOk)
        ensures exists j :: 0 <= j < |metas| && RewrittenFrom(w, metas[j], lookup, track)
      {
        if w in RtxBatch(track, rest, lookup, writeOk) {
          var j :| 0 <= j < |rest| && RewrittenFrom(w, rest[j], lookup, track);
          assert metas[j + 1] == rest[j];
        } else {
          assert RewrittenFrom(w, metas[0], lookup, track);
        }
      }
    }
  }

  /** An end-of-buffer lookup ends the batch: nothing after it is sent. */
  lemma {:induction false} RtxStopsAtEndOfBuffer(track: DownTrack, metas: seq<PacketMeta>,
                                                 lookup: uint16 -> Lookup, writeOk: RtpPacket -> bool, k: nat)
    requires k < |metas| && lookup(metas[k].sourceSeqNo).EndOfBuffer?
    ensures RtxBatch(track, metas, lookup, writeOk) == RtxBatch(track, metas[..k], lookup, writeOk)
  {
    if k > 0 {
      assert metas[..k][0] == metas[0];
      assert metas[..k][1..] == metas[1..][..k - 1];
      RtxStopsAtEndOfBuffer(track, metas[1..], lookup, writeOk, k - 1);
    }
  }

  /** A miss or an unparsable packet is skipped: the batch is the one without
      that request. */
  lemma {:induction false} RtxSkipsUnusable(track: DownTrack, metas: seq<PacketMeta>,
                                            lookup: uint16 -> Lookup, writeOk: RtpPacket -> bool, k: nat)
    requires k < |metas|
    requires lookup(metas[k].sourceSeqNo).Miss? || lookup(metas[k].sourceSeqNo).Unparsable?
    ensures RtxBatch(track, metas, lookup, writeOk)
         == RtxBatch(track, metas[..k] + metas[k + 1..], lookup, writeOk)
  {
    var rest := metas[..k] + metas[k + 1..];
    if k == 0 {
      assert rest == metas[1..];
    } else {
      assert rest[0] == metas[0];
      assert rest[1..] == metas[1..][..k - 1] + metas[1..][k..];
      RtxSkipsUnusable(track, metas[1..], lookup, writeOk, k - 1);
    }
  }

  /** A failed write does not abort the batch: which packets are sent does
      not depend on how the writes turn out. */
  lemma {:induction false} RtxWriteErrorsDoNotAbort(track: DownTrack, metas: seq<PacketMeta>,
                                                    lookup: uint16 -> Lookup,
                                                    ok1: RtpPacket -> bool, ok2: RtpPacket -> bool)
    ensures |RtxBatch(track, metas, lookup, ok1)| == |RtxBatch(track, metas, lookup, ok2)|
    ensures forall k :: 0 <= k < |RtxBatch(track, metas, lookup, ok1)| ==>
              RtxBatch(track, metas, lookup, ok1)[k].packet == RtxBatch(track, metas, lookup, ok2)[k].packet
  {
    if metas != [] {
      RtxWriteErrorsDoNotAbort(track, metas[1..], lookup, ok1, ok2);
    }
  }

  /** When the buffer holds every requested packet, every request is
      answered, and the i-th retransmission is the i-th request's packet
      rewritten for the DownTrack. */
  lemma {:induction false} RtxAnswersEveryHit(track: DownTrack, metas: seq<PacketMeta>,
                                              lookup: uint16 -> Lookup, writeOk: RtpPacket -> bool)
    requires forall j :: 0 <= j < |metas| ==> lookup(metas[j].sourceSeqNo).Hit?
    ensures |RtxBatch(track, metas, lookup, writeOk)| == |metas|
    ensures forall i :: 0 <= i < |metas| ==>
      RewrittenFrom(RtxBatch(track, metas, lookup, writeOk)[i], metas[i], lookup, track)
  {
    if metas != [] {
      assert forall j :: 0 <= j < |metas[1..]| ==> metas[1..][j] == metas[j + 1];
      RtxAnswersEveryHit(track, metas[1..], lookup, writeOk);
    }
  }

  /** Forwarded PLIs are at least PliInterval apart. */
  ghost predicate PliSpaced(ts: seq<int>)
  {
    forall i :: 0 <= i < |ts| - 1 ==> ts[i] + PliInterval <= ts[i + 1]
  }

  // ---------------------------------------------------------------------
  // WebRTCReceiver
  // ---------------------------------------------------------------------

  class WebRTCReceiver {
    var peerId: string
    var trackId: string
    var streamId: string
    var kind: Kind
    var codec: CodecParameters

    const closed: Helpers.AtomicBool
    /** The closeOnce guard has run. */
    var closeOnceDone: bool

    /** The up track and buffer AddUpTrack bound; None until then. */
    var upTrack: Option<RemoteTrack>
    var buffer: Option<BufferId>
    /** The DownTrack snapshot; absent (the atomic.Value stores nothing)
        until AddUpTrack stores an empty one. */
    var downTracks: seq<DownTrack>
    /** writeRTP loops started. */
    var writers: nat

    var lastPli: int
    /** Times at which a PLI was forwarded. */
    ghost var pliTimes: seq<int>
    /** Batches sent on rtcpCh, oldest first. */
    var rtcpOut: seq<RtcpBatch>

    /** Every write the writeRTP loop made, in order. */
    var deliveries: seq<Delivery>
    /** DownTracks closed by closeTracks, in order. */
    var closedDownTracks: seq<DownTrack>
    /** The NACK worker pool was released. */
    var workerReleased: bool
    var hasCloseHandler: bool
    var closeHandlerCalls: nat
    /** Every retransmission the NACK worker made, in order. */
    var rtxLog: seq<RtxWrite>

    /** The invariants that do not involve closing. */
    ghost predicate Steady()
      reads this`downTracks, this`pliTimes, this`lastPli, this`closeOnceDone, this`upTrack
    {
      && DistinctHandles(downTracks)
      && PliSpaced(pliTimes)
      && (|pliTimes| > 0 ==> lastPli == pliTimes[|pliTimes| - 1])
      && (closeOnceDone ==> upTrack.Some?)
    }

    ghost predicate Valid()
      reads this`downTracks, this`pliTimes, this`lastPli, this`closeOnceDone, this`upTrack,
            this`workerReleased, this`closeHandlerCalls, closed
    {
      && Steady()
      && closed.Valid()
      && (closed.Get() <==> closeOnceDone)
      && (workerReleased <==> closeOnceDone)
      && closeHandlerCalls <= 1
      && (closeHandlerCalls == 1 ==> closeOnceDone)
    }

    /** NewWebRTCReceiver: metadata from the track, everything else zero. */
    constructor (track: RemoteTrack, pid: string)
      ensures Valid() && fresh(closed)
      ensures peerId == pid && trackId == track.id && streamId == track.streamId
      ensures codec == track.codec && kind == track.kind
      ensures !closed.Get() && !closeOnceDone && !workerReleased
      ensures upTrack == None && buffer == None && downTracks == [] && writers == 0
      ensures lastPli == 0 && rtcpOut == [] && deliveries == [] && closedDownTracks == []
      ensures !hasCloseHandler && closeHandlerCalls == 0 && rtxLog == []
    {
      peerId, trackId, streamId := pid, track.id, track.streamId;
      codec, kind := track.codec, track.kind;
      closed := new Helpers.AtomicBool();
      closeOnceDone := false;
      upTrack, buffer, downTracks, writers := None, None, [], 0;
      lastPli, pliTimes, rtcpOut := 0, [], [];
      deliveries, closedDownTracks, workerReleased := [], [], false;
      hasCloseHandler, closeHandlerCalls, rtxLog := false, 0, [];
    }

    method SetTrackMeta(newTrackId: string, newStreamId: string)
      requires Valid()
      modifies this`trackId, this`streamId
      ensures Valid() && trackId == newTrackId && streamId == newStreamId
    {
      streamId := newStreamId;
      trackId := newTrackId;
    }

    /** The bound up track's SSRC, or 0 before AddUpTrack. */
    function SSRC(): (s: uint32)
      reads this
      ensures upTrack.Some? ==> s == upTrack.value.ssrc
      ensures upTrack.None? ==> s == 0
    {
      if upTrack.Some? then upTrack.value.ssrc else 0
    }

    /** Binds the up track and buffer, resets the snapshot to empty and
        starts a writeRTP loop; a closed receiver ignores the call. */
    method AddUpTrack(track: RemoteTrack, buff: BufferId)
      requires Valid()
      modifies this`upTrack, this`buffer, this`downTracks, this`writers
      ensures Valid()
      ensures closed.Get() ==> unchanged(this)
      ensures !closed.Get() ==>
        upTrack == Some(track) && buffer == Some(buff) && downTracks == [] && writers == old(writers) + 1
      ensures !closed.Get() ==> SSRC() == track.ssrc
    {
      if closed.Get() {
        return;
      }
      upTrack := Some(track);
      buffer := Some(buff);
      downTracks := [];
      writers := writers + 1;
    }

    /** Before AddUpTrack the atomic.Value holds nothing and loading the
        snapshot panics, hence `upTrack.Some?`. */
    method AddDownTrack(dt: DownTrack)
      requires Valid() && upTrack.Some?
      modifies this`downTracks
      ensures Valid()
      ensures downTracks == if closed.Get() then old(downTracks) else WithDownTrack(old(downTracks), dt)
    {
      if closed.Get() {
        return;
      }
      var subscribed := DownTrackSubscribed(dt);
      if subscribed {
        return;
      }
      WithDownTrackKeepsDistinct(downTracks, dt);
      StoreDownTrack(dt);
    }

    method DownTrackSubscribed(dt: DownTrack) returns (subscribed: bool)
      ensures subscribed <==> Subscribed(downTracks, dt)
    {
      var dts := downTracks;
      for i := 0 to |dts|
        invariant forall j :: 0 <= j < i ==> dts[j].handle != dt.handle
      {
        if dts[i].handle == dt.handle {
          return true;
        }
      }
      return false;
    }

    /** Stores a new snapshot: a copy of the old one with `dt` at the end. */
    method StoreDownTrack(dt: DownTrack)
      modifies this`downTracks
      ensures downTracks == old(downTracks) + [dt]
    {
      var dts := downTracks;
      var ndts := new DownTrack[|dts| + 1](_ => dt);
      forall i | 0 <= i < |dts| {
        ndts[i] := dts[i];
      }
      ndts[ndts.Length - 1] := dt;
      downTracks := ndts[..];
    }

    method DeleteDownTrack(id: string)
      requires Valid() && upTrack.Some?
      modifies this`downTracks
      ensures Valid()
      ensures downTracks == if closed.Get() then old(downTracks) else Without(old(downTracks), id)
    {
      if closed.Get() {
        return;
      }
      DeleteFromSnapshot(id);
    }

    /** deleteDownTrack, run under the lock. */
    method DeleteFromSnapshot(id: string)
      requires Steady()
      modifies this`downTracks
      ensures Steady() && downTracks == Without(old(downTracks), id)
    {
      var dts := downTracks;
      var ndts: seq<DownTrack> := [];
      for i := 0 to |dts|
        invariant ndts == Without(dts[..i], id)
      {
        assert dts[..i + 1][..i] == dts[..i];
        if dts[i].id != id {
          ndts := ndts + [dts[i]];
        }
      }
      assert dts[..|dts|] == dts;
      WithoutKeepsDistinct(dts, id);
      downTracks := ndts;
    }

    method OnCloseHandler()
      requires Valid()
      modifies this`hasCloseHandler
      ensures Valid() && hasCloseHandler
    {
      hasCloseHandler := true;
    }

    /** The writeRTP loop over what the buffer yields. Each packet goes to
        every DownTrack of the snapshot; the snapshot is never changed, as
        the self-healing delete never fires. The first end-of-file ends the
        loop and closes the receiver, once. Reads past the end of `stream`
        have not happened yet: the loop is still running. */
    method WriteRTP(stream: seq<ReadResult>, outcome: (RtpPacket, DownTrack) -> WriteOutcome)
      requires Valid() && upTrack.Some?
      modifies this`downTracks, this`deliveries, this`closeOnceDone, this`closedDownTracks,
               this`workerReleased, this`closeHandlerCalls, closed
      ensures Valid()
      ensures downTracks == old(downTracks)
      ensures deliveries == old(deliveries) + Fanout(stream[..FirstEnd(stream)], old(downTracks), outcome)
      ensures FirstEnd(stream) == |stream| ==>
        && closeOnceDone == old(closeOnceDone)
        && closedDownTracks == old(closedDownTracks)
        && closeHandlerCalls == old(closeHandlerCalls)
      ensures FirstEnd(stream) < |stream| ==>
        && closeOnceDone
        && closedDownTracks == old(closedDownTracks) + (if old(closeOnceDone) then [] else old(downTracks))
        && closeHandlerCalls == (if !old(closeOnceDone) && hasCloseHandler then 1 else old(closeHandlerCalls))
    {
      var i := ForwardAll(stream, outcome);
      if i < |stream| {
        CloseOnce();
      }
    }

    /** The writeRTP loop: forward every packet read until ReadExtended
        reports the end of the stream; returns how many were forwarded. */
    method ForwardAll(stream: seq<ReadResult>, outcome: (RtpPacket, DownTrack) -> WriteOutcome) returns (i: nat)
      requires Valid()
      modifies this`deliveries, this`downTracks
      ensures Valid() && i == FirstEnd(stream)
      ensures downTracks == old(downTracks)
      ensures deliveries == old(deliveries) + Fanout(stream[..i], old(downTracks), outcome)
    {
      i := 0;
      while i < |stream| && stream[i].Packet?
        invariant i <= |stream|
        invariant forall j :: 0 <= j < i ==> stream[j].Packet?
        invariant downTracks == old(downTracks)
        invariant deliveries == old(deliveries) + Fanout(stream[..i], old(downTracks), outcome)
        modifies this`deliveries, this`downTracks
      {
        ghost var done := Fanout(stream[..i], old(downTracks), outcome);
        ghost var next := FanoutOne(stream[i].packet, old(downTracks), outcome);
        ForwardOne(stream[i].packet, outcome);
        AppendAssoc(old(deliveries), done, next);
        assert stream[..i + 1][..i] == stream[..i] && stream[..i + 1][i] == stream[i];
        FanoutSnoc(stream[..i + 1], old(downTracks), outcome);
        i := i + 1;
      }
      FirstEndIs(stream, i);
    }

    /** One turn of the writeRTP loop: the packet is written to every entry
        of the snapshot loaded for it, and a write error is only logged. */
    method ForwardOne(p: RtpPacket, outcome: (RtpPacket, DownTrack) -> WriteOutcome)
      modifies this`deliveries, this`downTracks
      ensures downTracks == old(downTracks)
      ensures deliveries == old(deliveries) + FanoutOne(p, old(downTracks), outcome)
    {
      var dts := downTracks;
      for j := 0 to |dts|
        invariant downTracks == dts
        invariant deliveries == old(deliveries) + FanoutOne(p, dts[..j], outcome)
      {
        var dt := dts[j];
        var o := outcome(p, dt);
        deliveries := deliveries + [Delivery(p, dt, o)];
        downTracks := if SelfHeal(o) then Without(downTracks, dt.id) else downTracks;
        assert dts[..j + 1][..j] == dts[..j];
      }
      assert dts[..|dts|] == dts;
    }

    /** The deferred closeOnce.Do: set the closed flag and close the tracks,
        the first time only. */
    method CloseOnce()
      requires Valid() && upTrack.Some?
      modifies this`closeOnceDone, this`closedDownTracks, this`workerReleased, this`closeHandlerCalls, closed
      ensures Valid() && closeOnceDone
      ensures closedDownTracks == old(closedDownTracks) + (if old(closeOnceDone) then [] else downTracks)
      ensures closeHandlerCalls == (if !old(closeOnceDone) && hasCloseHandler then 1 else old(closeHandlerCalls))
    {
      if closeOnceDone {
        return;
      }
      closeOnceDone := true;
      var _ := closed.Set(true);
      CloseTracks();
    }

    /** closeTracks: close every DownTrack of the snapshot, release the NACK
        worker, then call the close handler if one is set. */
    method CloseTracks()
      requires Steady() && closed.Valid() && closed.Get() && closeOnceDone
      requires !workerReleased && closeHandlerCalls == 0
      modifies this`closedDownTracks, this`workerReleased, this`closeHandlerCalls
      ensures Valid()
      ensures closedDownTracks == old(closedDownTracks) + downTracks
      ensures closeHandlerCalls == if hasCloseHandler then 1 else 0
    {
      var dts := downTracks;
      for i := 0 to |dts|
        invariant closedDownTracks == old(closedDownTracks) + dts[..i]
        modifies this`closedDownTracks
      {
        closedDownTracks := closedDownTracks + [dts[i]];
        assert dts[..i + 1] == dts[..i] + [dts[i]];
      }
      assert dts[..|dts|] == dts;
      workerReleased := true;
      if hasCloseHandler {
        closeHandlerCalls := closeHandlerCalls + 1;
      }
    }

    /** Sends a batch on rtcpCh, except that a batch led by a PLI is dropped
        when the last forwarded PLI is less than 500 ms old. The source
        indexes the first packet, so the batch must not be empty. */
    method SendRTCP(p: RtcpBatch, now: int)
      requires Valid() && |p| > 0
      modifies this`lastPli, this`pliTimes, this`rtcpOut
      ensures Valid()
      ensures p[0].PictureLossIndication? && now - old(lastPli) < PliInterval ==>
        rtcpOut == old(rtcpOut) && lastPli == old(lastPli)
      ensures p[0].PictureLossIndication? && now - old(lastPli) >= PliInterval ==>
        rtcpOut == old(rtcpOut) + [p] && lastPli == now
      ensures !p[0].PictureLossIndication? ==>
        rtcpOut == old(rtcpOut) + [p] && lastPli == old(lastPli)
    {
      if p[0].PictureLossIndication? {
        if now - lastPli < PliInterval {
          return;
        }
        lastPli := now;
        pliTimes := pliTimes + [now];
      }
      rtcpOut := rtcpOut + [p];
    }

    /** Hands a NACK batch to the worker, which is run here to completion.
        A released worker refuses it; without a buffer nothing is sent. */
    method RetransmitPackets(track: DownTrack, metas: seq<PacketMeta>,
                             lookup: uint16 -> Lookup, writeOk: RtpPacket -> bool)
      returns (err: Option<ReceiverError>)
      requires Valid()
      modifies this`rtxLog
      ensures Valid()
      ensures workerReleased ==> err == Some(ErrClosedPipe) && rtxLog == old(rtxLog)
      ensures !workerReleased ==>
        (err == None && rtxLog == old(rtxLog) + (if buffer.None? then [] else RtxBatch(track, metas, lookup, writeOk)))
    {
      if workerReleased {
        return Some(ErrClosedPipe);
      }
      var done: seq<RtxWrite> := [];
      var i := 0;
      while i < |metas|
        invariant i <= |metas|
        invariant rtxLog == old(rtxLog) + done
        invariant buffer.None? ==> done == []
        invariant buffer.Some? ==>
          done + RtxBatch(track, metas[i..], lookup, writeOk) == RtxBatch(track, metas, lookup, writeOk)
      {
        if buffer.None? {
          break;
        }
        var meta := metas[i];
        assert metas[i..][0] == meta && metas[i..][1..] == metas[i + 1..];
        match lookup(meta.sourceSeqNo) {
          case EndOfBuffer =>
            break;
          case Miss =>
          case Unparsable =>
          case Hit(pkt, size) =>
            var out := Rewrite(pkt, meta, track);
            var ok := writeOk(out);
            rtxLog := rtxLog + [RtxWrite(track, out, ok, size)];
            done := done + [RtxWrite(track, out, ok, size)];
        }
        i := i + 1;
      }
      return None;
    }
  }
}
