/** The Router: one per publishing peer. It maps track ids to the Receivers
    it created, attaches DownTracks of those Receivers to Subscribers, and
    pumps the RTCP its Receivers and buffers produce, first in first out,
    to the peer. Receivers appear here by their ReceiverInfo (an id plus
    the track they were built from); what the Router asks of a Receiver is
    kept as a log of calls. The Subscriber is abstract: its DownTracks per
    stream, the codecs registered on its media engine, the transceivers on
    its peer connection and how often it renegotiated. */
module Route {
  import opened Media
  import opened Wrappers
  import Receiver

  /** A Receiver as the Router knows it: `key` is the track id it is
      registered under, `track` the up track it was created from. */
  datatype ReceiverInfo = ReceiverInfo(rid: nat, key: string, track: RemoteTrack)

  /** What the Router asks of a Receiver. */
  datatype ReceiverCall =
    | SetRtcpChCall(rid: nat)
    | OnCloseHandlerCall(rid: nat)
    | AddUpTrackCall(rid: nat, track: RemoteTrack, buffer: Receiver.BufferId)
    | AddDownTrackCall(rid: nat, dt: DownTrack)

  /** Calls to the session's audio observer. */
  datatype AudioEvent = AddStream(streamId: string) | RemoveStream(streamId: string)

  datatype RouterError = CodecRegistrationFailed | DownTrackCreationFailed | TransceiverFailed

  /** The pion calls AddDownTrack makes, as oracles that may fail:
      MediaEngine.RegisterCodec, NewDownTrack (which yields the new
      DownTrack's identity) and PeerConnection.AddTransceiverFromTrack. */
  datatype Pion = Pion(
    registerCodec: (CodecParameters, Kind) -> bool,
    newDownTrack: ReceiverInfo -> Option<nat>,
    addTransceiver: DownTrack -> bool)

  /** What a Subscriber holds that AddDownTrack changes. */
  datatype SubState = SubState(
    downTracks: map<string, seq<DownTrack>>,
    codecs: seq<(CodecParameters, Kind)>,
    transceivers: seq<DownTrack>)

  /** The outcome of AddDownTrack: the new Subscriber state, the DownTrack
      or the error, and the calls made on the Receiver. */
  datatype Attached = Attached(st: SubState, result: Result<DownTrack, RouterError>, calls: seq<ReceiverCall>)

  /** The outcome of AddDownTrack over several Receivers. */
  datatype Batch = Batch(st: SubState, err: Option<RouterError>, calls: seq<ReceiverCall>)

  /** One batch handed to the RTCP writer, and whether the write succeeded. */
  datatype RtcpWrite = RtcpWrite(batch: RtcpBatch, ok: bool)

  /** rtcpCh is made with room for ten batches. */
  const RtcpQueueCapacity: nat := 10

  // ---------------------------------------------------------------------
  // Registration (AddReceiver)
  // ---------------------------------------------------------------------

  /** The registry: receivers by track id, and the next fresh receiver id. */
  datatype Registry = Registry(receivers: map<string, ReceiverInfo>, next: nat)

  ghost predicate RegistryValid(reg: Registry)
  {
    && (forall k :: k in reg.receivers ==> reg.receivers[k].key == k && reg.receivers[k].rid < reg.next)
    && (forall k1, k2 :: k1 in reg.receivers && k2 in reg.receivers && k1 != k2 ==>
          reg.receivers[k1].rid != reg.receivers[k2].rid)
  }

  /** The lookup-or-create step of AddReceiver: the Receiver for `key`, and
      whether it was created by this call (a new publish). */
  function Register(reg: Registry, key: string, track: RemoteTrack): (Registry, ReceiverInfo, bool)
  {
    if key in reg.receivers then (reg, reg.receivers[key], false)
    else
      var info := ReceiverInfo(reg.next, key, track);
      (Registry(reg.receivers[key := info], reg.next + 1), info, true)
  }

  /** The first registration of a track id creates a Receiver no other key
      shares; every later one returns that same Receiver and reports no
      new publish, leaving the registry as it was. */
  lemma {:induction false} RegisterIdempotent(reg: Registry, key: string, track: RemoteTrack, track2: RemoteTrack)
    requires RegistryValid(reg)
    ensures var (reg1, info, publish) := Register(reg, key, track);
      && RegistryValid(reg1)
      && (publish <==> key !in reg.receivers)
      && key in reg1.receivers && reg1.receivers[key] == info && info.key == key
      && (forall k :: k in reg.receivers ==> k in reg1.receivers && reg1.receivers[k] == reg.receivers[k])
      && Register(reg1, key, track2) == (reg1, info, false)
  {
    var (reg1, info, publish) := Register(reg, key, track);
    if publish {
      forall k1, k2 | k1 in reg1.receivers && k2 in reg1.receivers && k1 != k2
        ensures reg1.receivers[k1].rid != reg1.receivers[k2].rid
      {
        if k1 == key {
          assert reg1.receivers[k2] == reg.receivers[k2];
        } else if k2 == key {
          assert reg1.receivers[k1] == reg.receivers[k1];
        }
      }
    }
  }

  // ---------------------------------------------------------------------
  // Attaching DownTracks (AddDownTrack / AddDownTracks)
  // ---------------------------------------------------------------------

  function Lookup(m: map<string, seq<DownTrack>>, streamId: string): seq<DownTrack>
  {
    if streamId in m then m[streamId] else []
  }

  /** Index of the first DownTrack with the given id, or the length. */
  function FindIndex(dts: seq<DownTrack>, id: string): (k: nat)
    ensures k <= |dts|
    ensures forall j :: 0 <= j < k ==> dts[j].id != id
    ensures k < |dts| ==> dts[k].id == id
  {
    if dts == [] || dts[0].id == id then 0 else 1 + FindIndex(dts[1..], id)
  }

  lemma {:induction false} FindIndexIs(dts: seq<DownTrack>, id: string, k: nat)
    requires k <= |dts|
    requires forall j :: 0 <= j < k ==> dts[j].id != id
    requires k < |dts| ==> dts[k].id == id
    ensures FindIndex(dts, id) == k
  {
    if k > 0 {
      FindIndexIs(dts[1..], id, k - 1);
    }
  }

  /** The DownTrack a Subscriber already holds for (stream, track), if any. */
  function Existing(st: SubState, info: ReceiverInfo): Option<DownTrack>
  {
    var dts := Lookup(st.downTracks, info.track.streamId);
    var k := FindIndex(dts, info.track.id);
    if k < |dts| then Some(dts[k]) else None
  }

  /** A new DownTrack carries the Receiver's track and stream ids; its SSRC
      and payload type are fixed when it is bound, later. */
  function NewDownTrack(info: ReceiverInfo, handle: nat): DownTrack
  {
    DownTrack(handle, info.track.id, info.track.streamId, 0, 0)
  }

  /** AddDownTrack, as a function of the Subscriber's state. */
  function Attach(st: SubState, info: ReceiverInfo, pion: Pion): Attached
  {
    var existing := Existing(st, info);
    if existing.Some? then Attached(st, Success(existing.value), [])
    else if !pion.registerCodec(info.track.codec, info.track.kind) then
      Attached(st, Failure(CodecRegistrationFailed), [])
    else
      AttachNew(st.(codecs := st.codecs + [(info.track.codec, info.track.kind)]), info, pion)
  }

  /** AddDownTrack once the codec is registered: create the DownTrack, add
      its transceiver, and register it with the Subscriber and Receiver. */
  function AttachNew(st: SubState, info: ReceiverInfo, pion: Pion): Attached
  {
    match pion.newDownTrack(info)
    case None => Attached(st, Failure(DownTrackCreationFailed), [])
    case Some(h) =>
      var dt := NewDownTrack(info, h);
      if !pion.addTransceiver(dt) then Attached(st, Failure(TransceiverFailed), [])
      else
        var sid := info.track.streamId;
        Attached(
          st.(transceivers := st.transceivers + [dt],
              downTracks := st.downTracks[sid := Lookup(st.downTracks, sid) + [dt]]),
          Success(dt),
          [AddDownTrackCall(info.rid, dt)])
  }

  /** A Subscriber holds at most one DownTrack per (stream, track). */
  ghost predicate OnePerTrack(m: map<string, seq<DownTrack>>)
  {
    forall s :: s in m ==> DistinctIds(m[s])
  }

  ghost predicate DistinctIds(dts: seq<DownTrack>)
  {
    forall i, j :: 0 <= i < j < |dts| ==> dts[i].id != dts[j].id
  }

  /** Subscriber state only grows: no stream loses a DownTrack. */
  ghost predicate Grows(a: SubState, b: SubState)
  {
    forall s :: s in a.downTracks ==> s in b.downTracks && a.downTracks[s] <= b.downTracks[s]
  }

  /** AddDownTrack returns the DownTrack already held for (stream, track)
      and changes nothing; otherwise a failure of codec registration,
      DownTrack creation or transceiver attachment gives neither the
      Subscriber nor the Receiver a DownTrack (a codec registered before the
      failure stays registered); and success registers the new DownTrack,
      with the Receiver's ids, with both. */
  lemma AttachOutcomes(st: SubState, info: ReceiverInfo, pion: Pion)
    ensures var a := Attach(st, info, pion);
      && (Existing(st, info).Some? ==> a == Attached(st, Success(Existing(st, info).value), []))
      && (a.result.Failure? ==>
            a.st.downTracks == st.downTracks && a.st.transceivers == st.transceivers && a.calls == [])
      && (a.result.Failure? && a.result.error == CodecRegistrationFailed ==> a.st == st)
      && (Existing(st, info).None? && a.result.Success? ==>
            var dt := a.result.value;
            && dt.id == info.track.id && dt.streamId == info.track.streamId
            && a.st.downTracks == st.downTracks[info.track.streamId := Lookup(st.downTracks, info.track.streamId) + [dt]]
            && a.st.transceivers == st.transceivers + [dt]
            && a.calls == [AddDownTrackCall(info.rid, dt)])
  {
  }

  lemma AttachGrows(st: SubState, info: ReceiverInfo, pion: Pion)
    ensures Grows(st, Attach(st, info, pion).st)
  {
  }

  /** Attaching never gives a Subscriber a second DownTrack for the same
      (stream, track). */
  lemma AttachKeepsOnePerTrack(st: SubState, info: ReceiverInfo, pion: Pion)
    requires OnePerTrack(st.downTracks)
    ensures OnePerTrack(Attach(st, info, pion).st.downTracks)
  {
    var a := Attach(st, info, pion);
    if Existing(st, info).None? && a.result.Success? {
      var sid, dt := info.track.streamId, a.result.value;
      var old_ := Lookup(st.downTracks, sid);
      assert FindIndex(old_, info.track.id) == |old_|;
      AppendKeepsDistinct(old_, dt);
    }
  }

  lemma AppendKeepsDistinct(dts: seq<DownTrack>, dt: DownTrack)
    requires DistinctIds(dts)
    requires forall j :: 0 <= j < |dts| ==> dts[j].id != dt.id
    ensures DistinctIds(dts + [dt])
  {
    var r := dts + [dt];
    forall i, j | 0 <= i < j < |r| ensures r[i].id != r[j].id {
      assert r[i] == dts[i];
    }
  }

  /** After a successful AddDownTrack, the Subscriber holds the returned
      DownTrack for the Receiver's (stream, track), so a second call returns
      it again, changes nothing and calls no pion oracle that could fail. */
  lemma AttachIdempotent(st: SubState, info: ReceiverInfo, pion: Pion, pion2: Pion)
    requires Attach(st, info, pion).result.Success?
    ensures var a := Attach(st, info, pion);
      && Existing(a.st, info) == Some(a.result.value)
      && Attach(a.st, info, pion2) == Attached(a.st, a.result, [])
  {
    var a := Attach(st, info, pion);
    if Existing(st, info).None? {
      var sid := info.track.streamId;
      var old_ := Lookup(st.downTracks, sid);
      var dts := Lookup(a.st.downTracks, sid);
      assert dts == old_ + [a.result.value];
      FindIndexIs(dts, info.track.id, |old_|);
    }
  }

  /** AddDownTrack over Receivers in order, stopping at the first error. */
  function AttachAll(st: SubState, infos: seq<ReceiverInfo>, pion: Pion): Batch
    decreases |infos|
  {
    if infos == [] then Batch(st, None, [])
    else
      var a := Attach(st, infos[0], pion);
      if a.result.Failure? then Batch(a.st, Some(a.result.error), a.calls)
      else
        var rest := AttachAll(a.st, infos[1..], pion);
        Batch(rest.st, rest.err, a.calls + rest.calls)
  }

  /** AttachAll from `st` over `rest`, after calls `done`, ends in `goal`. */
  ghost predicate Resumes(goal: Batch, st: SubState, rest: seq<ReceiverInfo>, pion: Pion, done: seq<ReceiverCall>)
  {
    var r := AttachAll(st, rest, pion);
    goal == Batch(r.st, r.err, done + r.calls)
  }

  /** Where the loop over the registered Receivers stands after `i` of
      them: still going and resuming `goal`, or stopped at `goal`. */
  ghost predicate Progress(goal: Batch, st: SubState, infos: seq<ReceiverInfo>, i: nat, pion: Pion,
                           done: seq<ReceiverCall>, err: Option<RouterError>)
  {
    i <= |infos|
    && (err.None? ==> Resumes(goal, st, infos[i..], pion, done))
    && (err.Some? ==> goal == Batch(st, err, done))
  }

  lemma ProgressStep(goal: Batch, st: SubState, infos: seq<ReceiverInfo>, i: nat, pion: Pion,
                     done: seq<ReceiverCall>)
    requires i < |infos| && Progress(goal, st, infos, i, pion, done, None)
    ensures var a := Attach(st, infos[i], pion);
      Progress(goal, a.st, infos, i + 1, pion, done + a.calls,
               if a.result.Failure? then Some(a.result.error) else None)
  {
    AttachAllStep(goal, st, infos, i, pion, done);
  }

  lemma ProgressDone(goal: Batch, st: SubState, infos: seq<ReceiverInfo>, i: nat, pion: Pion,
                     done: seq<ReceiverCall>, err: Option<RouterError>)
    requires Progress(goal, st, infos, i, pion, done, err)
    requires i == |infos| || err.Some?
    ensures goal == Batch(st, err, done)
  {
    if err.None? {
      assert infos[i..] == [] && done + [] == done;
    }
  }

  /** One step of the loop over the registered Receivers. */
  lemma AttachAllStep(goal: Batch, st: SubState, infos: seq<ReceiverInfo>, i: nat, pion: Pion, done: seq<ReceiverCall>)
    requires i < |infos| && Resumes(goal, st, infos[i..], pion, done)
    ensures var a := Attach(st, infos[i], pion);
      if a.result.Failure? then goal == Batch(a.st, Some(a.result.error), done + a.calls)
      else Resumes(goal, a.st, infos[i + 1..], pion, done + a.calls)
  {
    assert infos[i..][0] == infos[i] && infos[i..][1..] == infos[i + 1..];
    var a := Attach(st, infos[i], pion);
    if a.result.Success? {
      var r := AttachAll(a.st, infos[i + 1..], pion);
      assert done + (a.calls + r.calls) == (done + a.calls) + r.calls;
    }
  }

  /** The first error aborts: AttachAll over `a + b` is AttachAll over `a`
      when that fails, and otherwise continues from its state over `b`. */
  ghost predicate SplitsAt(st: SubState, a: seq<ReceiverInfo>, b: seq<ReceiverInfo>, pion: Pion)
  {
    var ra := AttachAll(st, a, pion);
    AttachAll(st, a + b, pion) ==
      if ra.err.Some? then ra
      else var rb := AttachAll(ra.st, b, pion); Batch(rb.st, rb.err, ra.calls + rb.calls)
  }

  lemma {:induction false} AttachAllSplits(st: SubState, a: seq<ReceiverInfo>, b: seq<ReceiverInfo>, pion: Pion)
    decreases |a|
    ensures SplitsAt(st, a, b, pion)
  {
    if a == [] {
      assert a + b == b;
      var rb := AttachAll(st, b, pion);
      assert [] + rb.calls == rb.calls;
    } else {
      var h := Attach(st, a[0], pion);
      if h.result.Success? {
        AttachAllSplits(h.st, a[1..], b, pion);
      }
      SplitsCons(st, a, b, pion);
    }
  }

  lemma SplitsCons(st: SubState, a: seq<ReceiverInfo>, b: seq<ReceiverInfo>, pion: Pion)
    requires a != []
    requires Attach(st, a[0], pion).result.Success? ==> SplitsAt(Attach(st, a[0], pion).st, a[1..], b, pion)
    ensures SplitsAt(st, a, b, pion)
  {
    assert (a + b)[0] == a[0] && (a + b)[1..] == a[1..] + b;
    var h := Attach(st, a[0], pion);
    if h.result.Success? {
      var ra' := AttachAll(h.st, a[1..], pion);
      var rest := AttachAll(h.st, a[1..] + b, pion);
      assert AttachAll(st, a + b, pion) == Batch(rest.st, rest.err, h.calls + rest.calls);
      if ra'.err.None? {
        var rb := AttachAll(ra'.st, b, pion);
        assert h.calls + (ra'.calls + rb.calls) == (h.calls + ra'.calls) + rb.calls;
      }
    }
  }

  lemma {:induction false} AttachAllGrows(st: SubState, infos: seq<ReceiverInfo>, pion: Pion)
    decreases |infos|
    ensures Grows(st, AttachAll(st, infos, pion).st)
    ensures OnePerTrack(st.downTracks) ==> OnePerTrack(AttachAll(st, infos, pion).st.downTracks)
  {
    if infos != [] {
      var a := Attach(st, infos[0], pion);
      AttachGrows(st, infos[0], pion);
      if OnePerTrack(st.downTracks) {
        AttachKeepsOnePerTrack(st, infos[0], pion);
      }
      if a.result.Success? {
        AttachAllGrows(a.st, infos[1..], pion);
      }
    }
  }

  /** When no attach fails, the Subscriber ends up holding a DownTrack for
      every Receiver it was attached to. */
  lemma {:induction false} AttachAllSubscribesEvery(st: SubState, infos: seq<ReceiverInfo>, pion: Pion)
    decreases |infos|
    requires AttachAll(st, infos, pion).err.None?
    ensures forall info :: info in infos ==> Existing(AttachAll(st, infos, pion).st, info).Some?
  {
    if infos != [] {
      var a := Attach(st, infos[0], pion);
      var rest := AttachAll(a.st, infos[1..], pion);
      AttachAllSubscribesEvery(a.st, infos[1..], pion);
      AttachIdempotent(st, infos[0], pion, pion);
      AttachAllGrows(a.st, infos[1..], pion);
      HeldStaysHeld(a.st, rest.st, infos[0]);
    }
  }

  lemma HeldStaysHeld(a: SubState, b: SubState, info: ReceiverInfo)
    requires Grows(a, b) && Existing(a, info).Some?
    ensures Existing(b, info).Some?
  {
    var sid := info.track.streamId;
    var da, db := Lookup(a.downTracks, sid), Lookup(b.downTracks, sid);
    var k := FindIndex(da, info.track.id);
    assert db[k] == da[k];
    assert FindIndex(db, info.track.id) <= k;
  }

  /** `order` lists every key of `receivers` exactly once (Go's map
      iteration order, which is unspecified). */
  predicate IsKeyOrder(order: seq<string>, receivers: map<string, ReceiverInfo>)
  {
    && (forall i :: 0 <= i < |order| ==> order[i] in receivers)
    && (forall k :: k in receivers ==> k in order)
    && (forall i, j :: 0 <= i < j < |order| ==> order[i] != order[j])
  }

  function InOrder(receivers: map<string, ReceiverInfo>, order: seq<string>): (r: seq<ReceiverInfo>)
    requires forall i :: 0 <= i < |order| ==> order[i] in receivers
    ensures |r| == |order| && forall i :: 0 <= i < |order| ==> r[i] == receivers[order[i]]
  {
    seq(|order|, i requires 0 <= i < |order| => receivers[order[i]])
  }

  /** Visiting the registry in any key order attaches every registered
      Receiver when no attach fails. */
  lemma KeyOrderVisitsAll(receivers: map<string, ReceiverInfo>, order: seq<string>)
    requires IsKeyOrder(order, receivers)
    ensures forall k :: k in receivers ==> receivers[k] in InOrder(receivers, order)
    ensures |receivers| > 0 <==> order != []
  {
    var infos := InOrder(receivers, order);
    forall k | k in receivers ensures receivers[k] in infos {
      var i :| 0 <= i < |order| && order[i] == k;
      assert infos[i] == receivers[k];
    }
    if order != [] {
      assert order[0] in receivers;
    }
    if |receivers| > 0 {
      var k :| k in receivers;
      assert k in order;
    }
  }

  // ---------------------------------------------------------------------
  // The RTCP queue
  // ---------------------------------------------------------------------

  function Batches(ws: seq<RtcpWrite>): (r: seq<RtcpBatch>)
  {
    if ws == [] then [] else Batches(ws[..|ws| - 1]) + [ws[|ws| - 1].batch]
  }

  /** What the writer is handed when the pump drains `q`. */
  function WriteAll(q: seq<RtcpBatch>, writeOk: RtcpBatch -> bool): seq<RtcpWrite>
  {
    if q == [] then [] else WriteAll(q[..|q| - 1], writeOk) + [RtcpWrite(q[|q| - 1], writeOk(q[|q| - 1]))]
  }

  lemma WriteAllStep(q: seq<RtcpBatch>, i: nat, writeOk: RtcpBatch -> bool)
    requires i < |q|
    ensures WriteAll(q[..i + 1], writeOk) == WriteAll(q[..i], writeOk) + [RtcpWrite(q[i], writeOk(q[i]))]
  {
    assert q[..i + 1][..i] == q[..i];
  }

  /** A failed write is logged and the pump goes on: every drained batch
      reaches the writer, in queue order. */
  lemma {:induction false} WriteAllDeliversAll(q: seq<RtcpBatch>, writeOk: RtcpBatch -> bool)
    ensures Batches(WriteAll(q, writeOk)) == q
  {
    if q != [] {
      WriteAllDeliversAll(q[..|q| - 1], writeOk);
    }
  }

  lemma {:induction false} BatchesSplit(a: seq<RtcpWrite>, b: seq<RtcpWrite>)
    ensures Batches(a + b) == Batches(a) + Batches(b)
  {
    if b == [] {
      assert a + b == a;
    } else {
      BatchesSplit(a, b[..|b| - 1]);
      assert (a + b)[..|a + b| - 1] == a + b[..|b| - 1];
    }
  }

  // ---------------------------------------------------------------------
  // Subscriber and router
  // ---------------------------------------------------------------------

  class Subscriber {
    const id: string
    const noAutoSubscribe: bool
    var downTracks: map<string, seq<DownTrack>>
    var codecs: seq<(CodecParameters, Kind)>
    var transceivers: seq<DownTrack>
    var negotiations: nat

    ghost predicate Valid()
      reads this
    {
      OnePerTrack(downTracks)
    }

    function State(): SubState
      reads this
    {
      SubState(downTracks, codecs, transceivers)
    }

    constructor (subscriberId: string, noAuto: bool)
      ensures Valid() && id == subscriberId && noAutoSubscribe == noAuto
      ensures downTracks == map[] && codecs == [] && transceivers == [] && negotiations == 0
    {
      id, noAutoSubscribe := subscriberId, noAuto;
      downTracks, codecs, transceivers, negotiations := map[], [], [], 0;
    }
  }

  class Router {
    const id: string
    var receivers: map<string, ReceiverInfo>
    var nextReceiver: nat
    var audioEvents: seq<AudioEvent>
    var receiverCalls: seq<ReceiverCall>

    var rtcpQueue: seq<RtcpBatch>
    /** Every batch ever sent on rtcpCh, oldest first. */
    ghost var enqueued: seq<RtcpBatch>
    var written: seq<RtcpWrite>
    var hasWriter: bool
    /** sendRTCP loops running. */
    var pumps: nat

    ghost predicate Valid()
      reads this
    {
      && RegistryValid(Registry(receivers, nextReceiver))
      && |rtcpQueue| <= RtcpQueueCapacity
      && Batches(written) + rtcpQueue == enqueued
      && (pumps > 0 ==> hasWriter)
    }

    /** newRouter. */
    constructor (routerId: string)
      ensures Valid() && id == routerId
      ensures receivers == map[] && nextReceiver == 0 && audioEvents == [] && receiverCalls == []
      ensures rtcpQueue == [] && written == [] && !hasWriter && pumps == 0
    {
      id := routerId;
      receivers, nextReceiver, audioEvents, receiverCalls := map[], 0, [], [];
      rtcpQueue, enqueued, written, hasWriter, pumps := [], [], [], false, 0;
    }

    /** Registers the track's Receiver under `trackID` (creating it on the
        first call, which is the publish), tells the audio observer about
        `streamID` for an audio track, and binds the track and its buffer
        to the Receiver. */
    method AddReceiver(track: RemoteTrack, trackID: string, streamID: string, buff: Receiver.BufferId)
      returns (info: ReceiverInfo, publish: bool)
      requires Valid()
      modifies this`receivers, this`nextReceiver, this`audioEvents, this`receiverCalls
      ensures Valid()
      ensures (Registry(receivers, nextReceiver), info, publish)
           == Register(Registry(old(receivers), old(nextReceiver)), trackID, track)
      ensures audioEvents == old(audioEvents) + (if track.kind == Audio then [AddStream(streamID)] else [])
      ensures receiverCalls == old(receiverCalls)
        + (if publish then [SetRtcpChCall(info.rid), OnCloseHandlerCall(info.rid)] else [])
        + [AddUpTrackCall(info.rid, track, buff)]
    {
      RegisterIdempotent(Registry(receivers, nextReceiver), trackID, track, track);
      publish := false;
      if track.kind == Audio {
        audioEvents := audioEvents + [AddStream(streamID)];
      }
      if trackID in receivers {
        info := receivers[trackID];
      } else {
        info := ReceiverInfo(nextReceiver, trackID, track);
        receivers := receivers[trackID := info];
        nextReceiver := nextReceiver + 1;
        receiverCalls := receiverCalls + [SetRtcpChCall(info.rid), OnCloseHandlerCall(info.rid)];
        publish := true;
      }
      receiverCalls := receiverCalls + [AddUpTrackCall(info.rid, track, buff)];
    }

    /** The close handler AddReceiver installs on a Receiver it created: for
        an audio track the observer drops the track's own stream id, and the
        registry drops the key the Receiver was registered under. */
    method ReceiverClosed(info: ReceiverInfo)
      requires Valid()
      modifies this`receivers, this`audioEvents
      ensures Valid()
      ensures audioEvents == old(audioEvents) +
        (if info.track.kind == Audio then [RemoveStream(info.track.streamId)] else [])
      ensures receivers == old(receivers) - {info.key}
    {
      if info.track.kind == Audio {
        audioEvents := audioEvents + [RemoveStream(info.track.streamId)];
      }
      DeleteReceiver(info.key);
    }

    method DeleteReceiver(key: string)
      requires Valid()
      modifies this`receivers
      ensures Valid() && receivers == old(receivers) - {key}
    {
      receivers := receivers - {key};
    }

    /** AddDownTrack for one Receiver. */
    method AddDownTrack(sub: Subscriber, info: ReceiverInfo, pion: Pion) returns (r: Result<DownTrack, RouterError>)
      requires sub.Valid()
      modifies sub`downTracks, sub`codecs, sub`transceivers, this`receiverCalls
      ensures sub.Valid()
      ensures var a := Attach(old(sub.State()), info, pion);
        sub.State() == a.st && r == a.result && receiverCalls == old(receiverCalls) + a.calls
    {
      AttachKeepsOnePerTrack(sub.State(), info, pion);
      var sid := info.track.streamId;
      var dts := Lookup(sub.downTracks, sid);
      for i := 0 to |dts|
        invariant forall j :: 0 <= j < i ==> dts[j].id != info.track.id
      {
        if dts[i].id == info.track.id {
          FindIndexIs(dts, info.track.id, i);
          return Success(dts[i]);
        }
      }
      FindIndexIs(dts, info.track.id, |dts|);
      var codec := info.track.codec;
      if !pion.registerCodec(codec, info.track.kind) {
        return Failure(CodecRegistrationFailed);
      }
      sub.codecs := sub.codecs + [(codec, info.track.kind)];
      var handle := pion.newDownTrack(info);
      if handle.None? {
        return Failure(DownTrackCreationFailed);
      }
      var dt := NewDownTrack(info, handle.value);
      if !pion.addTransceiver(dt) {
        return Failure(TransceiverFailed);
      }
      sub.transceivers := sub.transceivers + [dt];
      sub.downTracks := sub.downTracks[sid := Lookup(sub.downTracks, sid) + [dt]];
      receiverCalls := receiverCalls + [AddDownTrackCall(info.rid, dt)];
      return Success(dt);
    }

    /** AddDownTracks: nothing for a Subscriber that turned automatic
        subscription off; for one Receiver, attach it and renegotiate on
        success; with no Receiver given, attach every registered Receiver in
        map order, stop at the first error, and renegotiate once if the
        registry was not empty and nothing failed. */
    method AddDownTracks(sub: Subscriber, recv: Option<ReceiverInfo>, order: seq<string>, pion: Pion)
      returns (err: Option<RouterError>)
      requires Valid() && sub.Valid()
      requires recv.None? ==> IsKeyOrder(order, receivers)
      modifies sub`downTracks, sub`codecs, sub`transceivers, sub`negotiations, this`receiverCalls
      ensures Valid() && sub.Valid()
      ensures sub.noAutoSubscribe ==>
        && err == None && sub.State() == old(sub.State())
        && sub.negotiations == old(sub.negotiations) && receiverCalls == old(receiverCalls)
      ensures !sub.noAutoSubscribe && recv.Some? ==>
        var a := Attach(old(sub.State()), recv.value, pion);
        && sub.State() == a.st && receiverCalls == old(receiverCalls) + a.calls
        && err == (if a.result.Failure? then Some(a.result.error) else None)
        && sub.negotiations == old(sub.negotiations) + (if a.result.Success? then 1 else 0)
      ensures !sub.noAutoSubscribe && recv.None? ==>
        var b := AttachAll(old(sub.State()), InOrder(receivers, order), pion);
        && sub.State() == b.st && receiverCalls == old(receiverCalls) + b.calls && err == b.err
        && sub.negotiations == old(sub.negotiations) + (if |receivers| > 0 && b.err.None? then 1 else 0)
    {
      if sub.noAutoSubscribe {
        return None;
      }
      if recv.Some? {
        var r := AddDownTrack(sub, recv.value, pion);
        if r.Failure? {
          return Some(r.error);
        }
        sub.negotiations := sub.negotiations + 1;
        return None;
      }
      KeyOrderVisitsAll(receivers, order);
      if |receivers| > 0 {
        err := AddEachDownTrack(sub, InOrder(receivers, order), pion);
        if err.Some? {
          return err;
        }
        sub.negotiations := sub.negotiations + 1;
      }
      return None;
    }

    /** The loop of AddDownTracks over the registered Receivers. */
    method AddEachDownTrack(sub: Subscriber, infos: seq<ReceiverInfo>, pion: Pion) returns (err: Option<RouterError>)
      requires sub.Valid()
      modifies sub`downTracks, sub`codecs, sub`transceivers, this`receiverCalls
      ensures sub.Valid()
      ensures var b := AttachAll(old(sub.State()), infos, pion);
        sub.State() == b.st && receiverCalls == old(receiverCalls) + b.calls && err == b.err
    {
      ghost var done: seq<ReceiverCall> := [];
      ghost var goal := AttachAll(old(sub.State()), infos, pion);
      assert infos[0..] == infos && done + goal.calls == goal.calls;
      err := None;
      var i := 0;
      while i < |infos| && err.None?
        invariant i <= |infos|
        invariant sub.Valid()
        invariant receiverCalls == old(receiverCalls) + done
        invariant Progress(goal, sub.State(), infos, i, pion, done, err)
        decreases |infos| - i
      {
        var r;
        r, done := AttachNext(sub, infos, i, pion, goal, old(receiverCalls), done);
        if r.Failure? {
          err := Some(r.error);
        }
        i := i + 1;
      }
      ProgressDone(goal, sub.State(), infos, i, pion, done, err);
    }

    /** One iteration of AddDownTracks' loop: AddDownTrack for the i-th
        Receiver in map order. */
    method AttachNext(sub: Subscriber, infos: seq<ReceiverInfo>, i: nat, pion: Pion,
                      ghost goal: Batch, ghost base: seq<ReceiverCall>, ghost done: seq<ReceiverCall>)
      returns (r: Result<DownTrack, RouterError>, ghost next: seq<ReceiverCall>)
      requires sub.Valid() && i < |infos| && Progress(goal, sub.State(), infos, i, pion, done, None)
      requires receiverCalls == base + done
      modifies sub`downTracks, sub`codecs, sub`transceivers, this`receiverCalls
      ensures sub.Valid()
      ensures receiverCalls == base + next
      ensures Progress(goal, sub.State(), infos, i + 1, pion, next, if r.Failure? then Some(r.error) else None)
    {
      ghost var a := Attach(sub.State(), infos[i], pion);
      ProgressStep(goal, sub.State(), infos, i, pion, done);
      r := AddDownTrack(sub, infos[i], pion);
      next := done + a.calls;
      assert (base + done) + a.calls == base + next;
    }

    /** The close handler AddDownTrack installs on a DownTrack: unless the
        peer connection is closed, remove the track's sender; when that
        succeeds the Subscriber drops the DownTrack and renegotiates. */
    method DownTrackClosed(sub: Subscriber, streamId: string, dt: DownTrack, pcClosed: bool, removeOk: bool)
      requires sub.Valid()
      modifies sub`downTracks, sub`negotiations
      ensures sub.Valid()
      ensures !pcClosed && removeOk ==>
        && sub.downTracks == old(sub.downTracks)[streamId := Drop(Lookup(old(sub.downTracks), streamId), dt)]
        && sub.negotiations == old(sub.negotiations) + 1
      ensures pcClosed || !removeOk ==>
        sub.downTracks == old(sub.downTracks) && sub.negotiations == old(sub.negotiations)
    {
      if pcClosed || !removeOk {
        return;
      }
      var kept := Lookup(sub.downTracks, streamId);
      DropKeepsOnePerTrack(sub.downTracks, streamId, dt);
      sub.downTracks := sub.downTracks[streamId := Drop(kept, dt)];
      sub.negotiations := sub.negotiations + 1;
    }

    /** A batch sent on rtcpCh (by a buffer's feedback callback or a
        Receiver's SendRTCP). A full queue makes the sender wait: the batch
        is not sent yet and nothing changes. */
    method EnqueueRTCP(p: RtcpBatch) returns (sent: bool)
      requires Valid()
      modifies this`rtcpQueue, this`enqueued
      ensures Valid()
      ensures sent <==> |old(rtcpQueue)| < RtcpQueueCapacity
      ensures sent ==> rtcpQueue == old(rtcpQueue) + [p] && enqueued == old(enqueued) + [p]
      ensures !sent ==> rtcpQueue == old(rtcpQueue) && enqueued == old(enqueued)
    {
      if |rtcpQueue| >= RtcpQueueCapacity {
        return false;
      }
      rtcpQueue := rtcpQueue + [p];
      enqueued := enqueued + [p];
      return true;
    }

    /** SetRTCPWriter: install the writer and start a sendRTCP loop. */
    method SetRTCPWriter()
      requires Valid()
      modifies this`hasWriter, this`pumps
      ensures Valid() && hasWriter && pumps == old(pumps) + 1
    {
      hasWriter := true;
      pumps := pumps + 1;
    }

    /** `n` turns of a sendRTCP loop: each takes the oldest queued batch and
        hands it to the writer, whose error is only logged. */
    method Pump(n: nat, writeOk: RtcpBatch -> bool)
      requires Valid() && pumps > 0 && n <= |rtcpQueue|
      modifies this`rtcpQueue, this`written
      ensures Valid()
      ensures written == old(written) + WriteAll(old(rtcpQueue)[..n], writeOk)
      ensures rtcpQueue == old(rtcpQueue)[n..]
    {
      ghost var q0, w0 := rtcpQueue, written;
      var queue, out := rtcpQueue, written;
      for i := 0 to n
        invariant queue == q0[i..]
        invariant out == w0 + WriteAll(q0[..i], writeOk)
      {
        var p := queue[0];
        WriteAllStep(q0, i, writeOk);
        out := out + [RtcpWrite(p, writeOk(p))];
        queue := queue[1..];
      }
      rtcpQueue, written := queue, out;
      BatchesSplit(w0, WriteAll(q0[..n], writeOk));
      WriteAllDeliversAll(q0[..n], writeOk);
      assert q0[..n] + q0[n..] == q0;
      assert Batches(written) + rtcpQueue == Batches(w0) + q0[..n] + q0[n..];
    }

    /** Stop: the stop signal is taken by a running sendRTCP loop, which may
        first drain `n` batches that are already queued, and then ends. */
    method Stop(n: nat, writeOk: RtcpBatch -> bool)
      requires Valid() && pumps > 0 && n <= |rtcpQueue|
      modifies this`rtcpQueue, this`written, this`pumps
      ensures Valid() && pumps == old(pumps) - 1
      ensures written == old(written) + WriteAll(old(rtcpQueue)[..n], writeOk)
      ensures rtcpQueue == old(rtcpQueue)[n..]
    {
      Pump(n, writeOk);
      pumps := pumps - 1;
    }
  }

  /** Subscriber.RemoveDownTrack: drop that very DownTrack from a stream. */
  function Drop(dts: seq<DownTrack>, dt: DownTrack): seq<DownTrack>
  {
    if dts == [] then []
    else if dts[|dts| - 1].handle == dt.handle then Drop(dts[..|dts| - 1], dt)
    else Drop(dts[..|dts| - 1], dt) + [dts[|dts| - 1]]
  }

  /** Dropping keeps exactly the other DownTracks, in order. */
  lemma {:induction false} DropMembers(dts: seq<DownTrack>, dt: DownTrack)
    ensures forall x :: x in Drop(dts, dt) <==> x in dts && x.handle != dt.handle
    ensures forall i, j :: 0 <= i < j < |Drop(dts, dt)| ==>
              exists i', j' :: 0 <= i' < j' < |dts| && dts[i'] == Drop(dts, dt)[i] && dts[j'] == Drop(dts, dt)[j]
  {
    if dts != [] {
      var init := dts[..|dts| - 1];
      DropMembers(init, dt);
      assert dts == init + [dts[|dts| - 1]];
      var r := Drop(dts, dt);
      var ri := Drop(init, dt);
      forall i, j | 0 <= i < j < |r|
        ensures exists i', j' :: 0 <= i' < j' < |dts| && dts[i'] == r[i] && dts[j'] == r[j]
      {
        if j < |ri| {
          var i', j' :| 0 <= i' < j' < |init| && init[i'] == ri[i] && init[j'] == ri[j];
          assert dts[i'] == r[i] && dts[j'] == r[j];
        } else {
          assert r[i] in init;
          var i' :| 0 <= i' < |init| && init[i'] == r[i];
          assert dts[i'] == r[i] && dts[|dts| - 1] == r[j];
        }
      }
    }
  }

  lemma DropKeepsOnePerTrack(m: map<string, seq<DownTrack>>, s: string, dt: DownTrack)
    requires OnePerTrack(m)
    ensures OnePerTrack(m[s := Drop(Lookup(m, s), dt)])
  {
    var dts := Lookup(m, s);
    DropMembers(dts, dt);
    var r := Drop(dts, dt);
    forall i, j | 0 <= i < j < |r| ensures r[i].id != r[j].id {
      var i', j' :| 0 <= i' < j' < |dts| && dts[i'] == r[i] && dts[j'] == r[j];
    }
  }
}
