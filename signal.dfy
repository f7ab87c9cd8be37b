/** The websocket signaling of one connection: a read loop that dispatches
    each text frame on its event name (RFC 3264 offer/answer plus trickled
    ICE candidates), a guard that closes the outbound queue once, and a
    writer that drains that queue onto the socket. Frames arrive already
    decoded; the peer connection, the JSON payload decoders and the
    application handlers are oracles. */
module Signal {
  import opened Media
  import opened Wrappers

  const MessageTypeAnswer := "answer"
  const MessageTypeCandidate := "candidate"
  const MessageTypeOffer := "offer"
  const MessageTypeJoin := "join"

  /** What json.Unmarshal reports for an absent (nil) payload. */
  const EndOfInput := "unexpected end of JSON input"

  /** webrtc.ICECandidateInit. */
  datatype Candidate = Candidate(candidate: string, sdpMid: Option<string>, sdpMLineIndex: Option<uint16>)

  datatype SdpType = Offer | Pranswer | Answer | Rollback

  /** webrtc.SessionDescription. */
  datatype SessionDescription = SessionDescription(sdpType: SdpType, sdp: string)

  /** A JSON object as json.Marshal lays it out: its fields, in order, each
      with a string value. */
  datatype Json = Object(fields: seq<(string, string)>)

  /** One frame as ReadMessage and the envelope decoder deliver it. A text
      frame carries the envelope fields present in it. `event` is `None`
      when it is absent or null (decoding null into a string leaves it
      unchanged); `data` is `None` only when it is absent, since a raw
      message keeps a null as the text `Some("null")`. Null is a frame that
      is the JSON literal null as a whole. */
  datatype Frame =
    | ReadFailed
    | CloseMessage
    | Unparsable
    | Null
    | Text(event: Option<string>, data: Option<string>)

  /** Calls made on the peer connection. */
  datatype PcCall =
    | AddIceCandidate(c: Candidate)
    | SetRemoteDescription(d: SessionDescription)
    | CreateAnswer
    | SetLocalDescription(d: SessionDescription)

  /** Calls made on the application's handlers. */
  datatype HandlerCall =
    | Trickle(c: Candidate)
    | SetRemoteSdp(d: SessionDescription)
    | Negotiate(d: SessionDescription)

  /** The oracles: payload decoders (an error carries its message), peer
      connection calls (`Some(e)` is a failure with message `e`), the local
      description the peer connection reports once an answer is set (`None`
      is a nil description), and which of OnTrickle, OnSetRemoteSDP and
      OnNegotiate are set. */
  datatype Peer = Peer(
    parseCandidate: string -> Result<Candidate, string>,
    parseDescription: string -> Result<SessionDescription, string>,
    addIceCandidate: Candidate -> Option<string>,
    setRemoteDescription: SessionDescription -> Option<string>,
    createAnswer: SessionDescription -> Result<SessionDescription, string>,
    setLocalDescription: SessionDescription -> Option<string>,
    localDescription: SessionDescription -> Option<SessionDescription>,
    onTrickle: bool,
    onSetRemoteSdp: bool,
    onNegotiate: bool)

  /** What the socket writer puts on the wire. */
  datatype WireFrame = TextFrame(message: Json) | CloseFrame

  /** The read loop's state: the reused envelope (event, data), the messages
      sent on Send, the calls made, whether Send is closed and how often
      close ran, whether a panic happened, and whether the loop ended. */
  datatype LoopState = LoopState(
    event: string,
    data: Option<string>,
    outbox: seq<Json>,
    pcCalls: seq<PcCall>,
    handlerCalls: seq<HandlerCall>,
    sendClosed: bool,
    closeCount: nat,
    panicked: bool,
    stopped: bool)

  const Initial := LoopState("", None, [], [], [], false, 0, false, false)

  // ---------------------------------------------------------------------
  // Outbound messages
  // ---------------------------------------------------------------------

  function WarningObject(text: string): Json { Object([("warning", text)]) }
  function ErrorObject(text: string): Json { Object([("error", text)]) }
  function StatusObject(text: string): Json { Object([("status", text)]) }

  function TypeName(t: SdpType): string
  {
    match t
    case Offer => "offer"
    case Pranswer => "pranswer"
    case Answer => "answer"
    case Rollback => "rollback"
  }

  /** A SessionDescription marshalled as is: `type` and `sdp`, no event envelope. */
  function DescriptionObject(d: SessionDescription): Json
  {
    Object([("type", TypeName(d.sdpType)), ("sdp", d.sdp)])
  }

  function UnknownCommandWarning(event: string): string
  {
    "Received unknown command '" + event + "'. Ignored."
  }

  // ---------------------------------------------------------------------
  // The read loop as functions of its state
  // ---------------------------------------------------------------------

  /** Sending on Send: on a closed channel this panics, which ends the loop. */
  function AfterSend(s: LoopState, m: Json): LoopState
  {
    if s.sendClosed then s.(panicked := true, stopped := true) else s.(outbox := s.outbox + [m])
  }

  /** Close: the once guard closes Send the first time only. */
  function AfterClose(s: LoopState): LoopState
  {
    if s.closeCount > 0 then s else s.(sendClosed := true, closeCount := s.closeCount + 1)
  }

  function Stop(s: LoopState): LoopState
  {
    s.(stopped := true)
  }

  function Decode<T>(parse: string -> Result<T, string>, data: Option<string>): Result<T, string>
  {
    if data.None? then Failure(EndOfInput) else parse(data.value)
  }

  /** takeOffer: set the remote offer, create an answer, set it as the local
      description; the calls made and the answer or the first error. */
  function OfferExchange(offer: SessionDescription, peer: Peer): (seq<PcCall>, Result<SessionDescription, string>)
  {
    var remote := peer.setRemoteDescription(offer);
    if remote.Some? then ([SetRemoteDescription(offer)], Failure(remote.value))
    else
      var answer := peer.createAnswer(offer);
      if answer.Failure? then ([SetRemoteDescription(offer), CreateAnswer], Failure(answer.error))
      else
        var local := peer.setLocalDescription(answer.value);
        var calls := [SetRemoteDescription(offer), CreateAnswer, SetLocalDescription(answer.value)];
        if local.Some? then (calls, Failure(local.value)) else (calls, Success(answer.value))
  }

  /** The switch on the envelope's event. `join` falls through to the
      default case. */
  function AfterDispatch(s: LoopState, peer: Peer): LoopState
  {
    if s.event == MessageTypeCandidate then
      match Decode(peer.parseCandidate, s.data)
      case Failure(e) => Stop(AfterSend(s, WarningObject("could not unmarshal candidate msg: " + e)))
      case Success(c) =>
        if peer.onTrickle then Stop(s.(handlerCalls := s.handlerCalls + [Trickle(c)]))
        else
          var s1 := s.(pcCalls := s.pcCalls + [AddIceCandidate(c)]);
          match peer.addIceCandidate(c)
          case Some(e) => Stop(AfterSend(s1, WarningObject("Error taking candidate: " + e)))
          case None => s1
    else if s.event == MessageTypeAnswer then
      match Decode(peer.parseDescription, s.data)
      case Failure(_) => Stop(s)
      case Success(a) =>
        if peer.onSetRemoteSdp then Stop(s.(handlerCalls := s.handlerCalls + [SetRemoteSdp(a)]))
        else
          var s1 := s.(pcCalls := s.pcCalls + [SetRemoteDescription(a)]);
          if peer.setRemoteDescription(a).Some? then Stop(s1) else s1
    else if s.event == MessageTypeOffer then
      match Decode(peer.parseDescription, s.data)
      case Failure(_) => Stop(s)
      case Success(o) =>
        if peer.onNegotiate then Stop(s.(handlerCalls := s.handlerCalls + [Negotiate(o)]))
        else
          var (calls, r) := OfferExchange(o, peer);
          var s1 := s.(pcCalls := s.pcCalls + calls);
          if r.Failure? then Stop(s1)
          else
            match peer.localDescription(r.value)
            case None => s1.(panicked := true, stopped := true)
            case Some(d) => AfterSend(s1, DescriptionObject(d))
    else
      AfterSend(s, WarningObject(UnknownCommandWarning(s.event)))
  }

  /** The envelope after decoding a text frame into it: fields absent from
      the frame keep their previous values. */
  function Reuse(s: LoopState, event: Option<string>, data: Option<string>): LoopState
  {
    s.(event := if event.Some? then event.value else s.event,
       data := if data.Some? then data else s.data)
  }

  /** One turn of SignalMessageLoop. */
  function AfterFrame(s: LoopState, f: Frame, peer: Peer): LoopState
  {
    match f
    case ReadFailed => Stop(s)
    case CloseMessage => Stop(AfterClose(s))
    case Unparsable => Stop(s)
    case Null => s.(panicked := true, stopped := true)
    case Text(event, data) => AfterDispatch(Reuse(s, event, data), peer)
  }

  /** SignalMessageLoop over the frames read, until it returns. */
  function AfterFrames(s: LoopState, frames: seq<Frame>, peer: Peer): LoopState
    decreases |frames|
  {
    if frames == [] || s.stopped then s
    else AfterFrames(AfterFrame(s, frames[0], peer), frames[1..], peer)
  }

  /** Send is closed exactly when close ran, and close runs at most once. */
  ghost predicate Sane(s: LoopState)
  {
    s.closeCount <= 1 && (s.sendClosed <==> s.closeCount == 1)
  }

  // ---------------------------------------------------------------------
  // Properties of the read loop
  // ---------------------------------------------------------------------

  /** An unknown event (and `join`) sends exactly one warning naming the
      event, and the loop goes on. */
  lemma UnknownEventWarns(s: LoopState, event: string, data: Option<string>, peer: Peer)
    requires event != MessageTypeCandidate && event != MessageTypeAnswer && event != MessageTypeOffer
    requires !s.sendClosed
    ensures AfterFrame(s, Text(Some(event), data), peer)
         == Reuse(s, Some(event), data).(outbox := s.outbox + [WarningObject(UnknownCommandWarning(event))])
  {
  }

  lemma JoinIsIgnored(s: LoopState, data: Option<string>, peer: Peer)
    requires !s.sendClosed && !s.stopped
    ensures var t := AfterFrame(s, Text(Some(MessageTypeJoin), data), peer);
      && t.outbox == s.outbox + [Object([("warning", "Received unknown command 'join'. Ignored.")])]
      && !t.stopped && t.pcCalls == s.pcCalls && t.handlerCalls == s.handlerCalls
  {
    assert MessageTypeJoin[0] == 'j';
    assert MessageTypeCandidate[0] == 'c' && MessageTypeAnswer[0] == 'a' && MessageTypeOffer[0] == 'o';
    UnknownEventWarns(s, MessageTypeJoin, data, peer);
    assert UnknownCommandWarning(MessageTypeJoin) == "Received unknown command 'join'. Ignored.";
  }

  /** A frame without an event is dispatched under the previous frame's
      event, and one without data decodes the previous frame's data. */
  lemma EnvelopeFieldsPersist(s: LoopState, peer: Peer)
    ensures AfterFrame(s, Text(None, None), peer) == AfterDispatch(s, peer)
  {
    assert Reuse(s, None, None) == s;
  }

  /** `candidate`: a payload that does not decode sends one warning and ends
      the loop; with OnTrickle set the handler gets the candidate and the
      loop ends; otherwise the candidate is added to the peer connection,
      and a failure sends one warning and ends the loop. */
  lemma CandidateOutcomes(s: LoopState, peer: Peer)
    requires s.event == MessageTypeCandidate && !s.sendClosed && !s.stopped
    ensures var t := AfterDispatch(s, peer);
      match Decode(peer.parseCandidate, s.data)
      case Failure(e) =>
        t == Stop(s.(outbox := s.outbox + [WarningObject("could not unmarshal candidate msg: " + e)]))
      case Success(c) =>
        if peer.onTrickle then t == Stop(s.(handlerCalls := s.handlerCalls + [Trickle(c)]))
        else
          && t.pcCalls == s.pcCalls + [AddIceCandidate(c)]
          && t.handlerCalls == s.handlerCalls
          && (peer.addIceCandidate(c).None? ==> !t.stopped && t.outbox == s.outbox)
          && (peer.addIceCandidate(c).Some? ==>
                t.stopped && t.outbox == s.outbox + [WarningObject("Error taking candidate: " + peer.addIceCandidate(c).value)])
  {
  }

  /** `answer`: a payload that does not decode ends the loop silently; with
      OnSetRemoteSDP set the handler gets it and the loop ends; otherwise it
      becomes the remote description, and a failure ends the loop. Nothing
      is ever sent. */
  lemma AnswerOutcomes(s: LoopState, peer: Peer)
    requires s.event == MessageTypeAnswer
    ensures var t := AfterDispatch(s, peer);
      && t.outbox == s.outbox && t.closeCount == s.closeCount
      && match Decode(peer.parseDescription, s.data)
         case Failure(_) => t == Stop(s)
         case Success(a) =>
           if peer.onSetRemoteSdp then t == Stop(s.(handlerCalls := s.handlerCalls + [SetRemoteSdp(a)]))
           else
             && t.pcCalls == s.pcCalls + [SetRemoteDescription(a)]
             && (t.stopped <==> s.stopped || peer.setRemoteDescription(a).Some?)
  {
  }

  /** `offer` with no OnNegotiate handler: on success exactly one message is
      sent, the peer connection's local description as a bare {type, sdp}
      object, and a nil local description panics; on failure nothing is
      sent and the loop ends. With OnNegotiate set the handler gets the
      offer and the loop ends. */
  lemma OfferOutcomes(s: LoopState, peer: Peer)
    requires s.event == MessageTypeOffer && !s.sendClosed
    ensures var t := AfterDispatch(s, peer);
      match Decode(peer.parseDescription, s.data)
      case Failure(_) => t == Stop(s)
      case Success(o) =>
        if peer.onNegotiate then t == Stop(s.(handlerCalls := s.handlerCalls + [Negotiate(o)]))
        else
          var (calls, r) := OfferExchange(o, peer);
          && t.pcCalls == s.pcCalls + calls
          && (r.Success? && peer.localDescription(r.value).Some? ==>
                t.outbox == s.outbox + [DescriptionObject(peer.localDescription(r.value).value)]
                && t.stopped == s.stopped)
          && (r.Success? && peer.localDescription(r.value).None? ==>
                t.outbox == s.outbox && t.panicked && t.stopped)
          && (r.Failure? ==> t.outbox == s.outbox && t.stopped)
  {
  }

  /** takeOffer makes its three calls in order, stopping at the first
      failure, and the answer it yields is the one created and set. */
  lemma OfferExchangeOrder(offer: SessionDescription, peer: Peer)
    ensures var (calls, r) := OfferExchange(offer, peer);
      var answer := peer.createAnswer(offer);
      var full := [SetRemoteDescription(offer), CreateAnswer]
                  + (if answer.Success? then [SetLocalDescription(answer.value)] else []);
      && 1 <= |calls| && calls <= full
      && (|calls| > 1 <==> peer.setRemoteDescription(offer).None?)
      && (|calls| > 2 <==> peer.setRemoteDescription(offer).None? && answer.Success?)
      && (r.Success? <==> (peer.setRemoteDescription(offer).None? && answer.Success?
                           && peer.setLocalDescription(answer.value).None?))
      && (r.Success? ==> r.value == answer.value && calls == full)
  {
  }

  /** A read error or an undecodable frame ends the loop and changes nothing
      else (Close is not called); a close frame closes Send, then ends the
      loop; the literal null panics. */
  lemma NonTextFrames(s: LoopState, peer: Peer)
    requires Sane(s)
    ensures AfterFrame(s, ReadFailed, peer) == Stop(s)
    ensures AfterFrame(s, Unparsable, peer) == Stop(s)
    ensures var t := AfterFrame(s, CloseMessage, peer);
      t.stopped && t.sendClosed && t.closeCount == 1 && t.outbox == s.outbox
    ensures AfterFrame(s, Null, peer).panicked
  {
  }

  /** Close is idempotent: Send is closed exactly once however often it runs. */
  lemma CloseIdempotent(s: LoopState)
    requires Sane(s)
    ensures var t := AfterClose(s);
      Sane(t) && t.sendClosed && t.closeCount == 1 && AfterClose(t) == t
      && t.outbox == s.outbox && t.stopped == s.stopped
  {
  }

  /** Sending after Close panics and sends nothing. */
  lemma SendAfterClosePanics(s: LoopState, m: Json)
    requires Sane(s) && s.closeCount == 1
    ensures AfterSend(s, m).panicked && AfterSend(s, m).outbox == s.outbox
  {
  }

  /** One frame keeps Send's close accounting, and never takes back a
      message sent or a call made. */
  lemma FrameKeepsSane(s: LoopState, f: Frame, peer: Peer)
    requires Sane(s)
    ensures var t := AfterFrame(s, f, peer);
      Sane(t) && s.outbox <= t.outbox && s.pcCalls <= t.pcCalls && s.handlerCalls <= t.handlerCalls
  {
    if f.Text? {
      DispatchGrows(Reuse(s, f.event, f.data), peer);
    }
  }

  lemma DispatchGrows(s: LoopState, peer: Peer)
    requires Sane(s)
    ensures var t := AfterDispatch(s, peer);
      Sane(t) && s.outbox <= t.outbox && s.pcCalls <= t.pcCalls && s.handlerCalls <= t.handlerCalls
  {
    if s.event == MessageTypeCandidate {
      CandidateGrows(s, peer);
    } else if s.event == MessageTypeAnswer {
      AnswerGrows(s, peer);
    } else if s.event == MessageTypeOffer {
      OfferGrows(s, peer);
    }
  }

  lemma CandidateGrows(s: LoopState, peer: Peer)
    requires Sane(s) && s.event == MessageTypeCandidate
    ensures var t := AfterDispatch(s, peer);
      Sane(t) && s.outbox <= t.outbox && s.pcCalls <= t.pcCalls && s.handlerCalls <= t.handlerCalls
  {
  }

  lemma AnswerGrows(s: LoopState, peer: Peer)
    requires Sane(s) && s.event == MessageTypeAnswer
    ensures var t := AfterDispatch(s, peer);
      Sane(t) && s.outbox <= t.outbox && s.pcCalls <= t.pcCalls && s.handlerCalls <= t.handlerCalls
  {
  }

  lemma OfferGrows(s: LoopState, peer: Peer)
    requires Sane(s) && s.event == MessageTypeOffer
    ensures var t := AfterDispatch(s, peer);
      Sane(t) && s.outbox <= t.outbox && s.pcCalls <= t.pcCalls && s.handlerCalls <= t.handlerCalls
  {
    var offer := Decode(peer.parseDescription, s.data);
    if offer.Success? && !peer.onNegotiate {
      var (calls, r) := OfferExchange(offer.value, peer);
      assert AfterDispatch(s, peer).pcCalls == s.pcCalls + calls;
    }
  }

  /** Once the loop has returned, later frames are never read; and running
      over `a + b` is running over `a`, then over `b`. */
  lemma {:induction false} AfterFramesSplits(s: LoopState, a: seq<Frame>, b: seq<Frame>, peer: Peer)
    ensures AfterFrames(s, a + b, peer) == AfterFrames(AfterFrames(s, a, peer), b, peer)
    decreases |a|
  {
    if a == [] {
      assert a + b == b;
    } else if !s.stopped {
      assert (a + b)[0] == a[0] && (a + b)[1..] == a[1..] + b;
      AfterFramesSplits(AfterFrame(s, a[0], peer), a[1..], b, peer);
    } else {
      StoppedStays(s, b, peer);
      StoppedStays(s, a + b, peer);
    }
  }

  lemma StoppedStays(s: LoopState, frames: seq<Frame>, peer: Peer)
    requires s.stopped
    ensures AfterFrames(s, frames, peer) == s
  {
  }

  /** The read loop's outputs only grow: messages sent and calls made are
      never taken back. */
  lemma {:induction false} AfterFramesGrows(s: LoopState, frames: seq<Frame>, peer: Peer)
    requires Sane(s)
    ensures var t := AfterFrames(s, frames, peer);
      Sane(t) && s.outbox <= t.outbox && s.pcCalls <= t.pcCalls && s.handlerCalls <= t.handlerCalls
    decreases |frames|
  {
    if frames != [] && !s.stopped {
      var s1 := AfterFrame(s, frames[0], peer);
      FrameKeepsSane(s, frames[0], peer);
      AfterFramesGrows(s1, frames[1..], peer);
    }
  }

  // ---------------------------------------------------------------------
  // The writer
  // ---------------------------------------------------------------------

  /** WriteWebrtcMessageLoop over the queued messages: each is written as a
      text frame; a failed write ends the writer. Once the queue is empty
      and Send is closed, one close frame is written and the writer ends.
      Returns the frames written, what is left queued, and whether the
      writer ended. */
  function Drain(q: seq<Json>, closed: bool, writeOk: Json -> bool): (seq<WireFrame>, seq<Json>, bool)
  {
    if q == [] then (if closed then ([CloseFrame], [], true) else ([], [], false))
    else if !writeOk(q[0]) then ([], q[1..], true)
    else
      var (frames, rest, stop) := Drain(q[1..], closed, writeOk);
      ([TextFrame(q[0])] + frames, rest, stop)
  }

  /** A close frame is only ever the last frame written, and the writer
      stops after it. */
  ghost predicate WireShape(w: seq<WireFrame>, stopped: bool)
  {
    forall i :: 0 <= i < |w| ==> w[i].TextFrame? || (i == |w| - 1 && stopped)
  }

  /** A writer that has not ended has written text frames only; it may
      add another, or a close frame as it ends. */
  lemma WireShapeGrows(w: seq<WireFrame>, m: Json)
    requires WireShape(w, false)
    ensures WireShape(w, true)
    ensures WireShape(w + [TextFrame(m)], false)
    ensures WireShape(w + [CloseFrame], true)
  {
  }

  function Texts(q: seq<Json>): seq<WireFrame>
  {
    if q == [] then [] else [TextFrame(q[0])] + Texts(q[1..])
  }

  /** A close frame is written only last, and only by a writer that then
      ends. */
  lemma {:induction false} DrainShape(q: seq<Json>, closed: bool, writeOk: Json -> bool)
    ensures WireShape(Drain(q, closed, writeOk).0, Drain(q, closed, writeOk).2)
    decreases |q|
  {
    if q != [] && writeOk(q[0]) {
      DrainShape(q[1..], closed, writeOk);
      var f1 := Drain(q[1..], closed, writeOk).0;
      var frames := Drain(q, closed, writeOk).0;
      assert frames == [TextFrame(q[0])] + f1;
      forall i | 0 <= i < |frames|
        ensures frames[i].TextFrame? || (i == |frames| - 1 && Drain(q, closed, writeOk).2)
      {
        if i > 0 {
          assert frames[i] == f1[i - 1];
        }
      }
    }
  }

  /** Messages go out in the order they were sent: the i-th text frame
      written is the i-th message queued. */
  lemma {:induction false} DrainInOrder(q: seq<Json>, closed: bool, writeOk: Json -> bool)
    ensures var frames := Drain(q, closed, writeOk).0;
      forall i :: 0 <= i < |frames| && frames[i].TextFrame? ==> i < |q| && frames[i].message == q[i]
    decreases |q|
  {
    if q != [] && writeOk(q[0]) {
      DrainInOrder(q[1..], closed, writeOk);
      var f1 := Drain(q[1..], closed, writeOk).0;
      var frames := Drain(q, closed, writeOk).0;
      assert frames == [TextFrame(q[0])] + f1;
      forall i | 0 <= i < |frames| && frames[i].TextFrame? ensures i < |q| && frames[i].message == q[i] {
        if i > 0 {
          assert frames[i] == f1[i - 1];
          assert q[1..][i - 1] == q[i];
        }
      }
    }
  }

  /** A writer whose writes all succeed writes every queued message, then
      one close frame exactly when Send is closed. */
  lemma {:induction false} DrainAllWritten(q: seq<Json>, closed: bool, writeOk: Json -> bool)
    requires forall m :: m in q ==> writeOk(m)
    ensures Drain(q, closed, writeOk) == (Texts(q) + (if closed then [CloseFrame] else []), [], closed)
    decreases |q|
  {
    if q == [] {
      assert Texts(q) + (if closed then [CloseFrame] else []) == (if closed then [CloseFrame] else []);
    } else {
      assert q[0] in q;
      forall m | m in q[1..] ensures writeOk(m) {
        assert m in q;
      }
      DrainAllWritten(q[1..], closed, writeOk);
      var d1 := Drain(q[1..], closed, writeOk);
      assert Drain(q, closed, writeOk) == ([TextFrame(q[0])] + d1.0, d1.1, d1.2);
      assert Texts(q) + (if closed then [CloseFrame] else [])
          == [TextFrame(q[0])] + (Texts(q[1..]) + (if closed then [CloseFrame] else []));
    }
  }

  // ---------------------------------------------------------------------
  // Signal
  // ---------------------------------------------------------------------

  class Signal {
    var event: string
    var data: Option<string>
    var outbox: seq<Json>
    var pcCalls: seq<PcCall>
    var handlerCalls: seq<HandlerCall>
    var sendClosed: bool
    var closeCount: nat
    var panicked: bool
    var stopped: bool
    var wire: seq<WireFrame>
    var writerStopped: bool

    function State(): LoopState
      reads this
    {
      LoopState(event, data, outbox, pcCalls, handlerCalls, sendClosed, closeCount, panicked, stopped)
    }

    ghost predicate Valid()
      reads this
    {
      Sane(State()) && WireShape(wire, writerStopped)
    }

    /** NewSignal: an empty envelope and an open Send. */
    constructor ()
      ensures Valid() && State() == Initial && wire == [] && !writerStopped
    {
      event, data, outbox, pcCalls, handlerCalls := "", None, [], [], [];
      sendClosed, closeCount, panicked, stopped := false, 0, false, false;
      wire, writerStopped := [], false;
    }

    method Close()
      requires Valid()
      modifies this`sendClosed, this`closeCount
      ensures Valid() && State() == AfterClose(old(State()))
    {
      if closeCount == 0 {
        sendClosed := true;
        closeCount := closeCount + 1;
      }
    }

    /** SendObject: marshal and send on Send. */
    method SendObject(m: Json)
      requires Valid()
      modifies this`outbox, this`panicked, this`stopped
      ensures Valid() && State() == AfterSend(old(State()), m)
    {
      if sendClosed {
        panicked, stopped := true, true;
        return;
      }
      outbox := outbox + [m];
    }

    method SendWarning(text: string)
      requires Valid()
      modifies this`outbox, this`panicked, this`stopped
      ensures Valid() && State() == AfterSend(old(State()), WarningObject(text))
    {
      SendObject(Object([("warning", text)]));
    }

    method SendError(text: string)
      requires Valid()
      modifies this`outbox, this`panicked, this`stopped
      ensures Valid() && State() == AfterSend(old(State()), ErrorObject(text))
    {
      SendObject(Object([("error", text)]));
    }

    method SendStatus(text: string)
      requires Valid()
      modifies this`outbox, this`panicked, this`stopped
      ensures Valid() && State() == AfterSend(old(State()), StatusObject(text))
    {
      SendObject(Object([("status", text)]));
    }

    method TakeOffer(offer: SessionDescription, peer: Peer) returns (r: Result<SessionDescription, string>)
      modifies this`pcCalls
      ensures pcCalls == old(pcCalls) + OfferExchange(offer, peer).0 && r == OfferExchange(offer, peer).1
    {
      pcCalls := pcCalls + [SetRemoteDescription(offer)];
      var remote := peer.setRemoteDescription(offer);
      if remote.Some? {
        return Failure(remote.value);
      }
      pcCalls := pcCalls + [CreateAnswer];
      var answer := peer.createAnswer(offer);
      if answer.Failure? {
        return Failure(answer.error);
      }
      pcCalls := pcCalls + [SetLocalDescription(answer.value)];
      var local := peer.setLocalDescription(answer.value);
      if local.Some? {
        return Failure(local.value);
      }
      return Success(answer.value);
    }

    /** The switch of SignalMessageLoop on the decoded envelope. */
    method Dispatch(peer: Peer)
      requires Valid()
      modifies this`outbox, this`pcCalls, this`handlerCalls, this`panicked, this`stopped
      ensures Valid() && State() == AfterDispatch(old(State()), peer)
    {
      if event == MessageTypeCandidate {
        OnCandidate(peer);
      } else if event == MessageTypeAnswer {
        OnAnswer(peer);
      } else if event == MessageTypeOffer {
        OnOffer(peer);
      } else {
        // MessageTypeJoin falls through to here.
        SendWarning(UnknownCommandWarning(event));
      }
    }

    /** The `candidate` case. */
    method OnCandidate(peer: Peer)
      requires Valid() && event == MessageTypeCandidate
      modifies this`outbox, this`pcCalls, this`handlerCalls, this`panicked, this`stopped
      ensures Valid() && State() == AfterDispatch(old(State()), peer)
    {
      var candidate := Decode(peer.parseCandidate, data);
      if candidate.Failure? {
        SendWarning("could not unmarshal candidate msg: " + candidate.error);
        stopped := true;
        return;
      }
      if peer.onTrickle {
        handlerCalls := handlerCalls + [Trickle(candidate.value)];
        stopped := true;
        return;
      }
      pcCalls := pcCalls + [AddIceCandidate(candidate.value)];
      var err := peer.addIceCandidate(candidate.value);
      if err.Some? {
        SendWarning("Error taking candidate: " + err.value);
        stopped := true;
        return;
      }
    }

    /** The `answer` case. */
    method OnAnswer(peer: Peer)
      requires Valid() && event == MessageTypeAnswer
      modifies this`outbox, this`pcCalls, this`handlerCalls, this`panicked, this`stopped
      ensures Valid() && State() == AfterDispatch(old(State()), peer)
    {
      var answer := Decode(peer.parseDescription, data);
      if answer.Failure? {
        stopped := true;
        return;
      }
      if peer.onSetRemoteSdp {
        handlerCalls := handlerCalls + [SetRemoteSdp(answer.value)];
        stopped := true;
        return;
      }
      pcCalls := pcCalls + [SetRemoteDescription(answer.value)];
      if peer.setRemoteDescription(answer.value).Some? {
        stopped := true;
        return;
      }
    }

    /** The `offer` case. */
    method OnOffer(peer: Peer)
      requires Valid() && event == MessageTypeOffer
      modifies this`outbox, this`pcCalls, this`handlerCalls, this`panicked, this`stopped
      ensures Valid() && State() == AfterDispatch(old(State()), peer)
    {
      var offer := Decode(peer.parseDescription, data);
      if offer.Failure? {
        stopped := true;
        return;
      }
      if peer.onNegotiate {
        handlerCalls := handlerCalls + [Negotiate(offer.value)];
        stopped := true;
        return;
      }
      var answer := TakeOffer(offer.value, peer);
      if answer.Failure? {
        stopped := true;
        return;
      }
      var local := peer.localDescription(answer.value);
      if local.None? {
        panicked := true;
        stopped := true;
        return;
      }
      SendObject(DescriptionObject(local.value));
    }

    /** One turn of SignalMessageLoop: read a frame, decode it into the
        reused envelope, and dispatch. */
    method HandleFrame(f: Frame, peer: Peer)
      requires Valid() && !stopped
      modifies this`event, this`data, this`outbox, this`pcCalls, this`handlerCalls,
               this`sendClosed, this`closeCount, this`panicked, this`stopped
      ensures Valid() && State() == AfterFrame(old(State()), f, peer)
    {
      match f {
        case ReadFailed =>
          stopped := true;
        case CloseMessage =>
          Close();
          stopped := true;
        case Unparsable =>
          stopped := true;
        case Null =>
          panicked, stopped := true, true;
        case Text(ev, d) =>
          if ev.Some? {
            event := ev.value;
          }
          if d.Some? {
            data := d;
          }
          Dispatch(peer);
      }
    }

    /** SignalMessageLoop over the frames read, until it returns. */
    method SignalMessageLoop(frames: seq<Frame>, peer: Peer)
      requires Valid()
      modifies this`event, this`data, this`outbox, this`pcCalls, this`handlerCalls,
               this`sendClosed, this`closeCount, this`panicked, this`stopped
      ensures Valid() && State() == AfterFrames(old(State()), frames, peer)
    {
      var i := 0;
      while i < |frames| && !stopped
        invariant i <= |frames|
        invariant Valid()
        invariant AfterFrames(old(State()), frames, peer) == AfterFrames(State(), frames[i..], peer)
      {
        assert frames[i..][0] == frames[i] && frames[i..][1..] == frames[i + 1..];
        HandleFrame(frames[i], peer);
        i := i + 1;
      }
    }

    /** WriteWebrtcMessageLoop, run until it has written everything queued
        (or ended). */
    method WriteLoop(writeOk: Json -> bool)
      requires Valid() && !writerStopped
      modifies this`outbox, this`wire, this`writerStopped
      ensures Valid()
      ensures var (frames, rest, stop) := Drain(old(outbox), sendClosed, writeOk);
        wire == old(wire) + frames && outbox == rest && writerStopped == stop
    {
      ghost var done: seq<WireFrame> := [];
      ghost var goal := Drain(outbox, sendClosed, writeOk);
      while outbox != []
        invariant !writerStopped && WireShape(wire, false)
        invariant wire == old(wire) + done
        invariant goal.0 == done + Drain(outbox, sendClosed, writeOk).0
        invariant goal.1 == Drain(outbox, sendClosed, writeOk).1 && goal.2 == Drain(outbox, sendClosed, writeOk).2
        decreases |outbox|
      {
        ghost var before := outbox;
        var m := outbox[0];
        outbox := outbox[1..];
        if !writeOk(m) {
          WireShapeGrows(wire, m);
          writerStopped := true;
          return;
        }
        WireShapeGrows(wire, m);
        assert Drain(before, sendClosed, writeOk).0 == [TextFrame(m)] + Drain(outbox, sendClosed, writeOk).0;
        assert done + Drain(before, sendClosed, writeOk).0 == (done + [TextFrame(m)]) + Drain(outbox, sendClosed, writeOk).0;
        wire := wire + [TextFrame(m)];
        done := done + [TextFrame(m)];
      }
      WireShapeGrows(wire, Object([]));
      if sendClosed {
        wire := wire + [CloseFrame];
        writerStopped := true;
      }
    }
  }
}
