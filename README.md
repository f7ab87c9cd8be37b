# SFU forwarding, signaling and media-engine core in Dafny

This project models the core of a selective forwarding unit (SFU) for WebRTC
and proves properties of that model. The SFU is written in Go on top of pion.
The model covers five parts:

- **Receiver** (`receiver.dfy`, class `Receiver.WebRTCReceiver`). One per
  published track. It keeps a copy-on-write snapshot of the DownTracks it
  feeds, plus a closed flag. Its writeRTP loop forwards each packet read from
  the buffer to every DownTrack in the snapshot. It closes once at end of
  stream. It rate-limits Picture Loss Indications (RFC 4585 section 6.3.1) to
  one per 500 ms. For a NACK (RFC 4585 section 6.2.1) it re-sends stored
  packets with their RTP headers (RFC 3550 section 5.1) rewritten.
- **Router** (`route.dfy`, classes `Route.Router` and `Route.Subscriber`). A
  per-publisher registry from track id to Receiver. The registry lookup is
  idempotent, but every AddReceiver call re-binds the up track (resetting the
  Receiver's DownTrack snapshot) and, for audio, re-adds the stream to the
  audio observer. It attaches DownTracks to a subscriber, at most one per
  (stream, track). A FIFO RTCP pump drains a queue of capacity 10.
- **Signal** (`signal.dfy`, class `Signal.Signal`). The websocket read loop
  dispatches on the event name (`candidate`, `answer`, `offer`, `join`,
  anything else). Close is a close-once guard. The writer drains the
  outbound queue. The offer/answer exchange follows RFC 3264.
- **Helpers** (`helpers.dfy`). The swap-returning atomic boolean, the
  two-pass fuzzy codec search, and the exact integer conversions between
  nanoseconds and the 64-bit NTP timestamp format (RFC 5905 section 6).
- **Publisher media engine** (`mediaengine.dfy`). The constant codec and
  header-extension tables, and the mime filters that decide what
  getPublisherMediaEngine registers.

`media.dfy` holds the value types the parts share: codecs, RTP/RTCP packets,
DownTrack and remote-track descriptors, and the fixed-width unsigned integer
types. `wrappers.dfy` holds Option and Result.

The Go code works by mutation, so each stateful part is a Dafny class.
- Every method states its whole new state.
- Where the logic is a fold over inputs, the state is tied to a specification
  function of the old state, for example
  `State() == AfterFrames(old(State()), frames, peer)`.
- What the source promises is then proved about those functions as lemmas.

Goroutines, channels and `sync.Once` are read sequentially:
- a channel is a queue field;
- a once guard is a flag;
- a goroutine's loop is a method over the sequence of events it sees.

Calls into pion, JSON decoding and the buffer are oracle parameters that may
succeed or fail arbitrarily, and so are the clock, the map iteration order
and write results.

## Model

| member | source | states |
|---|---|---|
| Helpers.AtomicBool.constructor | pkg/webrtc/helpers.go:14 | the zero value reads false |
| Helpers.AtomicBool.Set | pkg/webrtc/helpers.go:17-26 | afterwards `get` returns the value set; the swap is reported exactly when the old value differs (`set(true)` swaps from false, `set(false)` from true) |
| Helpers.FirstExact | pkg/webrtc/helpers.go:32-38 | the index of the first haystack codec whose mime type matches ignoring case and whose fmtp line is equal; none before it matches |
| Helpers.FirstMime | pkg/webrtc/helpers.go:41-45 | the index of the first haystack codec whose mime type matches ignoring case; none before it matches |
| Helpers.FirstExactIs | pkg/webrtc/helpers.go:32-38 | any index with no exact match before it and an exact match at it is the one the first pass returns |
| Helpers.FirstMimeIs | pkg/webrtc/helpers.go:41-45 | any index with no mime match before it and a mime match at it is the one the fallback pass returns |
| Helpers.CodecParametersFuzzySearch | pkg/webrtc/helpers.go:30-48 | the two loops compute the search function; a found codec is a haystack element with the needle's mime type; ErrCodecNotFound with zero parameters exactly when no haystack codec has the needle's mime type ignoring case |
| Helpers.ExactMatchPreferred | pkg/webrtc/helpers.go:32-45 | an exact match is returned even when a mime-only match comes earlier |
| Helpers.MimeFallback | pkg/webrtc/helpers.go:41-45 | with no exact match anywhere, the first mime-only match is returned without error |
| Helpers.ToNtpTime | pkg/webrtc/helpers.go:51-60 | the high word is the whole seconds modulo 2^32; the low word is the sub-second remainder times 2^32/10^9 rounded half up |
| Helpers.NtpSplit | pkg/webrtc/helpers.go:52-59 | the uint64 shift of the remainder does not wrap; the rounded fraction fits in 32 bits; the bitwise or of the shifted seconds and the fraction equals their sum |
| Helpers.Duration | pkg/webrtc/helpers.go:63-71 | seconds times 10^9 plus the fraction times 10^9/2^32 rounded half up; the result stays below 2^63, so the conversion to time.Duration does not wrap |
| Helpers.DurationBounds | pkg/webrtc/helpers.go:64-70 | the rounded nanoseconds are at most 10^9 and the total fits in int64 |
| Helpers.NtpRoundTrip | pkg/webrtc/helpers.go:51-71 | for offsets below 2^32 seconds, `Duration(toNtpTime(n)) == n` |
| MediaEngine.ExtensionRegsAt | pkg/webrtc/mediaengine.go:108-126 | an extension loop registers each URI of its list, in order, as its kind |
| MediaEngine.GetPublisherMediaEngine | pkg/webrtc/mediaengine.go:74-129 | an engine is returned exactly when no error is; it succeeds exactly when every planned registration is accepted, and then holds the audio codecs, the video codecs, the video extensions and the audio extensions in that order; otherwise the error names the first registration refused |
| MediaEngine.RegisterTables | pkg/webrtc/mediaengine.go:74-129 | the same, for any codec and extension tables |
| MediaEngine.RegisterCodecTables | pkg/webrtc/mediaengine.go:76-106 | the audio loop, then the video loop: success exactly when all their registrations are accepted, else the first refusal |
| MediaEngine.RegisterExtensionTables | pkg/webrtc/mediaengine.go:108-126 | the video extension loop, then the audio one, with the same success and first-refusal outcome |
| MediaEngine.RegisterCodecs | pkg/webrtc/mediaengine.go:76-90 | one codec loop registers exactly the codecs the filter keeps, in table order, or stops at the first refusal and returns it |
| MediaEngine.RegisterExtensions | pkg/webrtc/mediaengine.go:108-117 | one extension loop registers every URI in order, or stops at the first refusal and returns it |
| MediaEngine.RejectedLater | pkg/webrtc/mediaengine.go:78-125 | a refusal in a later loop, after earlier loops fully succeeded, is the first refusal of the whole call |
| MediaEngine.AcceptedBoth | pkg/webrtc/mediaengine.go:74-129 | two loops that each succeed make the combined registrations succeed |
| MediaEngine.CodecStep | pkg/webrtc/mediaengine.go:76-90 | one codec-loop turn: a kept codec is the next registration and the rest follow; a filtered codec adds nothing |
| MediaEngine.RejectedIsFirst | pkg/webrtc/mediaengine.go:78-88 | a refused registration after accepted ones is the first refused |
| MediaEngineFacts.UnfilteredRegistersAll | pkg/webrtc/mediaengine.go:77-82 | with an empty filter a codec loop registers the whole table in order |
| MediaEngineFacts.FilterIsExact | pkg/webrtc/mediaengine.go:85-89 | a codec is registered exactly when it is in the table and the filter keeps it, and only as the loop's kind |
| MediaEngineFacts.AllAudioCodecsWhenUnfiltered | pkg/webrtc/mediaengine.go:55-68 | `mimeAudio == ""` registers PCMU/0, PCMA/8 and opus/111 in that order |
| MediaEngineFacts.AllVideoCodecsWhenUnfiltered | pkg/webrtc/mediaengine.go:92-99 | `mimeVideo == ""` registers all eight video codecs in table order |
| MediaEngineFacts.H264SelectsFiveEntries | pkg/webrtc/mediaengine.go:18-51 | `video/h264` selects the five H.264 entries (payload types 102, 127, 125, 108, 123) in table order |
| MediaEngineFacts.FilterIsCaseSensitive | pkg/webrtc/mediaengine.go:101 | the comparison is case-sensitive: `video/H264` selects nothing |
| MediaEngineFacts.UnmatchedAudioFilterStillSucceeds | pkg/webrtc/mediaengine.go:85-90 | an audio filter matching no entry registers no audio codec, and the call can still succeed |
| MediaEngineFacts.AudioCodecsOnlyFromAudioLoop | pkg/webrtc/mediaengine.go:76-106 | every registered audio codec comes from the audio table and passes the audio filter |
| MediaEngineFacts.ExtensionsIgnoreFilters | pkg/webrtc/mediaengine.go:108-126 | video always gets mid, rtp-stream-id, transport-cc and framemarking, and audio always gets mid, rtp-stream-id and audio-level, whatever the filters |
| MediaEngineFacts.CodecTableFacts | pkg/webrtc/mediaengine.go:17-68 | payload types are distinct within each table; every video clock is 90000; PCMU and PCMA use 8000; opus uses 48000 with 2 channels |
| Receiver.WithDownTrackAppends | pkg/webrtc/receiver.go:207-223 | adding keeps earlier entries in place and leaves the DownTrack subscribed; re-adding a subscribed DownTrack changes nothing |
| Receiver.WithDownTrackKeepsDistinct | pkg/webrtc/receiver.go:127-140 | the snapshot never holds the same DownTrack twice |
| Receiver.WithoutMembers | pkg/webrtc/receiver.go:236-245 | after deleteDownTrack(id) the snapshot holds exactly the entries whose id differs |
| Receiver.WithoutSplits | pkg/webrtc/receiver.go:239-243 | deletion filters each part of the snapshot independently, so order is kept |
| Receiver.WithoutAbsent | pkg/webrtc/receiver.go:236-245 | deleting an id no entry has leaves the snapshot unchanged |
| Receiver.WithoutIdempotent | pkg/webrtc/receiver.go:236-245 | deleting the same id twice is deleting it once |
| Receiver.WithoutKeepsDistinct | pkg/webrtc/receiver.go:236-245 | deletion keeps the snapshot free of duplicates |
| Receiver.SelfHealNeverFires | pkg/webrtc/receiver.go:184 | the self-healing test, one error equal to two distinct errors, is never true |
| Receiver.FirstEnd | pkg/webrtc/receiver.go:174-177 | the loop reads packets up to the first end-of-file and no further |
| Receiver.FirstEndIs | pkg/webrtc/receiver.go:174-177 | any index with only packets before it and end-of-file at it is where the loop stops |
| Receiver.FanoutOneAt | pkg/webrtc/receiver.go:182-191 | one packet is written to the b-th snapshot entry at position b, once per entry |
| Receiver.FanoutOneLength | pkg/webrtc/receiver.go:182-191 | one packet makes exactly one write per snapshot entry |
| Receiver.FanoutSnoc | pkg/webrtc/receiver.go:171-192 | reading one more packet appends its writes to every entry after the earlier ones |
| Receiver.FanoutLength | pkg/webrtc/receiver.go:171-192 | n packets give exactly n times the snapshot size writes; a failed write does not cut a round short |
| Receiver.FanoutPrefix | pkg/webrtc/receiver.go:171-192 | the writes for a prefix of the stream are a prefix of the writes for the whole stream |
| Receiver.FanoutAt | pkg/webrtc/receiver.go:171-192 | packet a is written to snapshot entry b at position `a * size + b`: every packet reaches every entry, in read order and then snapshot order |
| Receiver.RtxHeadersRewritten | pkg/webrtc/receiver.go:275-302 | every retransmission answers a requested packet the buffer holds; its payload and marker are kept; its sequence number, timestamp, SSRC and payload type become the target sequence number, the meta timestamp, the track's SSRC and the track's payload type; there are never more retransmissions than requests |
| Receiver.RtxStopsAtEndOfBuffer | pkg/webrtc/receiver.go:281-285 | an end-of-file lookup ends the batch: nothing after it is sent |
| Receiver.RtxSkipsUnusable | pkg/webrtc/receiver.go:282-291 | a missing or unparsable packet is skipped; the batch is the one without that request |
| Receiver.RtxWriteErrorsDoNotAbort | pkg/webrtc/receiver.go:298-302 | which packets are re-sent does not depend on how the writes turn out |
| Receiver.RtxAnswersEveryHit | pkg/webrtc/receiver.go:275-303 | when the buffer holds every requested packet, every request is answered, and the i-th retransmission is the i-th request's packet with its header rewritten for the DownTrack |
| Receiver.WebRTCReceiver.constructor | pkg/webrtc/receiver.go:68-79 | the metadata comes from the track; the receiver starts open with no up track, no snapshot, no handler and empty queues |
| Receiver.WebRTCReceiver.SetTrackMeta | pkg/webrtc/receiver.go:81-84 | track and stream ids are replaced |
| Receiver.WebRTCReceiver.AddUpTrack | pkg/webrtc/receiver.go:112-124 | on a closed receiver nothing changes; otherwise it binds the track and buffer (SSRC then reports the track's SSRC), resets the snapshot to empty and starts one writer loop |
| Receiver.WebRTCReceiver.AddDownTrack | pkg/webrtc/receiver.go:127-140 | closed: no change; otherwise the snapshot gains the DownTrack at the end unless it already holds it, so it keeps no duplicates |
| Receiver.WebRTCReceiver.DownTrackSubscribed | pkg/webrtc/receiver.go:207-215 | true exactly when this very DownTrack is in the snapshot |
| Receiver.WebRTCReceiver.StoreDownTrack | pkg/webrtc/receiver.go:217-223 | the new snapshot is the old one with the DownTrack appended |
| Receiver.WebRTCReceiver.DeleteDownTrack | pkg/webrtc/receiver.go:227-234 | closed: no change; otherwise the snapshot keeps, in order, the entries whose id differs |
| Receiver.WebRTCReceiver.DeleteFromSnapshot | pkg/webrtc/receiver.go:236-245 | the filtering loop yields exactly the entries whose id differs, in order |
| Receiver.WebRTCReceiver.OnCloseHandler | pkg/webrtc/receiver.go:151-153 | a close handler is installed |
| Receiver.WebRTCReceiver.WriteRTP | pkg/webrtc/receiver.go:159-193 | each packet read before the first end-of-file is written to every snapshot entry; the snapshot is never changed by the loop; at end-of-file the receiver closes once, and a second end of stream adds no further closes or handler calls |
| Receiver.WebRTCReceiver.ForwardAll | pkg/webrtc/receiver.go:171-192 | the reading loop stops at the first end-of-file having made exactly the fan-out writes |
| Receiver.WebRTCReceiver.ForwardOne | pkg/webrtc/receiver.go:182-191 | one packet is written to every snapshot entry in order |
| Receiver.WebRTCReceiver.CloseOnce | pkg/webrtc/receiver.go:160-165 | the first run sets closed, closes every DownTrack, releases the worker and calls the handler (if any) once; later runs change nothing |
| Receiver.WebRTCReceiver.CloseTracks | pkg/webrtc/receiver.go:196-205 | every snapshot DownTrack is closed in order, the worker is released, and the handler is called exactly once if set |
| Receiver.WebRTCReceiver.SendRTCP | pkg/webrtc/receiver.go:247-256 | a PLI batch within 500 ms of the last forwarded PLI is dropped; otherwise lastPli becomes now and the batch is queued; other batches are always queued; forwarded PLIs stay at least 500 ms apart |
| Receiver.WebRTCReceiver.RetransmitPackets | pkg/webrtc/receiver.go:268-307 | a released worker gives ErrClosedPipe and sends nothing; otherwise it succeeds, and with a buffer it makes exactly the retransmissions of the batch |
| Route.RegisterIdempotent | pkg/webrtc/route.go:140-155 | the first AddReceiver for a track id creates a Receiver no other key shares and reports a publish; a later call returns that Receiver, reports no publish and changes nothing; other keys keep their Receivers |
| Route.FindIndex | pkg/webrtc/route.go:207-211 | the position of the first DownTrack of the stream whose id is the track id |
| Route.FindIndexIs | pkg/webrtc/route.go:207-211 | any index with no match before it and a match at it is the one the search returns |
| Route.AttachOutcomes | pkg/webrtc/route.go:206-259 | a DownTrack already held for (stream, track) is returned unchanged; a failed codec registration, DownTrack creation or transceiver attachment gives neither subscriber nor receiver a DownTrack; success registers the new DownTrack, carrying the receiver's ids, with both |
| Route.AttachGrows | pkg/webrtc/route.go:206-259 | AddDownTrack never takes a DownTrack away from a subscriber |
| Route.AttachKeepsOnePerTrack | pkg/webrtc/route.go:207-211 | a subscriber holds at most one DownTrack per (stream, track) |
| Route.AppendKeepsDistinct | pkg/webrtc/route.go:256 | appending a DownTrack with a new id keeps ids distinct within a stream |
| Route.AttachIdempotent | pkg/webrtc/route.go:207-211 | after a successful AddDownTrack a second one returns the same DownTrack, changes nothing and calls no oracle |
| Route.ProgressStep | pkg/webrtc/route.go:190-194 | one turn of the loop over the receivers advances the batch |
| Route.ProgressDone | pkg/webrtc/route.go:190-194 | when the loop ends, by exhaustion or at the first error, its state is the batch's result |
| Route.AttachAllStep | pkg/webrtc/route.go:190-194 | the batch over the remaining receivers unfolds by one AddDownTrack |
| Route.AttachAllSplits | pkg/webrtc/route.go:190-194 | the batch over `a + b` is the batch over `a` followed, if it succeeded, by the batch over `b` |
| Route.SplitsCons | pkg/webrtc/route.go:190-194 | the split holds for a non-empty prefix once it holds after its first receiver |
| Route.AttachAllGrows | pkg/webrtc/route.go:189-197 | a batch never removes a DownTrack and keeps one per (stream, track) |
| Route.AttachAllSubscribesEvery | pkg/webrtc/route.go:189-197 | a batch without error leaves the subscriber holding a DownTrack for every receiver |
| Route.HeldStaysHeld | pkg/webrtc/route.go:207-211 | a DownTrack held for (stream, track) is still held after the subscriber grows |
| Route.KeyOrderVisitsAll | pkg/webrtc/route.go:189-190 | a map iteration order visits every registered receiver; it is non-empty exactly when the registry is |
| Route.WriteAllStep | pkg/webrtc/route.go:270-274 | one more pump turn hands one more queued batch to the writer |
| Route.WriteAllDeliversAll | pkg/webrtc/route.go:270-274 | every drained batch reaches the writer, in queue order, whether the writes fail or not |
| Route.BatchesSplit | pkg/webrtc/route.go:268-279 | the batches written by two pump runs are those of the first run followed by those of the second |
| Route.DropMembers | pkg/webrtc/route.go:246 | the stand-in for the subscriber's removal keeps exactly the other DownTracks of the stream, in order |
| Route.DropKeepsOnePerTrack | pkg/webrtc/route.go:246 | removal keeps one DownTrack per (stream, track) |
| Route.Router.constructor | pkg/webrtc/route.go:55-68 | an empty registry, an empty RTCP queue and no writer |
| Route.Router.AddReceiver | pkg/webrtc/route.go:89-166 | the registry lookup-or-create, its result and the publish flag; an audio track adds its stream to the audio observer; a new Receiver gets the RTCP channel and the close handler; every call binds the up track |
| Route.Router.ReceiverClosed | pkg/webrtc/route.go:147-153 | an audio receiver's stream leaves the audio observer, and the registry drops the receiver's key |
| Route.Router.DeleteReceiver | pkg/webrtc/route.go:261-266 | the key is removed from the registry, and nothing else changes |
| Route.Router.AddDownTrack | pkg/webrtc/route.go:206-259 | the new subscriber state, result and receiver-side registrations are those of the AddDownTrack function |
| Route.Router.AddDownTracks | pkg/webrtc/route.go:169-198 | noAutoSubscribe: nil, and no DownTrack or negotiation. A given receiver: one AddDownTrack, with one negotiation on success and none on error. No receiver: AddDownTrack for every registered receiver in map order, stopping at the first error; one negotiation if the registry is non-empty and nothing failed, none otherwise |
| Route.Router.AddEachDownTrack | pkg/webrtc/route.go:190-194 | the loop over the receivers computes the batch function |
| Route.Router.AttachNext | pkg/webrtc/route.go:191-193 | one iteration keeps the loop's progress toward the batch |
| Route.Router.DownTrackClosed | pkg/webrtc/route.go:238-250 | unless the connection is closed or removing the sender fails, the subscriber drops the DownTrack and renegotiates once; otherwise nothing changes |
| Route.Router.EnqueueRTCP | pkg/webrtc/route.go:100-102 | a batch is queued at the end exactly when fewer than 10 are waiting; a full queue changes nothing |
| Route.Router.SetRTCPWriter | pkg/webrtc/route.go:200-203 | the writer is set and one pump is started |
| Route.Router.Pump | pkg/webrtc/route.go:268-274 | n pump turns hand the n oldest batches to the writer in FIFO order and leave the rest queued; a write error does not stop the pump |
| Route.Router.Stop | pkg/webrtc/route.go:268-279 | the stop signal ends one running pump, which may first hand the n oldest queued batches to the writer in FIFO order; the rest stay queued |
| Signal.UnknownEventWarns | pkg/signal/signal.go:192-195 | an unknown event queues exactly one warning object naming it, and the loop goes on |
| Signal.JoinIsIgnored | pkg/signal/signal.go:188-195 | `join` falls through: it queues exactly `{"warning":"Received unknown command 'join'. Ignored."}`, makes no call and the loop goes on |
| Signal.EnvelopeFieldsPersist | pkg/signal/signal.go:100-121 | the envelope is reused across frames: a frame without event or data is dispatched with the previous ones |
| Signal.CandidateOutcomes | pkg/signal/signal.go:126-146 | a malformed payload queues one warning and ends the loop; with OnTrickle set the handler is called once and the loop ends; otherwise an AddICECandidate failure queues one warning and ends the loop, and success continues |
| Signal.AnswerOutcomes | pkg/signal/signal.go:148-163 | nothing is sent; a malformed payload ends the loop; with OnSetRemoteSDP set the handler is called and the loop ends; otherwise a SetRemoteDescription failure ends the loop and success continues |
| Signal.OfferOutcomes | pkg/signal/signal.go:165-185 | with OnNegotiate set the handler is called and the loop ends; otherwise takeOffer runs; on success exactly one message, the peer connection's local description as a bare `{type, sdp}` object, is queued, and a nil local description panics; on failure nothing is sent and the loop ends |
| Signal.OfferExchangeOrder | pkg/signal/signal.go:200-213 | set-remote, create-answer and set-local, in that order, stopping at the first failure; success exactly when all three succeed, and the answer is the one created |
| Signal.NonTextFrames | pkg/signal/signal.go:104-121 | a read error or an undecodable frame ends the loop without calling Close; a close frame closes Send once and ends the loop |
| Signal.CloseIdempotent | pkg/signal/signal.go:270-272 | Close closes Send exactly once, however often it is called |
| Signal.SendAfterClosePanics | pkg/signal/signal.go:274-279 | sending after Close panics and sends nothing |
| Signal.FrameKeepsSane | pkg/signal/signal.go:101-197 | one frame keeps Send closed at most once and never takes back a message or call |
| Signal.DispatchGrows | pkg/signal/signal.go:125-196 | the dispatch keeps Send closed at most once and only adds messages and calls |
| Signal.CandidateGrows | pkg/signal/signal.go:126-146 | the same for `candidate` |
| Signal.AnswerGrows | pkg/signal/signal.go:148-163 | the same for `answer` |
| Signal.OfferGrows | pkg/signal/signal.go:165-185 | the same for `offer` |
| Signal.AfterFramesSplits | pkg/signal/signal.go:101-197 | reading `a + b` is reading `a` and then `b`, and nothing is read after the loop returns |
| Signal.StoppedStays | pkg/signal/signal.go:101-197 | a returned loop reads no more frames |
| Signal.AfterFramesGrows | pkg/signal/signal.go:101-197 | over any frames the loop only adds messages and calls, and closes Send at most once |
| Signal.WireShapeGrows | pkg/signal/signal.go:226-251 | a running writer has written only text frames; it may add one, or a close frame as it ends |
| Signal.DrainShape | pkg/signal/signal.go:226-251 | the writer writes one close frame at most, only as its last frame, and stops after it |
| Signal.DrainInOrder | pkg/signal/signal.go:228-251 | the i-th text frame written is the i-th queued message |
| Signal.DrainAllWritten | pkg/signal/signal.go:228-234 | when every write succeeds, every queued message is written in order; then, if Send is closed, one close frame follows and the writer stops |
| Signal.Signal.constructor | pkg/signal/signal.go:75-81 | a fresh signal: empty queue, Send open, loop running |
| Signal.Signal.Close | pkg/signal/signal.go:270-272 | the once guard closes Send the first time only |
| Signal.Signal.SendObject | pkg/signal/signal.go:274-279 | the message is queued, or the send panics if Send is closed |
| Signal.Signal.SendWarning | pkg/signal/signal.go:286-290 | queues the single-field object `{"warning": text}` |
| Signal.Signal.SendError | pkg/signal/signal.go:292-296 | queues the single-field object `{"error": text}` |
| Signal.Signal.SendStatus | pkg/signal/signal.go:298-302 | queues the single-field object `{"status": text}` |
| Signal.Signal.TakeOffer | pkg/signal/signal.go:200-213 | makes the offer-exchange calls and returns its answer or first error |
| Signal.Signal.Dispatch | pkg/signal/signal.go:125-196 | the state after the switch on the event is the dispatch function's |
| Signal.Signal.OnCandidate | pkg/signal/signal.go:126-146 | the same, for `candidate` |
| Signal.Signal.OnAnswer | pkg/signal/signal.go:148-163 | the same, for `answer` |
| Signal.Signal.OnOffer | pkg/signal/signal.go:165-185 | the same, for `offer` |
| Signal.Signal.HandleFrame | pkg/signal/signal.go:104-196 | one turn of the read loop is the frame function's |
| Signal.Signal.SignalMessageLoop | pkg/signal/signal.go:90-198 | the read loop over the frames read, until it returns, is the frames function's |
| Signal.Signal.WriteLoop | pkg/signal/signal.go:220-263 | the writer's frames, what stays queued and whether it stopped are the drain function's, and the wire keeps its shape |

## Left out

- Concurrency is read sequentially. Locks, `atomic.Value`, `sync.Once`,
  goroutines and `select` are not modelled: each goroutine is a method run to
  completion, each channel a queue, each once guard a flag. Interleavings of
  the writeRTP loop with AddDownTrack and DeleteDownTrack are not modelled.
- Signal.Signal.SendObject: the Send channel is unbuffered, so a send blocks
  until the writer takes it. It is modelled as a queue the writer drains
  later. JSON marshalling and its error are not modelled; a message is its
  field list.
- Signal: JSON decoding of frames, candidates and session descriptions is an
  oracle (`Peer.parseCandidate`, `Peer.parseDescription`).
- Signal: gorilla's ReadMessage reports a close frame as an error, so the
  CloseMessage branch (pkg/signal/signal.go:111-115) is unlikely to be
  reached. It is modelled as written.
- Signal: the deferred `conn.Close` calls, the read limit, the deadlines, the
  pong handler and the ping ticker are left out. So is the log output.
- Signal.Signal.WriteLoop: the three ways a text write can fail (NextWriter,
  Write, Close of the writer) are one "write failed" outcome. The ping branch
  of the writer is not modelled.
- Signal.Signal.TakeOffer: the peer connection is an oracle.
  - CreateAnswer is a pure function of the offer.
  - The LocalDescription read after takeOffer is an oracle
    (`Peer.localDescription`) of the answer just set; a nil one panics at
    the dereference.
- Signal.OfferOutcomes: the offer reply is sent as the bare session
  description `{type, sdp}`, as the code does. A description of the protocol
  that wraps it in an event envelope does not match the code, and the code is
  followed.
- Helpers: `strings.EqualFold` is modelled with ASCII case folding only.
  Unicode simple folding is not modelled.
- Helpers.ToNtpTime takes its input as nanoseconds since the NTP epoch
  (1900-01-01). The `time.Time` subtraction and its saturation are not
  modelled, and neither is `ntpTime.Time`, which adds the duration back to
  the epoch.
- MediaEngine: pion's `RegisterCodec` and `RegisterHeaderExtension` are one
  oracle `accepts`. The RTCP feedback lists of the video codecs are not part
  of the codec value. getSubscriberMediaEngine (pion's default codecs) is
  not modelled.
- Receiver: DownTrack, Buffer, Sequencer and the worker pool are not part of
  this model; they are abstract collaborators.
  - A DownTrack is a value with a handle (its pointer identity) and an id.
  - The buffer's reads are a sequence of packets or end-of-file. Read errors
    other than EOF are not modelled.
  - GetPacket is a lookup returning a hit, a miss, an unparsable packet or
    end of buffer.
  - The NACK worker runs each batch to completion at once.
- Receiver.WebRTCReceiver.AddDownTrack and DeleteDownTrack require an up
  track, because before AddUpTrack the snapshot is not stored and loading it
  panics.
- Receiver.WebRTCReceiver.SendRTCP:
  - the clock is a parameter `now`, and the two `time.Now()` reads are one;
  - int64 overflow of `now - lastPli` is not modelled;
  - a batch is appended to an unbounded outbound queue; the router's
    capacity-10 queue is modelled in Route.Router.EnqueueRTCP;
  - an empty batch panics at `p[0]` and is excluded by the precondition.
- Receiver: GetBitrate, GetMaxTemporalLayer, GetSenderReportTime, SetRTCPCh,
  Codec, Kind, SSRC, TrackID and StreamID are plain reads of a collaborator or a
  field and are not modelled; UpdateStats after a retransmission is left
  out.
- Route: the buffer factory, the buffer's OnFeedback and OnAudioLevel
  callbacks, the rtcpReader's sender-report handling and `buff.Bind` are not
  modelled; the audio observer is the log of its add/remove events.
- Route.Router.ReceiverClosed removes the stream id of the track the Receiver
  was created with (route.go:150). AddReceiver adds the `streamID` argument
  (route.go:110). The model keeps both as written.
- Route: NewDownTrack, AddTransceiverFromTrack, RegisterCodec and RemoveTrack
  are oracles (`Pion`). A new DownTrack's SSRC and payload type are 0 until
  it is bound, and binding is not modelled. The subscriber's negotiate is a
  counter, and sendStreamDownTracksReports (OnBind) is not modelled.
- Route.DropMembers: the body of Subscriber.RemoveDownTrack is not part of
  this model. `Drop` is a stand-in that filters that DownTrack out of its
  stream and keeps the order of the rest. Upstream may instead swap the last
  element into the hole, which does not keep the order. A stream with no
  entry gains an empty one.
- Route.InOrder: the receivers read in the order of their keys; it is a
  helper whose content is stated by Route.KeyOrderVisitsAll.
- Route.Router.Stop requires a running pump, since an unread `stopCh` send
  would block for ever; `Router.ID` is a field read.
