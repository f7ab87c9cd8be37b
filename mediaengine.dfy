/** The publisher's media engine: the constant codec tables the SFU offers
    and the selection of codecs and RTP header extensions it registers. */
module MediaEngine {
  import opened Media
  import opened Wrappers

  const MimeTypeH264 := "video/h264"
  const MimeTypeOpus := "audio/opus"
  const MimeTypeVP8 := "video/vp8"
  const MimeTypeVP9 := "video/vp9"
  const MimeTypePCMU := "audio/PCMU"
  const MimeTypePCMA := "audio/PCMA"

  const VideoCodecs: seq<CodecParameters> := [
    CodecParameters(MimeTypeVP8, 90000, 0, "", 96),
    CodecParameters(MimeTypeVP9, 90000, 0, "profile-id=0", 98),
    CodecParameters(MimeTypeVP9, 90000, 0, "profile-id=1", 100),
    CodecParameters(MimeTypeH264, 90000, 0, "level-asymmetry-allowed=1;packetization-mode=1;profile-level-id=42001f", 102),
    CodecParameters(MimeTypeH264, 90000, 0, "level-asymmetry-allowed=1;packetization-mode=0;profile-level-id=42001f", 127),
    CodecParameters(MimeTypeH264, 90000, 0, "level-asymmetry-allowed=1;packetization-mode=1;profile-level-id=42e01f", 125),
    CodecParameters(MimeTypeH264, 90000, 0, "level-asymmetry-allowed=1;packetization-mode=0;profile-level-id=42e01f", 108),
    CodecParameters(MimeTypeH264, 90000, 0, "level-asymmetry-allowed=1;packetization-mode=1;profile-level-id=640032", 123)
  ]

  const AudioCodecs: seq<CodecParameters> := [
    CodecParameters(MimeTypePCMU, 8000, 0, "", 0),
    CodecParameters(MimeTypePCMA, 8000, 0, "", 8),
    CodecParameters(MimeTypeOpus, 48000, 2, "minptime=10;useinbandfec=1", 111)
  ]

  const SdesMidUri := "urn:ietf:params:rtp-hdrext:sdes:mid"
  const SdesRtpStreamIdUri := "urn:ietf:params:rtp-hdrext:sdes:rtp-stream-id"
  const TransportCCUri := "http://www.ietf.org/id/draft-holmer-rmcat-transport-wide-cc-extensions-01"
  const AudioLevelUri := "urn:ietf:params:rtp-hdrext:ssrc-audio-level"
  const FrameMarkingUri := "urn:ietf:params:rtp-hdrext:framemarking"

  const VideoExtensions := [SdesMidUri, SdesRtpStreamIdUri, TransportCCUri, FrameMarkingUri]
  const AudioExtensions := [SdesMidUri, SdesRtpStreamIdUri, AudioLevelUri]

  /** One call into the media engine: RegisterCodec or RegisterHeaderExtension. */
  datatype Registration =
    | CodecReg(codec: CodecParameters, kind: Kind)
    | ExtensionReg(uri: string, kind: Kind)

  /** The media engine as the sequence of registrations it accepted. */
  datatype Engine = Engine(registered: seq<Registration>)

  /** The error a registration returned; it names the rejected call. */
  datatype RegistrationError = RegistrationError(rejected: Registration)

  /** The mime filter: the empty string keeps every codec, anything else
      keeps the codecs whose mime type is exactly that string (case matters). */
  predicate Keeps(c: CodecParameters, mime: string)
  {
    mime == "" || c.mimeType == mime
  }

  /** The codec registrations one codec loop makes: each codec of `table`
      the filter keeps, as `kind`, in table order. */
  function CodecPlan(table: seq<CodecParameters>, mime: string, kind: Kind): (r: seq<Registration>)
  {
    if table == [] then []
    else (if Keeps(table[0], mime) then [CodecReg(table[0], kind)] else []) + CodecPlan(table[1..], mime, kind)
  }

  /** The header-extension registrations of one extension loop: every URI,
      as `kind`, in order. */
  function ExtensionRegs(uris: seq<string>, kind: Kind): seq<Registration>
  {
    if uris == [] then [] else [ExtensionReg(uris[0], kind)] + ExtensionRegs(uris[1..], kind)
  }

  lemma {:induction false} ExtensionRegsAt(uris: seq<string>, kind: Kind)
    ensures |ExtensionRegs(uris, kind)| == |uris|
    ensures forall i :: 0 <= i < |uris| ==> ExtensionRegs(uris, kind)[i] == ExtensionReg(uris[i], kind)
  {
    if uris != [] {
      ExtensionRegsAt(uris[1..], kind);
    }
  }

  /** Every registration getPublisherMediaEngine makes when none fails, in order. */
  function Plan(mimeAudio: string, mimeVideo: string): seq<Registration>
  {
    PlanOf(AudioCodecs, VideoCodecs, VideoExtensions, AudioExtensions, mimeAudio, mimeVideo)
  }

  /** The registrations of the four loops over the given tables, in order:
      audio codecs, video codecs, video extensions, audio extensions. */
  function PlanOf(audio: seq<CodecParameters>, video: seq<CodecParameters>,
                  videoExts: seq<string>, audioExts: seq<string>,
                  mimeAudio: string, mimeVideo: string): seq<Registration>
  {
    CodecPlan(audio, mimeAudio, Audio)
    + CodecPlan(video, mimeVideo, Video)
    + ExtensionRegs(videoExts, Video)
    + ExtensionRegs(audioExts, Audio)
  }

  /** getPublisherMediaEngine. `accepts` stands for the media engine's answer
      to each registration call (true: no error). The first rejected call
      aborts: no engine, that call's error. */
  method GetPublisherMediaEngine(mimeAudio: string, mimeVideo: string, accepts: Registration -> bool)
    returns (me: Option<Engine>, err: Option<RegistrationError>)
    ensures me.Some? <==> err.None?
    ensures err.None? <==> AllAccepted(Plan(mimeAudio, mimeVideo), accepts)
    ensures me.Some? ==> me.value.registered == Plan(mimeAudio, mimeVideo)
    ensures err.Some? ==> FirstRejected(Plan(mimeAudio, mimeVideo), accepts, err.value.rejected)
  {
    me, err := RegisterTables(AudioCodecs, VideoCodecs, VideoExtensions, AudioExtensions,
                              mimeAudio, mimeVideo, accepts);
  }

  /** The body of getPublisherMediaEngine over its four tables. */
  method RegisterTables(audio: seq<CodecParameters>, video: seq<CodecParameters>,
                        videoExts: seq<string>, audioExts: seq<string>,
                        mimeAudio: string, mimeVideo: string, accepts: Registration -> bool)
    returns (me: Option<Engine>, err: Option<RegistrationError>)
    ensures me.Some? <==> err.None?
    ensures err.None? <==> AllAccepted(PlanOf(audio, video, videoExts, audioExts, mimeAudio, mimeVideo), accepts)
    ensures me.Some? ==> me.value.registered == PlanOf(audio, video, videoExts, audioExts, mimeAudio, mimeVideo)
    ensures err.Some? ==>
      FirstRejected(PlanOf(audio, video, videoExts, audioExts, mimeAudio, mimeVideo), accepts, err.value.rejected)
  {
    var engine := Engine([]);
    ghost var codecs := CodecPlan(audio, mimeAudio, Audio) + CodecPlan(video, mimeVideo, Video);
    ghost var exts := ExtensionRegs(videoExts, Video) + ExtensionRegs(audioExts, Audio);
    ghost var plan := PlanOf(audio, video, videoExts, audioExts, mimeAudio, mimeVideo);
    assert plan == codecs + exts;

    engine, err := RegisterCodecTables(engine, audio, video, mimeAudio, mimeVideo, accepts);
    if err.Some? {
      RejectedLater(plan, [], codecs, exts, accepts, err.value.rejected);
      return None, err;
    }
    engine, err := RegisterExtensionTables(engine, videoExts, audioExts, accepts);
    if err.Some? {
      RejectedLater(plan, codecs, exts, [], accepts, err.value.rejected);
      return None, err;
    }
    AcceptedBoth(codecs, exts, accepts);
    return Some(engine), None;
  }

  /** The two codec loops: audio, then video. */
  method RegisterCodecTables(engine: Engine, audio: seq<CodecParameters>, video: seq<CodecParameters>,
                             mimeAudio: string, mimeVideo: string, accepts: Registration -> bool)
    returns (next: Engine, err: Option<RegistrationError>)
    ensures var plan := CodecPlan(audio, mimeAudio, Audio) + CodecPlan(video, mimeVideo, Video);
      && (err.None? <==> AllAccepted(plan, accepts))
      && (err.None? ==> next.registered == engine.registered + plan)
      && (err.Some? ==> FirstRejected(plan, accepts, err.value.rejected))
  {
    ghost var a := CodecPlan(audio, mimeAudio, Audio);
    ghost var v := CodecPlan(video, mimeVideo, Video);
    next, err := RegisterCodecs(engine, audio, mimeAudio, Audio, accepts);
    if err.Some? {
      RejectedLater(a + v, [], a, v, accepts, err.value.rejected);
      return;
    }
    next, err := RegisterCodecs(next, video, mimeVideo, Video, accepts);
    if err.Some? {
      RejectedLater(a + v, a, v, [], accepts, err.value.rejected);
      return;
    }
    AcceptedBoth(a, v, accepts);
  }

  /** The two header-extension loops: video, then audio. */
  method RegisterExtensionTables(engine: Engine, videoExts: seq<string>, audioExts: seq<string>,
                                 accepts: Registration -> bool)
    returns (next: Engine, err: Option<RegistrationError>)
    ensures var plan := ExtensionRegs(videoExts, Video) + ExtensionRegs(audioExts, Audio);
      && (err.None? <==> AllAccepted(plan, accepts))
      && (err.None? ==> next.registered == engine.registered + plan)
      && (err.Some? ==> FirstRejected(plan, accepts, err.value.rejected))
  {
    ghost var ve := ExtensionRegs(videoExts, Video);
    ghost var ae := ExtensionRegs(audioExts, Audio);
    next, err := RegisterExtensions(engine, videoExts, Video, accepts);
    if err.Some? {
      RejectedLater(ve + ae, [], ve, ae, accepts, err.value.rejected);
      return;
    }
    next, err := RegisterExtensions(next, audioExts, Audio, accepts);
    if err.Some? {
      RejectedLater(ve + ae, ve, ae, [], accepts, err.value.rejected);
      return;
    }
    AcceptedBoth(ve, ae, accepts);
  }

  lemma AcceptedBoth(x: seq<Registration>, y: seq<Registration>, accepts: Registration -> bool)
    requires AllAccepted(x, accepts)
    requires AllAccepted(y, accepts)
    ensures AllAccepted(x + y, accepts)
  {
  }

  /** One codec loop of getPublisherMediaEngine: every codec of `table` that
      passes the mime filter is registered as `kind`, in table order. */
  method RegisterCodecs(engine: Engine, table: seq<CodecParameters>, mime: string, kind: Kind,
                        accepts: Registration -> bool)
    returns (next: Engine, err: Option<RegistrationError>)
    ensures err.None? <==> AllAccepted(CodecPlan(table, mime, kind), accepts)
    ensures err.None? ==> next.registered == engine.registered + CodecPlan(table, mime, kind)
    ensures err.Some? ==> FirstRejected(CodecPlan(table, mime, kind), accepts, err.value.rejected)
  {
    ghost var all := CodecPlan(table, mime, kind);
    ghost var done: seq<Registration> := [];
    next := engine;
    for i := 0 to |table|
      invariant next.registered == engine.registered + done
      invariant done + CodecPlan(table[i..], mime, kind) == all
      invariant AllAccepted(done, accepts)
    {
      CodecStep(table, i, mime, kind, done, all);
      var codec := table[i];
      if mime == "" {
        if !accepts(CodecReg(codec, kind)) {
          RejectedIsFirst(all, done, CodecReg(codec, kind), accepts);
          return next, Some(RegistrationError(CodecReg(codec, kind)));
        }
        next := Engine(next.registered + [CodecReg(codec, kind)]);
        done := done + [CodecReg(codec, kind)];
        continue;
      }
      if codec.mimeType == mime {
        if !accepts(CodecReg(codec, kind)) {
          RejectedIsFirst(all, done, CodecReg(codec, kind), accepts);
          return next, Some(RegistrationError(CodecReg(codec, kind)));
        }
        next := Engine(next.registered + [CodecReg(codec, kind)]);
        done := done + [CodecReg(codec, kind)];
      }
    }
    return next, None;
  }

  /** One header-extension loop of getPublisherMediaEngine: every URI is
      registered for `kind`, whatever the mime filters were. */
  method RegisterExtensions(engine: Engine, uris: seq<string>, kind: Kind, accepts: Registration -> bool)
    returns (next: Engine, err: Option<RegistrationError>)
    ensures err.None? <==> AllAccepted(ExtensionRegs(uris, kind), accepts)
    ensures err.None? ==> next.registered == engine.registered + ExtensionRegs(uris, kind)
    ensures err.Some? ==> FirstRejected(ExtensionRegs(uris, kind), accepts, err.value.rejected)
  {
    ghost var all := ExtensionRegs(uris, kind);
    ExtensionRegsAt(uris, kind);
    next := engine;
    for i := 0 to |uris|
      invariant next.registered == engine.registered + all[..i]
      invariant AllAccepted(all[..i], accepts)
    {
      var reg := ExtensionReg(uris[i], kind);
      assert all[..i + 1] == all[..i] + [reg];
      if !accepts(reg) {
        RejectedIsFirst(all, all[..i], reg, accepts);
        return next, Some(RegistrationError(reg));
      }
      next := Engine(next.registered + [reg]);
    }
    assert all[..|uris|] == all;
    return next, None;
  }

  /** A call first rejected within `mid` is the first one rejected in
      `pre + mid + post` when every call of `pre` was accepted. */
  lemma RejectedLater(plan: seq<Registration>, pre: seq<Registration>, mid: seq<Registration>,
                      post: seq<Registration>, accepts: Registration -> bool, reg: Registration)
    requires plan == pre + mid + post
    requires AllAccepted(pre, accepts)
    requires FirstRejected(mid, accepts, reg)
    ensures FirstRejected(plan, accepts, reg)
    ensures reg in plan && !accepts(reg) && !AllAccepted(plan, accepts)
  {
    var k :| 0 <= k < |mid| && mid[k] == reg && !accepts(reg) && forall j :: 0 <= j < k ==> accepts(mid[j]);
    assert plan[|pre| + k] == reg;
    forall j | 0 <= j < |pre| + k
      ensures accepts(plan[j])
    {
      if j < |pre| { assert plan[j] in pre; } else { assert plan[j] == mid[j - |pre|]; }
    }
  }

  /** Every call of `plan` is accepted. */
  ghost predicate AllAccepted(plan: seq<Registration>, accepts: Registration -> bool)
  {
    forall r :: r in plan ==> accepts(r)
  }

  /** `reg` is the first call in `plan` that `accepts` rejects. */
  ghost predicate FirstRejected(plan: seq<Registration>, accepts: Registration -> bool, reg: Registration)
  {
    exists k :: 0 <= k < |plan| && plan[k] == reg && !accepts(reg)
      && forall j :: 0 <= j < k ==> accepts(plan[j])
  }

  /** What one iteration of the codec loop leaves to do. */
  lemma CodecStep(table: seq<CodecParameters>, i: nat, mime: string, kind: Kind,
                  done: seq<Registration>, all: seq<Registration>)
    requires i < |table|
    requires done + CodecPlan(table[i..], mime, kind) == all
    ensures Keeps(table[i], mime) ==> done + [CodecReg(table[i], kind)] <= all
    ensures Keeps(table[i], mime) ==>
      (done + [CodecReg(table[i], kind)]) + CodecPlan(table[i + 1..], mime, kind) == all
    ensures !Keeps(table[i], mime) ==> done + CodecPlan(table[i + 1..], mime, kind) == all
  {
    assert table[i..][1..] == table[i + 1..];
  }

  lemma RejectedIsFirst(plan: seq<Registration>, done: seq<Registration>, reg: Registration, accepts: Registration -> bool)
    requires done + [reg] <= plan
    requires AllAccepted(done, accepts)
    requires !accepts(reg)
    ensures FirstRejected(plan, accepts, reg)
  {
    var k := |done|;
    assert plan[k] == reg;
    assert forall j :: 0 <= j < k ==> plan[j] == done[j];
  }
}

module MediaEngineFacts {
  import opened Media
  import opened MediaEngine

  /** With an empty filter a codec loop registers the whole table in order. */
  lemma {:induction false} UnfilteredRegistersAll(table: seq<CodecParameters>, kind: Kind)
    ensures |CodecPlan(table, "", kind)| == |table|
    ensures forall i :: 0 <= i < |table| ==> CodecPlan(table, "", kind)[i] == CodecReg(table[i], kind)
  {
    if table != [] {
      UnfilteredRegistersAll(table[1..], kind);
    }
  }

  /** A codec loop registers exactly the codecs the filter keeps, and only as `kind`. */
  lemma {:induction false} FilterIsExact(table: seq<CodecParameters>, mime: string, kind: Kind)
    ensures forall c :: CodecReg(c, kind) in CodecPlan(table, mime, kind) <==> c in table && Keeps(c, mime)
    ensures forall r :: r in CodecPlan(table, mime, kind) ==> r.CodecReg? && r.kind == kind
  {
    if table != [] {
      FilterIsExact(table[1..], mime, kind);
      assert table == [table[0]] + table[1..];
    }
  }

  lemma AllAudioCodecsWhenUnfiltered()
    ensures CodecPlan(AudioCodecs, "", Audio)
      == [CodecReg(CodecParameters("audio/PCMU", 8000, 0, "", 0), Audio),
          CodecReg(CodecParameters("audio/PCMA", 8000, 0, "", 8), Audio),
          CodecReg(CodecParameters("audio/opus", 48000, 2, "minptime=10;useinbandfec=1", 111), Audio)]
  {
    UnfilteredRegistersAll(AudioCodecs, Audio);
  }

  lemma AllVideoCodecsWhenUnfiltered()
    ensures |CodecPlan(VideoCodecs, "", Video)| == 8
    ensures forall i :: 0 <= i < 8 ==> CodecPlan(VideoCodecs, "", Video)[i] == CodecReg(VideoCodecs[i], Video)
  {
    UnfilteredRegistersAll(VideoCodecs, Video);
  }

  /** Unfolds CodecPlan at position i of a table. */
  lemma PlanFrom(table: seq<CodecParameters>, i: nat, mime: string, kind: Kind)
    requires i < |table|
    ensures CodecPlan(table[i..], mime, kind)
      == (if Keeps(table[i], mime) then [CodecReg(table[i], kind)] else []) + CodecPlan(table[i + 1..], mime, kind)
  {
    assert table[i..][1..] == table[i + 1..];
  }

  /** `video/h264` selects the five H.264 entries, in table order. */
  lemma H264SelectsFiveEntries()
    ensures CodecPlan(VideoCodecs, "video/h264", Video)
      == [CodecReg(VideoCodecs[3], Video), CodecReg(VideoCodecs[4], Video), CodecReg(VideoCodecs[5], Video),
          CodecReg(VideoCodecs[6], Video), CodecReg(VideoCodecs[7], Video)]
  {
    var t, m := VideoCodecs, "video/h264";
    assert t[8..] == [];
    PlanFrom(t, 7, m, Video);
    assert CodecPlan(t[7..], m, Video) == [CodecReg(t[7], Video)];
    PlanFrom(t, 6, m, Video);
    assert CodecPlan(t[6..], m, Video) == [CodecReg(t[6], Video), CodecReg(t[7], Video)];
    PlanFrom(t, 5, m, Video);
    assert CodecPlan(t[5..], m, Video) == [CodecReg(t[5], Video), CodecReg(t[6], Video), CodecReg(t[7], Video)];
    PlanFrom(t, 4, m, Video);
    assert CodecPlan(t[4..], m, Video)
      == [CodecReg(t[4], Video), CodecReg(t[5], Video), CodecReg(t[6], Video), CodecReg(t[7], Video)];
    PlanFrom(t, 3, m, Video);
    assert CodecPlan(t[3..], m, Video)
      == [CodecReg(t[3], Video), CodecReg(t[4], Video), CodecReg(t[5], Video), CodecReg(t[6], Video), CodecReg(t[7], Video)];
    PlanFrom(t, 2, m, Video);
    PlanFrom(t, 1, m, Video);
    PlanFrom(t, 0, m, Video);
    assert t[0..] == t;
  }

  /** The filter compares case-sensitively: `video/H264` matches nothing. */
  lemma FilterIsCaseSensitive()
    ensures CodecPlan(VideoCodecs, "video/H264", Video) == []
  {
    var t, m := VideoCodecs, "video/H264";
    assert t[8..] == [];
    PlanFrom(t, 7, m, Video);
    PlanFrom(t, 6, m, Video);
    PlanFrom(t, 5, m, Video);
    PlanFrom(t, 4, m, Video);
    assert CodecPlan(t[4..], m, Video) == [];
    PlanFrom(t, 3, m, Video);
    PlanFrom(t, 2, m, Video);
    PlanFrom(t, 1, m, Video);
    PlanFrom(t, 0, m, Video);
    assert t[0..] == t;
  }

  /** An audio filter that matches no table entry registers no audio codec,
      and the engine is still built when every call succeeds. */
  lemma UnmatchedAudioFilterStillSucceeds(mimeAudio: string, mimeVideo: string)
    requires mimeAudio != ""
    requires forall c :: c in AudioCodecs ==> c.mimeType != mimeAudio
    ensures CodecPlan(AudioCodecs, mimeAudio, Audio) == []
    ensures forall r :: r in Plan(mimeAudio, mimeVideo) ==> !(r.CodecReg? && r.kind == Audio)
  {
    var t := AudioCodecs;
    assert t[3..] == [];
    assert !Keeps(t[2], mimeAudio) && !Keeps(t[1], mimeAudio) && !Keeps(t[0], mimeAudio);
    PlanFrom(t, 2, mimeAudio, Audio);
    PlanFrom(t, 1, mimeAudio, Audio);
    PlanFrom(t, 0, mimeAudio, Audio);
    assert t[0..] == t;
    AudioCodecsOnlyFromAudioLoop(mimeAudio, mimeVideo);
  }

  /** Only the audio codec loop registers audio codecs. */
  lemma AudioCodecsOnlyFromAudioLoop(mimeAudio: string, mimeVideo: string)
    ensures forall r :: (r in Plan(mimeAudio, mimeVideo) && r.CodecReg? && r.kind == Audio
                         ==> r in CodecPlan(AudioCodecs, mimeAudio, Audio))
  {
    FilterIsExact(VideoCodecs, mimeVideo, Video);
    var a := CodecPlan(AudioCodecs, mimeAudio, Audio);
    var v := CodecPlan(VideoCodecs, mimeVideo, Video);
    var ve := ExtensionRegs(VideoExtensions, Video);
    var ae := ExtensionRegs(AudioExtensions, Audio);
    assert Plan(mimeAudio, mimeVideo) == a + v + ve + ae;
    ExtensionRegsAt(VideoExtensions, Video);
    ExtensionRegsAt(AudioExtensions, Audio);
    assert forall r :: r in ve ==> r.ExtensionReg?;
    assert forall r :: r in ae ==> r.ExtensionReg?;
  }

  /** The header extensions do not depend on the mime filters. */
  lemma ExtensionsIgnoreFilters(mimeAudio: string, mimeVideo: string)
    ensures forall u :: u in VideoExtensions ==> ExtensionReg(u, Video) in Plan(mimeAudio, mimeVideo)
    ensures forall u :: u in AudioExtensions ==> ExtensionReg(u, Audio) in Plan(mimeAudio, mimeVideo)
    ensures forall u :: u in {SdesMidUri, SdesRtpStreamIdUri, TransportCCUri, FrameMarkingUri} <==> u in VideoExtensions
    ensures forall u :: u in {SdesMidUri, SdesRtpStreamIdUri, AudioLevelUri} <==> u in AudioExtensions
  {
    var p := Plan(mimeAudio, mimeVideo);
    var ve := ExtensionRegs(VideoExtensions, Video);
    var ae := ExtensionRegs(AudioExtensions, Audio);
    assert p == CodecPlan(AudioCodecs, mimeAudio, Audio) + CodecPlan(VideoCodecs, mimeVideo, Video) + ve + ae;
    ExtensionRegsAt(VideoExtensions, Video);
    ExtensionRegsAt(AudioExtensions, Audio);
    forall u | u in VideoExtensions ensures ExtensionReg(u, Video) in p {
      var i :| 0 <= i < |VideoExtensions| && VideoExtensions[i] == u;
      assert ve[i] == ExtensionReg(u, Video);
    }
    forall u | u in AudioExtensions ensures ExtensionReg(u, Audio) in p {
      var i :| 0 <= i < |AudioExtensions| && AudioExtensions[i] == u;
      assert ae[i] == ExtensionReg(u, Audio);
    }
  }

  /** Payload types are distinct within each table; every video codec runs
      at 90 kHz, G.711 at 8 kHz, opus at 48 kHz in stereo. */
  lemma CodecTableFacts()
    ensures forall i, j :: 0 <= i < j < |VideoCodecs| ==> VideoCodecs[i].payloadType != VideoCodecs[j].payloadType
    ensures forall i, j :: 0 <= i < j < |AudioCodecs| ==> AudioCodecs[i].payloadType != AudioCodecs[j].payloadType
    ensures forall c :: c in VideoCodecs ==> c.clockRate == 90000
    ensures AudioCodecs[0].mimeType == "audio/PCMU" && AudioCodecs[0].clockRate == 8000
    ensures AudioCodecs[1].mimeType == "audio/PCMA" && AudioCodecs[1].clockRate == 8000
    ensures AudioCodecs[2].mimeType == "audio/opus" && AudioCodecs[2].clockRate == 48000 && AudioCodecs[2].channels == 2
  {
  }
}
