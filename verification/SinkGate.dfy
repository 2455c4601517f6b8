/** The RTMP output (crates/rtmp/src/sink.rs): connections that come and go, and the gate that opens each
    of them with fresh media headers. */
module SinkGate {
  import opened Bytes
  import opened Elementary
  import opened Avc
  import opened AvcHeaderLoss
  import Aac

  // ----- packets and the environment -----

  datatype Timestamp = Timestamp(ticks: int, timescale: nat)

  datatype Codec = H264 | AacLc | OtherCodec

  datatype MediaPacket = MediaPacket(codec: Codec, pts: Timestamp, dts: Option<Timestamp>, keyframe: bool,
                                     discontinuity: bool, data: ByteString)

  /** What a finished reconnection attempt brought. */
  datatype Attempt = Connected | Refused(retryable: bool) | TaskLost

  /** How the outside answers during one call: the time, the state of the reconnection task if there is
      one, whether the peer can be serviced, how many messages the session takes before it fails,
      and whether the socket takes its bytes. */
  datatype Answers = Answers(now: nat, attempt: Option<Attempt>, serviced: bool, accepted: nat, flushed: bool)

  datatype Message = Video(frame: VideoFrame) | Audio(message: Aac.AudioMessage)

  /** `Io` errors lose the connection, the others are returned as they are. */
  datatype SendResult = Sent | DroppedAwaitingKeyframe | Io | Processing | BadTimestamp | MediaFailed | UnsupportedCodec

  datatype Settings = Settings(codec: HeaderCodec, reconnect: bool, initialBackoff: nat, maxBackoff: nat)

  /** `connection` holds the messages given to the session of the current connection; `lost` is the
      history of the connections before. */
  datatype Sink = Sink(connection: Option<seq<Message>>, lost: seq<seq<Message>>, reconnecting: bool, nextRetry: nat,
                       backoff: nat, waitingForIdr: bool, avc: Publisher, aacSent: bool, closed: bool)

  function Opened(settings: Settings, now: nat): Sink {
    Sink(Some([]), [], false, now, settings.initialBackoff, true, FRESH_PUBLISHER, false, false)
  }

  // ----- times -----

  const I64_MAX: int := 0x7fff_ffff_ffff_ffff
  const I64_MIN: int := -0x8000_0000_0000_0000
  const I32_MAX: int := 0x7fff_ffff
  const I32_MIN: int := -0x8000_0000

  /** Integer division that truncates toward zero. */
  function Truncated(a: int, b: nat): int
    requires b > 0
  {
    if a >= 0 then a / b else -(-a / b)
  }

  function Millis(t: Timestamp): Option<int> {
    if t.timescale == 0 then None
    else
      var ms := Truncated(t.ticks * 1000, t.timescale);
      if I64_MIN <= ms <= I64_MAX then Some(ms) else None
  }

  function WrapMillis(ms: int): U32 {
    ms % 0x1_0000_0000
  }

  // ----- the operations -----

  function ResetGate(s: Sink): Sink {
    s.(waitingForIdr := true, avc := FRESH_PUBLISHER, aacSent := false)
  }

  function Disconnect(s: Sink, now: nat): Sink
    requires s.connection.Some?
  {
    ResetGate(s.(connection := None, lost := s.lost + [s.connection.value], nextRetry := now))
  }

  function ScheduleRetry(settings: Settings, s: Sink, now: nat): Sink {
    s.(nextRetry := now + s.backoff, backoff := Min(2 * s.backoff, settings.maxBackoff))
  }

  /** `None` means connected. */
  function EnsureConnected(settings: Settings, s: Sink, answers: Answers): (r: (Sink, Option<SendResult>))
    ensures r.1.None? ==> r.0.connection.Some? && !r.0.closed
  {
    if s.closed then (s, Some(Processing))
    else if s.connection.Some? then (s, None)
    else if !settings.reconnect then (s, Some(Processing))
    else if s.reconnecting && answers.attempt.Some? then
      var idle := s.(reconnecting := false);
      match answers.attempt.value
      case TaskLost => (idle, Some(Io))
      case Connected => (ResetGate(idle.(connection := Some([]), backoff := settings.initialBackoff)), None)
      case Refused(retryable) =>
        if retryable then (ScheduleRetry(settings, idle, answers.now), Some(Io)) else (idle, Some(Processing))
    else if s.reconnecting || answers.now < s.nextRetry then (s, Some(Io))
    else (s.(reconnecting := true), Some(Io))
  }

  /** The messages that the session takes of those it is given. */
  function Deliver(s: Sink, messages: seq<Message>, answers: Answers): (Sink, SendResult)
    requires s.connection.Some?
  {
    var taken := Min(answers.accepted, |messages|);
    var after := s.(connection := Some(s.connection.value + messages[..taken]));
    (after, if taken < |messages| || !answers.flushed then Io else Sent)
  }

  function VideoMessages(frames: seq<VideoFrame>): (r: seq<Message>)
    ensures |r| == |frames| && forall i :: 0 <= i < |r| ==> r[i] == Video(frames[i])
  {
    seq(|frames|, i requires 0 <= i < |frames| => Video(frames[i]))
  }

  function AudioMessages(messages: seq<Aac.AudioMessage>): (r: seq<Message>)
    ensures |r| == |messages| && forall i :: 0 <= i < |r| ==> r[i] == Audio(messages[i])
  {
    seq(|messages|, i requires 0 <= i < |messages| => Audio(messages[i]))
  }

  function PublishVideo(settings: Settings, s: Sink, packet: MediaPacket, answers: Answers): (Sink, SendResult)
    requires s.connection.Some?
  {
    var dts := Millis(if packet.dts.Some? then packet.dts.value else packet.pts);
    var pts := Millis(packet.pts);
    if dts.None? || pts.None? || !(I32_MIN <= pts.value - dts.value <= I32_MAX) then (s, BadTimestamp)
    else
      var (avc, frames) := Publish(settings.codec, s.avc, WrapMillis(dts.value), pts.value - dts.value, packet.data);
      var converted := s.(avc := avc);
      if frames.Err? then (converted, MediaFailed)
      else
        var (after, result) := Deliver(converted, VideoMessages(frames.value), answers);
        (if result.Sent? && packet.keyframe then after.(waitingForIdr := false) else after, result)
  }

  function PublishAudio(s: Sink, packet: MediaPacket, answers: Answers): (Sink, SendResult)
    requires s.connection.Some?
  {
    var pts := Millis(packet.pts);
    if pts.None? then (s, BadTimestamp)
    else
      var (sent, messages) := Aac.PushAdts(s.aacSent, WrapMillis(pts.value), packet.data);
      var converted := s.(aacSent := sent);
      if messages.Err? then (converted, MediaFailed) else Deliver(converted, AudioMessages(messages.value), answers)
  }

  function PublishPacket(settings: Settings, s: Sink, packet: MediaPacket, answers: Answers): (Sink, SendResult) {
    var gated := if packet.discontinuity then ResetGate(s) else s;
    var (ready, failure) := EnsureConnected(settings, gated, answers);
    if failure.Some? then (ready, failure.value)
    else if ready.waitingForIdr && (!packet.codec.H264? || !packet.keyframe) then (ready, DroppedAwaitingKeyframe)
    else if !answers.serviced then (ready, Io)
    else
      match packet.codec
      case H264 => PublishVideo(settings, ready, packet, answers)
      case AacLc => PublishAudio(ready, packet, answers)
      case OtherCodec => (ready, UnsupportedCodec)
  }

  function SendPacket(settings: Settings, s: Sink, packet: MediaPacket, answers: Answers): (Sink, SendResult) {
    var (after, result) := PublishPacket(settings, s, packet, answers);
    (if result.Io? && after.connection.Some? then Disconnect(after, answers.now) else after, result)
  }

  function Close(s: Sink): Sink {
    s.(closed := true, reconnecting := false, connection := None,
       lost := if s.connection.Some? then s.lost + [s.connection.value] else s.lost)
  }

  // ----- what every connection carries -----

  predicate IsAvcHeader(m: Message) {
    m.Video? && m.frame.kind == Some(SequenceHeader)
  }

  /** NAL units that the far end reads back and that hold an IDR slice. */
  predicate IsIdr(m: Message) {
    && m.Video? && m.frame.kind == Some(NalUnits) && m.frame.keyframe
    && AvccUnits(m.frame.payload, 4).Ok? && HasIdr(AvccUnits(m.frame.payload, 4).value)
  }

  predicate IsAacHeader(m: Message) {
    m.Audio? && m.message.sequenceHeader && m.message.payload == Aac.AUDIO_SPECIFIC_CONFIG
  }

  predicate NoAudio(log: seq<Message>) {
    forall i :: 0 <= i < |log| ==> log[i].Video?
  }

  /** The first message is an AVC sequence header, the second an IDR, and the first audio message is the
      AAC sequence header. */
  predicate WellOpened(log: seq<Message>) {
    && (|log| > 0 ==> IsAvcHeader(log[0]))
    && (|log| > 1 ==> IsIdr(log[1]))
    && forall i :: 0 <= i < |log| && log[i].Audio? && NoAudio(log[..i]) ==> IsAacHeader(log[i])
  }

  /** A publisher that considers its header sent knows both parameter sets. */
  predicate SetsKnown(p: Publisher) {
    p.headerSent ==> p.sps != [] && p.pps != []
  }

  predicate SinkInv(s: Sink) {
    && (forall i :: 0 <= i < |s.lost| ==> WellOpened(s.lost[i]))
    && SetsKnown(s.avc)
    && (s.connection.Some? ==>
          var log := s.connection.value;
          && WellOpened(log)
          && (log == [] ==> !s.avc.headerSent && s.waitingForIdr)
          && (log != [] ==> |log| >= 2)
          && (s.aacSent ==> !NoAudio(log)))
    && (s.connection.None? && !s.closed ==> s.avc == FRESH_PUBLISHER && s.waitingForIdr && !s.aacSent)
  }

  /** The keyframe flag means that an IDR slice is present. */
  predicate Honest(packet: MediaPacket) {
    packet.codec.H264? && packet.keyframe && AnnexBUnits(packet.data).Ok? ==>
      OfType(AnnexBUnits(packet.data).value, 5) != []
  }

  lemma VideoAppended(log: seq<Message>, more: seq<Message>)
    requires WellOpened(log) && |log| >= 2 && forall i :: 0 <= i < |more| ==> more[i].Video?
    ensures WellOpened(log + more) && (NoAudio(log + more) ==> NoAudio(log))
  {
    hide IsAvcHeader, IsIdr, IsAacHeader;
    var all := log + more;
    assert all[0] == log[0] && all[1] == log[1];
    forall i | 0 <= i < |all| && all[i].Audio? && NoAudio(all[..i]) ensures IsAacHeader(all[i]) {
      assert i < |log| && all[..i] == log[..i] && all[i] == log[i];
    }
    if NoAudio(all) {
      forall i | 0 <= i < |log| ensures log[i].Video? {
        assert all[i] == log[i];
      }
    }
  }

  lemma AudioAppended(log: seq<Message>, more: seq<Message>)
    requires WellOpened(log) && |log| >= 2
    requires NoAudio(log) && more != [] ==> IsAacHeader(more[0])
    requires forall i :: 0 <= i < |more| ==> more[i].Audio?
    ensures WellOpened(log + more)
  {
    hide IsAvcHeader, IsIdr;
    var all := log + more;
    forall i | |log| < i < |all| ensures !NoAudio(all[..i]) {
      AudioEndsSilence(log, more, i);
    }
    assert all[0] == log[0] && all[1] == log[1];
    forall i | 0 <= i < |all| && all[i].Audio? && NoAudio(all[..i]) ensures IsAacHeader(all[i]) {
      if i < |log| {
        assert all[..i] == log[..i] && all[i] == log[i];
      } else {
        forall j | 0 <= j < |log| ensures log[j].Video? {
          assert all[..i][j] == log[j];
        }
      }
    }
  }

  lemma AudioEndsSilence(log: seq<Message>, more: seq<Message>, i: nat)
    requires |log| < i <= |log| + |more| && more[0].Audio?
    ensures !NoAudio((log + more)[..i])
  {
    assert (log + more)[..i][|log|] == more[0];
  }

  lemma NowHasAudio(log: seq<Message>, more: seq<Message>)
    requires more != [] && more[0].Audio?
    ensures !NoAudio(log + more)
  {
    assert (log + more)[|log|] == more[0];
  }

  /** While no header was sent, an honest keyframe that converts makes a header and an IDR. */
  lemma KeyframeOpens(codec: HeaderCodec, p: Publisher, packet: MediaPacket, dts: U32, offset: int)
    requires !p.headerSent && Honest(packet) && packet.codec.H264? && packet.keyframe
    requires Publish(codec, p, dts, offset, packet.data).1.Ok?
    ensures var frames := Publish(codec, p, dts, offset, packet.data).1.value;
            |frames| == 2 && IsAvcHeader(Video(frames[0])) && IsIdr(Video(frames[1]))
  {
    hide AnnexBUnits, OfType, MediaOf, BuildHeader, Avcc, AvccUnits, AvccFrom, HasIdr, FramedSize, WellParsed,
      GoodUnits;
    ParsedAreGood(packet.data);
    var units := AnnexBUnits(packet.data).value;
    MediaIsGood(units);
    IdrIsMedia(units);
    IdrMeansMedia(units);
    ReadBack(MediaOf(units));
  }

  /** The access unit makes a header due that can be built, and its media exceed the limit once every
      unit has a four-byte length field. */
  predicate Oversized(codec: HeaderCodec, p: Publisher, offset: int, data: ByteString) {
    && |data| <= MAX_ACCESS_UNIT_BYTES && MIN_OFFSET <= offset <= MAX_OFFSET && AnnexBUnits(data).Ok?
    && var units := AnnexBUnits(data).value;
       var learned := Learn(p, units).0;
       HeaderDue(learned) && BuildHeader(codec, learned).Ok? && FramedSize(MediaOf(units)) > MAX_ACCESS_UNIT_BYTES
  }

  /** A failed conversion records a header as sent only in that case. */
  lemma ConversionFails(codec: HeaderCodec, p: Publisher, dts: U32, offset: int, data: ByteString)
    requires !p.headerSent
    ensures var (after, r) := Publish(codec, p, dts, offset, data);
            && (r.Err? ==> (after.headerSent <==> Oversized(codec, p, offset, data)))
            && (Oversized(codec, p, offset, data) ==> r.Err?)
  {
    hide AnnexBUnits, OfType, MediaOf, BuildHeader, FramedSize, WellParsed;
    NothingFramed();
    if |data| <= MAX_ACCESS_UNIT_BYTES && AnnexBUnits(data).Ok? {
      ParsedAreGood(data);
    }
  }

  lemma NothingFramed()
    ensures FramedSize([]) == 0
  {
  }

  lemma PublishKnowsSets(codec: HeaderCodec, p: Publisher, dts: U32, offset: int, data: ByteString)
    requires SetsKnown(p)
    ensures SetsKnown(Publish(codec, p, dts, offset, data).0)
  {
    hide AnnexBUnits, OfType, MediaOf, BuildHeader, FramedSize, WellParsed;
    if |data| <= MAX_ACCESS_UNIT_BYTES && AnnexBUnits(data).Ok? {
      ParsedAreGood(data);
    }
  }

  lemma IdrMeansMedia(units: seq<NalUnit>)
    requires HasIdr(MediaOf(units))
    ensures MediaOf(units) != []
  {
  }

  lemma ReadBack(media: seq<ByteString>)
    requires GoodUnits(media) && media != []
    ensures AvccUnits(Avcc(media), 4) == Ok(media)
  {
    AvccRoundTrip(media);
    assert Avcc(media) == LengthField(|media[0]|) + media[0] + Avcc(media[1..]);
  }

  /** Connected and nothing sent, but the publisher considers its header sent. */
  predicate HeaderMissing(s: Sink) {
    && s.connection == Some([]) && !s.closed && s.waitingForIdr && s.avc.headerSent && SetsKnown(s.avc) && !s.aacSent
    && forall i :: 0 <= i < |s.lost| ==> WellOpened(s.lost[i])
  }

  /** The offset a packet asks for, when its times can be expressed. */
  function OffsetOf(packet: MediaPacket): Option<int> {
    var dts := Millis(if packet.dts.Some? then packet.dts.value else packet.pts);
    var pts := Millis(packet.pts);
    if dts.None? || pts.None? || !(I32_MIN <= pts.value - dts.value <= I32_MAX) then None
      else Some(pts.value - dts.value)
  }

  predicate LosesVideo(settings: Settings, s: Sink, packet: MediaPacket) {
    s.connection == Some([]) && OffsetOf(packet).Some?
      && Oversized(settings.codec, s.avc, OffsetOf(packet).value, packet.data)
  }

  lemma VideoKeeps(settings: Settings, s: Sink, packet: MediaPacket, answers: Answers)
    requires SinkInv(s) && s.connection.Some? && !s.closed && packet.codec.H264? && Honest(packet)
    requires s.waitingForIdr ==> packet.keyframe
    ensures var (after, result) := PublishVideo(settings, s, packet, answers);
            && after.connection.Some? && after.lost == s.lost && WellOpened(after.connection.value)
            && (LosesVideo(settings, s, packet) ==> !result.Io? && HeaderMissing(after))
            && (!LosesVideo(settings, s, packet) && !result.Io? ==> SinkInv(after))
  {
    hide Honest, IsAvcHeader, IsIdr, Publish, Millis, WellOpened, NoAudio, Deliver, SinkInv, VideoMessages, Oversized;
    InvOpen(s);
    var offset := OffsetOf(packet);
    if offset.Some? {
      var dts := WrapMillis(Millis(if packet.dts.Some? then packet.dts.value else packet.pts).value);
      var (avc, frames) := Publish(settings.codec, s.avc, dts, offset.value, packet.data);
      PublishKnowsSets(settings.codec, s.avc, dts, offset.value, packet.data);
      if s.connection.value == [] {
        ConversionFails(settings.codec, s.avc, dts, offset.value, packet.data);
      }
      if frames.Err? {
        ConversionLeaves(s, avc);
      } else {
        if s.connection.value == [] {
          KeyframeOpens(settings.codec, s.avc, packet, dts, offset.value);
        }
        OnlyVideoMessages(frames.value);
        VideoDelivered(s.(avc := avc), VideoMessages(frames.value), answers);
        var (after, result) := PublishVideo(settings, s, packet, answers);
        if result.Sent? {
          StaysOpen(s, after);
        }
      }
    }
  }

  /** A failed conversion leaves the log, and the gate unless a header went missing. */
  lemma ConversionLeaves(s: Sink, avc: Publisher)
    requires SinkInv(s) && s.connection.Some? && SetsKnown(avc) && !s.closed
    ensures var after := s.(avc := avc);
            if s.connection.value == [] && avc.headerSent then HeaderMissing(after) else SinkInv(after)
  {
    hide WellOpened;
    assert NoAudio([]);
  }

  lemma OnlyVideoMessages(frames: seq<VideoFrame>)
    ensures var messages := VideoMessages(frames);
            |messages| == |frames| && forall i :: 0 <= i < |messages| ==>
              messages[i] == Video(frames[i]) && messages[i].Video?
  {
  }

  lemma InvOpen(s: Sink)
    requires SinkInv(s) && s.connection.Some?
    ensures var log := s.connection.value;
            && WellOpened(log) && (s.aacSent ==> !NoAudio(log)) && SetsKnown(s.avc)
            && (log == [] ==> !s.avc.headerSent && s.waitingForIdr) && (log != [] ==> |log| >= 2)
  {
  }

  lemma StaysOpen(s: Sink, after: Sink)
    requires SinkInv(s) && s.connection.Some? && after.connection.Some? && after.lost == s.lost
    requires WellOpened(after.connection.value) && |after.connection.value| >= 2
    requires after.aacSent ==> !NoAudio(after.connection.value)
    requires SetsKnown(after.avc)
    ensures SinkInv(after)
  {
    hide WellOpened, NoAudio;
  }

  /** Video on a connection that is open, or the first two messages of a new one. */
  lemma VideoDelivered(s: Sink, messages: seq<Message>, answers: Answers)
    requires s.connection.Some? && WellOpened(s.connection.value)
             && (s.connection.value != [] ==> |s.connection.value| >= 2)
    requires forall i :: 0 <= i < |messages| ==> messages[i].Video?
    requires s.connection.value == [] ==> |messages| == 2 && IsAvcHeader(messages[0]) && IsIdr(messages[1])
    requires s.aacSent ==> !NoAudio(s.connection.value)
    ensures var (after, result) := Deliver(s, messages, answers);
            && after.connection.Some? && after == s.(connection := after.connection) && (result.Io? || result.Sent?)
            && WellOpened(after.connection.value)
            && (!result.Io? ==> |after.connection.value| >= 2 && (s.aacSent ==> !NoAudio(after.connection.value)))
  {
    hide IsAvcHeader, IsIdr, IsAacHeader;
    var log := s.connection.value;
    var taken := Min(answers.accepted, |messages|);
    if log == [] {
      assert [] + messages[..taken] == messages[..taken];
      OnlyVideo(messages[..taken]);
    } else {
      VideoAppended(log, messages[..taken]);
    }
  }

  lemma OnlyVideo(log: seq<Message>)
    requires |log| <= 2 && forall i :: 0 <= i < |log| ==> log[i].Video?
    requires (|log| > 0 ==> IsAvcHeader(log[0])) && (|log| > 1 ==> IsIdr(log[1]))
    ensures WellOpened(log)
  {
  }

  lemma AudioKeeps(s: Sink, packet: MediaPacket, answers: Answers)
    requires SinkInv(s) && s.connection.Some? && !s.waitingForIdr
    ensures var (after, result) := PublishAudio(s, packet, answers);
            && after.connection.Some? && after.lost == s.lost && WellOpened(after.connection.value)
            && (!result.Io? ==> SinkInv(after))
  {
    hide IsAvcHeader, IsIdr, Millis, Aac.Publishable, Aac.PayloadOf;
    var pts := Millis(packet.pts);
    if pts.Some? {
      var (sent, messages) := Aac.PushAdts(s.aacSent, WrapMillis(pts.value), packet.data);
      if messages.Ok? {
        var log, all := s.connection.value, AudioMessages(messages.value);
        var taken := Min(answers.accepted, |all|);
        AudioAppended(log, all[..taken]);
        if taken == |all| {
          NowHasAudio(log, all[..taken]);
        }
      }
    }
  }

  lemma EnsureKeeps(settings: Settings, s: Sink, answers: Answers)
    requires SinkInv(s)
    ensures SinkInv(EnsureConnected(settings, s, answers).0)
  {
    hide IsAvcHeader, IsIdr, IsAacHeader;
  }

  lemma ResetKeeps(s: Sink)
    requires SinkInv(s)
    ensures SinkInv(ResetGate(s))
  {
    hide IsAvcHeader, IsIdr, IsAacHeader;
  }

  lemma DisconnectKeeps(s: Sink, now: nat)
    requires s.connection.Some? && WellOpened(s.connection.value)
    requires forall i :: 0 <= i < |s.lost| ==> WellOpened(s.lost[i])
    ensures SinkInv(Disconnect(s, now))
  {
    hide WellOpened;
  }

  /** The call loses the header of its connection: it reaches the conversion on a connection without
      messages, and the access unit is oversized for what the publisher then knows. */
  predicate LosesHeader(settings: Settings, s: Sink, packet: MediaPacket, answers: Answers) {
    var (ready, failure) := EnsureConnected(settings, if packet.discontinuity then ResetGate(s) else s, answers);
    && failure.None? && packet.codec.H264? && packet.keyframe && answers.serviced
    && LosesVideo(settings, ready, packet)
  }

  ghost predicate LostWellOpened(s: Sink) {
    forall i :: 0 <= i < |s.lost| ==> WellOpened(s.lost[i])
  }

  lemma LostAre(s: Sink)
    requires SinkInv(s)
    ensures LostWellOpened(s) && (s.connection.Some? ==> WellOpened(s.connection.value))
    ensures s.connection == Some([]) ==> s.waitingForIdr
  {
  }

  lemma PublishKeeps(settings: Settings, s: Sink, packet: MediaPacket, answers: Answers)
    requires SinkInv(s) && Honest(packet)
    ensures var (after, result) := PublishPacket(settings, s, packet, answers);
            && LostWellOpened(after) && (after.connection.Some? ==> WellOpened(after.connection.value))
            && (LosesHeader(settings, s, packet, answers) ==> !result.Io? && HeaderMissing(after))
            && (!LosesHeader(settings, s, packet, answers) && !(result.Io? && after.connection.Some?) ==>
                SinkInv(after))
  {
    hide WellOpened, EnsureConnected, PublishVideo, PublishAudio, Honest, NoAudio, LosesVideo, SinkInv, HeaderMissing;
    var gated := if packet.discontinuity then ResetGate(s) else s;
    ResetKeeps(s);
    EnsureKeeps(settings, gated, answers);
    var (ready, failure) := EnsureConnected(settings, gated, answers);
    LostAre(ready);
    if failure.None? && (ready.waitingForIdr ==> packet.codec.H264? && packet.keyframe) && answers.serviced {
      match packet.codec
      case H264 =>
        VideoKeeps(settings, ready, packet, answers);
        OnlyKeyframesLose(settings, ready, packet);
      case AacLc => AudioKeeps(ready, packet, answers);
      case OtherCodec =>
    }
  }

  lemma OnlyKeyframesLose(settings: Settings, s: Sink, packet: MediaPacket)
    requires SinkInv(s) && (s.waitingForIdr ==> packet.keyframe)
    ensures LosesVideo(settings, s, packet) ==> packet.keyframe
  {
    hide Oversized, WellOpened;
  }

  /** Every call leaves every connection well opened; it keeps the invariant unless it loses a header. */
  lemma SendKeeps(settings: Settings, s: Sink, packet: MediaPacket, answers: Answers)
    requires SinkInv(s) && Honest(packet)
    ensures var after := SendPacket(settings, s, packet, answers).0;
            && AllWellOpened(after)
            && (if LosesHeader(settings, s, packet, answers) then HeaderMissing(after) else SinkInv(after))
  {
    hide WellOpened, PublishPacket, Honest, SinkInv, LosesHeader, HeaderMissing;
    PublishKeeps(settings, s, packet, answers);
    var (after, result) := PublishPacket(settings, s, packet, answers);
    if result.Io? && after.connection.Some? {
      DisconnectKeeps(after, answers.now);
      LostAre(Disconnect(after, answers.now));
    }
  }

  /** Every connection a sink has had. */
  function Connections(s: Sink): seq<seq<Message>> {
    s.lost + if s.connection.Some? then [s.connection.value] else []
  }

  ghost predicate AllWellOpened(s: Sink) {
    forall log :: log in Connections(s) ==> WellOpened(log)
  }

  // ----- whole runs -----

  datatype Event = Send(packet: MediaPacket, answers: Answers) | CloseSink

  function Step(settings: Settings, s: Sink, e: Event): Sink {
    match e
    case Send(packet, answers) => SendPacket(settings, s, packet, answers).0
    case CloseSink => Close(s)
  }

  function AfterAll(settings: Settings, s: Sink, events: seq<Event>): Sink
    decreases |events|
  {
    if events == [] then s else AfterAll(settings, Step(settings, s, events[0]), events[1..])
  }

  /** Honest packets, none of which loses a header. */
  predicate NoHeaderLost(settings: Settings, s: Sink, events: seq<Event>)
    decreases |events|
  {
    events != [] ==>
      && (events[0].Send? ==>
            Honest(events[0].packet) && !LosesHeader(settings, s, events[0].packet, events[0].answers))
      && NoHeaderLost(settings, Step(settings, s, events[0]), events[1..])
  }

  /** The media of a video packet fit the limit once length-prefixed, if they parse at all. */
  predicate Convertible(packet: MediaPacket) {
    packet.codec.H264? && AnnexBUnits(packet.data).Ok? ==>
      FramedSize(MediaOf(AnnexBUnits(packet.data).value)) <= MAX_ACCESS_UNIT_BYTES
  }

  predicate Plain(e: Event) {
    e.Send? ==> Honest(e.packet) && Convertible(e.packet)
  }

  lemma {:induction false} PlainLosesNothing(settings: Settings, s: Sink, events: seq<Event>)
    requires forall i :: 0 <= i < |events| ==> Plain(events[i])
    ensures NoHeaderLost(settings, s, events)
    decreases |events|
  {
    hide SendPacket, EnsureConnected, Honest, AnnexBUnits, Close, MediaOf, FramedSize, Learn, BuildHeader, Millis;
    if events != [] {
      assert Plain(events[0]);
      PlainLosesNothing(settings, Step(settings, s, events[0]), events[1..]);
    }
  }

  lemma CloseKeeps(s: Sink)
    requires SinkInv(s)
    ensures SinkInv(Close(s))
  {
    hide WellOpened;
  }

  lemma {:induction false} RunKeeps(settings: Settings, s: Sink, events: seq<Event>)
    requires SinkInv(s) && NoHeaderLost(settings, s, events)
    ensures SinkInv(AfterAll(settings, s, events))
    decreases |events|
  {
    hide SinkInv, SendPacket, Close, Honest, LosesHeader, HeaderMissing, AllWellOpened;
    if events != [] {
      if events[0].Send? {
        SendKeeps(settings, s, events[0].packet, events[0].answers);
      } else {
        CloseKeeps(s);
      }
      RunKeeps(settings, Step(settings, s, events[0]), events[1..]);
    }
  }

  lemma InvAllOpened(s: Sink)
    requires SinkInv(s)
    ensures AllWellOpened(s)
  {
    hide WellOpened;
  }

  /** Main result, over every sequence of packets, conversion failures, losses and reconnections, given
      only of each packet that a keyframe holds an IDR slice and that its media fit the limit: on each
      connection the first message is an AVC sequence header, the second an IDR access unit, and the
      first audio message the AAC sequence header. */
  lemma EveryConnectionWellOpened(settings: Settings, now: nat, events: seq<Event>)
    requires forall i :: 0 <= i < |events| ==> Plain(events[i])
    ensures AllWellOpened(AfterAll(settings, Opened(settings, now), events))
  {
    hide WellOpened, NoHeaderLost, Step, Plain, SinkInv, AllWellOpened, AfterAll;
    OpenedInv(settings, now);
    PlainLosesNothing(settings, Opened(settings, now), events);
    RunKeeps(settings, Opened(settings, now), events);
    InvAllOpened(AfterAll(settings, Opened(settings, now), events));
  }

  /** The exact condition, at every point of every run in which no header was lost before: some honest
      next call can open a connection wrongly if and only if this call loses its header. */
  lemma GateLostIff(settings: Settings, now: nat, events: seq<Event>, packet: MediaPacket, answers: Answers)
    requires NoHeaderLost(settings, Opened(settings, now), events) && Honest(packet)
    ensures var s := AfterAll(settings, Opened(settings, now), events);
            var after := SendPacket(settings, s, packet, answers).0;
            AllWellOpened(after) &&
            (LosesHeader(settings, s, packet, answers) <==>
               exists next: MediaPacket, reply: Answers ::
                 Honest(next) && !AllWellOpened(SendPacket(settings, after, next, reply).0))
  {
    hide WellOpened, NoHeaderLost, Step, SinkInv, AllWellOpened, AfterAll, SendPacket, LosesHeader, HeaderMissing,
      Honest, AnnexB;
    var s := AfterAll(settings, Opened(settings, now), events);
    OpenedInv(settings, now);
    RunKeeps(settings, Opened(settings, now), events);
    SendKeeps(settings, s, packet, answers);
    var after := SendPacket(settings, s, packet, answers).0;
    if LosesHeader(settings, s, packet, answers) {
      MissingBreaks(settings, after);
    } else {
      forall next: MediaPacket, reply: Answers | Honest(next)
        ensures AllWellOpened(SendPacket(settings, after, next, reply).0)
      {
        SendKeeps(settings, after, next, reply);
      }
    }
  }

  /** With the header missing, a keyframe without parameter sets is the first message. */
  lemma MissingBreaks(settings: Settings, s: Sink)
    requires HeaderMissing(s)
    ensures Honest(KeyframeOf(AnnexB([SLICE])))
    ensures !AllWellOpened(SendPacket(settings, s, KeyframeOf(AnnexB([SLICE])), HEALTHY).0)
  {
    hide Publish, AnnexB, AnnexBUnits, MediaFrame, SendPacket;
    BareKeyframe(settings.codec, s.avc);
    BareSent(settings, s, AnnexB([SLICE]));
    NotAHeader();
    var after := SendPacket(settings, s, KeyframeOf(AnnexB([SLICE])), HEALTHY).0;
    assert after.connection.value in Connections(after);
  }

  lemma OpenedInv(settings: Settings, now: nat)
    ensures SinkInv(Opened(settings, now))
  {
  }

  // ----- the concrete case -----

  function KeyframeOf(data: ByteString): MediaPacket {
    MediaPacket(H264, Timestamp(0, 1000), None, true, false, data)
  }

  /** A healthy connection. */
  const HEALTHY: Answers := Answers(0, None, true, 2, true)

  lemma BareKeyframe(codec: HeaderCodec, p: Publisher)
    requires p.headerSent && p.sps != [] && p.pps != []
    ensures Publish(codec, p, 0, 0, AnnexB([SLICE])) == (p, Ok([MediaFrame(0, 0, true, [SLICE])]))
    ensures Honest(KeyframeOf(AnnexB([SLICE])))
  {
    hide Publish, AnnexBUnits, AnnexB, MediaOf, OfType, WellParsed, UnitBytes, Avcc;
    assert GoodUnits([SLICE]);
    AnnexBRoundTrip([SLICE]);
    assert |AnnexB([SLICE])| == FramedSize([SLICE]) == 5;
    ParsedAreGood(AnnexB([SLICE]));
    var units := AnnexBUnits(AnnexB([SLICE])).value;
    assert Slices(1) == [SLICE];
    SlicesOnly(units, 1);
    BarePublished(codec, p, AnnexB([SLICE]), units);
  }

  lemma BarePublished(codec: HeaderCodec, p: Publisher, data: ByteString, units: seq<NalUnit>)
    requires p.headerSent && AnnexBUnits(data) == Ok(units) && |data| <= MAX_ACCESS_UNIT_BYTES && WellParsed(units)
    requires p.sps != [] && p.pps != []
    requires MediaOf(units) == [SLICE] && OfType(units, 7) == [] && OfType(units, 8) == []
             && OfType(units, 5) == [SLICE]
    ensures GoodUnits([SLICE])
    ensures Publish(codec, p, 0, 0, data) == (p, Ok([MediaFrame(0, 0, true, [SLICE])]))
  {
    hide AnnexBUnits, MediaOf, OfType, WellParsed, Avcc, BuildHeader;
    assert FramedSize([SLICE]) == 5;
    MediaIsGood(units);
    var frame := MediaFrame(0, 0, true, [SLICE]);
    assert [] + [frame] == [frame];
  }

  /** Two honest keyframes, the first of which cannot be converted after its header was recorded as sent:
      the connection stays open, and its first message is an access unit without a header. */
  lemma ConversionErrorBreaksTheGate(settings: Settings)
    requires settings.codec.toBytes(AvcHeader(0x64, 0x01, 0x1f, 3, [SPS], [PPS])).Some?
    ensures var first := Send(KeyframeOf(ShortAnnexB(ManySlices(SLICES))), HEALTHY);
            var second := Send(KeyframeOf(AnnexB([SLICE])), HEALTHY);
            && Honest(first.packet) && Honest(second.packet)
            && SendPacket(settings, Opened(settings, 0), first.packet, HEALTHY).1.MediaFailed?
            && var end := AfterAll(settings, Opened(settings, 0), [first, second]);
               end.connection == Some([Video(MediaFrame(0, 0, true, [SLICE]))]) && !WellOpened(end.connection.value)
  {
    hide Publish, ShortAnnexB, ManySlices, AnnexB, AnnexBUnits, OfType, MediaFrame;
    HeaderCanBeLost(settings.codec);
    var lossy, bare := ShortAnnexB(ManySlices(SLICES)), AnnexB([SLICE]);
    var first, second := Send(KeyframeOf(lossy), HEALTHY), Send(KeyframeOf(bare), HEALTHY);
    assert Millis(Timestamp(0, 1000)) == Some(0);
    var failed := Opened(settings, 0).(avc := Publisher([SPS], [PPS], true));
    assert SendPacket(settings, Opened(settings, 0), first.packet, HEALTHY) == (failed, MediaFailed);
    BareKeyframe(settings.codec, failed.avc);
    BareSent(settings, failed, bare);
    AfterTwo(settings, Opened(settings, 0), first, second);
    NotAHeader();
  }

  lemma AfterTwo(settings: Settings, s: Sink, a: Event, b: Event)
    ensures AfterAll(settings, s, [a, b]) == Step(settings, Step(settings, s, a), b)
  {
    hide Step;
    assert [a, b][1..] == [b] && [b][1..] == [];
    var after := Step(settings, Step(settings, s, a), b);
    assert AfterAll(settings, Step(settings, s, a), [b]) == AfterAll(settings, after, []) == after;
  }

  lemma BareSent(settings: Settings, s: Sink, data: ByteString)
    requires s.connection == Some([]) && s.waitingForIdr && !s.closed
    requires Publish(settings.codec, s.avc, 0, 0, data) == (s.avc, Ok([MediaFrame(0, 0, true, [SLICE])]))
    ensures SendPacket(settings, s, KeyframeOf(data), HEALTHY).0.connection ==
            Some([Video(MediaFrame(0, 0, true, [SLICE]))])
  {
    hide Publish, MediaFrame;
    assert Millis(Timestamp(0, 1000)) == Some(0);
    var messages := VideoMessages([MediaFrame(0, 0, true, [SLICE])]);
    assert [] + messages[..1] == [Video(MediaFrame(0, 0, true, [SLICE]))];
  }

  lemma NotAHeader()
    ensures !IsAvcHeader([Video(MediaFrame(0, 0, true, [SLICE]))][0])
  {
    assert GoodUnits([SLICE]);
  }

  // ----- the sink object -----

  class RtmpPacketSink {
    const settings: Settings
    var connection: Option<seq<Message>>
    ghost var lost: seq<seq<Message>>
    var reconnecting: bool
    var nextRetry: nat
    var backoff: nat
    var waitingForIdr: bool
    var avc: Publisher
    var aacSent: bool
    var closed: bool

    ghost function View(): Sink
      reads this
    {
      Sink(connection, lost, reconnecting, nextRetry, backoff, waitingForIdr, avc, aacSent, closed)
    }

    constructor (settings: Settings, now: nat)
      ensures this.settings == settings && View() == Opened(settings, now) && SinkInv(View())
    {
      this.settings := settings;
      connection, lost, reconnecting, nextRetry, backoff := Some([]), [], false, now, settings.initialBackoff;
      waitingForIdr, avc, aacSent, closed := true, FRESH_PUBLISHER, false, false;
      new;
      OpenedInv(settings, now);
    }

    method ResetMediaGate()
      modifies `waitingForIdr, `avc, `aacSent
      ensures View() == ResetGate(old(View()))
    {
      waitingForIdr := true;
      avc := FRESH_PUBLISHER;
      aacSent := false;
    }

    method LoseConnection(now: nat)
      requires connection.Some?
      modifies this
      ensures View() == Disconnect(old(View()), now)
    {
      lost := lost + [connection.value];
      connection := None;
      nextRetry := now;
      ResetMediaGate();
    }

    method Connect(answers: Answers) returns (failure: Option<SendResult>)
      modifies this
      ensures (View(), failure) == EnsureConnected(settings, old(View()), answers)
    {
      if closed {
        return Some(Processing);
      }
      if connection.Some? {
        return None;
      }
      if !settings.reconnect {
        return Some(Processing);
      }
      if reconnecting && answers.attempt.Some? {
        reconnecting := false;
        match answers.attempt.value {
          case TaskLost => return Some(Io);
          case Connected =>
            connection := Some([]);
            backoff := settings.initialBackoff;
            ResetMediaGate();
            return None;
          case Refused(retryable) =>
            if retryable {
              nextRetry := answers.now + backoff;
              backoff := Min(2 * backoff, settings.maxBackoff);
              return Some(Io);
            }
            return Some(Processing);
        }
      }
      if reconnecting || answers.now < nextRetry {
        return Some(Io);
      }
      reconnecting := true;
      return Some(Io);
    }

    /** Messages go to the session one by one until it fails; then the socket is flushed. */
    method Give(messages: seq<Message>, answers: Answers) returns (result: SendResult)
      requires connection.Some?
      modifies `connection
      ensures (View(), result) == Deliver(old(View()), messages, answers)
    {
      var log := connection.value;
      var i := 0;
      assert messages[..0] == [] && log + [] == log;
      while i < |messages| && i < answers.accepted
        invariant i <= |messages| && i <= answers.accepted
        invariant connection == Some(log + messages[..i])
        invariant View() == old(View()).(connection := connection)
      {
        assert messages[..i + 1] == messages[..i] + [messages[i]];
        assert log + (messages[..i] + [messages[i]]) == log + messages[..i] + [messages[i]];
        connection := Some(connection.value + [messages[i]]);
        i := i + 1;
      }
      return if i < |messages| || !answers.flushed then Io else Sent;
    }

    method SendVideo(packet: MediaPacket, answers: Answers) returns (result: SendResult)
      requires connection.Some?
      modifies `connection, `waitingForIdr, `avc
      ensures (View(), result) == PublishVideo(settings, old(View()), packet, answers)
    {
      hide Publish;
      var dts := Millis(if packet.dts.Some? then packet.dts.value else packet.pts);
      var pts := Millis(packet.pts);
      if dts.None? || pts.None? || !(I32_MIN <= pts.value - dts.value <= I32_MAX) {
        return BadTimestamp;
      }
      var (next, frames) := Publish(settings.codec, avc, WrapMillis(dts.value), pts.value - dts.value, packet.data);
      avc := next;
      if frames.Err? {
        return MediaFailed;
      }
      result := Give(VideoMessages(frames.value), answers);
      if result.Sent? && packet.keyframe {
        waitingForIdr := false;
      }
    }

    method SendAudio(packet: MediaPacket, answers: Answers) returns (result: SendResult)
      requires connection.Some?
      modifies `connection, `aacSent
      ensures (View(), result) == PublishAudio(old(View()), packet, answers)
    {
      var pts := Millis(packet.pts);
      if pts.None? {
        return BadTimestamp;
      }
      var (sent, messages) := Aac.PushAdts(aacSent, WrapMillis(pts.value), packet.data);
      aacSent := sent;
      if messages.Err? {
        return MediaFailed;
      }
      result := Give(AudioMessages(messages.value), answers);
    }

    method PublishOne(packet: MediaPacket, answers: Answers) returns (result: SendResult)
      modifies this
      ensures (View(), result) == PublishPacket(settings, old(View()), packet, answers)
    {
      hide PublishVideo, PublishAudio, EnsureConnected;
      if packet.discontinuity {
        ResetMediaGate();
      }
      var failure := Connect(answers);
      if failure.Some? {
        return failure.value;
      }
      if waitingForIdr && (!packet.codec.H264? || !packet.keyframe) {
        return DroppedAwaitingKeyframe;
      }
      if !answers.serviced {
        return Io;
      }
      match packet.codec {
        case H264 => result := SendVideo(packet, answers);
        case AacLc => result := SendAudio(packet, answers);
        case OtherCodec => return UnsupportedCodec;
      }
    }

    method SendPacketNow(packet: MediaPacket, answers: Answers) returns (result: SendResult)
      modifies this
      ensures (View(), result) == SendPacket(settings, old(View()), packet, answers)
      ensures old(SinkInv(View())) && Honest(packet) && !LosesHeader(settings, old(View()), packet, answers) ==>
                SinkInv(View())
    {
      hide PublishPacket, SinkInv, Honest, LosesHeader, HeaderMissing, AllWellOpened;
      ghost var before := View();
      result := PublishOne(packet, answers);
      if result.Io? && connection.Some? {
        LoseConnection(answers.now);
      }
      if SinkInv(before) && Honest(packet) {
        SendKeeps(settings, before, packet, answers);
      }
    }

    method CloseNow()
      modifies this
      ensures View() == Close(old(View()))
    {
      closed := true;
      reconnecting := false;
      if connection.Some? {
        lost := lost + [connection.value];
        connection := None;
      }
    }
  }
}
