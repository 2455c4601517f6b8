/** What the RTMP output lets through: when its gate is open, over every run, and what a connection then
    carries (crates/rtmp/src/sink.rs:181-294). */
module GateOpens {
  import opened Bytes
  import opened Avc
  import opened SinkGate
  import Aac
  import Video = AvcRoundTrip

  // ----- when the gate is open -----

  /** The sink before the k-th event of a run. */
  function SinkAt(settings: Settings, now: nat, events: seq<Event>, k: nat): Sink
    requires k <= |events|
    decreases k
  {
    if k == 0 then Opened(settings, now) else Step(settings, SinkAt(settings, now, events, k - 1), events[k - 1])
  }

  predicate PassesGate(s: Sink) {
    s.connection.Some? && !s.waitingForIdr
  }

  /** A video keyframe that is sent. */
  predicate OpensNow(settings: Settings, s: Sink, e: Event) {
    e.Send? && e.packet.codec.H264? && e.packet.keyframe && SendPacket(settings, s, e.packet, e.answers).1.Sent?
  }

  predicate Interrupts(e: Event) {
    e.Send? && e.packet.discontinuity
  }

  lemma GateStep(settings: Settings, s: Sink, e: Event)
    ensures var after := Step(settings, s, e);
            PassesGate(after) <==>
            OpensNow(settings, s, e) || (PassesGate(s) && after.connection.Some? && !Interrupts(e))
  {
    hide Publish, Aac.PushAdts, Millis, VideoMessages, AudioMessages;
  }

  /** A keyframe was sent by event `i`, and from then to event `k` the connection stayed and no packet was
      marked as a discontinuity. */
  predicate OpenSince(settings: Settings, now: nat, events: seq<Event>, i: nat, k: nat)
    requires i < k <= |events|
  {
    && OpensNow(settings, SinkAt(settings, now, events, i), events[i])
    && (forall j :: i < j < k ==> !Interrupts(events[j]))
    && forall j :: i < j <= k ==> SinkAt(settings, now, events, j).connection.Some?
  }

  lemma OpenGrows(settings: Settings, now: nat, events: seq<Event>, i: nat, k: nat)
    requires i < k < |events|
    ensures OpenSince(settings, now, events, i, k + 1) <==>
            && OpenSince(settings, now, events, i, k) && !Interrupts(events[k])
            && SinkAt(settings, now, events, k + 1).connection.Some?
  {
    hide SinkAt, OpensNow, Interrupts;
  }

  lemma OpenBegins(settings: Settings, now: nat, events: seq<Event>, k: nat)
    requires k < |events|
    ensures OpenSince(settings, now, events, k, k + 1) <==>
            OpensNow(settings, SinkAt(settings, now, events, k), events[k])
  {
    hide Interrupts, Publish, Aac.PushAdts, Millis, VideoMessages, AudioMessages;
  }

  /** Main result, at every point of every run: the gate of a live connection is open if and only if a video
      keyframe was sent on it and no packet since was marked as a discontinuity. */
  lemma {:induction false} GateOpenIff(settings: Settings, now: nat, events: seq<Event>, k: nat)
    requires k <= |events|
    ensures PassesGate(SinkAt(settings, now, events, k)) <==>
            exists i :: 0 <= i < k && OpenSince(settings, now, events, i, k)
    decreases k
  {
    hide OpenSince, OpensNow, Interrupts, PassesGate, Step;
    if k == 0 {
      assert !PassesGate(Opened(settings, now)) by { NotOpenYet(settings, now); }
    } else {
      var last := k - 1;
      var s := SinkAt(settings, now, events, last);
      GateOpenIff(settings, now, events, last);
      GateStep(settings, s, events[last]);
      OpenBegins(settings, now, events, last);
      forall i | 0 <= i < last
        ensures OpenSince(settings, now, events, i, k) <==>
                && OpenSince(settings, now, events, i, last) && !Interrupts(events[last])
                && SinkAt(settings, now, events, k).connection.Some?
      {
        OpenGrows(settings, now, events, i, last);
      }
      if i :| 0 <= i < last && OpenSince(settings, now, events, i, last) {
        assert OpenSince(settings, now, events, i, k) <==>
               !Interrupts(events[last]) && SinkAt(settings, now, events, k).connection.Some?;
      }
    }
  }

  lemma NotOpenYet(settings: Settings, now: nat)
    ensures !PassesGate(Opened(settings, now))
  {
  }

  lemma StepLive(settings: Settings, s: Sink, e: Event)
    requires s.connection.Some? ==> !s.closed
    ensures Step(settings, s, e).connection.Some? ==> !Step(settings, s, e).closed
  {
    hide Publish, Aac.PushAdts, Millis, VideoMessages, AudioMessages;
  }

  lemma {:induction false} LiveIsOpen(settings: Settings, now: nat, events: seq<Event>, k: nat)
    requires k <= |events|
    ensures SinkAt(settings, now, events, k).connection.Some? ==> !SinkAt(settings, now, events, k).closed
    decreases k
  {
    hide Step;
    if k > 0 {
      LiveIsOpen(settings, now, events, k - 1);
      StepLive(settings, SinkAt(settings, now, events, k - 1), events[k - 1]);
    }
  }

  /** Main result: which packets a live connection drops to wait for a keyframe. A video keyframe never is;
      anything else is if and only if it is marked as a discontinuity or no keyframe was sent since the
      connection began and the last such mark. */
  lemma DroppedIff(settings: Settings, now: nat, events: seq<Event>, k: nat)
    requires k < |events| && events[k].Send? && SinkAt(settings, now, events, k).connection.Some?
    ensures var packet := events[k].packet;
            SendPacket(settings, SinkAt(settings, now, events, k), packet, events[k].answers).1.DroppedAwaitingKeyframe?
            <==> !(packet.codec.H264? && packet.keyframe)
                 && (packet.discontinuity || !exists i :: 0 <= i < k && OpenSince(settings, now, events, i, k))
  {
    hide OpenSince, SinkAt, Publish, Aac.PushAdts, Millis, VideoMessages, AudioMessages;
    GateOpenIff(settings, now, events, k);
    LiveIsOpen(settings, now, events, k);
  }

  // ----- what one call gives to the session -----

  /** The messages of a packet, and the publishers after it. */
  datatype Conversion = Conversion(avc: Publisher, aacSent: bool, messages: seq<Message>)

  /** The call reaches the session of a live connection with this conversion. */
  predicate Converts(settings: Settings, s: Sink, packet: MediaPacket, c: Conversion) {
    match packet.codec
    case H264 =>
      OffsetOf(packet).Some? &&
      var dts := WrapMillis(Millis(if packet.dts.Some? then packet.dts.value else packet.pts).value);
      var (avc, frames) := Publish(settings.codec, s.avc, dts, OffsetOf(packet).value, packet.data);
      frames.Ok? && c == Conversion(avc, s.aacSent, VideoMessages(frames.value))
    case AacLc =>
      Millis(packet.pts).Some? &&
      var (sent, messages) := Aac.PushAdts(s.aacSent, WrapMillis(Millis(packet.pts).value), packet.data);
      messages.Ok? && c == Conversion(s.avc, sent, AudioMessages(messages.value))
    case OtherCodec => false
  }

  /** A time in milliseconds is the exact time, truncated toward zero; it is missing if and only if the
      timescale is zero or the result does not fit 64 bits. */
  lemma MillisMeans(t: Timestamp)
    ensures Millis(t).None? <==>
            t.timescale == 0 || t.ticks * 1000 >= 0x8000_0000_0000_0000 * t.timescale
            || t.ticks * 1000 <= -0x8000_0000_0000_0001 * t.timescale
    ensures Millis(t).Some? ==>
              var ms := Millis(t).value;
              if t.ticks >= 0 then ms * t.timescale <= t.ticks * 1000 < (ms + 1) * t.timescale
              else (ms - 1) * t.timescale < t.ticks * 1000 <= ms * t.timescale
  {
    hide Truncated;
    if t.timescale > 0 {
      var a := t.ticks * 1000;
      TruncatedMeans(a, t.timescale);
      if a >= 0 {
        Reaches(a, t.timescale, Truncated(a, t.timescale), 0x8000_0000_0000_0000);
      } else {
        Opposite(a, t.timescale, Truncated(a, t.timescale));
        Reaches(-a, t.timescale, -Truncated(a, t.timescale), 0x8000_0000_0000_0001);
      }
    }
  }

  lemma TruncatedMeans(a: int, d: nat)
    requires d > 0
    ensures var q := Truncated(a, d);
            if a >= 0 then 0 <= q && q * d <= a < (q + 1) * d else q <= 0 && (q - 1) * d < a <= q * d
  {
    if a >= 0 {
      Quotient(a, d, a / d);
    } else {
      Quotient(-a, d, -a / d);
      Opposite(-a, d, -a / d);
    }
  }

  lemma Quotient(n: nat, d: nat, q: nat)
    requires d > 0 && q == n / d
    ensures q * d <= n < (q + 1) * d
  {
  }

  lemma Opposite(a: int, d: nat, q: int)
    ensures -q * d == -(q * d) && (-q - 1) * d == -((q + 1) * d) && (-q + 1) * d == -((q - 1) * d)
  {
  }

  lemma Reaches(n: nat, d: nat, q: nat, limit: nat)
    requires d > 0 && q * d <= n < (q + 1) * d
    ensures q >= limit <==> n >= limit * d
  {
    if q >= limit {
      assert q * d >= limit * d;
    } else {
      assert (q + 1) * d <= limit * d;
    }
  }

  predicate Admits(s: Sink, packet: MediaPacket) {
    && s.connection.Some? && !s.closed && !packet.discontinuity
    && (s.waitingForIdr ==> packet.codec.H264? && packet.keyframe)
  }

  /** On a live connection whose gate admits the packet, the log grows by exactly the messages that the
      session takes of its conversion; the call is sent exactly if it takes them all and the socket takes
      its bytes, and otherwise the connection is lost with what it was given. */
  lemma CallGives(settings: Settings, s: Sink, packet: MediaPacket, answers: Answers, c: Conversion)
    requires Admits(s, packet) && answers.serviced && Converts(settings, s, packet, c)
    ensures var (after, result) := SendPacket(settings, s, packet, answers);
            var taken := Min(answers.accepted, |c.messages|);
            var log := s.connection.value + c.messages[..taken];
            if taken == |c.messages| && answers.flushed then
              && result.Sent? && log == s.connection.value + c.messages
              && after == s.(connection := Some(log), avc := c.avc, aacSent := c.aacSent,
                             waitingForIdr := s.waitingForIdr && !(packet.codec.H264? && packet.keyframe))
            else result.Io? && after.connection.None? && after.lost == s.lost + [log]
  {
    hide Publish, Aac.PushAdts, Millis;
    assert c.messages[..|c.messages|] == c.messages;
  }

  /** Exactly such calls are sent. */
  lemma SentIff(settings: Settings, s: Sink, packet: MediaPacket, answers: Answers)
    requires s.connection.Some? && !s.closed && !packet.discontinuity
    ensures SendPacket(settings, s, packet, answers).1.Sent? <==>
            && Admits(s, packet) && answers.serviced
            && exists c: Conversion :: Converts(settings, s, packet, c)
                                       && answers.accepted >= |c.messages| && answers.flushed
  {
    hide Publish, Aac.PushAdts, Millis, VideoMessages, AudioMessages;
    if c: Conversion :| Admits(s, packet) && answers.serviced && Converts(settings, s, packet, c) {
      CallGives(settings, s, packet, answers, c);
      forall d: Conversion | Converts(settings, s, packet, d) ensures d == c {}
    } else if Admits(s, packet) && answers.serviced {
      match packet.codec
      case H264 =>
        if OffsetOf(packet).Some? {
          var dts := WrapMillis(Millis(if packet.dts.Some? then packet.dts.value else packet.pts).value);
          var (avc, frames) := Publish(settings.codec, s.avc, dts, OffsetOf(packet).value, packet.data);
          assert frames.Ok? ==> Converts(settings, s, packet, Conversion(avc, s.aacSent, VideoMessages(frames.value)));
        }
      case AacLc =>
        if Millis(packet.pts).Some? {
          var (sent, messages) := Aac.PushAdts(s.aacSent, WrapMillis(Millis(packet.pts).value), packet.data);
          assert messages.Ok? ==> Converts(settings, s, packet, Conversion(s.avc, sent, AudioMessages(messages.value)));
        }
      case OtherCodec =>
    }
  }

  // ----- what a connection carries -----

  function VideosOf(log: seq<Message>): seq<VideoFrame>
    decreases |log|
  {
    if log == [] then [] else (if log[0].Video? then [log[0].frame] else []) + VideosOf(log[1..])
  }

  function AudiosOf(log: seq<Message>): seq<Aac.AudioMessage>
    decreases |log|
  {
    if log == [] then [] else (if log[0].Audio? then [log[0].message] else []) + AudiosOf(log[1..])
  }

  lemma {:induction false} VideosAppend(a: seq<Message>, b: seq<Message>)
    ensures VideosOf(a + b) == VideosOf(a) + VideosOf(b)
    decreases |a|
  {
    if a == [] {
      assert a + b == b;
    } else {
      assert (a + b)[0] == a[0] && (a + b)[1..] == a[1..] + b;
      VideosAppend(a[1..], b);
    }
  }

  lemma {:induction false} AudiosAppend(a: seq<Message>, b: seq<Message>)
    ensures AudiosOf(a + b) == AudiosOf(a) + AudiosOf(b)
    decreases |a|
  {
    if a == [] {
      assert a + b == b;
    } else {
      assert (a + b)[0] == a[0] && (a + b)[1..] == a[1..] + b;
      AudiosAppend(a[1..], b);
    }
  }

  lemma {:induction false} OnlyVideos(frames: seq<VideoFrame>)
    ensures VideosOf(VideoMessages(frames)) == frames && AudiosOf(VideoMessages(frames)) == []
    decreases |frames|
  {
    if frames != [] {
      assert VideoMessages(frames)[1..] == VideoMessages(frames[1..]);
      OnlyVideos(frames[1..]);
      assert frames == [frames[0]] + frames[1..];
    }
  }

  lemma {:induction false} OnlyAudios(messages: seq<Aac.AudioMessage>)
    ensures AudiosOf(AudioMessages(messages)) == messages && VideosOf(AudioMessages(messages)) == []
    decreases |messages|
  {
    if messages != [] {
      assert AudioMessages(messages)[1..] == AudioMessages(messages[1..]);
      OnlyAudios(messages[1..]);
      assert messages == [messages[0]] + messages[1..];
    }
  }

  function VideoInput(packet: MediaPacket): Video.Input
    requires OffsetOf(packet).Some?
  {
    Video.Input(WrapMillis(Millis(if packet.dts.Some? then packet.dts.value else packet.pts).value),
                OffsetOf(packet).value, packet.data)
  }

  function AudioInput(packet: MediaPacket): Aac.Input
    requires Millis(packet.pts).Some?
  {
    Aac.Input(WrapMillis(Millis(packet.pts).value), packet.data)
  }

  /** Calls that are all sent, on one connection and without a mark. */
  predicate AllSent(settings: Settings, s: Sink, events: seq<Event>)
    decreases |events|
  {
    events != [] ==>
      && events[0].Send? && !events[0].packet.discontinuity
      && SendPacket(settings, s, events[0].packet, events[0].answers).1.Sent?
      && AllSent(settings, Step(settings, s, events[0]), events[1..])
  }

  predicate Timed(events: seq<Event>) {
    forall i :: 0 <= i < |events| && events[i].Send? ==>
      && (events[i].packet.codec.H264? ==> OffsetOf(events[i].packet).Some?)
      && (events[i].packet.codec.AacLc? ==> Millis(events[i].packet.pts).Some?)
  }

  function VideoInputs(events: seq<Event>): seq<Video.Input>
    requires Timed(events)
    decreases |events|
  {
    if events == [] then []
    else
      var e := events[0];
      assert Timed(events[1..]) by { TimedRest(events); }
      (if e.Send? && e.packet.codec.H264? then [VideoInput(e.packet)] else []) + VideoInputs(events[1..])
  }

  function AudioInputs(events: seq<Event>): seq<Aac.Input>
    requires Timed(events)
    decreases |events|
  {
    if events == [] then []
    else
      var e := events[0];
      assert Timed(events[1..]) by { TimedRest(events); }
      (if e.Send? && e.packet.codec.AacLc? then [AudioInput(e.packet)] else []) + AudioInputs(events[1..])
  }

  lemma TimedRest(events: seq<Event>)
    requires Timed(events) && events != []
    ensures Timed(events[1..])
  {
    hide OffsetOf, Millis;
    forall i | 0 <= i < |events[1..]| && events[1..][i].Send?
      ensures events[1..][i].packet.codec.H264? ==> OffsetOf(events[1..][i].packet).Some?
      ensures events[1..][i].packet.codec.AacLc? ==> Millis(events[1..][i].packet.pts).Some?
    {
      assert events[1..][i] == events[i + 1];
    }
  }

  predicate AllPublishable(inputs: seq<Aac.Input>) {
    forall i :: 0 <= i < |inputs| ==> Aac.Publishable(inputs[i].adts)
  }

  /** What the log grows by over such calls: the publishers' runs on the packets of their codec. */
  ghost predicate Carries(settings: Settings, s: Sink, events: seq<Event>) {
    var end := AfterAll(settings, s, events);
    && s.connection.Some? && end.connection.Some?
    && s.connection.value <= end.connection.value && end.lost == s.lost
    && Timed(events)
    && var grown := end.connection.value[|s.connection.value|..];
       var videos, audios := VideoInputs(events), AudioInputs(events);
       && Video.ErrorFree(settings.codec, s.avc, videos) && AllPublishable(audios)
       && VideosOf(grown) == Video.FramesOf(settings.codec, s.avc, videos)
       && AudiosOf(grown) == Aac.Published(s.aacSent, audios)
  }

  /** One sent call, as one step of the publisher of its codec. */
  lemma SentConverts(settings: Settings, s: Sink, e: Event) returns (c: Conversion)
    requires s.connection.Some? && !s.closed && e.Send? && !e.packet.discontinuity
    requires SendPacket(settings, s, e.packet, e.answers).1.Sent?
    ensures Converts(settings, s, e.packet, c) && Admits(s, e.packet)
    ensures var after := Step(settings, s, e);
            && after.connection == Some(s.connection.value + c.messages) && after.lost == s.lost && !after.closed
            && after.avc == c.avc && after.aacSent == c.aacSent
  {
    hide Converts, SendPacket;
    SentIff(settings, s, e.packet, e.answers);
    c :| Converts(settings, s, e.packet, c) && e.answers.accepted >= |c.messages| && e.answers.flushed;
    CallGives(settings, s, e.packet, e.answers, c);
  }

  lemma {:induction false} SentCarries(settings: Settings, s: Sink, events: seq<Event>)
    requires s.connection.Some? && !s.closed && AllSent(settings, s, events)
    ensures Carries(settings, s, events)
    decreases |events|
  {
    hide Step, SendPacket, Converts, Carries, Publish, Aac.PushAdts, OffsetOf, Millis, VideoMessages, AudioMessages;
    if events == [] {
      NothingCarried(settings, s);
    } else {
      var e, rest := events[0], events[1..];
      var c := SentConverts(settings, s, e);
      SentCarries(settings, Step(settings, s, e), rest);
      CarriesMore(settings, s, events, c);
    }
  }

  lemma NothingCarried(settings: Settings, s: Sink)
    requires s.connection.Some?
    ensures Carries(settings, s, [])
  {
    assert s.connection.value[|s.connection.value|..] == [];
  }

  lemma VideoRunMore(codec: HeaderCodec, p: Publisher, input: Video.Input, rest: seq<Video.Input>)
    requires var (next, r) := Publish(codec, p, input.dts, input.offset, input.annexB);
             r.Ok? && Video.ErrorFree(codec, next, rest)
    ensures Video.ErrorFree(codec, p, [input] + rest)
    ensures var (next, r) := Publish(codec, p, input.dts, input.offset, input.annexB);
            Video.FramesOf(codec, p, [input] + rest) == r.value + Video.FramesOf(codec, next, rest)
  {
    hide Publish;
    assert ([input] + rest)[1..] == rest;
  }

  lemma AudioRunMore(headerSent: bool, input: Aac.Input, rest: seq<Aac.Input>)
    requires Aac.PushAdts(headerSent, input.timestamp, input.adts).1.Ok? && AllPublishable(rest)
    ensures AllPublishable([input] + rest)
    ensures var (sent, r) := Aac.PushAdts(headerSent, input.timestamp, input.adts);
            Aac.Published(headerSent, [input] + rest) == r.value + Aac.Published(sent, rest)
  {
    hide Aac.Publishable, Aac.PayloadOf;
    assert ([input] + rest)[1..] == rest;
  }

  lemma InputsMore(events: seq<Event>)
    requires events != [] && events[0].Send? && Timed(events) && Timed(events[1..])
    ensures var packet := events[0].packet;
            && VideoInputs(events) ==
               (if packet.codec.H264? then [VideoInput(packet)] else []) + VideoInputs(events[1..])
            && AudioInputs(events) ==
               (if packet.codec.AacLc? then [AudioInput(packet)] else []) + AudioInputs(events[1..])
  {
    hide OffsetOf, Millis;
  }

  lemma CarriesMore(settings: Settings, s: Sink, events: seq<Event>, c: Conversion)
    requires events != [] && events[0].Send? && s.connection.Some? && Converts(settings, s, events[0].packet, c)
    requires var after := Step(settings, s, events[0]);
             && after.connection == Some(s.connection.value + c.messages) && after.lost == s.lost
             && after.avc == c.avc && after.aacSent == c.aacSent
    requires Carries(settings, Step(settings, s, events[0]), events[1..])
    ensures Carries(settings, s, events)
  {
    hide Step, Publish, Millis, OffsetOf, WrapMillis, VideoMessages, AudioMessages, Aac.PushAdts, Timed, VideoInputs,
      AudioInputs, VideosOf, AudiosOf, Video.ErrorFree, Video.FramesOf, Aac.Published, AllPublishable;
    var packet, rest, after := events[0].packet, events[1..], Step(settings, s, events[0]);
    var end := AfterAll(settings, s, events);
    assert end == AfterAll(settings, after, rest);
    var later := end.connection.value[|after.connection.value|..];
    assert end.connection.value[|s.connection.value|..] == c.messages + later;
    TimedMore(settings, s, events, c);
    InputsMore(events);
    VideosAppend(c.messages, later);
    AudiosAppend(c.messages, later);
    match packet.codec
    case H264 =>
      var input := VideoInput(packet);
      OnlyVideos(Publish(settings.codec, s.avc, input.dts, input.offset, packet.data).1.value);
      VideoRunMore(settings.codec, s.avc, input, VideoInputs(rest));
      assert [] + AudioInputs(rest) == AudioInputs(rest) && [] + AudiosOf(later) == AudiosOf(later);
    case AacLc =>
      var input := AudioInput(packet);
      OnlyAudios(Aac.PushAdts(s.aacSent, input.timestamp, packet.data).1.value);
      AudioRunMore(s.aacSent, input, AudioInputs(rest));
      assert [] + VideoInputs(rest) == VideoInputs(rest) && [] + VideosOf(later) == VideosOf(later);
    case OtherCodec =>
  }

  lemma TimedMore(settings: Settings, s: Sink, events: seq<Event>, c: Conversion)
    requires events != [] && events[0].Send? && Converts(settings, s, events[0].packet, c) && Timed(events[1..])
    ensures Timed(events)
  {
    hide OffsetOf, Millis, Publish, Aac.PushAdts;
    forall i | 0 <= i < |events| && events[i].Send?
      ensures events[i].packet.codec.H264? ==> OffsetOf(events[i].packet).Some?
      ensures events[i].packet.codec.AacLc? ==> Millis(events[i].packet.pts).Some?
    {
      if i > 0 {
        assert events[1..][i - 1] == events[i];
      }
    }
  }

  /** Main result: what a fresh connection carries after any run of sent calls. Its video messages are the
      publisher's run over the video packets, with their times; its audio messages are received at the far
      end as one access unit for every audio packet, in order, at its time and with its payload. */
  lemma ConnectionCarries(settings: Settings, s: Sink, events: seq<Event>)
    requires s.connection == Some([]) && !s.closed && s.avc == FRESH_PUBLISHER && !s.aacSent
    requires AllSent(settings, s, events)
    ensures Timed(events) && AfterAll(settings, s, events).connection.Some?
    ensures var log := AfterAll(settings, s, events).connection.value;
            var videos, audios := VideoInputs(events), AudioInputs(events);
            && Video.ErrorFree(settings.codec, FRESH_PUBLISHER, videos)
            && VideosOf(log) == Video.FramesOf(settings.codec, FRESH_PUBLISHER, videos)
            && var got := Aac.Received(false, AudiosOf(log));
               && |got| == |audios|
               && forall i :: 0 <= i < |audios| ==>
                    && Aac.Publishable(audios[i].adts) && Aac.Framable(Aac.PayloadOf(audios[i].adts))
                    && got[i] == Ok(Aac.AacAccessUnit(audios[i].timestamp, Aac.Framed(Aac.PayloadOf(audios[i].adts))))
  {
    hide AllSent, Timed, Aac.Publishable, Aac.Framable, Aac.Framed, Aac.PayloadOf, Aac.Received, VideoInputs,
      AudioInputs;
    SentCarries(settings, s, events);
    var log := AfterAll(settings, s, events).connection.value;
    assert log[0..] == log;
    Aac.RunRoundTrip(false, AudioInputs(events));
  }
}
