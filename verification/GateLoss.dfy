/** When the gate of the RTMP output is at risk, over every run, and when it is safe again
    (crates/rtmp/src/sink.rs:102-294). */
module GateLoss {
  import opened Bytes
  import opened Elementary
  import opened Avc
  import opened AvcHeaderLoss
  import opened SinkGate
  import Aac

  predicate HonestEvent(e: Event) {
    e.Send? ==> Honest(e.packet)
  }

  /** The gate is sound, or it waits for a keyframe with its header missing. */
  predicate GateInv(s: Sink) {
    SinkInv(s) || HeaderMissing(s)
  }

  lemma MissingIsUnsound(s: Sink)
    requires HeaderMissing(s)
    ensures !SinkInv(s)
  {
  }

  // ----- what is well opened stays in the record -----

  lemma PrefixOpened(log: seq<Message>, more: seq<Message>)
    requires WellOpened(log + more)
    ensures WellOpened(log)
  {
    hide IsAvcHeader, IsIdr, IsAacHeader;
    var all := log + more;
    assert |log| > 0 ==> all[0] == log[0];
    assert |log| > 1 ==> all[1] == log[1];
    forall i | 0 <= i < |log| && log[i].Audio? && NoAudio(log[..i]) ensures IsAacHeader(log[i]) {
      assert all[..i] == log[..i] && all[i] == log[i];
    }
  }

  /** Connections are only extended, ended and begun. */
  predicate Extends(s: Sink, after: Sink) {
    if s.connection.Some? && after.connection.Some? && after.lost == s.lost
    then s.connection.value <= after.connection.value
    else s.lost <= after.lost &&
         (s.connection.Some? ==>
            |after.lost| > |s.lost| && s.connection.value <= after.lost[|s.lost|])
  }

  lemma ExtendsBack(s: Sink, after: Sink)
    requires Extends(s, after) && AllWellOpened(after)
    ensures AllWellOpened(s)
  {
    hide WellOpened;
    forall log | log in Connections(s) ensures WellOpened(log) {
      if log in s.lost {
        assert log in after.lost;
        assert log in Connections(after);
      } else {
        var longer :=
          if after.connection.Some? && after.lost == s.lost then after.connection.value else after.lost[|s.lost|];
        assert longer in Connections(after);
        assert longer == log + longer[|log|..];
        PrefixOpened(log, longer[|log|..]);
      }
    }
  }

  lemma DeliverExtends(s: Sink, messages: seq<Message>, answers: Answers)
    requires s.connection.Some?
    ensures var after := Deliver(s, messages, answers).0;
            after.connection.Some? && after.lost == s.lost && s.connection.value <= after.connection.value
  {
  }

  lemma PublishExtends(settings: Settings, s: Sink, packet: MediaPacket, answers: Answers)
    ensures Extends(s, PublishPacket(settings, s, packet, answers).0)
  {
    hide Deliver, Publish, Aac.PushAdts, Millis, VideoMessages, AudioMessages;
    var gated := if packet.discontinuity then ResetGate(s) else s;
    var (ready, failure) := EnsureConnected(settings, gated, answers);
    assert Extends(s, ready);
    if failure.None? && answers.serviced {
      if packet.codec.H264? {
        var after := PublishVideo(settings, ready, packet, answers).0;
        var dts := Millis(if packet.dts.Some? then packet.dts.value else packet.pts);
        var pts := Millis(packet.pts);
        if dts.Some? && pts.Some? && I32_MIN <= pts.value - dts.value <= I32_MAX {
          var (avc, frames) :=
            Publish(settings.codec, ready.avc, WrapMillis(dts.value), pts.value - dts.value, packet.data);
          if frames.Ok? {
            DeliverExtends(ready.(avc := avc), VideoMessages(frames.value), answers);
          }
        }
      } else if packet.codec.AacLc? {
        var pts := Millis(packet.pts);
        if pts.Some? {
          var (sent, messages) := Aac.PushAdts(ready.aacSent, WrapMillis(pts.value), packet.data);
          if messages.Ok? {
            DeliverExtends(ready.(aacSent := sent), AudioMessages(messages.value), answers);
          }
        }
      }
    }
  }

  /** A step never mends a connection that was opened wrongly. */
  lemma StepExtends(settings: Settings, s: Sink, e: Event)
    requires AllWellOpened(Step(settings, s, e))
    ensures AllWellOpened(s)
  {
    hide PublishPacket, WellOpened, AllWellOpened;
    if e.Send? {
      PublishExtends(settings, s, e.packet, e.answers);
      var (after, result) := PublishPacket(settings, s, e.packet, e.answers);
      if result.Io? && after.connection.Some? {
        ExtendsBack(after, Disconnect(after, e.answers.now));
      }
      ExtendsBack(s, after);
    } else {
      ExtendsBack(s, Close(s));
    }
  }

  lemma {:induction false} RunExtends(settings: Settings, s: Sink, events: seq<Event>)
    requires AllWellOpened(AfterAll(settings, s, events))
    ensures AllWellOpened(s)
    decreases |events|
  {
    hide Step, AllWellOpened;
    if events != [] {
      RunExtends(settings, Step(settings, s, events[0]), events[1..]);
      StepExtends(settings, s, events[0]);
    }
  }

  // ----- a call while the header is missing -----

  /** A failed conversion that leaves a header recorded as sent: the data is refused before anything is
      learned, or the media exceed the limit and a header was sent before or has just been built. */
  predicate FailsSent(codec: HeaderCodec, p: Publisher, offset: int, data: ByteString) {
    || |data| > MAX_ACCESS_UNIT_BYTES || !(MIN_OFFSET <= offset <= MAX_OFFSET) || AnnexBUnits(data).Err?
    || var units := AnnexBUnits(data).value;
       var learned := Learn(p, units).0;
       && FramedSize(MediaOf(units)) > MAX_ACCESS_UNIT_BYTES
       && (learned.headerSent || BuildHeader(codec, learned).Ok?)
  }

  /** The call leaves the header missing. Without a discontinuity: it is dropped while the gate waits, or
      its times cannot be expressed, or its conversion fails without a new header becoming due. */
  predicate StaysMissing(settings: Settings, s: Sink, packet: MediaPacket, answers: Answers) {
    if packet.discontinuity then LosesHeader(settings, s, packet, answers)
    else
      || !packet.codec.H264? || !packet.keyframe
      || (answers.serviced &&
          (OffsetOf(packet).None? || FailsSent(settings.codec, s.avc, OffsetOf(packet).value, packet.data)))
  }

  /** An honest keyframe for a publisher whose header was sent: the conversion fails, or makes the access
      unit alone, or a new header and the access unit. */
  lemma MissingConverts(codec: HeaderCodec, p: Publisher, packet: MediaPacket, dts: U32, offset: int)
    requires p.headerSent && SetsKnown(p) && Honest(packet) && packet.codec.H264? && packet.keyframe
    ensures var (after, r) := Publish(codec, p, dts, offset, packet.data);
            && SetsKnown(after)
            && (FailsSent(codec, p, offset, packet.data) <==> r.Err? && after.headerSent)
            && (r.Ok? ==>
                  || (|r.value| == 1 && !IsAvcHeader(Video(r.value[0])))
                  || (|r.value| == 2 && IsAvcHeader(Video(r.value[0])) && IsIdr(Video(r.value[1]))))
  {
    hide AnnexBUnits, OfType, MediaOf, BuildHeader, Avcc, AvccUnits, AvccFrom, HasIdr, FramedSize, WellParsed,
      GoodUnits;
    if |packet.data| <= MAX_ACCESS_UNIT_BYTES && AnnexBUnits(packet.data).Ok? {
      ParsedAreGood(packet.data);
      var units := AnnexBUnits(packet.data).value;
      MediaIsGood(units);
      IdrIsMedia(units);
      IdrMeansMedia(units);
      ReadBack(MediaOf(units));
    }
  }

  lemma MissingVideo(settings: Settings, s: Sink, packet: MediaPacket, answers: Answers)
    requires HeaderMissing(s) && packet.codec.H264? && packet.keyframe && Honest(packet)
    ensures var (after, result) := PublishVideo(settings, s, packet, answers);
            var stays := OffsetOf(packet).None?
                         || FailsSent(settings.codec, s.avc, OffsetOf(packet).value, packet.data);
            && after.connection.Some? && after.lost == s.lost
            && (stays ==> !result.Io? && HeaderMissing(after))
            && (!stays && WellOpened(after.connection.value) && !result.Io? ==> SinkInv(after))
  {
    hide Honest, Publish, Millis, WellOpened, NoAudio, Deliver, SinkInv, VideoMessages, FailsSent, IsAvcHeader, IsIdr;
    var offset := OffsetOf(packet);
    if offset.Some? {
      var dts := WrapMillis(Millis(if packet.dts.Some? then packet.dts.value else packet.pts).value);
      var (avc, frames) := Publish(settings.codec, s.avc, dts, offset.value, packet.data);
      MissingConverts(settings.codec, s.avc, packet, dts, offset.value);
      if frames.Err? {
        LeavesMissing(s, avc);
      } else {
        MissingDelivered(s.(avc := avc), frames.value, answers);
        var (after, result) := PublishVideo(settings, s, packet, answers);
        if result.Sent? && WellOpened(after.connection.value) {
          Reopened(after);
        }
      }
    }
  }

  lemma LeavesMissing(s: Sink, avc: Publisher)
    requires HeaderMissing(s) && SetsKnown(avc)
    ensures var after := s.(avc := avc); if avc.headerSent then HeaderMissing(after) else SinkInv(after)
  {
    hide WellOpened;
    assert NoAudio([]);
    assert WellOpened([]) by { EmptyOpened(); }
  }

  lemma EmptyOpened()
    ensures WellOpened([])
  {
  }

  /** A bare access unit that is taken opens the connection wrongly; header and access unit open it
      well; what is not taken whole fails. */
  lemma MissingDelivered(s: Sink, frames: seq<VideoFrame>, answers: Answers)
    requires s.connection == Some([])
    requires || (|frames| == 1 && !IsAvcHeader(Video(frames[0])))
             || (|frames| == 2 && IsAvcHeader(Video(frames[0])) && IsIdr(Video(frames[1])))
    ensures var (after, result) := Deliver(s, VideoMessages(frames), answers);
            && after.connection.Some? && after == s.(connection := after.connection) && (result.Io? || result.Sent?)
            && (result.Sent? && WellOpened(after.connection.value) ==> |after.connection.value| >= 2)
  {
    hide IsAvcHeader, IsIdr;
    var messages := VideoMessages(frames);
    assert [] + messages[..|messages|] == messages;
  }

  lemma Reopened(after: Sink)
    requires after.connection.Some? && WellOpened(after.connection.value) && |after.connection.value| >= 2
    requires !after.aacSent && SetsKnown(after.avc)
    requires forall i :: 0 <= i < |after.lost| ==> WellOpened(after.lost[i])
    ensures SinkInv(after)
  {
    hide WellOpened;
  }

  /** With the header missing, a call that opens nothing wrongly leaves it missing exactly if it is one of
      those, and the gate sound otherwise. */
  lemma MissingStep(settings: Settings, s: Sink, packet: MediaPacket, answers: Answers)
    requires HeaderMissing(s) && Honest(packet)
    requires AllWellOpened(SendPacket(settings, s, packet, answers).0)
    ensures var after := SendPacket(settings, s, packet, answers).0;
            if StaysMissing(settings, s, packet, answers) then HeaderMissing(after) else SinkInv(after)
  {
    hide WellOpened, PublishVideo, PublishAudio, FailsSent, Honest, SinkInv, LosesVideo;
    if packet.discontinuity {
      MissingReset(s);
      SendKeeps(settings, ResetGate(s), packet, answers);
      assert ResetGate(ResetGate(s)) == ResetGate(s);
      assert SendPacket(settings, ResetGate(s), packet, answers) == SendPacket(settings, s, packet, answers);
      assert LosesHeader(settings, ResetGate(s), packet, answers) == LosesHeader(settings, s, packet, answers);
    } else {
      assert EnsureConnected(settings, s, answers) == (s, None);
      if packet.codec.H264? && packet.keyframe {
        if answers.serviced {
          MissingVideo(settings, s, packet, answers);
        }
        var (after, result) := PublishPacket(settings, s, packet, answers);
        if result.Io? {
          var end := Disconnect(after, answers.now);
          assert after.connection.value in Connections(end);
          DisconnectKeeps(after, answers.now);
        } else {
          assert after.connection.value in Connections(after);
        }
      }
    }
  }

  lemma MissingReset(s: Sink)
    requires HeaderMissing(s)
    ensures SinkInv(ResetGate(s))
  {
    hide IsAvcHeader, IsIdr, IsAacHeader;
  }

  lemma GateStep(settings: Settings, s: Sink, e: Event)
    requires GateInv(s) && HonestEvent(e) && AllWellOpened(Step(settings, s, e))
    ensures GateInv(Step(settings, s, e))
  {
    hide SinkInv, HeaderMissing, SendPacket, AllWellOpened, LosesHeader, StaysMissing, Honest, Close;
    match e
    case Send(packet, answers) =>
      if SinkInv(s) {
        SendKeeps(settings, s, packet, answers);
      } else {
        MissingStep(settings, s, packet, answers);
      }
    case CloseSink =>
      if SinkInv(s) {
        CloseKeeps(s);
      } else {
        MissingCloses(s);
      }
  }

  lemma MissingCloses(s: Sink)
    requires HeaderMissing(s)
    ensures SinkInv(Close(s))
  {
    hide IsAvcHeader, IsIdr, IsAacHeader;
  }

  // ----- whole runs -----

  lemma {:induction false} GateRun(settings: Settings, s: Sink, events: seq<Event>)
    requires GateInv(s) && forall i :: 0 <= i < |events| ==> HonestEvent(events[i])
    requires AllWellOpened(AfterAll(settings, s, events))
    ensures GateInv(AfterAll(settings, s, events))
    decreases |events|
  {
    hide GateInv, Step, AllWellOpened, HonestEvent;
    if events != [] {
      RunExtends(settings, Step(settings, s, events[0]), events[1..]);
      GateStep(settings, s, events[0]);
      GateRun(settings, Step(settings, s, events[0]), events[1..]);
    }
  }

  /** Main result, at every point of every run of honest packets whose connections are all well opened so
      far, whatever was lost before: some honest next call can open a connection wrongly if and only if
      the connection is live, nothing was sent on it, and the publisher considers its header sent. */
  lemma GateAtRiskIff(settings: Settings, now: nat, events: seq<Event>)
    requires forall i :: 0 <= i < |events| ==> HonestEvent(events[i])
    requires AllWellOpened(AfterAll(settings, Opened(settings, now), events))
    ensures var s := AfterAll(settings, Opened(settings, now), events);
            (s.connection == Some([]) && s.avc.headerSent) <==>
            exists next: MediaPacket, reply: Answers ::
              Honest(next) && !AllWellOpened(SendPacket(settings, s, next, reply).0)
  {
    hide WellOpened, Step, SinkInv, HeaderMissing, AllWellOpened, AfterAll, SendPacket, LosesHeader, Honest, AnnexB,
      HonestEvent;
    var s := AfterAll(settings, Opened(settings, now), events);
    OpenedInv(settings, now);
    GateRun(settings, Opened(settings, now), events);
    AtRisk(s);
    if HeaderMissing(s) {
      MissingBreaks(settings, s);
    } else {
      forall next: MediaPacket, reply: Answers | Honest(next)
        ensures AllWellOpened(SendPacket(settings, s, next, reply).0)
      {
        SendKeeps(settings, s, next, reply);
      }
    }
  }

  lemma AtRisk(s: Sink)
    requires GateInv(s)
    ensures s.connection == Some([]) && s.avc.headerSent <==> HeaderMissing(s)
  {
    hide WellOpened;
  }

  /** Which calls lead there and which lead away, at every point of such a run: afterwards the gate is at
      risk if and only if the call loses its header, or the header was missing before and the call is one
      that leaves it so. */
  lemma RiskAfterIff(settings: Settings, now: nat, events: seq<Event>, packet: MediaPacket, answers: Answers)
    requires Honest(packet) && forall i :: 0 <= i < |events| ==> HonestEvent(events[i])
    requires var s := AfterAll(settings, Opened(settings, now), events);
             AllWellOpened(SendPacket(settings, s, packet, answers).0)
    ensures var s := AfterAll(settings, Opened(settings, now), events);
            HeaderMissing(SendPacket(settings, s, packet, answers).0) <==>
            if HeaderMissing(s) then StaysMissing(settings, s, packet, answers)
            else LosesHeader(settings, s, packet, answers)
  {
    hide WellOpened, SinkInv, HeaderMissing, AllWellOpened, AfterAll, SendPacket, LosesHeader, Honest, HonestEvent,
      StaysMissing;
    var s := AfterAll(settings, Opened(settings, now), events);
    StepExtends(settings, s, Send(packet, answers));
    OpenedInv(settings, now);
    GateRun(settings, Opened(settings, now), events);
    var after := SendPacket(settings, s, packet, answers).0;
    if HeaderMissing(s) {
      MissingStep(settings, s, packet, answers);
    } else {
      SendKeeps(settings, s, packet, answers);
    }
    if HeaderMissing(after) {
      MissingIsUnsound(after);
    }
  }
}
