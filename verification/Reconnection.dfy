/** When the RTMP output tries to reconnect and how long it waits (crates/rtmp/src/sink.rs:102-179). */
module Reconnection {
  import opened Bytes
  import opened Avc
  import opened SinkGate

  /** Disconnected and not closed, with reconnecting allowed. */
  predicate Down(settings: Settings, s: Sink) {
    settings.reconnect && !s.closed && s.connection.None?
  }

  /** What one call to a sink that is down does to it: an attempt is started if and only if none is running and
      the retry time has come; the connection is there, empty, behind a fresh gate and with the initial wait, if
      and only if a running attempt brought it; only a refusal that may be retried sets the next retry time. */
  lemma CallWhileDown(settings: Settings, s: Sink, packet: MediaPacket, answers: Answers)
    requires Down(settings, s)
    ensures var (ready, failure) := EnsureConnected(settings, s, answers);
            var answer := if s.reconnecting then answers.attempt else None;
            && (ready.connection.Some? <==> answer == Some(Connected))
            && (failure.None? <==> answer == Some(Connected))
            && (ready.connection.Some? ==>
                  && ready.connection.value == [] && ready.backoff == settings.initialBackoff
                  && ready.waitingForIdr && ready.avc == FRESH_PUBLISHER && !ready.aacSent)
            && (ready.reconnecting <==> if s.reconnecting then answers.attempt.None? else answers.now >= s.nextRetry)
            && (if answer == Some(Refused(true))
                then ready.nextRetry == answers.now + s.backoff
                  && ready.backoff == Min(2 * s.backoff, settings.maxBackoff)
                else ready.nextRetry == s.nextRetry && (ready.backoff == s.backoff || ready.connection.Some?))
            && (failure == Some(Processing) <==> answer == Some(Refused(false)))
  {
  }

  /** A call to a sink that stays down only connects or fails: the packet goes nowhere. */
  lemma DownDropsPacket(settings: Settings, s: Sink, packet: MediaPacket, answers: Answers)
    requires Down(settings, s) && !(s.reconnecting && answers.attempt == Some(Connected))
    ensures var gated := if packet.discontinuity then ResetGate(s) else s;
            var (after, result) := SendPacket(settings, s, packet, answers);
            && after == EnsureConnected(settings, gated, answers).0 && Down(settings, after)
            && (result.Io? || result.Processing?)
  {
  }

  // ----- the first attempt after a loss -----

  /** A lost connection is retried by the next call: whatever it carries, it starts an attempt. */
  lemma LossIsRetriedAtOnce(settings: Settings, s: Sink, packet: MediaPacket, answers: Answers, next: MediaPacket,
                            later: Answers)
    requires settings.reconnect && s.connection.Some? && !s.reconnecting && answers.now <= later.now
    requires SendPacket(settings, s, packet, answers).0.connection.None?
    ensures var down := SendPacket(settings, s, packet, answers).0;
            && Down(settings, down) && !down.reconnecting
            && SendPacket(settings, down, next, later).0.reconnecting
  {
    hide PublishVideo, PublishAudio;
    KeepsFlags(settings, s, packet, answers);
    var down := SendPacket(settings, s, packet, answers).0;
    DownDropsPacket(settings, down, next, later);
  }

  /** Publishing changes nothing but the connection's log and the media state. */
  lemma KeepsFlags(settings: Settings, s: Sink, packet: MediaPacket, answers: Answers)
    requires s.connection.Some?
    ensures var after := PublishPacket(settings, s, packet, answers).0;
            && after.connection.Some? && after.closed == s.closed && after.reconnecting == s.reconnecting
            && after.backoff == s.backoff && after.nextRetry == s.nextRetry
  {
    hide Publish, Aac.PushAdts, Millis;
  }

  // ----- waiting for the retry time -----

  /** Calls before the retry time. */
  predicate TooEarly(events: seq<Event>, retry: nat) {
    forall i :: 0 <= i < |events| ==> events[i].Send? && events[i].answers.now < retry
  }

  /** Over every run: before its retry time a sink that is down starts nothing, and the first call from that
      time on starts an attempt. */
  lemma {:induction false} WaitsThenRetries(settings: Settings, s: Sink, early: seq<Event>, packet: MediaPacket,
                                            answers: Answers)
    requires Down(settings, s) && !s.reconnecting && TooEarly(early, s.nextRetry) && answers.now >= s.nextRetry
    ensures var waited := AfterAll(settings, s, early);
            && Down(settings, waited) && !waited.reconnecting && waited.nextRetry == s.nextRetry
            && waited.backoff == s.backoff && waited.lost == s.lost
            && SendPacket(settings, waited, packet, answers).0.reconnecting
    decreases |early|
  {
    if early == [] {
      DownDropsPacket(settings, s, packet, answers);
    } else {
      DownDropsPacket(settings, s, early[0].packet, early[0].answers);
      var next := Step(settings, s, early[0]);
      assert TooEarly(early[1..], next.nextRetry);
      WaitsThenRetries(settings, next, early[1..], packet, answers);
    }
  }

  // ----- how long the wait is -----

  /** Refusals that may be retried since the last connection. */
  function Refusals(settings: Settings, s: Sink, events: seq<Event>): nat
    decreases |events|
  {
    if events == [] then 0
    else
      var n := |events| - 1;
      var before := AfterAll(settings, s, events[..n]);
      var answer := if events[n].Send? && before.reconnecting && Down(settings, before) then events[n].answers.attempt
                    else None;
      match answer
      case Some(Connected) => 0
      case Some(Refused(true)) => Refusals(settings, s, events[..n]) + 1
      case _ => Refusals(settings, s, events[..n])
  }

  function Pow2(k: nat): nat {
    if k == 0 then 1 else 2 * Pow2(k - 1)
  }

  /** The wait after `k` refusals: doubled each time, up to the maximum. */
  function WaitAfter(settings: Settings, k: nat): nat {
    if k == 0 then settings.initialBackoff else Min(settings.initialBackoff * Pow2(k), settings.maxBackoff)
  }

  lemma WaitDoubles(settings: Settings, k: nat)
    ensures Min(2 * WaitAfter(settings, k), settings.maxBackoff) == WaitAfter(settings, k + 1)
  {
    assert settings.initialBackoff * Pow2(k + 1) == 2 * (settings.initialBackoff * Pow2(k));
  }

  lemma {:induction false} AfterAllSnoc(settings: Settings, s: Sink, events: seq<Event>, e: Event)
    ensures AfterAll(settings, s, events + [e]) == Step(settings, AfterAll(settings, s, events), e)
    decreases |events|
  {
    hide Step;
    if events == [] {
      assert ([] + [e])[1..] == [];
      assert AfterAll(settings, Step(settings, s, e), []) == Step(settings, s, e);
    } else {
      assert (events + [e])[1..] == events[1..] + [e];
      AfterAllSnoc(settings, Step(settings, s, events[0]), events[1..], e);
    }
  }

  /** Over every run of a sink, whatever is sent and however it is answered: the next wait is the initial one
      doubled once per refusal since the last connection, and never more than the maximum. */
  lemma {:induction false} WaitIsDoubled(settings: Settings, now: nat, events: seq<Event>)
    ensures AfterAll(settings, Opened(settings, now), events).backoff ==
            WaitAfter(settings, Refusals(settings, Opened(settings, now), events))
    decreases |events|
  {
    hide SendPacket, WaitAfter;
    var start := Opened(settings, now);
    if events == [] {
      FirstWait(settings);
    } else {
      var n := |events| - 1;
      var before := AfterAll(settings, start, events[..n]);
      assert events == events[..n] + [events[n]];
      AfterAllSnoc(settings, start, events[..n], events[n]);
      WaitIsDoubled(settings, now, events[..n]);
      WaitDoubles(settings, Refusals(settings, start, events[..n]));
      FirstWait(settings);
      if events[n].Send? {
        WaitStep(settings, before, events[n].packet, events[n].answers);
      }
    }
  }

  lemma FirstWait(settings: Settings)
    ensures WaitAfter(settings, 0) == settings.initialBackoff
  {
  }

  lemma WaitStep(settings: Settings, s: Sink, packet: MediaPacket, answers: Answers)
    ensures SendPacket(settings, s, packet, answers).0.backoff ==
            match (if s.reconnecting && Down(settings, s) then answers.attempt else None)
            case Some(Connected) => settings.initialBackoff
            case Some(Refused(true)) => Min(2 * s.backoff, settings.maxBackoff)
            case _ => s.backoff
  {
    hide PublishVideo, PublishAudio;
    var gated := if packet.discontinuity then ResetGate(s) else s;
    var (ready, failure) := EnsureConnected(settings, gated, answers);
    if failure.None? {
      VideoKeepsFlags(settings, ready, packet, answers);
    }
  }

  lemma VideoKeepsFlags(settings: Settings, ready: Sink, packet: MediaPacket, answers: Answers)
    requires ready.connection.Some?
    ensures PublishVideo(settings, ready, packet, answers).0.backoff == ready.backoff
    ensures PublishAudio(ready, packet, answers).0.backoff == ready.backoff
  {
    hide Publish, Aac.PushAdts, Millis;
  }

  /** Main result, over every run: when an attempt is refused for the k-th time since the last connection, and
      may be retried, no attempt is started before the initial wait doubled k - 1 times, or the maximum, has
      passed, and the first call from then on starts one. */
  lemma RefusalIsRetried(settings: Settings, now: nat, events: seq<Event>, packet: MediaPacket, answers: Answers,
                         early: seq<Event>, next: MediaPacket, later: Answers)
    requires var before := AfterAll(settings, Opened(settings, now), events);
             Down(settings, before) && before.reconnecting && answers.attempt == Some(Refused(true))
    requires var retry := answers.now + WaitAfter(settings, Refusals(settings, Opened(settings, now), events));
             TooEarly(early, retry) && later.now >= retry
    ensures var before := AfterAll(settings, Opened(settings, now), events);
            var waited := AfterAll(settings, SendPacket(settings, before, packet, answers).0, early);
            && Down(settings, waited) && !waited.reconnecting
            && SendPacket(settings, waited, next, later).0.reconnecting
  {
    hide WaitAfter, AfterAll, Refusals, TooEarly;
    var before := AfterAll(settings, Opened(settings, now), events);
    WaitIsDoubled(settings, now, events);
    DownDropsPacket(settings, before, packet, answers);
    WaitsThenRetries(settings, SendPacket(settings, before, packet, answers).0, early, next, later);
  }
}
