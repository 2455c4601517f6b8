/** The single-input scheduler (crates/runtime/src/single.rs): decode tasks behind admission permits and
    encode tasks that retime their frames to the program clock, under every interleaving. */
module Retiming {
  import opened Bytes
  import opened ProgramClocks

  // ----- a decode task, its semaphore and its bounded channel -----

  /** Where a decode task stands. `Acquired` holds the permit taken before decoding; `flushing` marks the
      last round, after the input has ended. */
  datatype Producer<F> =
    | Idle
    | Acquired(flushing: bool)
    | Delivering(frames: seq<F>, holding: bool, flushing: bool)
    | Closed

  /** `decoded` is the history of all frames the decoder has returned. */
  datatype Lane<F> = Lane(capacity: nat, permits: nat, channel: seq<F>, producer: Producer<F>, decoded: seq<F>)

  function NewLane<F>(capacity: nat): Lane<F> {
    Lane(capacity, capacity, [], Idle, [])
  }

  datatype LaneAction<F> = Acquire(flushing: bool) | Decode(frames: seq<F>) | Reacquire | Deliver

  predicate LaneEnabled<F>(l: Lane<F>, a: LaneAction<F>) {
    match a
    case Acquire(_) => l.producer.Idle? && l.permits > 0
    case Decode(_) => l.producer.Acquired?
    case Reacquire => l.producer.Delivering? && !l.producer.holding && l.permits > 0
    case Deliver => l.producer.Delivering? && l.producer.holding && l.producer.frames != [] && |l.channel| < l.capacity
  }

  function Resting<F>(flushing: bool): Producer<F> {
    if flushing then Closed else Idle
  }

  function LaneTake<F>(l: Lane<F>, a: LaneAction<F>): Lane<F>
    requires LaneEnabled(l, a)
  {
    match a
    case Acquire(flushing) => l.(permits := l.permits - 1, producer := Acquired(flushing))
    case Decode(frames) =>
      if frames == [] then l.(permits := l.permits + 1, producer := Resting(l.producer.flushing))
      else l.(producer := Delivering(frames, true, l.producer.flushing), decoded := l.decoded + frames)
    case Reacquire => l.(permits := l.permits - 1, producer := l.producer.(holding := true))
    case Deliver =>
      var rest := l.producer.frames[1..];
      l.(channel := l.channel + [l.producer.frames[0]],
         producer := if rest == [] then Resting(l.producer.flushing) else Delivering(rest, false, l.producer.flushing))
  }

  function Pending<F>(l: Lane<F>): seq<F> {
    if l.producer.Delivering? then l.producer.frames else []
  }

  function HeldByProducer<F>(l: Lane<F>): nat {
    if l.producer.Acquired? || (l.producer.Delivering? && l.producer.holding) then 1 else 0
  }

  /** Every permit is free, in the producer's hand, with a frame in the channel, or with the frame that
      the encoder has taken and not yet unwrapped; and no frame is lost or reordered on the way. */
  predicate LaneInv<F(==)>(l: Lane<F>, inHand: seq<F>, taken: seq<F>) {
    && l.permits + HeldByProducer(l) + |l.channel| + |inHand| == l.capacity
    && (l.producer.Delivering? ==> l.producer.frames != [])
    && l.decoded == taken + inHand + l.channel + Pending(l)
  }

  lemma LaneKeeps<F>(l: Lane<F>, a: LaneAction<F>, inHand: seq<F>, taken: seq<F>)
    requires LaneInv(l, inHand, taken) && LaneEnabled(l, a)
    ensures LaneInv(LaneTake(l, a), inHand, taken)
  {
    if a.Deliver? {
      var frames := l.producer.frames;
      assert frames == [frames[0]] + frames[1..];
      assert taken + inHand + l.channel + frames == taken + inHand + (l.channel + [frames[0]]) + frames[1..];
    }
  }

  function Pop<F>(l: Lane<F>): Lane<F>
    requires l.channel != []
  {
    l.(channel := l.channel[1..])
  }

  function Release<F>(l: Lane<F>): Lane<F> {
    l.(permits := l.permits + 1)
  }

  lemma PopKeeps<F>(l: Lane<F>, taken: seq<F>)
    requires LaneInv(l, [], taken) && l.channel != []
    ensures LaneInv(Pop(l), [l.channel[0]], taken)
  {
    assert l.channel == [l.channel[0]] + l.channel[1..];
    assert taken + [] + l.channel == taken + [l.channel[0]] + l.channel[1..];
  }

  lemma ReleaseKeeps<F>(l: Lane<F>, frame: F, taken: seq<F>)
    requires LaneInv(l, [frame], taken)
    ensures LaneInv(Release(l), [], taken + [frame])
  {
    assert taken + [frame] + [] == taken + [frame];
  }

  // ----- the video encode loop -----

  datatype VideoPhase<V> =
    | Opening
    | AwaitTick
    | Polling
    | Unwrapping(frame: V, opening: bool)
    | Encoding
    | Finished

  /** `taken` is the history of frames received; `log` is what the encoder was given. */
  datatype VideoTask<V> = VideoTask(phase: VideoPhase<V>, last: Option<V>, pollNext: bool, freshInput: bool,
                                    taken: seq<V>, log: seq<(V, U64)>)

  function NewVideoTask<V>(): VideoTask<V> {
    VideoTask(Opening, None, false, true, [], [])
  }

  /** One step of the loop, `None` while it has to wait for the decode task. */
  function VideoStep<V>(t: VideoTask<V>, l: Lane<V>, c: Clock): Option<(VideoTask<V>, Lane<V>, Clock)>
    requires ClockInv(c)
  {
    match t.phase
    case Opening =>
      if l.channel != [] then Some((t.(phase := Unwrapping(l.channel[0], true)), Pop(l), c))
      else if l.producer.Closed? then Some((t.(phase := Finished), l, c))
      else None
    case Unwrapping(frame, opening) =>
      Some((t.(phase := if opening then AwaitTick else Encoding, last := Some(frame), freshInput := true,
               taken := t.taken + [frame]),
            Release(l), c))
    case AwaitTick =>
      Some((if t.pollNext then t.(phase := Polling) else t.(phase := Encoding, pollNext := true), l, c))
    case Polling =>
      if l.channel != [] then Some((t.(phase := Unwrapping(l.channel[0], false)), Pop(l), c))
      else if l.producer.Closed? then Some((t.(phase := Finished), l, c))
      else Some((t.(phase := Encoding, freshInput := false), l, c))
    case Encoding =>
      if t.last.None? then Some((t.(phase := AwaitTick), l, c))
      else Some((t.(phase := AwaitTick, log := t.log + [(t.last.value, VideoPts(c))]), l, AfterVideo(c)))
    case Finished => None
  }

  function Frames<V>(log: seq<(V, U64)>): (r: seq<V>)
    ensures |r| == |log| && forall i :: 0 <= i < |r| ==> r[i] == log[i].0
  {
    seq(|log|, i requires 0 <= i < |log| => log[i].0)
  }

  /** `output` is `input` with every element repeated one or more times. */
  predicate Stretches<V(==)>(output: seq<V>, input: seq<V>)
    decreases |output|
  {
    if input == [] then output == []
    else
      && output != [] && output[|output| - 1] == input[|input| - 1]
      && (Stretches(output[..|output| - 1], input) || Stretches(output[..|output| - 1], input[..|input| - 1]))
  }

  lemma StretchAgain<V>(output: seq<V>, input: seq<V>)
    requires Stretches(output, input) && input != []
    ensures Stretches(output + [input[|input| - 1]], input)
  {
    assert (output + [input[|input| - 1]])[..|output|] == output;
  }

  lemma StretchNew<V>(output: seq<V>, input: seq<V>, v: V)
    requires Stretches(output, input)
    ensures Stretches(output + [v], input + [v])
  {
    assert (output + [v])[..|output|] == output && (input + [v])[..|input|] == input;
  }

  /** The last frame taken has not been encoded yet. */
  predicate Owes<V>(t: VideoTask<V>) {
    (t.phase.AwaitTick? && !t.pollNext) || (t.phase.Encoding? && t.freshInput)
  }

  function InHand<V>(t: VideoTask<V>): seq<V> {
    if t.phase.Unwrapping? then [t.phase.frame] else []
  }

  /** What the loop has taken and what it has encoded agree. */
  predicate VideoInv<V(==)>(t: VideoTask<V>) {
    && (t.taken == [] <==> t.last.None?)
    && (t.taken != [] ==> t.last == Some(t.taken[|t.taken| - 1]))
    && (t.taken == [] ==> t.phase.Opening? || t.phase.Finished? || (t.phase.Unwrapping? && t.phase.opening))
    && (t.taken != [] ==> !t.phase.Opening? && (t.phase.Unwrapping? ==> !t.phase.opening))
    && (t.phase.Polling? || t.phase.Encoding? || (t.phase.Unwrapping? && !t.phase.opening) ==> t.pollNext)
    && (t.phase.Opening? || (t.phase.Unwrapping? && t.phase.opening) ==> !t.pollNext)
    && (!t.pollNext ==> t.freshInput && t.log == [] && (t.phase.AwaitTick? ==> |t.taken| == 1))
    && Stretches(Frames(t.log), if Owes(t) then t.taken[..|t.taken| - 1] else t.taken)
  }

  /** Frame `k` carries the time that the clock gives tick `k`. */
  predicate VideoTimes<V>(log: seq<(V, U64)>, c: Clock)
    requires ClockInv(c)
  {
    && c.videoIndex == ToTicks(|log|)
    && forall k :: 0 <= k < |log| ==> log[k].1 == VideoPts(c.(videoIndex := ToTicks(k)))
  }

  lemma TicksGrow(n: nat)
    ensures SaturatingAdd(ToTicks(n), 1) == ToTicks(n + 1)
  {
  }

  lemma VideoLogged<V>(t: VideoTask<V>, pts: U64)
    requires VideoInv(t) && t.phase.Encoding?
    ensures t.last.Some? && VideoInv(t.(phase := AwaitTick, log := t.log + [(t.last.value, pts)]))
  {
    hide Stretches;
    assert Frames(t.log + [(t.last.value, pts)]) == Frames(t.log) + [t.last.value];
    assert t.taken == t.taken[..|t.taken| - 1] + [t.last.value];
    if t.freshInput {
      StretchNew(Frames(t.log), t.taken[..|t.taken| - 1], t.last.value);
    } else {
      StretchAgain(Frames(t.log), t.taken);
    }
  }

  lemma VideoTimed<V>(log: seq<(V, U64)>, frame: V, c: Clock)
    requires ClockInv(c) && VideoTimes(log, c)
    ensures VideoTimes(log + [(frame, VideoPts(c))], AfterVideo(c))
  {
    hide VideoPts;
    TicksGrow(|log|);
    var all := log + [(frame, VideoPts(c))];
    assert c.(videoIndex := ToTicks(|log|)) == c;
    forall k | 0 <= k < |all| ensures all[k].1 == VideoPts(AfterVideo(c).(videoIndex := ToTicks(k))) {
      assert AfterVideo(c).(videoIndex := ToTicks(k)) == c.(videoIndex := ToTicks(k));
    }
  }

  lemma VideoTaken<V>(t: VideoTask<V>)
    requires VideoInv(t) && t.phase.Unwrapping?
    ensures VideoInv(t.(phase := if t.phase.opening then AwaitTick else Encoding, last := Some(t.phase.frame),
                        freshInput := true, taken := t.taken + [t.phase.frame]))
  {
    hide Stretches;
    assert (t.taken + [t.phase.frame])[..|t.taken|] == t.taken;
  }

  lemma VideoKeeps<V>(t: VideoTask<V>, l: Lane<V>, c: Clock)
    requires VideoInv(t) && LaneInv(l, InHand(t), t.taken) && ClockInv(c) && VideoTimes(t.log, c)
    ensures match VideoStep(t, l, c)
            case None => true
            case Some((u, m, d)) =>
              && VideoInv(u) && LaneInv(m, InHand(u), u.taken) && ClockInv(d) && VideoTimes(u.log, d)
              && d.audioSamples == c.audioSamples && d.numerator == c.numerator && d.denominator == c.denominator
              && (u.phase.Finished? && !t.phase.Finished? ==> l.channel == [] && l.producer.Closed?)
              && m.capacity == l.capacity
  {
    hide Stretches, VideoPts, VideoTimes;
    if t.phase.Encoding? {
      VideoLogged(t, VideoPts(c));
      VideoTimed(t.log, t.last.value, c);
    } else if t.phase.Unwrapping? {
      VideoTaken(t);
      ReleaseKeeps(l, t.phase.frame, t.taken);
    } else if l.channel != [] && (t.phase.Opening? || t.phase.Polling?) {
      PopKeeps(l, t.taken);
    }
  }

  // ----- the audio encode loop -----

  datatype AudioFrame = AudioFrame(sampleRate: U32, channels: Byte, interleaved: seq<real>)

  datatype Block = Decoded(frame: AudioFrame) | Silence(frame: AudioFrame)

  datatype AudioPhase =
    | AwaitBlock
    | PollBlock
    | UnwrapBlock(received: AudioFrame)
    | EncodeBlock(block: Block)
    | AudioDone
    | AudioFailed

  datatype AudioTask = AudioTask(phase: AudioPhase, silence: AudioFrame, taken: seq<AudioFrame>, log: seq<(Block, U64)>)

  function NewAudioTask(silence: AudioFrame): AudioTask {
    AudioTask(AwaitBlock, silence, [], [])
  }

  /** A whole number of samples per channel, countable in 32 bits, at a rate the clock accepts. */
  predicate Encodable(f: AudioFrame) {
    && f.channels != 0 && |f.interleaved| % (f.channels as int) == 0
    && |f.interleaved| / (f.channels as int) < 0x1_0000_0000 && f.sampleRate > 0
  }

  function SamplesOf(f: AudioFrame): nat {
    if f.channels == 0 then 0 else |f.interleaved| / (f.channels as int)
  }

  function AudioStep(t: AudioTask, l: Lane<AudioFrame>, c: Clock): Option<(AudioTask, Lane<AudioFrame>, Clock)> {
    match t.phase
    case AwaitBlock => Some((t.(phase := PollBlock), l, c))
    case PollBlock =>
      if l.channel != [] then Some((t.(phase := UnwrapBlock(l.channel[0])), Pop(l), c))
      else if l.producer.Closed? then Some((t.(phase := AudioDone), l, c))
      else Some((t.(phase := EncodeBlock(Silence(t.silence))), l, c))
    case UnwrapBlock(frame) =>
      Some((t.(phase := EncodeBlock(Decoded(frame)), taken := t.taken + [frame]), Release(l), c))
    case EncodeBlock(block) =>
      if !Encodable(block.frame) then Some((t.(phase := AudioFailed), l, c))
      else
        var pts := AudioPts(c, block.frame.sampleRate);
        Some((t.(phase := AwaitBlock, log := t.log + [(block, pts)]), l, AfterAudio(c, SamplesOf(block.frame))))
    case AudioDone => None
    case AudioFailed => None
  }

  /** The decoded blocks in what was encoded. */
  function DecodedIn(log: seq<(Block, U64)>): seq<AudioFrame>
    decreases |log|
  {
    if log == [] then []
    else
      var n := |log| - 1;
      DecodedIn(log[..n]) + if log[n].0.Decoded? then [log[n].0.frame] else []
  }

  function TotalSamples(log: seq<(Block, U64)>): nat
    decreases |log|
  {
    if log == [] then 0 else TotalSamples(log[..|log| - 1]) + SamplesOf(log[|log| - 1].0.frame)
  }

  function AudioInHand(t: AudioTask): seq<AudioFrame> {
    if t.phase.UnwrapBlock? then [t.phase.received] else []
  }

  /** The decoded blocks encoded, and behind them at most the one in work, are those taken; a task that
      failed did so on a block that cannot be encoded, decoded or silence. */
  predicate AudioInv(t: AudioTask) {
    && (forall k :: 0 <= k < |t.log| ==> Encodable(t.log[k].0.frame))
    && (forall k :: 0 <= k < |t.log| && t.log[k].0.Silence? ==> t.log[k].0.frame == t.silence)
    && (t.phase.EncodeBlock? && t.phase.block.Silence? ==> t.phase.block.frame == t.silence)
    && (!t.phase.AudioFailed? ==>
          t.taken == DecodedIn(t.log) +
                     if t.phase.EncodeBlock? && t.phase.block.Decoded? then [t.phase.block.frame] else [])
    && (t.phase.AudioFailed? ==> FailedOn(t.taken, DecodedIn(t.log), t.silence))
  }

  predicate FailedOn(taken: seq<AudioFrame>, encoded: seq<AudioFrame>, silence: AudioFrame) {
    if taken == encoded then !Encodable(silence)
    else taken != [] && encoded == taken[..|taken| - 1] && !Encodable(taken[|taken| - 1])
  }

  /** Each block carries the time of all samples encoded before it. */
  predicate AudioTimes(log: seq<(Block, U64)>, c: Clock) {
    && (forall k :: 0 <= k < |log| ==> Encodable(log[k].0.frame))
    && c.audioSamples == ToTicks(TotalSamples(log))
    && forall k :: 0 <= k < |log| ==>
         log[k].1 == AudioPts(c.(audioSamples := ToTicks(TotalSamples(log[..k]))), log[k].0.frame.sampleRate)
  }

  lemma AudioLogged(t: AudioTask, pts: U64)
    requires AudioInv(t) && t.phase.EncodeBlock? && Encodable(t.phase.block.frame)
    ensures AudioInv(t.(phase := AwaitBlock, log := t.log + [(t.phase.block, pts)]))
  {
    hide Encodable;
    var log := t.log + [(t.phase.block, pts)];
    assert log[..|t.log|] == t.log;
    assert t.taken + [] == t.taken;
  }

  lemma FailsOnBlock(t: AudioTask)
    requires AudioInv(t) && t.phase.EncodeBlock? && !Encodable(t.phase.block.frame)
    ensures FailedOn(t.taken, DecodedIn(t.log), t.silence)
  {
    hide Encodable, DecodedIn;
  }

  lemma AudioTimed(log: seq<(Block, U64)>, block: Block, c: Clock)
    requires AudioTimes(log, c) && Encodable(block.frame)
    ensures SamplesOf(block.frame) < 0x1_0000_0000 && block.frame.sampleRate > 0
    ensures AudioTimes(log + [(block, AudioPts(c, block.frame.sampleRate))], AfterAudio(c, SamplesOf(block.frame)))
  {
    hide AudioPts, Encodable, SamplesOf, AfterAudio, SaturatingAdd;
    CountFits(block.frame);
    RatePositive(block.frame);
    TotalGrows(TotalSamples(log), SamplesOf(block.frame));
    var all := log + [(block, AudioPts(c, block.frame.sampleRate))];
    assert all[..|log|] == log;
    AfterAudioIs(c, SamplesOf(block.frame));
    assert c.(audioSamples := ToTicks(TotalSamples(log))) == c;
    forall k | 0 <= k < |all|
      ensures Encodable(all[k].0.frame) && all[k].0.frame.sampleRate > 0
      ensures all[k].1 ==
                AudioPts(AfterAudio(c, SamplesOf(block.frame)).(audioSamples := ToTicks(TotalSamples(all[..k]))),
                         all[k].0.frame.sampleRate)
    {
      RatePositive(all[k].0.frame);
      assert all[..k] == log[..k];
      SameClock(c, SamplesOf(block.frame), ToTicks(TotalSamples(all[..k])));
    }
  }

  lemma AfterAudioIs(c: Clock, samples: U32)
    ensures AfterAudio(c, samples).audioSamples == SaturatingAdd(c.audioSamples, samples)
  {
  }

  lemma TotalGrows(total: nat, samples: U32)
    ensures SaturatingAdd(ToTicks(total), samples) == ToTicks(total + samples)
  {
  }

  lemma SameClock(c: Clock, samples: U32, at: U64)
    ensures AfterAudio(c, samples).(audioSamples := at) == c.(audioSamples := at)
  {
  }

  lemma RatePositive(f: AudioFrame)
    requires Encodable(f)
    ensures f.sampleRate > 0
  {
  }

  lemma CountFits(f: AudioFrame)
    requires Encodable(f)
    ensures SamplesOf(f) < 0x1_0000_0000
  {
  }

  lemma AudioKeeps(t: AudioTask, l: Lane<AudioFrame>, c: Clock)
    requires AudioInv(t) && LaneInv(l, AudioInHand(t), t.taken) && AudioTimes(t.log, c)
    ensures match AudioStep(t, l, c)
            case None => true
            case Some((u, m, d)) =>
              && AudioInv(u) && LaneInv(m, AudioInHand(u), u.taken) && AudioTimes(u.log, d) && u.silence == t.silence
              && d.videoIndex == c.videoIndex && d.numerator == c.numerator && d.denominator == c.denominator
              && (u.phase.AudioDone? && !t.phase.AudioDone? ==> l.channel == [] && l.producer.Closed?)
              && m.capacity == l.capacity
  {
    hide AudioPts, AudioTimes, Encodable, SamplesOf, DecodedIn;
    match t.phase
    case EncodeBlock(block) =>
      if Encodable(block.frame) {
        AudioTimed(t.log, block, c);
        AudioLogged(t, AudioPts(c, block.frame.sampleRate));
      } else {
        FailsOnBlock(t);
      }
    case UnwrapBlock(frame) =>
      ReleaseKeeps(l, frame, t.taken);
      assert DecodedIn(t.log) + [] == DecodedIn(t.log);
    case PollBlock =>
      if l.channel != [] {
        PopKeeps(l, t.taken);
      }
    case _ =>
  }

  // ----- the whole system -----

  datatype System<V> = System(clock: Clock, video: Lane<V>, audio: Lane<AudioFrame>, videoTask: VideoTask<V>,
                              audioTask: AudioTask)

  datatype Action<V> =
    | OnVideo(video: LaneAction<V>)
    | OnAudio(audio: LaneAction<AudioFrame>)
    | EncodeVideo
    | EncodeAudio

  function Started<V>(numerator: U64, denominator: U64, videoFrames: nat, audioFrames: nat, silence: AudioFrame)
    : System<V>
  {
    System(Clock(numerator, denominator, 0, 0), NewLane(videoFrames), NewLane(audioFrames), NewVideoTask(),
           NewAudioTask(silence))
  }

  predicate SystemInv<V(==)>(s: System<V>) {
    && ClockInv(s.clock)
    && LaneInv(s.video, InHand(s.videoTask), s.videoTask.taken) && VideoInv(s.videoTask)
       && VideoTimes(s.videoTask.log, s.clock)
    && LaneInv(s.audio, AudioInHand(s.audioTask), s.audioTask.taken) && AudioInv(s.audioTask)
    && AudioTimes(s.audioTask.log, s.clock)
    && (s.videoTask.phase.Finished? ==> s.video.channel == [] && s.video.producer.Closed?)
    && (s.audioTask.phase.AudioDone? ==> s.audio.channel == [] && s.audio.producer.Closed?)
  }

  predicate Enabled<V>(s: System<V>, a: Action<V>)
    requires ClockInv(s.clock)
  {
    match a
    case OnVideo(video) => LaneEnabled(s.video, video)
    case OnAudio(audio) => LaneEnabled(s.audio, audio)
    case EncodeVideo => VideoStep(s.videoTask, s.video, s.clock).Some?
    case EncodeAudio => AudioStep(s.audioTask, s.audio, s.clock).Some?
  }

  function Take<V>(s: System<V>, a: Action<V>): System<V>
    requires ClockInv(s.clock) && Enabled(s, a)
  {
    match a
    case OnVideo(video) => s.(video := LaneTake(s.video, video))
    case OnAudio(audio) => s.(audio := LaneTake(s.audio, audio))
    case EncodeVideo =>
      var (task, lane, clock) := VideoStep(s.videoTask, s.video, s.clock).value;
      s.(videoTask := task, video := lane, clock := clock)
    case EncodeAudio =>
      var (task, lane, clock) := AudioStep(s.audioTask, s.audio, s.clock).value;
      s.(audioTask := task, audio := lane, clock := clock)
  }

  lemma OtherClock<V>(video: seq<(V, U64)>, audio: seq<(Block, U64)>, c: Clock, d: Clock)
    requires ClockInv(c) && ClockInv(d) && c.numerator == d.numerator && c.denominator == d.denominator
    ensures c.videoIndex == d.videoIndex && VideoTimes(video, c) ==> VideoTimes(video, d)
    ensures c.audioSamples == d.audioSamples && AudioTimes(audio, c) ==> AudioTimes(audio, d)
  {
    assert forall k: U64 :: VideoPts(c.(videoIndex := k)) == VideoPts(d.(videoIndex := k));
    if c.audioSamples == d.audioSamples && AudioTimes(audio, c) {
      forall k | 0 <= k < |audio|
        ensures audio[k].0.frame.sampleRate > 0 &&
                audio[k].1 == AudioPts(d.(audioSamples := ToTicks(TotalSamples(audio[..k]))),
                                       audio[k].0.frame.sampleRate)
      {
        RatePositive(audio[k].0.frame);
      }
    }
  }

  lemma TakeKeeps<V>(s: System<V>, a: Action<V>)
    requires SystemInv(s) && Enabled(s, a)
    ensures SystemInv(Take(s, a)) && Take(s, a).audioTask.silence == s.audioTask.silence
    ensures Take(s, a).clock.numerator == s.clock.numerator && Take(s, a).clock.denominator == s.clock.denominator
    ensures Take(s, a).video.capacity == s.video.capacity && Take(s, a).audio.capacity == s.audio.capacity
  {
    hide LaneInv, VideoInv, VideoTimes, AudioInv, AudioTimes, VideoStep, AudioStep;
    match a
    case OnVideo(video) =>
      LaneKeeps(s.video, video, InHand(s.videoTask), s.videoTask.taken);
    case OnAudio(audio) =>
      LaneKeeps(s.audio, audio, AudioInHand(s.audioTask), s.audioTask.taken);
    case EncodeVideo =>
      VideoKeeps(s.videoTask, s.video, s.clock);
      StepFinishes(s.videoTask, s.video, s.clock);
      OtherClock(s.videoTask.log, s.audioTask.log, s.clock, Take(s, a).clock);
    case EncodeAudio =>
      AudioKeeps(s.audioTask, s.audio, s.clock);
      BlockFinishes(s.audioTask, s.audio, s.clock);
      OtherClock(s.videoTask.log, s.audioTask.log, s.clock, Take(s, a).clock);
  }

  lemma StepFinishes<V>(t: VideoTask<V>, l: Lane<V>, c: Clock)
    requires ClockInv(c)
    ensures match VideoStep(t, l, c)
            case None => true
            case Some((u, m, d)) => !t.phase.Finished? && (u.phase.Finished? ==> m == l)
  {
  }

  lemma BlockFinishes(t: AudioTask, l: Lane<AudioFrame>, c: Clock)
    ensures match AudioStep(t, l, c)
            case None => true
            case Some((u, m, d)) => !t.phase.AudioDone? && (u.phase.AudioDone? ==> m == l)
  {
  }

  ghost predicate Run<V>(s: System<V>, actions: seq<Action<V>>)
    requires ClockInv(s.clock)
    decreases |actions|
  {
    actions == [] ||
    (Enabled(s, actions[0]) && ClockInv(Take(s, actions[0]).clock) && Run(Take(s, actions[0]), actions[1..]))
  }

  ghost function After<V>(s: System<V>, actions: seq<Action<V>>): System<V>
    requires ClockInv(s.clock) && Run(s, actions)
    decreases |actions|
  {
    if actions == [] then s else After(Take(s, actions[0]), actions[1..])
  }

  lemma {:induction false} RunKeeps<V>(s: System<V>, actions: seq<Action<V>>)
    requires SystemInv(s) && Run(s, actions)
    ensures SystemInv(After(s, actions)) && After(s, actions).audioTask.silence == s.audioTask.silence
    ensures After(s, actions).clock.numerator == s.clock.numerator
            && After(s, actions).clock.denominator == s.clock.denominator
    ensures After(s, actions).video.capacity == s.video.capacity && After(s, actions).audio.capacity == s.audio.capacity
    decreases |actions|
  {
    hide LaneInv, VideoInv, VideoTimes, AudioInv, AudioTimes, Take, Enabled;
    if actions != [] {
      TakeKeeps(s, actions[0]);
      RunKeeps(Take(s, actions[0]), actions[1..]);
    }
  }

  lemma StartedInv<V>(numerator: U64, denominator: U64, videoFrames: nat, audioFrames: nat, silence: AudioFrame)
    requires numerator > 0 && denominator > 0
    ensures SystemInv<V>(Started(numerator, denominator, videoFrames, audioFrames, silence))
  {
  }

  /** The decoded frames that have been encoded so far. */
  function Encoded<V>(t: VideoTask<V>): seq<V>
    requires Owes(t) ==> t.taken != []
  {
    if Owes(t) then t.taken[..|t.taken| - 1] else t.taken
  }

  lemma PrefixOf<V>(l: Lane<V>, inHand: seq<V>, taken: seq<V>, part: seq<V>)
    requires LaneInv(l, inHand, taken) && part <= taken
    ensures part <= l.decoded
    ensures inHand == [] && l.channel == [] && l.producer.Closed? ==> l.decoded == taken
  {
  }

  /** Main result for video, over every interleaving: the encoder is given the decoded frames in order,
      each one or more times, frame `k` at the exact floor of its tick and times strictly increasing
      (both while nothing saturates); when the loop ends, no decoded frame was left out. */
  lemma VideoContent<V>(numerator: U64, denominator: U64, videoFrames: nat, audioFrames: nat, silence: AudioFrame,
                        actions: seq<Action<V>>)
    requires numerator > 0 && denominator > 0
    requires Run(Started(numerator, denominator, videoFrames, audioFrames, silence), actions)
    ensures var s := After(Started(numerator, denominator, videoFrames, audioFrames, silence), actions);
            var t := s.videoTask;
            && (Owes(t) ==> t.taken != [])
            && Stretches(Frames(t.log), Encoded(t)) && Encoded(t) <= s.video.decoded
            && (t.phase.Finished? ==> Encoded(t) == s.video.decoded)
            && (forall k :: 0 <= k < |t.log| && Representable(k, numerator, denominator) ==>
                  t.log[k].1 == ExactTick(k, numerator, denominator))
            && (numerator <= 90_000 * denominator ==>
                  forall k :: 0 < k < |t.log| && Representable(k, numerator, denominator)
                              && Representable(k - 1, numerator, denominator) ==>
                    t.log[k - 1].1 < t.log[k].1)
  {
    hide Stretches, AudioInv, AudioTimes, VideoPts, Representable, ExactTick;
    var start := Started<V>(numerator, denominator, videoFrames, audioFrames, silence);
    StartedInv<V>(numerator, denominator, videoFrames, audioFrames, silence);
    RunKeeps(start, actions);
    var s := After(start, actions);
    var t := s.videoTask;
    TakenWhenOwed(t);
    PrefixOf(s.video, InHand(t), t.taken, Encoded(t));
    forall k | 0 <= k < |t.log| && Representable(k, numerator, denominator)
      ensures numerator > 0 && t.log[k].1 == ExactTick(k, numerator, denominator)
    {
      RepresentableIndex(k, numerator, denominator);
      VideoPtsExact(s.clock.(videoIndex := k));
    }
    if numerator <= 90_000 * denominator {
      TicksIncreaseIff(numerator, denominator);
      forall k | 0 < k < |t.log| && Representable(k, numerator, denominator)
        && Representable(k - 1, numerator, denominator)
        ensures t.log[k - 1].1 < t.log[k].1
      {
        assert ExactTick(k - 1, numerator, denominator) < ExactTick(k - 1 + 1, numerator, denominator);
      }
    }
  }

  lemma RepresentableIndex(k: nat, numerator: nat, denominator: nat)
    requires Representable(k, numerator, denominator)
    ensures k <= U64_MAX && ToTicks(k) == k && numerator > 0
  {
  }

  lemma TakenWhenOwed<V>(t: VideoTask<V>)
    requires VideoInv(t)
    ensures Owes(t) ==> t.taken != []
    ensures Stretches(Frames(t.log), if Owes(t) then t.taken[..|t.taken| - 1] else t.taken)
  {
    hide Stretches;
  }

  /** Main result for audio, over every interleaving: every decoded block is encoded once and in order,
      everything else encoded is the configured silence, and each block carries the time of all the
      samples before it; when the loop ends, no block was left out, and when it fails, at most the last
      block taken, which cannot be encoded. */
  lemma AudioContent<V>(numerator: U64, denominator: U64, videoFrames: nat, audioFrames: nat, silence: AudioFrame,
                        actions: seq<Action<V>>)
    requires numerator > 0 && denominator > 0
    requires Run(Started(numerator, denominator, videoFrames, audioFrames, silence), actions)
    ensures var s := After(Started(numerator, denominator, videoFrames, audioFrames, silence), actions);
            var t := s.audioTask;
            && DecodedIn(t.log) <= s.audio.decoded
            && (t.phase.AudioDone? ==> DecodedIn(t.log) == s.audio.decoded)
            && (t.phase.AudioFailed? ==> t.taken <= s.audio.decoded && FailedOn(t.taken, DecodedIn(t.log), silence))
            && (forall k :: 0 <= k < |t.log| && t.log[k].0.Silence? ==> t.log[k].0.frame == silence)
            && AudioTimes(t.log, s.clock)
  {
    hide VideoInv, VideoTimes, AudioTimes, Encodable, Frames;
    var start := Started<V>(numerator, denominator, videoFrames, audioFrames, silence);
    StartedInv<V>(numerator, denominator, videoFrames, audioFrames, silence);
    RunKeeps(start, actions);
    var s := After(start, actions);
    var t := s.audioTask;
    assert DecodedIn(t.log) + [] == DecodedIn(t.log);
    PrefixOf(s.audio, AudioInHand(t), t.taken, DecodedIn(t.log));
  }

  /** Main result for the permits, over every interleaving: a decode task that holds a permit and a
      frame finds a free slot at once, and a channel never exceeds its planned capacity. */
  lemma PermitsSuffice<V>(numerator: U64, denominator: U64, videoFrames: nat, audioFrames: nat, silence: AudioFrame,
                          actions: seq<Action<V>>)
    requires numerator > 0 && denominator > 0
    requires Run(Started(numerator, denominator, videoFrames, audioFrames, silence), actions)
    ensures var s := After(Started(numerator, denominator, videoFrames, audioFrames, silence), actions);
            && (s.video.producer.Delivering? && s.video.producer.holding ==> LaneEnabled(s.video, Deliver))
            && (s.audio.producer.Delivering? && s.audio.producer.holding ==> LaneEnabled(s.audio, Deliver))
            && |s.video.channel| + |InHand(s.videoTask)| + HeldByProducer(s.video) <= videoFrames
            && |s.audio.channel| + |AudioInHand(s.audioTask)| + HeldByProducer(s.audio) <= audioFrames
  {
    hide VideoInv, VideoTimes, AudioInv, AudioTimes;
    StartedInv<V>(numerator, denominator, videoFrames, audioFrames, silence);
    RunKeeps(Started(numerator, denominator, videoFrames, audioFrames, silence), actions);
  }

  // ----- the encode loops as objects -----

  function Rank<V>(phase: VideoPhase<V>): nat {
    match phase
    case Opening => 4
    case Polling => 3
    case Unwrapping(_, _) => 2
    case Encoding => 1
    case _ => 0
  }

  /** Steps on to the next tick, or to the end, or until the loop has to wait. */
  function ToNextTick<V>(t: VideoTask<V>, l: Lane<V>, c: Clock): (VideoTask<V>, Lane<V>, Clock)
    requires ClockInv(c)
    decreases Rank(t.phase)
  {
    if t.phase.AwaitTick? || t.phase.Finished? then (t, l, c)
    else
      match VideoStep(t, l, c)
      case None => (t, l, c)
      case Some((u, m, d)) => ToNextTick(u, m, d)
  }

  /** One whole turn of the loop, from a tick to the next. */
  function VideoTurn<V>(t: VideoTask<V>, l: Lane<V>, c: Clock): (VideoTask<V>, Lane<V>, Clock)
    requires ClockInv(c) && t.phase.AwaitTick?
  {
    var (u, m, d) := VideoStep(t, l, c).value;
    ToNextTick(u, m, d)
  }

  /** The four ways a turn can go. */
  lemma TurnEncodes<V>(t: VideoTask<V>, l: Lane<V>, c: Clock)
    requires ClockInv(c) && t.phase.Encoding?
    ensures ToNextTick(t, l, c) ==
            if t.last.None? then (t.(phase := AwaitTick), l, c)
            else (t.(phase := AwaitTick, log := t.log + [(t.last.value, VideoPts(c))]), l, AfterVideo(c))
  {
    hide VideoPts, AfterVideo;
  }

  lemma TurnPolls<V>(t: VideoTask<V>, l: Lane<V>, c: Clock)
    requires ClockInv(c) && t.phase.Polling?
    ensures ToNextTick(t, l, c) ==
            if l.channel != [] then
              ToNextTick(t.(phase := Encoding, last := Some(l.channel[0]), freshInput := true,
                            taken := t.taken + [l.channel[0]]),
                         Release(Pop(l)), c)
            else if l.producer.Closed? then (t.(phase := Finished), l, c)
            else ToNextTick(t.(phase := Encoding, freshInput := false), l, c)
  {
    hide VideoPts, AfterVideo, Release, Pop;
    if l.channel != [] {
      TurnUnwraps(t.(phase := Unwrapping(l.channel[0], false)), Pop(l), c);
    }
  }

  lemma TurnUnwraps<V>(t: VideoTask<V>, l: Lane<V>, c: Clock)
    requires ClockInv(c) && t.phase.Unwrapping? && !t.phase.opening
    ensures ToNextTick(t, l, c) ==
            ToNextTick(t.(phase := Encoding, last := Some(t.phase.frame), freshInput := true,
                          taken := t.taken + [t.phase.frame]),
                       Release(l), c)
  {
    hide VideoPts, AfterVideo, Release;
  }

  /** One tick of a loop that has a frame to repeat gives the encoder exactly one frame, at the time of the tick:
      the next decoded one if one is there, and only otherwise the last one again; it ends the loop only when
      nothing is left and nothing can come. The first tick never polls. */
  lemma TickEncodesNewest<V>(t: VideoTask<V>, l: Lane<V>, c: Clock)
    requires ClockInv(c) && t.phase.AwaitTick? && t.last.Some?
    ensures var (u, m, d) := VideoTurn(t, l, c);
            if t.pollNext && l.channel == [] && l.producer.Closed? then u.phase.Finished? && u.log == t.log && d == c
            else
              var polled := t.pollNext && l.channel != [];
              && u.phase.AwaitTick? && u.pollNext && d == AfterVideo(c)
              && u.log == t.log + [(if polled then l.channel[0] else t.last.value, VideoPts(c))]
              && u.taken == t.taken + (if polled then [l.channel[0]] else [])
              && m == if polled then l.(channel := l.channel[1..], permits := l.permits + 1) else l
  {
    hide VideoPts, AfterVideo, ToNextTick;
    if t.pollNext {
      TurnPolls(t.(phase := Polling), l, c);
      if l.channel != [] {
        TurnEncodes(t.(phase := Encoding, last := Some(l.channel[0]), freshInput := true,
                       taken := t.taken + [l.channel[0]]),
                    Release(Pop(l)), c);
      } else {
        TurnEncodes(t.(phase := Encoding, freshInput := false), l, c);
      }
    } else {
      TurnEncodes(t.(phase := Encoding, pollNext := true), l, c);
    }
  }

  class VideoEncodeLoop<V(==)> {
    var finished: bool
    var lastFrame: Option<V>
    var pollNextFrame: bool
    var freshInput: bool
    ghost var taken: seq<V>
    var log: seq<(V, U64)>
    const clock: ProgramClock

    ghost function View(): VideoTask<V>
      reads this
    {
      VideoTask(if finished then Finished else AwaitTick, lastFrame, pollNextFrame, freshInput, taken, log)
    }

    /** With the first frame in hand the loop waits for its first tick. */
    constructor (first: V, clock: ProgramClock)
      ensures this.clock == clock && View() == VideoTask(AwaitTick, Some(first), false, true, [first], [])
    {
      this.clock := clock;
      finished, lastFrame, pollNextFrame, freshInput, taken, log := false, Some(first), false, true, [first], [];
    }

    method Turn(l: Lane<V>) returns (after: Lane<V>)
      requires !finished && ClockInv(clock.View())
      modifies this, clock
      ensures (View(), after, clock.View()) == VideoTurn(old(View()), l, old(clock.View()))
    {
      hide VideoPts, AfterVideo, Release, Pop, ToNextTick;
      ghost var t, c := View(), clock.View();
      after := l;
      if pollNextFrame {
        TurnPolls(t.(phase := Polling), l, c);
        if l.channel != [] {
          lastFrame := Some(l.channel[0]);
          taken := taken + [l.channel[0]];
          freshInput := true;
          after := Release(Pop(l));
        } else if l.producer.Closed? {
          finished := true;
          return;
        } else {
          freshInput := false;
        }
      } else {
        pollNextFrame := true;
      }
      TurnEncodes(View().(phase := Encoding), after, c);
      if lastFrame.Some? {
        var pts := clock.NextVideoPts();
        log := log + [(lastFrame.value, pts)];
      }
    }
  }

  function AudioRank(phase: AudioPhase): nat {
    match phase
    case PollBlock => 3
    case UnwrapBlock(_) => 2
    case EncodeBlock(_) => 1
    case _ => 0
  }

  function ToNextBlock(t: AudioTask, l: Lane<AudioFrame>, c: Clock): (AudioTask, Lane<AudioFrame>, Clock)
    decreases AudioRank(t.phase)
  {
    if AudioRank(t.phase) == 0 then (t, l, c)
    else
      match AudioStep(t, l, c)
      case None => (t, l, c)
      case Some((u, m, d)) => ToNextBlock(u, m, d)
  }

  /** One whole turn of the audio loop. */
  function AudioTurn(t: AudioTask, l: Lane<AudioFrame>, c: Clock): (AudioTask, Lane<AudioFrame>, Clock)
    requires t.phase.AwaitBlock?
  {
    ToNextBlock(t.(phase := PollBlock), l, c)
  }

  lemma TurnEncodesBlock(t: AudioTask, l: Lane<AudioFrame>, c: Clock)
    requires t.phase.EncodeBlock?
    ensures var block := t.phase.block;
            ToNextBlock(t, l, c) ==
            if !Encodable(block.frame) then (t.(phase := AudioFailed), l, c)
            else (t.(phase := AwaitBlock, log := t.log + [(block, AudioPts(c, block.frame.sampleRate))]), l,
                  AfterAudio(c, SamplesOf(block.frame)))
  {
    hide AudioPts, AfterAudio;
  }

  lemma TurnPollsBlock(t: AudioTask, l: Lane<AudioFrame>, c: Clock)
    requires t.phase.PollBlock?
    ensures ToNextBlock(t, l, c) ==
            if l.channel != [] then
              ToNextBlock(t.(phase := EncodeBlock(Decoded(l.channel[0])), taken := t.taken + [l.channel[0]]),
                          Release(Pop(l)), c)
            else if l.producer.Closed? then (t.(phase := AudioDone), l, c)
            else ToNextBlock(t.(phase := EncodeBlock(Silence(t.silence))), l, c)
  {
    hide AudioPts, AfterAudio, Release, Pop, Encodable, SamplesOf;
    if l.channel != [] {
      var unwrapping := t.(phase := UnwrapBlock(l.channel[0]));
      assert ToNextBlock(unwrapping, Pop(l), c) ==
             ToNextBlock(t.(phase := EncodeBlock(Decoded(l.channel[0])), taken := t.taken + [l.channel[0]]),
                         Release(Pop(l)), c);
    }
  }

  /** One turn of the audio loop encodes the next decoded block if one is there, and only otherwise silence, at
      the time of the samples before it. */
  lemma TurnEncodesNext(t: AudioTask, l: Lane<AudioFrame>, c: Clock)
    requires t.phase.AwaitBlock?
    ensures var (u, m, d) := AudioTurn(t, l, c);
            if l.channel == [] && l.producer.Closed? then u.phase.AudioDone? && u.log == t.log && d == c
            else
              var block := if l.channel != [] then Decoded(l.channel[0]) else Silence(t.silence);
              && (u.phase.AudioFailed? <==> !Encodable(block.frame))
              && (Encodable(block.frame) ==>
                    && u.phase.AwaitBlock? && d == AfterAudio(c, SamplesOf(block.frame))
                    && u.log == t.log + [(block, AudioPts(c, block.frame.sampleRate))])
              && m == if l.channel != [] then l.(channel := l.channel[1..], permits := l.permits + 1) else l
  {
    hide AudioPts, AfterAudio, ToNextBlock, Encodable, SamplesOf;
    TurnPollsBlock(t.(phase := PollBlock), l, c);
    if l.channel != [] {
      TurnEncodesBlock(t.(phase := EncodeBlock(Decoded(l.channel[0])), taken := t.taken + [l.channel[0]]),
                       Release(Pop(l)), c);
    } else {
      TurnEncodesBlock(t.(phase := EncodeBlock(Silence(t.silence))), l, c);
    }
  }

  class AudioEncodeLoop {
    var done: bool
    var failed: bool
    const silence: AudioFrame
    ghost var taken: seq<AudioFrame>
    var log: seq<(Block, U64)>
    const clock: ProgramClock

    ghost function View(): AudioTask
      reads this
    {
      AudioTask(if failed then AudioFailed else if done then AudioDone else AwaitBlock, silence, taken, log)
    }

    constructor (silence: AudioFrame, clock: ProgramClock)
      ensures this.clock == clock && View() == NewAudioTask(silence)
    {
      this.silence, this.clock := silence, clock;
      done, failed, taken, log := false, false, [], [];
    }

    method Turn(l: Lane<AudioFrame>) returns (after: Lane<AudioFrame>)
      requires !done && !failed
      modifies this, clock
      ensures (View(), after, clock.View()) == AudioTurn(old(View()), l, old(clock.View()))
    {
      hide AudioPts, AfterAudio, Release, Pop, ToNextBlock;
      ghost var t, c := View(), clock.View();
      TurnPollsBlock(t.(phase := PollBlock), l, c);
      after := l;
      var block := Silence(silence);
      if l.channel != [] {
        block := Decoded(l.channel[0]);
        taken := taken + [l.channel[0]];
        after := Release(Pop(l));
      } else if l.producer.Closed? {
        done := true;
        return;
      }
      TurnEncodesBlock(View().(phase := EncodeBlock(block)), after, c);
      if !Encodable(block.frame) {
        failed := true;
        return;
      }
      var pts := clock.NextAudioPts(SamplesOf(block.frame), block.frame.sampleRate);
      log := log + [(block, pts)];
    }
  }
}
