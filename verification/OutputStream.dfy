/** What a receiver makes of the calls of the multiplex-and-send loop (crates/runtime/src/single.rs:1276-1327). */
module OutputStream {
  import opened Bytes
  import opened Demuxer
  import opened Muxer
  import opened MuxDemux
  import opened Outputs

  function BytesIn(attempts: seq<Attempt>): (r: seq<ByteString>)
    ensures |r| == |attempts| && forall i :: 0 <= i < |r| ==> r[i] == attempts[i].bytes
  {
    seq(|attempts|, i requires 0 <= i < |attempts| => attempts[i].bytes)
  }

  function MuxPackets(attempts: seq<Attempt>): (r: seq<MuxPacket>)
    requires Supported(attempts)
    ensures |r| == |attempts| && forall i :: 0 <= i < |r| ==> r[i] == ToMux(attempts[i].packet)
  {
    seq(|attempts|, i requires 0 <= i < |attempts| => ToMux(attempts[i].packet))
  }

  /** Where the calls after the last failure begin. */
  function Resumed(attempts: seq<Attempt>): (from: nat)
    ensures from <= |attempts|
    ensures forall k :: from <= k < |attempts| ==> attempts[k].answer.Delivered?
    ensures from > 0 ==> !attempts[from - 1].answer.Delivered?
    decreases |attempts|
  {
    if attempts == [] || !attempts[|attempts| - 1].answer.Delivered? then |attempts|
    else Resumed(attempts[..|attempts| - 1])
  }

  /** The calls since the last failure. */
  function Stretch(attempts: seq<Attempt>): seq<Attempt> {
    attempts[Resumed(attempts)..]
  }

  /** They are one run of a fresh multiplexer over their packets. */
  ghost predicate OneMuxer(t: Task) {
    Supported(t.attempts) &&
    (!t.ended ==>
       var packets := MuxPackets(Stretch(t.attempts));
       && t.muxer == MuxRun(FRESH_MUXER, packets).0
       && Concat(BytesIn(Stretch(t.attempts))) == Concat(MuxRun(FRESH_MUXER, packets).1))
  }

  lemma StretchGrows(attempts: seq<Attempt>, attempt: Attempt)
    ensures Stretch(attempts + [attempt]) == if attempt.answer.Delivered? then Stretch(attempts) + [attempt] else []
  {
    assert (attempts + [attempt])[..|attempts|] == attempts;
  }

  lemma {:induction false} MuxedMore(m: MuxState, packets: seq<MuxPacket>, packet: MuxPacket)
    ensures var (before, raws) := MuxRun(m, packets);
            var (after, more) := MuxPush(before, packet);
            && MuxRun(m, packets + [packet]).0 == after
            && Concat(MuxRun(m, packets + [packet]).1) == Concat(raws) + Concat(more)
  {
    hide MuxPush;
    var (before, raws) := MuxRun(m, packets);
    MuxRunAppend(m, packets, [packet]);
    assert [packet][1..] == [];
    var more := MuxPush(before, packet).1;
    assert MuxRun(before, [packet]).1 == more + [] == more;
    ConcatAppend(raws, more);
  }

  lemma StretchMore(stretch: seq<Attempt>, attempt: Attempt)
    requires Supported(stretch) && !attempt.packet.codec.OtherCodec?
    ensures Supported(stretch + [attempt])
    ensures MuxPackets(stretch + [attempt]) == MuxPackets(stretch) + [ToMux(attempt.packet)]
    ensures Concat(BytesIn(stretch + [attempt])) == Concat(BytesIn(stretch)) + attempt.bytes
  {
    assert BytesIn(stretch + [attempt]) == BytesIn(stretch) + [attempt.bytes];
    ConcatSnoc(BytesIn(stretch), attempt.bytes);
  }

  lemma TurnKeepsOneMuxer(t: Task, answer: Answer)
    requires OneMuxer(t) && t.queue != [] && !t.ended
    ensures OneMuxer(Turn(t, answer))
  {
    hide MuxPush, MuxRun, Concat, Resumed;
    var packet := t.queue[Chosen(t)];
    if !packet.codec.OtherCodec? {
      var raws := MuxPush(t.muxer, ToMux(packet)).1;
      var attempt := Attempt(packet, Concat(raws), answer);
      StretchGrows(t.attempts, attempt);
      StretchMore(t.attempts, attempt);
      StretchMore(Stretch(t.attempts), attempt);
      MuxedMore(FRESH_MUXER, MuxPackets(Stretch(t.attempts)), ToMux(packet));
      NothingMuxed();
    }
  }

  lemma NothingMuxed()
    ensures MuxPackets([]) == [] && MuxRun(FRESH_MUXER, []) == (FRESH_MUXER, []) && BytesIn([]) == []
    ensures Concat<Byte>([]) == []
  {
  }

  lemma {:induction false} RunKeepsOneMuxer(t: Task, actions: seq<Action>)
    requires OneMuxer(t) && Outputs.Run(t, actions)
    ensures OneMuxer(Outputs.After(t, actions))
    decreases |actions|
  {
    hide OneMuxer, Turn;
    if actions != [] {
      match actions[0] {
        case Arrive(packet) => SameCalls(t, Take(t, actions[0]));
        case TakeTurn(answer) => TurnKeepsOneMuxer(t, answer);
        case TakeIdrRequest => SameCalls(t, Take(t, actions[0]));
      }
      RunKeepsOneMuxer(Take(t, actions[0]), actions[1..]);
    }
  }

  lemma SameCalls(t: Task, after: Task)
    requires OneMuxer(t) && after.attempts == t.attempts && after.muxer == t.muxer && after.ended == t.ended
    ensures OneMuxer(after)
  {
  }

  /** A fresh demultiplexer that is given these bytes in these cuts and then flushed reports exactly these
      packets, per stream and in order, with their data and, while they can be followed, their times, and
      no error. */
  ghost predicate ReceivedAs(packets: seq<MuxPacket>, cuts: seq<ByteString>) {
    var pushed := DrainCuts(INITIAL_STATE, [], cuts);
    var events := pushed.events + FlushState(pushed.state).1;
    && Benign(events)
    && PacketsOf(events, Video) == DeliveredAll(NO_TIMES, Of(packets, Video))
    && PacketsOf(events, Audio) == DeliveredAll(NO_TIMES, Of(packets, Audio))
    && (PacketsOf(events, Video) == Originals(Of(packets, Video)) <==> Followed(Of(packets, Video)))
    && (PacketsOf(events, Audio) == Originals(Of(packets, Audio)) <==> Followed(Of(packets, Audio)))
  }

  lemma MuxedIsReceived(packets: seq<MuxPacket>, cuts: seq<ByteString>)
    requires AllAcceptable(packets) && Concat(cuts) == Concat(MuxRun(FRESH_MUXER, packets).1)
    ensures ReceivedAs(packets, cuts)
  {
    hide MuxRun, DrainCuts, FlushState, Benign, PacketsOf, ClocksOf, ClockTimes, DeliveredAll, Originals, Followed, Of,
      AllAcceptable, Concat;
    DemuxReports(packets, cuts);
    DemuxUndoesMux(packets, cuts);
  }

  /** The bytes of the calls since the last failure are received as the packets of those calls. */
  ghost predicate StretchReceived(t: Task, cuts: seq<ByteString>) {
    Supported(t.attempts) &&
    var packets := MuxPackets(Stretch(t.attempts));
    AllAcceptable(packets) ==> ReceivedAs(packets, cuts)
  }

  lemma OneMuxerIsReceived(t: Task, cuts: seq<ByteString>)
    requires OneMuxer(t) && !t.ended && Concat(cuts) == Concat(BytesIn(Stretch(t.attempts)))
    ensures StretchReceived(t, cuts)
  {
    hide MuxRun, ReceivedAs, AllAcceptable, Resumed, Concat;
    var packets := MuxPackets(Stretch(t.attempts));
    if AllAcceptable(packets) {
      MuxedIsReceived(packets, cuts);
    }
  }

  /** Main result, over every run of the loop, whatever arrived and failed before, and for every cut of the
      bytes sent since the last failure. */
  lemma StretchIsReceived(actions: seq<Action>, cuts: seq<ByteString>)
    requires Outputs.Run(Outputs.STARTED, actions)
    requires var t := Outputs.After(Outputs.STARTED, actions);
             !t.ended && Concat(cuts) == Concat(BytesIn(Stretch(t.attempts)))
    ensures StretchReceived(Outputs.After(Outputs.STARTED, actions), cuts)
  {
    hide OneMuxer, StretchReceived, Resumed, Concat, Outputs.Run, Outputs.After;
    StartedAlone();
    RunKeepsOneMuxer(Outputs.STARTED, actions);
    OneMuxerIsReceived(Outputs.After(Outputs.STARTED, actions), cuts);
  }

  lemma StartedAlone()
    ensures OneMuxer(Outputs.STARTED)
  {
    hide MuxPush;
    NothingMuxed();
  }
}
