/** The output tasks of the scheduler (crates/runtime/src/single.rs): multiplex-and-send over a transport,
    and packet sinks. Both drop live media rather than wait when their output fails. */
module Outputs {
  import opened Bytes
  import opened TsPackets
  import opened Psi
  import opened Demuxer
  import opened Muxer

  datatype Codec = H264 | AacLc | OtherCodec

  /** An encoded packet, its times already in units of 1/90000 s. */
  datatype Encoded = Encoded(codec: Codec, pts: U64, dts: Option<U64>, keyframe: bool, data: ByteString)

  /** What became of a packet taken from the queue; `Lost` with the error that ends the loop. */
  datatype Fate = Sent(packet: Encoded) | Dropped(packet: Encoded) | Lost(packet: Encoded)

  /** `Recoverable` is an I/O error; any other error ends the loop. */
  datatype Answer = Delivered | Recoverable | Fatal

  /** One call of the transport. */
  datatype Attempt = Attempt(packet: Encoded, bytes: ByteString, answer: Answer)

  /** `arrived`, `fates` and `attempts` are histories. */
  datatype Task = Task(queue: seq<Encoded>, muxer: MuxState, failed: bool, requestIdr: bool, ended: bool,
                       arrived: seq<Encoded>, fates: seq<Fate>, attempts: seq<Attempt>)

  const STARTED: Task := Task([], FRESH_MUXER, false, true, false, [], [], [])

  function ToMux(p: Encoded): MuxPacket
    requires !p.codec.OtherCodec?
  {
    MuxPacket(if p.codec.H264? then Video else Audio, p.pts, p.dts, p.keyframe, p.data)
  }

  function AllDropped(packets: seq<Encoded>): (r: seq<Fate>)
    ensures |r| == |packets| && forall i :: 0 <= i < |r| ==> r[i] == Dropped(packets[i])
  {
    seq(|packets|, i requires 0 <= i < |packets| => Dropped(packets[i]))
  }

  /** After a failure everything but the newest packet in the queue is dropped. */
  function Chosen(t: Task): nat
    requires t.queue != []
  {
    if t.failed then |t.queue| - 1 else 0
  }

  function FateOf(answer: Answer, packet: Encoded): Fate {
    match answer
    case Delivered => Sent(packet)
    case Recoverable => Dropped(packet)
    case Fatal => Lost(packet)
  }

  /** One turn of the loop with a packet in the queue. */
  function Turn(t: Task, answer: Answer): Task
    requires t.queue != [] && !t.ended
  {
    var n := Chosen(t);
    var packet := t.queue[n];
    var taken := t.(queue := t.queue[n + 1..], fates := t.fates + AllDropped(t.queue[..n]),
                    requestIdr := t.requestIdr || t.failed);
    if packet.codec.OtherCodec? then taken.(fates := taken.fates + [Lost(packet)], ended := true)
    else
      var (muxer, raws) := MuxPush(t.muxer, ToMux(packet));
      var tried := taken.(attempts := t.attempts + [Attempt(packet, Concat(raws), answer)],
                          fates := taken.fates + [FateOf(answer, packet)]);
      match answer
      case Delivered => tried.(muxer := muxer, failed := false)
      case Recoverable => tried.(muxer := FRESH_MUXER, failed := true, requestIdr := true)
      case Fatal => tried.(muxer := muxer, ended := true)
  }

  /** The encoder takes the IDR request at any time; packets arrive at any time. */
  datatype Action = Arrive(packet: Encoded) | TakeTurn(answer: Answer) | TakeIdrRequest

  predicate Enabled(t: Task, a: Action) {
    a.TakeTurn? ==> t.queue != [] && !t.ended
  }

  function Take(t: Task, a: Action): Task
    requires Enabled(t, a)
  {
    match a
    case Arrive(packet) => t.(queue := t.queue + [packet], arrived := t.arrived + [packet])
    case TakeTurn(answer) => Turn(t, answer)
    case TakeIdrRequest => t.(requestIdr := false)
  }

  predicate Run(t: Task, actions: seq<Action>)
    decreases |actions|
  {
    actions == [] || (Enabled(t, actions[0]) && Run(Take(t, actions[0]), actions[1..]))
  }

  function After(t: Task, actions: seq<Action>): Task
    requires Run(t, actions)
    decreases |actions|
  {
    if actions == [] then t else After(Take(t, actions[0]), actions[1..])
  }

  // ----- conservation -----

  function PacketsIn(fates: seq<Fate>): (r: seq<Encoded>)
    ensures |r| == |fates| && forall i :: 0 <= i < |r| ==> r[i] == fates[i].packet
  {
    seq(|fates|, i requires 0 <= i < |fates| => fates[i].packet)
  }

  function SentIn(fates: seq<Fate>): seq<Encoded>
    decreases |fates|
  {
    if fates == [] then []
    else
      var n := |fates| - 1;
      SentIn(fates[..n]) + if fates[n].Sent? then [fates[n].packet] else []
  }

  function DeliveredIn(attempts: seq<Attempt>): seq<Encoded>
    decreases |attempts|
  {
    if attempts == [] then []
    else
      var n := |attempts| - 1;
      DeliveredIn(attempts[..n]) + if attempts[n].answer.Delivered? then [attempts[n].packet] else []
  }

  /** The attempt after a failed one carries what a fresh muxer prints for its packet. */
  predicate FreshAfterFailure(attempts: seq<Attempt>) {
    forall k :: 0 < k < |attempts| && attempts[k - 1].answer.Recoverable? && !attempts[k].packet.codec.OtherCodec? ==>
      attempts[k].bytes == Concat(MuxPush(FRESH_MUXER, ToMux(attempts[k].packet)).1)
  }

  predicate AccountsInv(t: Task) {
    t.arrived == PacketsIn(t.fates) + t.queue && SentIn(t.fates) == DeliveredIn(t.attempts)
  }

  /** At most the last packet was lost, and only by the error that ended the loop. */
  predicate LossEnds(fates: seq<Fate>, ended: bool) {
    forall i :: 0 <= i < |fates| && fates[i].Lost? ==> ended && i == |fates| - 1
  }

  predicate FlagsInv(t: Task) {
    !t.ended ==>
      && (t.failed <==> t.attempts != [] && t.attempts[|t.attempts| - 1].answer.Recoverable?)
      && (t.failed ==> t.muxer == FRESH_MUXER)
  }

  predicate Supported(attempts: seq<Attempt>) {
    forall k :: 0 <= k < |attempts| ==> !attempts[k].packet.codec.OtherCodec?
  }

  predicate TaskInv(t: Task) {
    AccountsInv(t) && FlagsInv(t) && LossEnds(t.fates, t.ended) && Supported(t.attempts)
      && FreshAfterFailure(t.attempts)
  }

  lemma {:induction false} DropsSendNothing(fates: seq<Fate>, packets: seq<Encoded>)
    ensures SentIn(fates + AllDropped(packets)) == SentIn(fates)
    decreases |packets|
  {
    if packets == [] {
      assert fates + AllDropped(packets) == fates;
    } else {
      var n := |packets| - 1;
      var all := fates + AllDropped(packets);
      assert all[..|all| - 1] == fates + AllDropped(packets[..n]);
      assert all[|all| - 1] == Dropped(packets[n]);
      DropsSendNothing(fates, packets[..n]);
    }
  }

  lemma OneMoreFate(fates: seq<Fate>, fate: Fate)
    ensures SentIn(fates + [fate]) == SentIn(fates) + if fate.Sent? then [fate.packet] else []
  {
    assert (fates + [fate])[..|fates|] == fates;
  }

  lemma OneMoreAttempt(attempts: seq<Attempt>, attempt: Attempt)
    ensures DeliveredIn(attempts + [attempt]) ==
            DeliveredIn(attempts) + if attempt.answer.Delivered? then [attempt.packet] else []
  {
    assert (attempts + [attempt])[..|attempts|] == attempts;
  }

  lemma QueueSplit(fates: seq<Fate>, queue: seq<Encoded>, n: nat, fate: Fate)
    requires n < |queue| && fate.packet == queue[n]
    ensures PacketsIn(fates + AllDropped(queue[..n]) + [fate]) + queue[n + 1..] == PacketsIn(fates) + queue
  {
    assert PacketsIn(fates + AllDropped(queue[..n]) + [fate]) == PacketsIn(fates) + queue[..n] + [queue[n]];
    assert queue == queue[..n] + [queue[n]] + queue[n + 1..];
  }

  lemma FreshCarries(attempts: seq<Attempt>, attempt: Attempt)
    requires FreshAfterFailure(attempts) && !attempt.packet.codec.OtherCodec?
    requires attempts != [] && attempts[|attempts| - 1].answer.Recoverable? ==>
               attempt.bytes == Concat(MuxPush(FRESH_MUXER, ToMux(attempt.packet)).1)
    ensures FreshAfterFailure(attempts + [attempt])
  {
    hide MuxPush;
    var all := attempts + [attempt];
    forall k | 0 < k < |all| && all[k - 1].answer.Recoverable? && !all[k].packet.codec.OtherCodec?
      ensures all[k].bytes == Concat(MuxPush(FRESH_MUXER, ToMux(all[k].packet)).1)
    {
      assert all[k - 1] == attempts[k - 1];
      assert k < |attempts| ==> all[k] == attempts[k];
    }
  }

  lemma TurnKeeps(t: Task, answer: Answer)
    requires TaskInv(t) && t.queue != [] && !t.ended
    ensures TaskInv(Turn(t, answer))
  {
    hide MuxPush, FreshAfterFailure, SentIn, DeliveredIn, PacketsIn, LossEnds;
    var n := Chosen(t);
    var packet := t.queue[n];
    var dropped := t.fates + AllDropped(t.queue[..n]);
    DropsSendNothing(t.fates, t.queue[..n]);
    var fate := if packet.codec.OtherCodec? then Lost(packet) else FateOf(answer, packet);
    OneMoreFate(dropped, fate);
    QueueSplit(t.fates, t.queue, n, fate);
    assert SentIn(dropped) + [] == SentIn(dropped);
    LossKept(t.fates, t.queue[..n], fate);
    if !packet.codec.OtherCodec? {
      var attempt := Attempt(packet, Concat(MuxPush(t.muxer, ToMux(packet)).1), answer);
      OneMoreAttempt(t.attempts, attempt);
      assert DeliveredIn(t.attempts) + [] == DeliveredIn(t.attempts);
      FreshCarries(t.attempts, attempt);
    }
  }

  lemma LossKept(fates: seq<Fate>, packets: seq<Encoded>, fate: Fate)
    requires LossEnds(fates, false)
    ensures LossEnds(fates + AllDropped(packets) + [fate], fate.Lost?)
  {
  }

  lemma TakeKeeps(t: Task, a: Action)
    requires TaskInv(t) && Enabled(t, a)
    ensures TaskInv(Take(t, a))
  {
    hide Turn, FreshAfterFailure;
    match a
    case Arrive(packet) => assert PacketsIn(t.fates) + (t.queue + [packet]) == PacketsIn(t.fates) + t.queue + [packet];
    case TakeTurn(answer) => TurnKeeps(t, answer);
    case TakeIdrRequest =>
  }

  lemma {:induction false} RunKeeps(t: Task, actions: seq<Action>)
    requires TaskInv(t) && Run(t, actions)
    ensures TaskInv(After(t, actions))
    decreases |actions|
  {
    hide TaskInv, Take, Enabled;
    if actions != [] {
      TakeKeeps(t, actions[0]);
      RunKeeps(Take(t, actions[0]), actions[1..]);
    }
  }

  /** Main result, for every pattern of arrivals and send failures: each packet that arrived is still
      queued or has exactly one fate, in order; the packets counted as sent are exactly those the
      transport accepted; and each transport call after a failure carries the output of a fresh muxer. */
  lemma OutputConserved(actions: seq<Action>)
    requires Run(STARTED, actions)
    ensures var t := After(STARTED, actions);
            && t.arrived == PacketsIn(t.fates) + t.queue
            && SentIn(t.fates) == DeliveredIn(t.attempts)
            && LossEnds(t.fates, t.ended)
            && FreshAfterFailure(t.attempts)
  {
    hide FreshAfterFailure, After, Run;
    StartedInv();
    RunKeeps(STARTED, actions);
  }

  lemma StartedInv()
    ensures TaskInv(STARTED)
  {
    hide MuxPush;
    assert PacketsIn([]) == [];
  }

  /** After a failure the next call carries the newest packet there is, all older ones being dropped, and
      an IDR is requested. */
  lemma NewestAfterFailure(t: Task, answer: Answer)
    requires t.queue != [] && !t.ended && t.failed && !t.queue[|t.queue| - 1].codec.OtherCodec?
    ensures var next := Turn(t, answer);
            && next.queue == [] && |next.attempts| == |t.attempts| + 1
            && next.attempts[|t.attempts|].packet == t.queue[|t.queue| - 1]
            && next.fates == t.fates + AllDropped(t.queue[..|t.queue| - 1]) + [FateOf(answer, t.queue[|t.queue| - 1])]
            && next.requestIdr
  {
    hide MuxPush, FateOf;
  }

  /** Over every run: after a failure, whatever arrived meanwhile, the next call carries the newest packet
      that has arrived, and its bytes begin with the program tables. */
  lemma NextCallIsNewest(actions: seq<Action>, answer: Answer)
    requires Run(STARTED, actions)
    requires var t := After(STARTED, actions);
             && t.queue != [] && !t.ended && !t.queue[|t.queue| - 1].codec.OtherCodec?
             && t.attempts != [] && t.attempts[|t.attempts| - 1].answer.Recoverable?
    ensures var t := After(STARTED, actions);
            var next := Turn(t, answer);
            && |next.attempts| == |t.attempts| + 1
            && var attempt := next.attempts[|t.attempts|];
               && |t.arrived| > 0 && attempt.packet == t.arrived[|t.arrived| - 1]
               && exists raws: seq<ByteString> :: attempt.bytes == Concat(raws) && OpensWithTables(FRESH_MUXER, raws)
  {
    hide FreshAfterFailure, After, Run, MuxPush, OpensWithTables, SentIn, DeliveredIn, LossEnds;
    StartedInv();
    RunKeeps(STARTED, actions);
    var t := After(STARTED, actions);
    assert t.arrived[|t.arrived| - 1] == t.queue[|t.queue| - 1];
    NewestAfterFailure(t, answer);
    NeverSentOpensWithTables(FRESH_MUXER, ToMux(t.queue[|t.queue| - 1]));
    var raws: seq<ByteString> := MuxPush(FRESH_MUXER, ToMux(t.queue[|t.queue| - 1])).1;
    assert Turn(t, answer).attempts[|t.attempts|].bytes ==
           Concat(MuxPush(FRESH_MUXER, ToMux(t.queue[|t.queue| - 1])).1);
  }

  // ----- the output loops -----

  class MuxAndSend {
    var queue: seq<Encoded>
    var muxer: StreamMuxer
    var failed: bool
    var requestIdr: bool
    var ended: bool
    ghost var arrived: seq<Encoded>
    var fates: seq<Fate>
    var attempts: seq<Attempt>

    ghost function View(): Task
      reads this, muxer
    {
      Task(queue, muxer.View(), failed, requestIdr, ended, arrived, fates, attempts)
    }

    constructor ()
      ensures View() == STARTED && fresh(muxer)
    {
      queue, failed, requestIdr, ended, arrived, fates, attempts := [], false, true, false, [], [], [];
      muxer := new StreamMuxer();
    }

    method Receive(packet: Encoded)
      modifies `queue, `arrived
      ensures View() == old(View()).(queue := old(queue) + [packet], arrived := old(arrived) + [packet])
    {
      queue := queue + [packet];
      arrived := arrived + [packet];
    }

    /** The body of the loop; `answer` is what the transport will say. */
    method SendOne(answer: Answer)
      requires queue != [] && !ended
      modifies this, muxer
      ensures View() == Turn(old(View()), answer)
      ensures muxer == old(muxer) || fresh(muxer)
    {
      hide MuxPush;
      var packet;
      if failed {
        packet := TakeNewest();
        requestIdr := true;
      } else {
        packet := queue[0];
        queue := queue[1..];
      }
      assert fates == old(fates) + AllDropped(old(queue)[..Chosen(old(View()))]);
      if packet.codec.OtherCodec? {
        fates := fates + [Lost(packet)];
        ended := true;
        return;
      }
      SendPacket(packet, answer);
    }

    method TakeNewest() returns (packet: Encoded)
      requires queue != []
      modifies `queue, `fates
      ensures queue == [] && packet == old(queue)[|old(queue)| - 1]
      ensures fates == old(fates) + AllDropped(old(queue)[..|old(queue)| - 1])
    {
      packet := queue[0];
      queue := queue[1..];
      ghost var i := 0;
      assert AllDropped(old(queue)[..0]) == [];
      while queue != []
        invariant i < |old(queue)| && packet == old(queue)[i] && queue == old(queue)[i + 1..]
        invariant fates == old(fates) + AllDropped(old(queue)[..i])
        decreases |queue|
      {
        assert AllDropped(old(queue)[..i + 1]) == AllDropped(old(queue)[..i]) + [Dropped(packet)];
        fates := fates + [Dropped(packet)];
        packet := queue[0];
        queue := queue[1..];
        i := i + 1;
      }
    }

    method SendPacket(packet: Encoded, answer: Answer)
      requires !packet.codec.OtherCodec?
      modifies this, muxer
      ensures muxer == old(muxer) || fresh(muxer)
      ensures var before := old(View());
              var (next, raws) := MuxPush(before.muxer, ToMux(packet));
              var tried := before.(attempts := before.attempts + [Attempt(packet, Concat(raws), answer)],
                                   fates := before.fates + [FateOf(answer, packet)]);
              View() == match answer
                        case Delivered => tried.(muxer := next, failed := false)
                        case Recoverable => tried.(muxer := FRESH_MUXER, failed := true, requestIdr := true)
                        case Fatal => tried.(muxer := next, ended := true)
    {
      hide MuxPush, OpensWithTables;
      var bytes := muxer.Push(ToMux(packet));
      attempts := attempts + [Attempt(packet, bytes, answer)];
      match answer {
        case Delivered =>
          fates := fates + [Sent(packet)];
          failed := false;
        case Recoverable =>
          fates := fates + [Dropped(packet)];
          requestIdr := true;
          muxer := new StreamMuxer();
          failed := true;
        case Fatal =>
          fates := fates + [Lost(packet)];
          ended := true;
      }
    }
  }

  // ----- packet sinks -----

  /** What a packet sink reports for one packet. */
  datatype SinkAnswer = SinkSent | AwaitingKeyframe | SinkRecoverable | SinkFatal

  /** The loop over a packet sink, which keeps its own connection and never skips the queue. */
  class SendPackets {
    var queue: seq<Encoded>
    var outputFailed: bool
    var requestIdr: bool
    var ended: bool
    ghost var arrived: seq<Encoded>
    var fates: seq<Fate>
    var answers: seq<SinkAnswer>

    /** Every packet taken from the queue has one fate, which is `Sent` if and only if the sink said so. */
    ghost predicate Accounted()
      reads this
    {
      && arrived == PacketsIn(fates) + queue
      && |answers| == |fates|
      && forall i :: 0 <= i < |fates| ==> (fates[i].Sent? <==> answers[i].SinkSent?)
    }

    constructor ()
      ensures Accounted() && fates == [] && queue == [] && requestIdr && !ended && !outputFailed
    {
      queue, outputFailed, requestIdr, ended, arrived, fates, answers := [], false, true, false, [], [], [];
    }

    method Receive(packet: Encoded)
      requires Accounted()
      modifies `queue, `arrived
      ensures Accounted() && queue == old(queue) + [packet]
    {
      assert PacketsIn(fates) + (queue + [packet]) == PacketsIn(fates) + queue + [packet];
      queue := queue + [packet];
      arrived := arrived + [packet];
    }

    method SendOne(answer: SinkAnswer)
      requires Accounted() && queue != [] && !ended
      modifies this
      ensures Accounted() && arrived == old(arrived) && queue == old(queue[1..])
      ensures fates == old(fates) + [match answer
                                     case SinkSent => Sent(old(queue[0]))
                                     case SinkFatal => Lost(old(queue[0]))
                                     case _ => Dropped(old(queue[0]))]
      ensures answers == old(answers) + [answer]
      ensures requestIdr == (old(requestIdr) || answer.AwaitingKeyframe? || answer.SinkRecoverable?)
      ensures outputFailed == match answer
                              case SinkSent => false
                              case SinkRecoverable => true
                              case _ => old(outputFailed)
      ensures ended == answer.SinkFatal?
    {
      var packet := queue[0];
      assert PacketsIn(fates + [Sent(packet)]) == PacketsIn(fates) + [packet] == PacketsIn(fates + [Dropped(packet)]);
      assert PacketsIn(fates + [Lost(packet)]) == PacketsIn(fates) + [packet];
      assert queue == [packet] + queue[1..];
      assert PacketsIn(fates) + ([packet] + queue[1..]) == PacketsIn(fates) + [packet] + queue[1..];
      queue := queue[1..];
      answers := answers + [answer];
      match answer {
        case SinkSent =>
          fates := fates + [Sent(packet)];
          outputFailed := false;
        case AwaitingKeyframe =>
          fates := fates + [Dropped(packet)];
          requestIdr := true;
        case SinkRecoverable =>
          fates := fates + [Dropped(packet)];
          requestIdr := true;
          outputFailed := true;
        case SinkFatal =>
          fates := fates + [Lost(packet)];
          ended := true;
      }
    }
  }
}
