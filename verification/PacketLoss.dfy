/** What a loss does to the demultiplexer (crates/mpegts/src/stream.rs:333-406, 471-481): transport packets of
    one unit are missing or damaged, and everything else arrives. */
module PacketLoss {
  import opened Bytes
  import opened Timestamps
  import opened TsPackets
  import opened Psi
  import opened Pes
  import opened Demuxer
  import opened Muxer
  import opened Resync
  import opened MuxDemux

  // ----- one packet that shows a loss -----

  /** A whole packet on this PID that neither parses as a unit start nor carries a clock. */
  predicate Stray(raw: ByteString, pid: U16) {
    && |raw| == PACKET_SIZE && raw[0] == SYNC_BYTE && PidOf(raw[1], raw[2]) == pid
    && match ParsePacket(raw)
       case Err(_) => true
       case Ok(packet) => packet.transportError || (!packet.payloadUnitStart && ClockEvents(packet) == [])
  }

  /** It shows that something is wrong: it does not parse, is flagged as damaged or discontinuous, or carries
      payload under another counter than the one due. */
  predicate Strikes(raw: ByteString, due: Option<Counter>) {
    match ParsePacket(raw)
    case Err(_) => true
    case Ok(packet) =>
      || packet.transportError || Discontinuous(packet)
      || (packet.control.HasPayload() && due.Some? && packet.continuityCounter != due.value)
  }

  function Due(d: DemuxState, pid: U16): Option<Counter> {
    if pid in d.continuity then Some(Later(d.continuity[pid], 1)) else None
  }

  predicate AllTrouble(events: seq<DemuxEvent>, pid: U16) {
    forall i :: 0 <= i < |events| ==> Trouble(events[i], pid)
  }

  /** An interrupted PID has nothing open, nothing counted, nothing followed, and its next packet is marked;
      nothing else has changed. */
  lemma InterruptedState(d: DemuxState, pid: U16)
    ensures var e := Interrupt(d, pid);
            && PesOf(e, pid) == EMPTY_PES && SectionsOf(e, pid) == EMPTY_SECTION && pid !in e.continuity
            && pid in e.pending && e.pending[pid]
            && (d.videoPid == Some(pid) ==> e.videoPts == FRESH && e.videoDts == FRESH)
            && (d.videoPid != Some(pid) && d.audioPid == Some(pid) ==> e.audioPts == FRESH)
            && (forall other: U16 :: other != pid ==>
                  && PesOf(e, other) == PesOf(d, other) && SectionsOf(e, other) == SectionsOf(d, other)
                  && (other in e.continuity <==> other in d.continuity)
                  && (other in d.continuity ==> e.continuity[other] == d.continuity[other]))
  {
  }

  /** `e` is `b` after an interruption of the PID, whatever was counted there since. */
  predicate Settled(b: DemuxState, e: DemuxState, pid: U16) {
    e == Interrupt(b, pid).(continuity := e.continuity) && e.continuity - {pid} == b.continuity - {pid}
  }

  /** Any state, any packet of a media PID that starts no unit: if it shows a loss, the PID is interrupted,
      the payload is dropped with what was open, and only trouble is reported. */
  lemma StrikeStep(d: DemuxState, raw: ByteString, pid: U16)
    requires TablesKnown(d) && MediaPid(pid) && Stray(raw, pid) && Strikes(raw, Due(d, pid))
    ensures Settled(d, Step(d, raw).0, pid) && AllTrouble(Step(d, raw).1, pid) && Step(d, raw).1 != []
  {
    hide ParsePacket, Later, PidOf, Step, Trouble;
    PidRead(raw);
    if ParsePacket(raw).Ok? && !ParsePacket(raw).value.transportError {
      ReadStep(d, raw, ParsePacket(raw).value);
      CountedAway(d, pid, ParsePacket(raw).value.continuityCounter);
    } else {
      BrokenStep(d, raw, pid);
      CountedAway(d, pid, 0);
    }
  }

  lemma CountedAway(d: DemuxState, pid: U16, counter: Byte)
    ensures Interrupt(d.(continuity := d.continuity[pid := counter]), pid) == Interrupt(d, pid)
    ensures Settled(d, Interrupt(d, pid), pid)
  {
    assert d.continuity[pid := counter] - {pid} == d.continuity - {pid};
    assert d.continuity - {pid} - {pid} == d.continuity - {pid};
  }

  lemma BrokenStep(d: DemuxState, raw: ByteString, pid: U16)
    requires |raw| == PACKET_SIZE && PidOf(raw[1], raw[2]) == pid
    requires ParsePacket(raw).Ok? ==> ParsePacket(raw).value.transportError && ParsePacket(raw).value.pid == pid
    ensures Step(d, raw).0 == Interrupt(d, pid) && AllTrouble(Step(d, raw).1, pid) && Step(d, raw).1 != []
  {
    hide ParsePacket, PidOf, Interrupt;
  }

  lemma ReadStep(d: DemuxState, raw: ByteString, packet: TsPacket)
    requires TablesKnown(d) && MediaPid(packet.pid) && |raw| == PACKET_SIZE && ParsePacket(raw) == Ok(packet)
    requires !packet.transportError && !packet.payloadUnitStart && ClockEvents(packet) == []
    requires Strikes(raw, Due(d, packet.pid))
    ensures var counted := if packet.control.HasPayload()
                           then d.(continuity := d.continuity[packet.pid := packet.continuityCounter]) else d;
            Step(d, raw).0 == Interrupt(counted, packet.pid)
    ensures AllTrouble(Step(d, raw).1, packet.pid) && Step(d, raw).1 != []
  {
    hide ParsePacket, Later, PidOf, ProcessPayload, Interrupt, TablesKnown;
    var counted := if packet.control.HasPayload()
                   then d.(continuity := d.continuity[packet.pid := packet.continuityCounter]) else d;
    InterruptedIgnores(d, counted, packet);
  }

  lemma InterruptedIgnores(d: DemuxState, counted: DemuxState, packet: TsPacket)
    requires TablesKnown(d) && MediaPid(packet.pid) && !packet.payloadUnitStart
    requires counted == d.(continuity := counted.continuity)
    ensures ProcessPayload(Interrupt(counted, packet.pid), packet) == Outcome(Interrupt(counted, packet.pid), [], None)
  {
    hide ProcessPayload;
    EmptyIgnores(Interrupt(counted, packet.pid), packet);
  }

  /** Without an open unit a continuation is ignored. */
  lemma EmptyIgnores(d: DemuxState, packet: TsPacket)
    requires TablesKnown(d) && MediaPid(packet.pid) && packet.pid in d.pes && d.pes[packet.pid] == EMPTY_PES
    requires !packet.payloadUnitStart
    ensures ProcessPayload(d, packet) == Outcome(d, [], None)
  {
    assert d.pes[packet.pid := EMPTY_PES] == d.pes;
  }

  /** Once interrupted, a PID stays so until a unit starts. */
  lemma StrayStep(b: DemuxState, e: DemuxState, raw: ByteString, pid: U16)
    requires TablesKnown(b) && MediaPid(pid) && Settled(b, e, pid) && Stray(raw, pid)
    ensures Settled(b, Step(e, raw).0, pid) && AllTrouble(Step(e, raw).1, pid)
  {
    hide ParsePacket, Later, PidOf;
    if Strikes(raw, Due(e, pid)) {
      StrikeStep(e, raw, pid);
      SettledAgain(b, e, Step(e, raw).0, pid);
    } else {
      PidRead(raw);
      var packet := ParsePacket(raw).value;
      var counted := if packet.control.HasPayload() then e.(continuity := e.continuity[pid := packet.continuityCounter])
                     else e;
      EmptyIgnores(counted, packet);
      assert e.continuity[pid := packet.continuityCounter] - {pid} == e.continuity - {pid};
    }
  }

  lemma InterruptTwice(b: DemuxState, pid: U16, continuity: map<U16, Byte>)
    ensures Interrupt(Interrupt(b, pid).(continuity := continuity), pid)
            == Interrupt(b, pid).(continuity := continuity - {pid})
  {
    var e := Interrupt(b, pid);
    assert e.pending[pid := true] == e.pending;
    assert e.sections[pid := EMPTY_SECTION] == e.sections;
    assert e.pes[pid := EMPTY_PES] == e.pes;
  }

  lemma SettledAgain(b: DemuxState, e: DemuxState, after: DemuxState, pid: U16)
    requires Settled(b, e, pid) && Settled(e, after, pid)
    ensures Settled(b, after, pid)
  {
    hide Interrupt;
    InterruptTwice(b, pid, e.continuity);
  }

  predicate AllStray(raws: seq<ByteString>, pid: U16) {
    forall i :: 0 <= i < |raws| ==> Stray(raws[i], pid)
  }

  lemma StrayIsWhole(raws: seq<ByteString>, pid: U16)
    requires AllStray(raws, pid)
    ensures WholePackets(raws)
  {
  }

  lemma {:induction false} StrayRun(b: DemuxState, e: DemuxState, raws: seq<ByteString>, pid: U16)
    requires TablesKnown(b) && MediaPid(pid) && Settled(b, e, pid) && AllStray(raws, pid)
    ensures WholePackets(raws)
    ensures Settled(b, Run(e, raws).0, pid) && AllTrouble(Run(e, raws).1, pid)
    decreases |raws|
  {
    hide Step, Stray, Settled, Trouble, TablesKnown, MediaPid;
    StrayIsWhole(raws, pid);
    if raws != [] {
      StrayStep(b, e, raws[0], pid);
      StrayRun(b, Step(e, raws[0]).0, raws[1..], pid);
    }
  }

  /** A packet whose processing fails, for whatever reason, interrupts its PID as well. */
  lemma FailedStepInterrupts(d: DemuxState, raw: ByteString)
    requires |raw| == PACKET_SIZE
    requires ParsePacket(raw).Ok? ==> ProcessPacket(d, ParsePacket(raw).value).error.Some?
    ensures var pid := PidOf(raw[1], raw[2]);
            var (e, events) := Step(d, raw);
            && PesOf(e, pid) == EMPTY_PES && SectionsOf(e, pid) == EMPTY_SECTION && pid !in e.continuity
            && pid in e.pending && e.pending[pid]
            && events != [] && events[|events| - 1].CorruptData? && events[|events| - 1].pid == pid
  {
    hide ParsePacket, ProcessPacket;
    var pid := PidOf(raw[1], raw[2]);
    InterruptedState(d, pid);
    if ParsePacket(raw).Ok? {
      InterruptedState(ProcessPacket(d, ParsePacket(raw).value).state, pid);
    }
  }

  // ----- the undamaged head of a unit -----

  /** How many bytes of a unit the first `a` packets carry. */
  function HeadBytes(pcr: Option<U64>, a: nat): nat {
    if a == 0 then 0 else MaxPayload(pcr) + 184 * (a - 1)
  }

  lemma {:induction false} ContinuationAt(pid: Pid, rest: ByteString, counter: Counter, i: nat)
    requires i < |Packetize(pid, rest, false, None, false, counter)|
    ensures 184 * i < |rest|
    ensures Packetize(pid, rest, false, None, false, counter)[i] ==
            PrintPacket(pid, false, Later(counter, i), None, false, rest[184 * i..Min(184 * i + 184, |rest|)])
    decreases i
  {
    hide PrintPacket, Later;
    LaterNone(counter);
    var take := Min(|rest|, 184);
    if i == 0 {
      assert rest[..take] == rest[0..take];
    } else {
      var tail := rest[take..];
      ContinuationAt(pid, tail, Later(counter, 1), i - 1);
      LaterAgain(counter, 1, i - 1);
      SliceOfSlice(rest, take, |rest|, 184 * (i - 1), Min(184 * i, |tail|));
      assert rest[take..|rest|] == tail;
      assert tail[184 * (i - 1)..Min(184 * i, |tail|)] == rest[184 * i..Min(184 * i + 184, |rest|)];
    }
  }

  /** The i-th packet of a unit carries its i-th chunk; only the last chunk is not full. */
  lemma ChunkAt(pid: Pid, whole: ByteString, pcr: Option<U64>, randomAccess: bool, counter: Counter, i: nat)
    requires 0 < i < |Packetize(pid, whole, true, pcr, randomAccess, counter)|
    ensures var n := HeadBytes(pcr, i);
            && n < |whole|
            && Packetize(pid, whole, true, pcr, randomAccess, counter)[i] ==
               PrintPacket(pid, false, Later(counter, i), None, false, whole[n..Min(n + 184, |whole|)])
  {
    hide PrintPacket, Later;
    var take := Min(|whole|, MaxPayload(pcr));
    var rest := whole[take..];
    ContinuationAt(pid, rest, Later(counter, 1), i - 1);
    LaterAgain(counter, 1, i - 1);
    var n := 184 * (i - 1);
    SliceOfSlice(whole, take, |whole|, n, Min(n + 184, |rest|));
    assert whole[take..|whole|] == rest;
    assert rest[n..Min(n + 184, |rest|)] == whole[take + n..Min(take + n + 184, |whole|)];
  }

  /** A unit cut short: the held unit is emitted, and the first bytes of this one are assembled. */
  lemma {:induction false} HeadRun(d: DemuxState, pid: Pid, whole: ByteString, counter: Counter, pcr: Option<U64>,
                                   randomAccess: bool, a: nat)
    requires MediaPid(pid) && TablesKnown(d) && SoundUnit(whole) && InSequence(d, pid, counter)
    requires EmitPrevious(d, pid).error.None? && TablesKnown(EmitPrevious(d, pid).state)
    requires 0 < a < |Packetize(pid, whole, true, pcr, randomAccess, counter)|
    ensures var raws := Packetize(pid, whole, true, pcr, randomAccess, counter);
            var n := HeadBytes(pcr, a);
            && 14 <= n < |whole| && WholePackets(raws[..a])
            && Run(d, raws[..a]) ==
               (Begun(d, pid, whole, n, Later(counter, a - 1)), Clock(pid, pcr) + EmitPrevious(d, pid).events)
    decreases a
  {
    hide PrintPacket, EmitPrevious, EmitComplete, Step, Later, Declared, SoundUnit, Run, MediaPid, Begun, WithPes,
      TablesKnown, InSequence, PesOf, Counted, Clock, Packetize;
    var raws := Packetize(pid, whole, true, pcr, randomAccess, counter);
    ChunkAt(pid, whole, pcr, randomAccess, counter, a);
    var previous := EmitPrevious(d, pid).events;
    var clock := Clock(pid, pcr);
    if a == 1 {
      FirstPacket(d, pid, whole, counter, pcr, randomAccess);
      LaterNone(counter);
      assert raws[..1] == [raws[0]] + [];
      RunFirst(d, raws[0], []);
      var begun := Begun(d, pid, whole, HeadBytes(pcr, 1), counter);
      RunNothing(begun);
      assert clock + (previous + []) + [] == clock + previous;
    } else {
      HeadRun(d, pid, whole, counter, pcr, randomAccess, a - 1);
      ChunkAt(pid, whole, pcr, randomAccess, counter, a - 1);
      var n := HeadBytes(pcr, a - 1);
      var begun := Begun(d, pid, whole, n, Later(counter, a - 2));
      NextPacket(d, pid, whole, n, counter, a - 1);
      assert raws[..a] == raws[..a - 1] + [raws[a - 1]];
      RunAppend(d, raws[..a - 1], [raws[a - 1]]);
      assert [raws[a - 1]] == [raws[a - 1]] + [];
      RunFirst(begun, raws[a - 1], []);
      RunNothing(Step(begun, raws[a - 1]).0);
      assert clock + previous + ([] + []) == clock + previous;
    }
  }

  lemma FirstPacket(d: DemuxState, pid: Pid, whole: ByteString, counter: Counter, pcr: Option<U64>, randomAccess: bool)
    requires MediaPid(pid) && TablesKnown(d) && SoundUnit(whole) && InSequence(d, pid, counter)
    requires EmitPrevious(d, pid).error.None? && TablesKnown(EmitPrevious(d, pid).state)
    requires MaxPayload(pcr) < |whole|
    ensures var raw := Packetize(pid, whole, true, pcr, randomAccess, counter)[0];
            var n := MaxPayload(pcr);
            Step(d, raw) == (Begun(d, pid, whole, n, counter), Clock(pid, pcr) + (EmitPrevious(d, pid).events + []))
  {
    hide PrintPacket, EmitPrevious, EmitComplete, Step, Later, Declared, SoundUnit, Run, MediaPid, Begun, WithPes,
      TablesKnown, InSequence, PesOf, Counted, Clock;
    var n := MaxPayload(pcr);
    StartStep(d, pid, whole, n, counter, pcr, randomAccess);
    BegunFacts(d, pid, whole, n, counter, counter);
    Incomplete(Begun(d, pid, whole, n, counter), pid, whole, n);
  }

  lemma NextPacket(d: DemuxState, pid: Pid, whole: ByteString, n: nat, counter: Counter, i: nat)
    requires MediaPid(pid) && TablesKnown(EmitPrevious(d, pid).state) && SoundUnit(whole)
    requires 14 <= n && n + 184 < |whole| && 0 < i
    ensures var raw := PrintPacket(pid, false, Later(counter, i), None, false, whole[n..n + 184]);
            Step(Begun(d, pid, whole, n, Later(counter, i - 1)), raw) ==
            (Begun(d, pid, whole, n + 184, Later(counter, i)), [])
  {
    hide PrintPacket, EmitPrevious, EmitComplete, Step, Later, Declared, SoundUnit, MediaPid, Begun, WithPes,
      TablesKnown, InSequence, PesOf, Counted;
    var begun := Begun(d, pid, whole, n, Later(counter, i - 1));
    LaterAgain(counter, i - 1, 1);
    BegunFacts(d, pid, whole, n, Later(counter, i - 1), Later(counter, i));
    BegunFacts(d, pid, whole, n + 184, Later(counter, i), Later(counter, i));
    ContinueStep(begun, pid, whole, n, whole[n..n + 184], Later(counter, i));
    BegunGrows(d, pid, whole, n, n + 184, Later(counter, i - 1), Later(counter, i));
    Incomplete(Begun(d, pid, whole, n + 184, Later(counter, i)), pid, whole, n + 184);
  }

  lemma BegunGrows(d: DemuxState, pid: Pid, whole: ByteString, n: nat, k: nat, counter: Counter, next: Counter)
    requires 6 <= n <= k <= |whole|
    ensures WithPes(Counted(Begun(d, pid, whole, n, counter), pid, next), pid, Partial(whole, k))
            == Begun(d, pid, whole, k, next)
  {
    hide EmitPrevious, Declared;
    assert d.continuity[pid := counter][pid := next] == d.continuity[pid := next];
    assert d.pes[pid := Partial(whole, n)][pid := Partial(whole, k)] == d.pes[pid := Partial(whole, k)];
  }

  // ----- the damaged unit -----

  /** After the first `a` packets of a unit, whose counters begin at `counter`, come these packets of its PID
      instead of the rest: the first of them shows that something is wrong, or none of them comes at all and
      the next unit will show it. */
  predicate Damaged(late: seq<ByteString>, pid: Pid, counter: Counter, a: nat, n: nat) {
    && AllStray(late, pid)
    && (if late == [] then Later(counter, n) != Later(counter, a) else Strikes(late[0], Some(Later(counter, a))))
  }

  /** Where a damaged unit leaves the stream: the loss has shown, or its next packet will show it. */
  function LeftBehind(m: MuxState, e: DemuxState, stream: MuxStream): Option<MuxStream> {
    if InSequence(e, PidFor(stream), CounterOf(m, PidFor(stream))) then None else Some(stream)
  }

  /** Muxer and demultiplexer are matched but for the counter and the assembler of one stream. */
  ghost predicate Aside(m: MuxState, d: DemuxState, h: Held, stream: MuxStream) {
    && (forall p: U16 :: p == PidFor(stream) || InSequence(d, p, CounterOf(m, p)))
    && Marks(d) && SectionsOf(d, PAT_PID) == EMPTY_SECTION && SectionsOf(d, PMT_PID) == EMPTY_SECTION
    && Holds(d, OtherStream(stream), h.Get(OtherStream(stream)))
    && m.lastPsi.Some? && TablesKnown(d)
  }

  lemma MatchedAside(m: MuxState, d: DemuxState, h: Held, stream: MuxStream)
    requires Matched(m, d, h, None) && m.lastPsi.Some?
    ensures Aside(m, d, h, stream)
  {
    hide InSequence, Holds, PesFor;
  }

  /** The receiver behind a damaged unit is one whose stream was lost. */
  lemma SettledMatches(m: MuxState, d: DemuxState, e: DemuxState, h: Held, stream: MuxStream, next: MuxState)
    requires Aside(m, d, h, stream) && next == m.(continuity := next.continuity)
    requires forall p: U16 :: p != PidFor(stream) ==> CounterOf(next, p) == CounterOf(m, p)
    requires Settled(d, e, PidFor(stream))
    ensures Matched(next, e, h.Put(stream, None), LeftBehind(next, e, stream))
    ensures Ear(e, LeftBehind(next, e, stream), stream) == LOST_TIMES
    ensures Ear(e, LeftBehind(next, e, stream), OtherStream(stream)) == TimesOf(d, OtherStream(stream))
  {
    hide Later, PesFor, Acceptable;
    var pid, left := PidFor(stream), LeftBehind(next, e, stream);
    forall p: U16 | !(left.Some? && p == pid)
      ensures InSequence(e, p, CounterOf(next, p))
    {
      if p != pid {
        assert InSequence(d, p, CounterOf(m, p));
        assert p in e.continuity <==> p in e.continuity - {pid};
      }
    }
  }

  /** Nothing shows yet, but the next counter will. */
  lemma TailMatches(m: MuxState, d: DemuxState, h: Held, stream: MuxStream, next: MuxState)
    requires Aside(m, d, h, stream) && next == m.(continuity := next.continuity)
    requires forall p: U16 :: p != PidFor(stream) ==> CounterOf(next, p) == CounterOf(m, p)
    requires JumpsAhead(d, PidFor(stream), CounterOf(next, PidFor(stream)))
    ensures Matched(next, d, h.Put(stream, None), Some(stream))
  {
    hide Later, PesFor, Acceptable;
    forall p: U16 | p != PidFor(stream)
      ensures InSequence(d, p, CounterOf(next, p))
    {
      assert InSequence(d, p, CounterOf(m, p));
    }
  }

  /** What does not belong to a stream is untouched when one of its units begins. */
  lemma ElsewhereSame(d: DemuxState, e: DemuxState, stream: MuxStream, t: Times, a: PesAssembler, last: Counter)
    requires e == WithTimes(d, stream, t).(continuity := d.continuity[PidFor(stream) := last],
                                           pes := d.pes[PidFor(stream) := a])
    requires TablesKnown(d) && Marks(d)
    ensures TablesKnown(e) && Marks(e) && e.continuity == d.continuity[PidFor(stream) := last]
    ensures SectionsOf(e, PAT_PID) == SectionsOf(d, PAT_PID) && SectionsOf(e, PMT_PID) == SectionsOf(d, PMT_PID)
    ensures PesOf(e, PidFor(OtherStream(stream))) == PesOf(d, PidFor(OtherStream(stream)))
    ensures TimesOf(e, OtherStream(stream)) == TimesOf(d, OtherStream(stream))
  {
  }

  /** The receiver in the middle of a unit. */
  lemma BegunAside(m: MuxState, d: DemuxState, h: Held, packet: MuxPacket, n: nat, last: Counter)
    requires Matched(m, d, h, None) && m.lastPsi.Some? && 6 <= n <= |PesFor(packet)|
    ensures var pid := PidFor(packet.stream);
            var e := Begun(d, pid, PesFor(packet), n, last);
            && Aside(m, e, h, packet.stream) && pid in e.continuity && e.continuity[pid] == last
            && TimesOf(e, OtherStream(packet.stream)) == TimesOf(d, OtherStream(packet.stream))
  {
    hide Later, PesFor, Acceptable, TickAll, Deliveries, EmitPrevious, Declared, WithTimes, TimesOf, Marks, SectionsOf,
      PesOf, TablesKnown, Matched;
    var stream, pid := packet.stream, PidFor(packet.stream);
    var e := Begun(d, pid, PesFor(packet), n, last);
    MatchedParts(m, d, h, None, stream);
    MatchedAside(m, d, h, stream);
    PreviousDelivered(d, h, stream);
    ElsewhereSame(d, e, stream, TickAll(TimesOf(d, stream), h.Queue(stream)), Partial(PesFor(packet), n), last);
    forall p: U16 | p != pid
      ensures InSequence(e, p, CounterOf(m, p))
    {
      assert InSequence(d, p, CounterOf(m, p));
    }
  }

  lemma SentCounters(m: MuxState, packet: MuxPacket)
    ensures var (next, raws) := SendPes(m, packet);
            && next == m.(continuity := next.continuity) && raws != []
            && CounterOf(next, PidFor(packet.stream)) == Later(CounterOf(m, PidFor(packet.stream)), |raws|)
            && forall p: U16 :: p != PidFor(packet.stream) ==> CounterOf(next, p) == CounterOf(m, p)
  {
    hide PesFor, ClockFor, Packetize, Later;
  }

  /** The events of a damaged unit: whatever its head brought, then trouble. */
  function DamagedEvents(d: DemuxState, h: Held, packet: MuxPacket, a: nat, trouble: seq<DemuxEvent>): seq<DemuxEvent> {
    HeadEvents(d, h, packet, a) + trouble
  }

  function HeadEvents(d: DemuxState, h: Held, packet: MuxPacket, a: nat): seq<DemuxEvent> {
    if a == 0 then []
    else Clock(PidFor(packet.stream), ClockFor(packet)) + Deliveries(TimesOf(d, packet.stream), h.Queue(packet.stream))
  }

  lemma DamagedRun(m: MuxState, d: DemuxState, h: Held, packet: MuxPacket, a: nat, late: seq<ByteString>)
    returns (trouble: seq<DemuxEvent>, left: Option<MuxStream>)
    requires Matched(m, d, h, None) && m.lastPsi.Some? && Acceptable(packet)
    requires var pid := PidFor(packet.stream);
             && a < |SendPes(m, packet).1|
             && Damaged(late, pid, CounterOf(m, pid), a, |SendPes(m, packet).1|)
             && (a == 0 ==> pid in d.continuity)
    ensures var (next, raws) := SendPes(m, packet);
            var received := raws[..a] + late;
            && WholePackets(received)
            && Run(d, received).1 == DamagedEvents(d, h, packet, a, trouble)
            && AllTrouble(trouble, PidFor(packet.stream))
            && (left == None || left == Some(packet.stream))
            && Matched(next, Run(d, received).0, h.Put(packet.stream, None), left)
            && Ear(Run(d, received).0, left, packet.stream) == LOST_TIMES
            && Ear(Run(d, received).0, left, OtherStream(packet.stream)) == TimesOf(d, OtherStream(packet.stream))
  {
    hide Matched, Run, Packetize, PesFor, ClockFor, Clock, Deliveries, TickAll, TimesOf, Later, Begun, Acceptable,
      Stray, Strikes, TablesKnown, Aside, InSequence, Holds, SendPes, EmitPrevious, LeftBehind, Settled, Step;
    var pid := PidFor(packet.stream);
    var (next, raws) := SendPes(m, packet);
    var counter := CounterOf(m, pid);
    SentCounters(m, packet);
    MatchedParts(m, d, h, None, packet.stream);
    var e, head := d, [];
    if a == 0 {
      RunNothing(d);
      MatchedAside(m, d, h, packet.stream);
      LaterNone(counter);
      DueNow(d, pid, counter);
      assert raws[..0] == [];
      AsideKnown(m, d, h, packet.stream);
    } else {
      e, head := DamagedHead(m, d, h, packet, a);
    }
    assert WholePackets(raws[..a]) && Run(d, raws[..a]) == (e, head);
    assert Due(e, pid) == Some(Later(counter, a));
    StrayIsWhole(late, pid);
    RunAppend(d, raws[..a], late);
    if late == [] {
      RunNothing(e);
      trouble, left := [], Some(packet.stream);
      TailMatches(m, e, h, packet.stream, next);
    } else {
      StrikeStep(e, late[0], pid);
      StrayRun(e, Step(e, late[0]).0, late[1..], pid);
      assert late == [late[0]] + late[1..];
      RunFirst(e, late[0], late[1..]);
      trouble := Run(e, late).1;
      SettledMatches(m, e, Run(e, late).0, h, packet.stream, next);
      left := LeftBehind(next, Run(e, late).0, packet.stream);
      LeftIs(next, Run(e, late).0, packet.stream);
    }
  }

  lemma LeftIs(m: MuxState, e: DemuxState, stream: MuxStream)
    ensures LeftBehind(m, e, stream) == None || LeftBehind(m, e, stream) == Some(stream)
  {
  }

  lemma DueNow(d: DemuxState, pid: U16, counter: Counter)
    requires pid in d.continuity && InSequence(d, pid, counter)
    ensures Due(d, pid) == Some(counter)
  {
  }

  lemma AsideKnown(m: MuxState, d: DemuxState, h: Held, stream: MuxStream)
    requires Aside(m, d, h, stream)
    ensures TablesKnown(d) && MediaPid(PidFor(stream))
  {
  }

  lemma DamagedHead(m: MuxState, d: DemuxState, h: Held, packet: MuxPacket, a: nat)
    returns (e: DemuxState, head: seq<DemuxEvent>)
    requires Matched(m, d, h, None) && m.lastPsi.Some? && Acceptable(packet) && 0 < a < |SendPes(m, packet).1|
    ensures var pid, raws := PidFor(packet.stream), SendPes(m, packet).1;
            && WholePackets(raws[..a]) && Run(d, raws[..a]) == (e, head)
            && head == Clock(pid, ClockFor(packet)) + Deliveries(TimesOf(d, packet.stream), h.Queue(packet.stream))
            && Aside(m, e, h, packet.stream) && TablesKnown(e) && MediaPid(pid)
            && Due(e, pid) == Some(Later(CounterOf(m, pid), a))
            && TimesOf(e, OtherStream(packet.stream)) == TimesOf(d, OtherStream(packet.stream))
  {
    hide Matched, Run, Packetize, PesFor, ClockFor, Clock, Deliveries, TickAll, TimesOf, Later, Begun, Acceptable,
      TablesKnown, Aside, InSequence, Holds, EmitPrevious, SoundUnit, MediaPid, WithTimes;
    var pid, whole, counter := PidFor(packet.stream), PesFor(packet), CounterOf(m, PidFor(packet.stream));
    AcceptableIsSound(packet);
    MatchedParts(m, d, h, None, packet.stream);
    PreviousDelivered(d, h, packet.stream);
    KnownCarries(d, packet.stream, TickAll(TimesOf(d, packet.stream), h.Queue(packet.stream)));
    MatchedAside(m, d, h, packet.stream);
    AsideKnown(m, d, h, packet.stream);
    HeadRun(d, pid, whole, counter, ClockFor(packet), packet.keyframe, a);
    var n, last := HeadBytes(ClockFor(packet), a), Later(counter, a - 1);
    BegunAside(m, d, h, packet, n, last);
    LaterAgain(counter, a - 1, 1);
    e, head := Begun(d, pid, whole, n, last), Clock(pid, ClockFor(packet)) + EmitPrevious(d, pid).events;
    AsideKnown(m, e, h, packet.stream);
  }

  // ----- counters are kept while nothing is wrong -----

  predicate Untroubled(events: seq<DemuxEvent>) {
    forall i :: 0 <= i < |events| ==>
      !events[i].ContinuityError? && !events[i].Discontinuity? && !events[i].CorruptData?
  }

  lemma {:induction false} SectionsKeepCounters(d: DemuxState, pid: U16, sections: seq<ByteString>)
    ensures ProcessSections(d, pid, sections).state.continuity == d.continuity
    decreases |sections|
  {
    hide ValidateSectionCrc, ParsePmt, ParsePat;
    if sections != [] {
      SectionsKeepCounters(ProcessSection(d, pid, sections[0]).state, pid, sections[1..]);
    }
  }

  lemma EmitKeepsCounters(d: DemuxState, pid: U16, data: ByteString)
    ensures EmitPes(d, pid, data).state.continuity == d.continuity
  {
    hide EmitPes;
    EmitIgnoresCounters(d, pid, data, d.continuity);
  }

  lemma PesKeepsCounters(d: DemuxState, pid: U16, payload: ByteString, start: bool)
    ensures ProcessPes(d, pid, payload, start).state.continuity == d.continuity
  {
    hide EmitPes;
    forall e: DemuxState, data: ByteString ensures EmitPes(e, pid, data).state.continuity == e.continuity {
      EmitKeepsCounters(e, pid, data);
    }
  }

  lemma AnyPayloadKeepsCounters(d: DemuxState, packet: TsPacket)
    ensures ProcessPayload(d, packet).state.continuity == d.continuity
  {
    hide ProcessSections, ProcessPes, SectionPush;
    var (a, completed) := SectionPush(SectionsOf(d, packet.pid), packet.payload, packet.payloadUnitStart);
    SectionsKeepCounters(d.(sections := d.sections[packet.pid := a]), packet.pid, completed);
    PesKeepsCounters(d, packet.pid, packet.payload, packet.payloadUnitStart);
  }

  lemma FirstUntroubled(events: seq<DemuxEvent>)
    requires Untroubled(events)
    ensures events == [] ||
            (!events[0].ContinuityError? && !events[0].Discontinuity? && !events[0].CorruptData?
             && !events[|events| - 1].CorruptData?)
  {
  }

  lemma PartUntroubled(a: seq<DemuxEvent>, b: seq<DemuxEvent>)
    requires Untroubled(a + b)
    ensures Untroubled(a) && Untroubled(b)
  {
    forall i | 0 <= i < |a| ensures !a[i].ContinuityError? && !a[i].Discontinuity? && !a[i].CorruptData? {
      assert a[i] == (a + b)[i];
    }
    forall i | 0 <= i < |b| ensures !b[i].ContinuityError? && !b[i].Discontinuity? && !b[i].CorruptData? {
      assert b[i] == (a + b)[|a| + i];
    }
  }

  lemma UntroubledStep(d: DemuxState, raw: ByteString)
    requires |raw| == PACKET_SIZE && Untroubled(Step(d, raw).1)
    ensures d.continuity.Keys <= Step(d, raw).0.continuity.Keys
    ensures ParsePacket(raw).Ok? && ParsePacket(raw).value.control.HasPayload() ==>
              PidOf(raw[1], raw[2]) in Step(d, raw).0.continuity
  {
    hide ParsePacket, ProcessPayload, CheckContinuity, Later, PidOf, ClockEvents;
    FirstUntroubled(Step(d, raw).1);
    PidRead(raw);
    if ParsePacket(raw).Ok? && !ParsePacket(raw).value.transportError {
      UntroubledPacket(d, raw, ParsePacket(raw).value);
    }
  }

  lemma UntroubledPacket(d: DemuxState, raw: ByteString, packet: TsPacket)
    requires |raw| == PACKET_SIZE && ParsePacket(raw) == Ok(packet) && !packet.transportError
    requires Untroubled(Step(d, raw).1)
    ensures Step(d, raw).0.continuity ==
            if packet.control.HasPayload() then d.continuity[packet.pid := packet.continuityCounter] else d.continuity
  {
    hide ParsePacket, ProcessPayload, Later, PidOf, ClockEvents;
    var clock := ClockEvents(packet);
    var (counted, jumps) := CheckContinuity(d, packet);
    var notices := if Discontinuous(packet) then [DemuxEvent.Discontinuity(packet.pid)] else [];
    var ready := if Discontinuous(packet) then Interrupt(counted, packet.pid) else counted;
    var body := ProcessPayload(ready, packet);
    AnyPayloadKeepsCounters(ready, packet);
    assert ProcessPacket(d, packet) == Outcome(body.state, clock + jumps + notices + body.events, body.error);
    FirstUntroubled(Step(d, raw).1);
    assert body.error.None?;
    PartUntroubled(clock + jumps + notices, body.events);
    PartUntroubled(clock + jumps, notices);
    PartUntroubled(clock, jumps);
    FirstUntroubled(jumps);
    FirstUntroubled(notices);
  }

  lemma {:induction false} UntroubledRun(d: DemuxState, raws: seq<ByteString>, i: nat)
    requires WholePackets(raws) && Untroubled(Run(d, raws).1)
    ensures d.continuity.Keys <= Run(d, raws).0.continuity.Keys
    ensures i < |raws| && ParsePacket(raws[i]).Ok? && ParsePacket(raws[i]).value.control.HasPayload() ==>
              PidOf(raws[i][1], raws[i][2]) in Run(d, raws).0.continuity
    decreases |raws|
  {
    hide Step, ParsePacket, PidOf;
    if raws != [] {
      var (next, first) := Step(d, raws[0]);
      var rest := Run(next, raws[1..]).1;
      forall k | 0 <= k < |first|
        ensures !first[k].ContinuityError? && !first[k].Discontinuity? && !first[k].CorruptData?
      {
        assert first[k] == (first + rest)[k];
      }
      forall k | 0 <= k < |rest|
        ensures !rest[k].ContinuityError? && !rest[k].Discontinuity? && !rest[k].CorruptData?
      {
        assert rest[k] == (first + rest)[|first| + k];
      }
      UntroubledStep(d, raws[0]);
      UntroubledRun(next, raws[1..], if i > 0 then i - 1 else 0);
    }
  }

  /** Once a packet of a stream has been pushed, the receiver has a counter for it. */
  lemma {:induction false} RunCounts(m: MuxState, d: DemuxState, h: Held, packets: seq<MuxPacket>, stream: MuxStream)
    requires Matched(m, d, h, None) && AllAcceptable(packets)
    requires Of(packets, stream) != [] || PidFor(stream) in d.continuity
    ensures WholePackets(MuxRun(m, packets).1)
    ensures PidFor(stream) in Run(d, MuxRun(m, packets).1).0.continuity
    decreases |packets|
  {
    hide Matched, MuxPush, Run, WholePackets, AllAcceptable, HeldAfter, PushEvents, Heard;
    if packets == [] {
      RunNothing(d);
      NoPackets();
    } else {
      var packet, rest := packets[0], packets[1..];
      FirstAcceptable(packets);
      var notices := PushRun(m, d, h, None, packet);
      var (next, first) := MuxPush(m, packet);
      var after := Run(d, first).0;
      EmittedStream(m, d, h, None, packet);
      PushFiltered(m, Ear(d, None, packet.stream), h, notices, None, packet, Video);
      PushCounts(m, d, packet, stream);
      RunCounts(next, after, HeldAfter(h, packet), rest, stream);
      RunAppend(d, first, MuxRun(next, rest).1);
    }
  }

  lemma PushCounts(m: MuxState, d: DemuxState, packet: MuxPacket, stream: MuxStream)
    requires WholePackets(MuxPush(m, packet).1) && Calm(Run(d, MuxPush(m, packet).1).1, None)
    ensures var after := Run(d, MuxPush(m, packet).1).0;
            (packet.stream == stream || PidFor(stream) in d.continuity ==> PidFor(stream) in after.continuity)
  {
    hide SendTables, Run, Step, Packetize, PesFor, ClockFor, ParsePacket, IsUnitPacket, Later, MediaPacket;
    var (ready, tables) := SendTables(m, packet.pts);
    var pid, unit := PidFor(packet.stream), SendPes(ready, packet).1;
    var raws := tables + unit;
    var counter := CounterOf(ready, pid);
    PacketizeRefines(pid, PesFor(packet), true, ClockFor(packet), packet.keyframe, counter);
    assert raws[|tables|] == unit[0];
    UnitPacketRead(unit[0], 0, pid, true, ClockFor(packet), counter);
    HasMediaPayload(unit[0], pid, Later(counter, 0));
    UntroubledRun(d, raws, |tables|);
  }

  lemma HasMediaPayload(raw: ByteString, pid: Pid, counter: Counter)
    requires ParsePacket(raw).Ok? && MediaPacket(ParsePacket(raw).value, pid, counter)
    ensures ParsePacket(raw).value.control.HasPayload()
  {
  }

  // ----- whole runs with one damaged unit -----

  /** The transport packets of a run in which the victim's unit is cut after `a` packets and followed by
      `late` ones instead of its rest. */
  function Received(before: seq<MuxPacket>, victim: MuxPacket, after: seq<MuxPacket>, a: nat, late: seq<ByteString>)
    : seq<ByteString>
    requires a <= |UnitOf(before, victim)|
  {
    var m := MuxRun(FRESH_MUXER, before).0;
    var (ready, tables) := SendTables(m, victim.pts);
    MuxRun(FRESH_MUXER, before).1 + (tables + (UnitOf(before, victim)[..a] + late))
    + MuxRun(MuxPush(m, victim).0, after).1
  }

  /** The multiplexer when it comes to the victim's unit. */
  function MuxerAt(before: seq<MuxPacket>, victim: MuxPacket): MuxState {
    SendTables(MuxRun(FRESH_MUXER, before).0, victim.pts).0
  }

  function UnitOf(before: seq<MuxPacket>, victim: MuxPacket): seq<ByteString> {
    SendPes(MuxerAt(before, victim), victim).1
  }

  /** The packets of the victim's stream that come through from before it. When the head of its unit is
      missing, a unit that does not declare its length and is still held goes with it. */
  function Survivors(before: seq<MuxPacket>, stream: MuxStream, a: nat): seq<MuxPacket> {
    var all := Of(before, stream);
    if a == 0 && all != [] && Unbounded(all[|all| - 1]) then all[..|all| - 1] else all
  }

  lemma {:induction false} HeldIsLast(h: Held, packets: seq<MuxPacket>, stream: MuxStream)
    ensures var all := Of(packets, stream);
            HeldRun(h, packets).Queue(stream) ==
            if all == [] then h.Queue(stream) else if Unbounded(all[|all| - 1]) then [all[|all| - 1]] else []
    decreases |packets|
  {
    hide Unbounded;
    if packets != [] {
      HeldIsLast(HeldAfter(h, packets[0]), packets[1..], stream);
    }
  }

  lemma {:induction false} LossShows(left: Option<MuxStream>, packets: seq<MuxPacket>, stream: MuxStream)
    requires left == None || left == Some(stream)
    requires Of(packets, stream) != []
    ensures LeftRun(left, packets) == None
    decreases |packets|
  {
    if left == None {
      NeverLost(packets);
    } else if packets[0].stream == stream {
      NeverLost(packets[1..]);
    } else {
      LossShows(left, packets[1..], stream);
    }
  }

  /** Up to the victim's unit everything is as it should be. */
  lemma BeforeVictim(before: seq<MuxPacket>, victim: MuxPacket)
    returns (d: DemuxState, events: seq<DemuxEvent>)
    requires AllAcceptable(before)
    ensures var raws := MuxRun(FRESH_MUXER, before).1 + SendTables(MuxRun(FRESH_MUXER, before).0, victim.pts).1;
            WholePackets(raws) && Run(INITIAL_STATE, raws) == (d, events)
    ensures var h := HeldRun(NOTHING_HELD, before);
            && Matched(MuxerAt(before, victim), d, h, None) && MuxerAt(before, victim).lastPsi.Some?
            && Passed(NO_TIMES, events, Of(before, Video), TimesOf(d, Video), h.Queue(Video), Video)
            && Passed(NO_TIMES, events, Of(before, Audio), TimesOf(d, Audio), h.Queue(Audio), Audio)
            && Calm(events, None) && ClocksOf(events) == ClockTimes(before)
    ensures forall stream: MuxStream :: Of(before, stream) != [] ==> PidFor(stream) in d.continuity
  {
    hide Matched, MuxRun, Run, SendTables, Passed, Calm, ClocksOf, ClockTimes, HeldRun, Of, TimesOf, AllAcceptable,
      TableEvents, WholePackets, LeftRun, PacketsOf, DeliveredAll, TickAll;
    FreshMatched();
    NeverLost(before);
    RunTo(FRESH_MUXER, INITIAL_STATE, NOTHING_HELD, None, before);
    var (m, first) := MuxRun(FRESH_MUXER, before);
    var (d1, e1) := Run(INITIAL_STATE, first);
    var h := HeldRun(NOTHING_HELD, before);
    TablesRun(m, d1, h, None, victim.pts);
    var tables := SendTables(m, victim.pts).1;
    RunAppend(INITIAL_STATE, first, tables);
    d, events := Run(INITIAL_STATE, first + tables).0, Run(INITIAL_STATE, first + tables).1;
    assert [] + Of(before, Video) == Of(before, Video) && [] + Of(before, Audio) == Of(before, Audio);
    FreshTimes();
    TablesPassed(m, victim.pts, e1, Of(before, Video), TimesOf(d, Video), h.Queue(Video), Video);
    TablesPassed(m, victim.pts, e1, Of(before, Audio), TimesOf(d, Audio), h.Queue(Audio), Audio);
    TablesFiltered(m, victim.pts, Video);
    CalmAppend(e1, TableEvents(m, victim.pts), None);
    ClocksAppend(e1, TableEvents(m, victim.pts));
    assert ClockTimes(before) + [] == ClockTimes(before);
    forall stream: MuxStream | Of(before, stream) != [] ensures PidFor(stream) in d.continuity {
      RunCounts(FRESH_MUXER, INITIAL_STATE, NOTHING_HELD, before, stream);
      CalmUntroubled(TableEvents(m, victim.pts));
      UntroubledRun(d1, tables, 0);
    }
  }

  lemma FreshTimes()
    ensures Ear(INITIAL_STATE, None, Video) == NO_TIMES && Ear(INITIAL_STATE, None, Audio) == NO_TIMES
    ensures NOTHING_HELD.Queue(Video) == [] && NOTHING_HELD.Queue(Audio) == []
    ensures forall d: DemuxState, stream: MuxStream :: Ear(d, None, stream) == TimesOf(d, stream)
  {
  }

  lemma CalmUntroubled(events: seq<DemuxEvent>)
    requires Calm(events, None)
    ensures Untroubled(events)
  {
  }

  lemma TablesPassed(m: MuxState, pts: U64, events: seq<DemuxEvent>, packets: seq<MuxPacket>, after: Times,
                     held: seq<MuxPacket>, stream: MuxStream)
    requires Passed(NO_TIMES, events, packets, after, held, stream)
    ensures Passed(NO_TIMES, events + TableEvents(m, pts), packets, after, held, stream)
  {
    hide PacketsOf, DeliveredAll, TickAll, TableEvents;
    TablesFiltered(m, pts, stream);
    PacketsAppend(events, TableEvents(m, pts), stream);
    assert PacketsOf(events, stream) + [] == PacketsOf(events, stream);
  }

  /** The events of a damaged unit, seen through the filters. */
  lemma DamagedFiltered(d: DemuxState, h: Held, packet: MuxPacket, a: nat, trouble: seq<DemuxEvent>, stream: MuxStream)
    requires AllTrouble(trouble, PidFor(packet.stream)) && AllOf(h.Queue(packet.stream), packet.stream)
    ensures var events := DamagedEvents(d, h, packet, a, trouble);
            && PacketsOf(events, stream) == (if stream == packet.stream && a > 0
                                             then DeliveredAll(TimesOf(d, stream), h.Queue(stream)) else [])
            && ClocksOf(events) == (if a > 0 then ClockTime(packet) else [])
            && Calm(events, Some(packet.stream))
  {
    hide ClockFor, ClockTime, Clock, PacketsOf, ClocksOf, Calm, Deliveries, DeliveredAll, AllOf, TimesOf, AllTrouble;
    var pid, held := PidFor(packet.stream), h.Queue(packet.stream);
    var clock, media := Clock(pid, ClockFor(packet)), Deliveries(TimesOf(d, packet.stream), held);
    TroubleFiltered(trouble, packet.stream, stream);
    NothingFiltered(stream);
    ClockFiltered(pid, packet, stream);
    DeliveriesFiltered(TimesOf(d, packet.stream), held, packet.stream, stream);
    PacketsAppend(clock, media, stream);
    ClocksAppend(clock, media);
    CalmAppend(clock, media, Some(packet.stream));
    var head := HeadEvents(d, h, packet, a);
    PacketsAppend(head, trouble, stream);
    ClocksAppend(head, trouble);
    CalmAppend(head, trouble, Some(packet.stream));
    var found := PacketsOf(head, stream);
    assert found + [] == found && [] + PacketsOf(media, stream) == PacketsOf(media, stream);
    assert ClocksOf(head) + [] == ClocksOf(head) && ClockTime(packet) + [] == ClockTime(packet);
  }

  lemma NothingFiltered(stream: MuxStream)
    ensures PacketsOf([], stream) == [] && ClocksOf([]) == [] && Calm([], None)
  {
  }

  lemma {:induction false} TroubleFiltered(trouble: seq<DemuxEvent>, lost: MuxStream, stream: MuxStream)
    requires AllTrouble(trouble, PidFor(lost))
    ensures PacketsOf(trouble, stream) == [] && ClocksOf(trouble) == [] && Calm(trouble, Some(lost))
    decreases |trouble|
  {
    if trouble != [] {
      TroubleFiltered(trouble[1..], lost, stream);
      forall i | 0 <= i < |trouble| ensures Trouble(trouble[i], PidFor(lost)) {}
    }
  }

  /** What comes of a run with one damaged unit. */
  ghost predicate OnlyVictimMissing(events: seq<DemuxEvent>, before: seq<MuxPacket>, victim: MuxPacket,
                                    after: seq<MuxPacket>, a: nat) {
    var stream, other := victim.stream, OtherStream(victim.stream);
    && PacketsOf(events, stream) ==
       DeliveredAll(NO_TIMES, Survivors(before, stream, a)) + DeliveredAll(LOST_TIMES, Of(after, stream))
    && PacketsOf(events, other) == DeliveredAll(NO_TIMES, Of(before, other) + Of(after, other))
    && ClocksOf(events) == ClockTimes(before) + (if a > 0 then ClockTime(victim) else []) + ClockTimes(after)
    && Calm(events, Some(stream))
  }

  lemma DamagedReports(before: seq<MuxPacket>, victim: MuxPacket, after: seq<MuxPacket>, a: nat, late: seq<ByteString>)
    requires AllAcceptable(before) && Acceptable(victim) && AllAcceptable(after)
    requires var pid, m := PidFor(victim.stream), MuxerAt(before, victim);
             && a < |UnitOf(before, victim)| && Damaged(late, pid, CounterOf(m, pid), a, |UnitOf(before, victim)|)
             && (a == 0 ==> Of(before, victim.stream) != []) && Of(after, victim.stream) != []
    ensures var raws := Received(before, victim, after, a, late);
            && WholePackets(raws)
            && OnlyVictimMissing(Run(INITIAL_STATE, raws).1 + FlushState(Run(INITIAL_STATE, raws).0).1,
                                 before, victim, after, a)
  {
    hide Matched, MuxRun, Run, SendTables, SendPes, Passed, Calm, ClocksOf, ClockTimes, ClockTime, HeldRun, Of, TimesOf,
      AllAcceptable, Acceptable, WholePackets, LeftRun, PacketsOf, DeliveredAll, TickAll, FlushState, Ear, Damaged,
      Survivors, OnlyVictimMissing, DamagedEvents, AllTrouble, MuxPush, Reports;
    var stream := victim.stream;
    var m, h := MuxerAt(before, victim), HeldRun(NOTHING_HELD, before);
    var d, e1 := BeforeVictim(before, victim);
    var trouble, left := DamagedRun(m, d, h, victim, a, late);
    var unit := UnitOf(before, victim)[..a] + late;
    var (d3, e2) := Run(d, unit);
    var next := SendPes(m, victim).0;
    NextMuxer(before, victim);
    LossShows(left, after, stream);
    RunReports(next, d3, h.Put(stream, None), left, after);
    var rest := MuxRun(next, after).1;
    var e3 := Run(d3, rest).1 + FlushState(Run(d3, rest).0).1;
    var (first, tables) := (MuxRun(FRESH_MUXER, before).1, SendTables(MuxRun(FRESH_MUXER, before).0, victim.pts).1);
    RunAppend(INITIAL_STATE, first + tables, unit);
    RunAppend(INITIAL_STATE, first + tables + unit, rest);
    assert Received(before, victim, after, a, late) == first + tables + unit + rest by {
      ReceivedIs(before, victim, after, a, late);
    }
    var flushed := FlushState(Run(d3, rest).0).1;
    assert e1 + e2 + Run(d3, rest).1 + flushed == e1 + e2 + e3;
    DamagedAddsUp(before, victim, after, a, d, h, d3, left, e1, trouble, e3);
  }

  lemma NextMuxer(before: seq<MuxPacket>, victim: MuxPacket)
    ensures MuxPush(MuxRun(FRESH_MUXER, before).0, victim).0 == SendPes(MuxerAt(before, victim), victim).0
  {
    hide MuxRun, SendTables, SendPes;
  }

  lemma ReceivedIs(before: seq<MuxPacket>, victim: MuxPacket, after: seq<MuxPacket>, a: nat, late: seq<ByteString>)
    requires a <= |UnitOf(before, victim)|
    ensures Received(before, victim, after, a, late) ==
            MuxRun(FRESH_MUXER, before).1 + SendTables(MuxRun(FRESH_MUXER, before).0, victim.pts).1
            + (UnitOf(before, victim)[..a] + late) + MuxRun(SendPes(MuxerAt(before, victim), victim).0, after).1
  {
    hide MuxRun, SendTables, SendPes, MuxPush;
    NextMuxer(before, victim);
  }

  lemma DamagedAddsUp(before: seq<MuxPacket>, victim: MuxPacket, after: seq<MuxPacket>, a: nat, d: DemuxState, h: Held,
                      d3: DemuxState, left: Option<MuxStream>, e1: seq<DemuxEvent>, trouble: seq<DemuxEvent>,
                      e3: seq<DemuxEvent>)
    requires h == HeldRun(NOTHING_HELD, before) && (a == 0 ==> Of(before, victim.stream) != [])
    requires Passed(NO_TIMES, e1, Of(before, Video), TimesOf(d, Video), h.Queue(Video), Video)
    requires Passed(NO_TIMES, e1, Of(before, Audio), TimesOf(d, Audio), h.Queue(Audio), Audio)
    requires Calm(e1, None) && ClocksOf(e1) == ClockTimes(before)
    requires AllTrouble(trouble, PidFor(victim.stream)) && (left == None || left == Some(victim.stream))
    requires Ear(d3, left, victim.stream) == LOST_TIMES
    requires Ear(d3, left, OtherStream(victim.stream)) == TimesOf(d, OtherStream(victim.stream))
    requires Reports(d3, left, e3, after, h.Put(victim.stream, None))
    ensures OnlyVictimMissing(e1 + DamagedEvents(d, h, victim, a, trouble) + e3, before, victim, after, a)
  {
    hide PacketsOf, DeliveredAll, TickAll, ClocksOf, ClockTimes, ClockTime, Calm, TimesOf, Ear, DamagedEvents, HeldRun,
      AllTrouble, Passed, Of, Unbounded, LOST_TIMES, NO_TIMES;
    var stream, other := victim.stream, OtherStream(victim.stream);
    var e2 := DamagedEvents(d, h, victim, a, trouble);
    HeldStreamOf(before, stream);
    DamagedFiltered(d, h, victim, a, trouble, stream);
    DamagedFiltered(d, h, victim, a, trouble, other);
    PacketsAppend(e1 + e2, e3, stream);
    PacketsAppend(e1, e2, stream);
    PacketsAppend(e1 + e2, e3, other);
    PacketsAppend(e1, e2, other);
    ClocksAppend(e1 + e2, e3);
    ClocksAppend(e1, e2);
    CalmAppend(e1, e2, Some(stream));
    CalmLeft(e3, left, stream);
    CalmAppend(e1 + e2, e3, Some(stream));
    VictimStream(before, victim, after, a, d, h, e1, stream);
    OtherAddsUp(before, after, d, h, e1, other, PacketsOf(e3, other));
    assert [] + Of(after, stream) == Of(after, stream);
    assert PacketsOf(e1, other) + [] == PacketsOf(e1, other);
  }

  lemma CalmLeft(events: seq<DemuxEvent>, left: Option<MuxStream>, stream: MuxStream)
    requires Calm(events, left) && (left == None || left == Some(stream))
    ensures Calm(events, Some(stream))
  {
  }

  lemma HeldStreamOf(before: seq<MuxPacket>, stream: MuxStream)
    ensures AllOf(HeldRun(NOTHING_HELD, before).Queue(stream), stream)
  {
    hide Unbounded;
    HeldIsLast(NOTHING_HELD, before, stream);
    OfStream(before, stream);
  }

  lemma {:induction false} OfStream(packets: seq<MuxPacket>, stream: MuxStream)
    ensures AllOf(Of(packets, stream), stream)
    decreases |packets|
  {
    if packets != [] {
      OfStream(packets[1..], stream);
    }
  }

  /** Of the victim's stream: what had passed, and what was held unless the head went missing. */
  lemma VictimStream(before: seq<MuxPacket>, victim: MuxPacket, after: seq<MuxPacket>, a: nat, d: DemuxState, h: Held,
                     events: seq<DemuxEvent>, stream: MuxStream)
    requires h == HeldRun(NOTHING_HELD, before) && (a == 0 ==> Of(before, stream) != [])
    requires Passed(NO_TIMES, events, Of(before, stream), TimesOf(d, stream), h.Queue(stream), stream)
    ensures PacketsOf(events, stream) + (if a > 0 then DeliveredAll(TimesOf(d, stream), h.Queue(stream)) else [])
            == DeliveredAll(NO_TIMES, Survivors(before, stream, a))
  {
    hide PacketsOf, DeliveredAll, TickAll, TimesOf, HeldRun, Of, Unbounded, NO_TIMES;
    HeldIsLast(NOTHING_HELD, before, stream);
    var all, held := Of(before, stream), h.Queue(stream);
    var passed := all[..|all| - |held|];
    if a > 0 {
      DeliveredAllAppend(NO_TIMES, passed, held);
    } else {
      assert all[..|all|] == all;
      assert passed == Survivors(before, stream, a);
      assert PacketsOf(events, stream) + [] == PacketsOf(events, stream);
    }
  }

  lemma OtherAddsUp(before: seq<MuxPacket>, after: seq<MuxPacket>, d: DemuxState, h: Held, events: seq<DemuxEvent>,
                    other: MuxStream, later: seq<ElementaryPacket>)
    requires Passed(NO_TIMES, events, Of(before, other), TimesOf(d, other), h.Queue(other), other)
    requires later == DeliveredAll(TimesOf(d, other), h.Queue(other) + Of(after, other))
    ensures PacketsOf(events, other) + later == DeliveredAll(NO_TIMES, Of(before, other) + Of(after, other))
  {
    hide PacketsOf, DeliveredAll, TickAll, TimesOf, Of, NO_TIMES;
    var all, held := Of(before, other), h.Queue(other);
    var passed := all[..|all| - |held|];
    DeliveredAllAppend(NO_TIMES, passed, held + Of(after, other));
    assert passed + (held + Of(after, other)) == all + Of(after, other);
  }

  /** Main result. Some transport packets of one unit are lost or replaced by damaged ones, from its `a`-th
      on, so that the loss shows: then, however the bytes are cut, exactly that unit is missing (with a unit
      that was still held, if the head is gone), the other stream and all clocks received are untouched, the
      later units of the stream come through, followed afresh, and only trouble on this PID is reported. */
  lemma DamagedUnitMissing(before: seq<MuxPacket>, victim: MuxPacket, after: seq<MuxPacket>, a: nat,
                           late: seq<ByteString>, cuts: seq<ByteString>)
    requires AllAcceptable(before) && Acceptable(victim) && AllAcceptable(after)
    requires var pid, m := PidFor(victim.stream), MuxerAt(before, victim);
             && a < |UnitOf(before, victim)| && Damaged(late, pid, CounterOf(m, pid), a, |UnitOf(before, victim)|)
             && (a == 0 ==> Of(before, victim.stream) != []) && Of(after, victim.stream) != []
    requires Concat(cuts) == Concat(Received(before, victim, after, a, late))
    ensures var pushed := DrainCuts(INITIAL_STATE, [], cuts);
            && pushed.buffer == []
            && OnlyVictimMissing(pushed.events + FlushState(pushed.state).1, before, victim, after, a)
  {
    hide Acceptable, AllAcceptable, Run, Drain, DrainCuts, FlushState, Aligned, OnlyVictimMissing, Received, Damaged,
      Of, MuxerAt, UnitOf, WholePackets, Concat;
    DamagedReports(before, victim, after, a, late);
    var raws := Received(before, victim, after, a, late);
    DrainIsRun(INITIAL_STATE, raws);
    CutIndependence(INITIAL_STATE, Concat(raws), cuts);
  }

  /** Of the packets after the loss the first is marked as a discontinuity, and no other. */
  lemma {:induction false} OnlyFirstMarked(t: Times, packets: seq<MuxPacket>, i: nat)
    requires i < |packets|
    ensures |DeliveredAll(t, packets)| == |packets|
    ensures DeliveredAll(t, packets)[i].discontinuity <==> i == 0 && t.marked
    decreases i
  {
    hide Unwrap;
    SameCount(t, packets);
    if i > 0 {
      OnlyFirstMarked(Tick(t, packets[0]), packets[1..], i - 1);
    }
  }

  // ----- plain losses -----

  /** The packets kept of a list. */
  function Pick(raws: seq<ByteString>, keep: seq<bool>): seq<ByteString>
    requires |keep| == |raws|
    decreases |raws|
  {
    if raws == [] then [] else (if keep[0] then [raws[0]] else []) + Pick(raws[1..], keep[1..])
  }

  lemma {:induction false} PickedAreStray(raws: seq<ByteString>, keep: seq<bool>, pid: U16)
    requires |keep| == |raws| && AllStray(raws, pid)
    ensures AllStray(Pick(raws, keep), pid)
    decreases |raws|
  {
    hide Stray;
    if raws != [] {
      PickedAreStray(raws[1..], keep[1..], pid);
    }
  }

  /** The packets of a unit but its first. */
  lemma UnitIsStray(pid: Pid, whole: ByteString, pcr: Option<U64>, randomAccess: bool, counter: Counter, i: nat)
    requires 0 < i < |Packetize(pid, whole, true, pcr, randomAccess, counter)|
    ensures var raw := Packetize(pid, whole, true, pcr, randomAccess, counter)[i];
            Stray(raw, pid) && forall due: Counter :: Strikes(raw, Some(due)) <==> Later(counter, i) != due
  {
    hide ParsePacket, PrintPacket, Later;
    PacketizeRefines(pid, whole, true, pcr, randomAccess, counter);
    var raw := Packetize(pid, whole, true, pcr, randomAccess, counter)[i];
    UnitPacketRead(raw, i, pid, true, pcr, counter);
  }

  lemma LaterDiffers(counter: Counter, a: nat, j: nat)
    requires a <= j
    ensures Later(counter, j) != Later(counter, a) <==> (j - a) % 16 != 0
  {
  }

  /** Deleting packets of a unit, from its `a`-th on: the next one that arrives, the `j`-th, shows the loss if
      and only if the gap in front of it is not a multiple of 16 packets; of those behind it any may be missing
      too. */
  lemma DeletionShowsIff(m: MuxState, packet: MuxPacket, a: nat, j: nat, keep: seq<bool>)
    requires a < j < |SendPes(m, packet).1| && |keep| == |SendPes(m, packet).1| - j - 1
    ensures var pid, unit := PidFor(packet.stream), SendPes(m, packet).1;
            Damaged([unit[j]] + Pick(unit[j + 1..], keep), pid, CounterOf(m, pid), a, |unit|) <==> (j - a) % 16 != 0
  {
    hide Packetize, PesFor, ClockFor, Stray, Strikes, Later;
    var pid, unit := PidFor(packet.stream), SendPes(m, packet).1;
    var counter := CounterOf(m, pid);
    forall i | 0 < i < |unit| ensures Stray(unit[i], pid) {
      UnitIsStray(pid, PesFor(packet), ClockFor(packet), packet.keyframe, counter, i);
    }
    UnitIsStray(pid, PesFor(packet), ClockFor(packet), packet.keyframe, counter, j);
    LaterDiffers(counter, a, j);
    PickedAreStray(unit[j + 1..], keep, pid);
  }

  /** Deleting the rest of a unit: the next unit shows it under the same condition. */
  lemma TailShowsIff(m: MuxState, packet: MuxPacket, a: nat)
    requires a < |SendPes(m, packet).1|
    ensures var pid, unit := PidFor(packet.stream), SendPes(m, packet).1;
            Damaged([], pid, CounterOf(m, pid), a, |unit|) <==> (|unit| - a) % 16 != 0
  {
    hide Packetize, PesFor, ClockFor, Later;
    LaterDiffers(CounterOf(m, PidFor(packet.stream)), a, |SendPes(m, packet).1|);
  }

  /** A damaged packet in place of the rest, flagged by the transport or unreadable, always shows. */
  lemma DamageShows(bad: ByteString, late: seq<ByteString>, pid: Pid, counter: Counter, a: nat, n: nat)
    requires |bad| == PACKET_SIZE && bad[0] == SYNC_BYTE && PidOf(bad[1], bad[2]) == pid && AllStray(late, pid)
    requires ParsePacket(bad).Err? || ParsePacket(bad).value.transportError
             || (Discontinuous(ParsePacket(bad).value) && Stray(bad, pid))
    ensures Damaged([bad] + late, pid, counter, a, n)
  {
    hide ParsePacket, PidOf;
  }

  // ----- the limit -----

  lemma FullPacket(pid: Pid, payload: ByteString, unitStart: bool, pcr: Option<U64>, randomAccess: bool,
                   counter: Counter)
    requires |payload| >= MaxPayload(pcr)
    ensures var take := MaxPayload(pcr);
            Packetize(pid, payload, unitStart, pcr, randomAccess, counter) ==
            [PrintPacket(pid, unitStart, counter, pcr, randomAccess, payload[..take])]
            + Packetize(pid, payload[take..], false, None, false, Later(counter, 1))
  {
    hide PrintPacket, Later;
  }

  /** A unit whose first bytes fill `a` packets. */
  lemma {:induction false} HeadThenTail(pid: Pid, head: ByteString, tail: ByteString, unitStart: bool,
                                        pcr: Option<U64>, randomAccess: bool, counter: Counter, a: nat)
    requires a > 0 && |head| == HeadBytes(pcr, a) && tail != []
    ensures |Packetize(pid, head, unitStart, pcr, randomAccess, counter)| == a
    ensures Packetize(pid, head + tail, unitStart, pcr, randomAccess, counter) ==
            Packetize(pid, head, unitStart, pcr, randomAccess, counter)
            + Packetize(pid, tail, false, None, false, Later(counter, a))
    decreases a
  {
    hide PrintPacket, Later, Packetize;
    var whole, take := head + tail, MaxPayload(pcr);
    FullPacket(pid, whole, unitStart, pcr, randomAccess, counter);
    FullPacket(pid, head, unitStart, pcr, randomAccess, counter);
    assert whole[..take] == head[..take] && whole[take..] == head[take..] + tail;
    if a == 1 {
      assert head[take..] == [] && whole[take..] == tail;
      PacketizeNothing(pid, [], false, None, false, Later(counter, 1));
    } else {
      HeadThenTail(pid, head[take..], tail, false, None, false, Later(counter, 1), a - 1);
      LaterAgain(counter, 1, a - 1);
      var first := [PrintPacket(pid, unitStart, counter, pcr, randomAccess, head[..take])];
      var more := Packetize(pid, head[take..], false, None, false, Later(counter, 1));
      var rest := Packetize(pid, tail, false, None, false, Later(counter, a));
      assert first + (more + rest) == first + more + rest;
    }
  }

  /** The condition is needed: sixteen packets taken from the middle of a unit leave exactly the packets of a
      unit without their bytes, counters included. */
  lemma SixteenUnnoticed(pid: Pid, whole: ByteString, pcr: Option<U64>, randomAccess: bool, counter: Counter, a: nat)
    requires a > 0 && HeadBytes(pcr, a + 16) < |whole|
    ensures var raws := Packetize(pid, whole, true, pcr, randomAccess, counter);
            var cut := whole[..HeadBytes(pcr, a)] + whole[HeadBytes(pcr, a + 16)..];
            && a + 16 < |raws|
            && Packetize(pid, cut, true, pcr, randomAccess, counter) == raws[..a] + raws[a + 16..]
  {
    hide PrintPacket, Later, Packetize;
    var n, k := HeadBytes(pcr, a), HeadBytes(pcr, a + 16);
    var head, middle, tail := whole[..n], whole[n..k], whole[k..];
    assert whole == head + middle + tail;
    assert whole[..k] == head + middle;
    HeadThenTail(pid, head + middle, tail, true, pcr, randomAccess, counter, a + 16);
    HeadThenTail(pid, head, middle, true, pcr, randomAccess, counter, a);
    HeadThenTail(pid, head, tail, true, pcr, randomAccess, counter, a);
    LaterDiffers(counter, a, a + 16);
  }

  /** The PES of an access unit too long to declare its length, with bytes cut out of the data. */
  lemma CutPes(packet: MuxPacket, x: nat, y: nat)
    requires x <= y <= |packet.data| && x + (|packet.data| - y) > 0xffff
    ensures var h := PesHeaderLength(packet.pts, packet.dts);
            var cut := packet.(data := packet.data[..x] + packet.data[y..]);
            && |PesFor(packet)| == h + |packet.data|
            && PesFor(cut) == PesFor(packet)[..h + x] + PesFor(packet)[h + y..]
  {
    hide PrintPesTimes, PrintPesHeader;
    var streamId := if packet.stream.Video? then 0xe0 else 0xc0;
    var front := PrintPesHeader(streamId, 0, HasDts(packet.pts, packet.dts)) + PrintPesTimes(packet.pts, packet.dts);
    CutBehind(front, packet.data, x, y);
  }

  lemma CutBehind(front: ByteString, data: ByteString, x: nat, y: nat)
    requires x <= y <= |data|
    ensures front + (data[..x] + data[y..]) == (front + data)[..|front| + x] + (front + data)[|front| + y..]
  {
    assert (front + data)[..|front| + x] == front + data[..x];
    assert (front + data)[|front| + y..] == data[y..];
  }

  /** A receiver cannot tell: for every access unit long enough, losing sixteen packets behind the first `a`
      is receiving another access unit, whose data lack 2944 bytes. */
  lemma SixteenIsAnotherUnit(m: MuxState, packet: MuxPacket, a: nat)
    requires a > 0
    requires var h := PesHeaderLength(packet.pts, packet.dts);
             h <= HeadBytes(ClockFor(packet), a) && |packet.data| > 0xffff + 2944
             && HeadBytes(ClockFor(packet), a + 16) < h + |packet.data|
    ensures var x := HeadBytes(ClockFor(packet), a) - PesHeaderLength(packet.pts, packet.dts);
            var cut := packet.(data := packet.data[..x] + packet.data[x + 2944..]);
            var unit := SendPes(m, packet).1;
            a + 16 < |unit| && SendPes(m, cut).1 == unit[..a] + unit[a + 16..]
  {
    hide PrintPacket, Later, Packetize, PesFor;
    var h := PesHeaderLength(packet.pts, packet.dts);
    var x := HeadBytes(ClockFor(packet), a) - h;
    var pid := PidFor(packet.stream);
    CutPes(packet, x, x + 2944);
    SixteenUnnoticed(pid, PesFor(packet), ClockFor(packet), packet.keyframe, CounterOf(m, pid), a);
  }
}
