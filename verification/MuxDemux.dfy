/** Demultiplexing undoes multiplexing, over whole runs and for every cut of the byte stream. */
module MuxDemux {
  import opened Bytes
  import opened Timestamps
  import opened TsPackets
  import opened Psi
  import opened Pes
  import opened Elementary
  import opened Crc
  import opened Demuxer
  import opened Muxer
  import opened Resync

  // ----- runs over whole packets -----

  predicate WholePackets(raws: seq<ByteString>) {
    forall i :: 0 <= i < |raws| ==> |raws[i]| == PACKET_SIZE && raws[i][0] == SYNC_BYTE
  }

  function Run(d: DemuxState, raws: seq<ByteString>): (DemuxState, seq<DemuxEvent>)
    requires WholePackets(raws)
    decreases |raws|
  {
    if raws == [] then (d, [])
    else
      var (next, first) := Step(d, raws[0]);
      var (end, rest) := Run(next, raws[1..]);
      (end, first + rest)
  }

  lemma RunNothing(d: DemuxState)
    ensures Run(d, []) == (d, [])
  {
  }

  lemma RunFirst(d: DemuxState, raw: ByteString, more: seq<ByteString>)
    requires |raw| == PACKET_SIZE && raw[0] == SYNC_BYTE && WholePackets(more)
    ensures WholePackets([raw] + more)
    ensures var (next, events) := Step(d, raw);
            Run(d, [raw] + more) == (Run(next, more).0, events + Run(next, more).1)
  {
    hide Step;
    assert ([raw] + more)[1..] == more;
  }

  lemma {:induction false} RunAppend(d: DemuxState, a: seq<ByteString>, b: seq<ByteString>)
    requires WholePackets(a) && WholePackets(b)
    ensures var first := Run(d, a);
            var rest := Run(first.0, b);
            WholePackets(a + b) && Run(d, a + b) == (rest.0, first.1 + rest.1)
    decreases |a|
  {
    hide Step;
    if a == [] {
      assert a + b == b;
      assert [] + Run(d, b).1 == Run(d, b).1;
    } else {
      assert (a + b)[0] == a[0] && (a + b)[1..] == a[1..] + b;
      var (next, events) := Step(d, a[0]);
      RunAppend(next, a[1..], b);
      var first := Run(next, a[1..]);
      var rest := Run(first.0, b);
      assert events + (first.1 + rest.1) == events + first.1 + rest.1;
    }
  }

  /** Draining the concatenation of whole packets is running them one by one. */
  lemma {:induction false} DrainIsRun(d: DemuxState, raws: seq<ByteString>)
    requires WholePackets(raws)
    ensures Aligned(Concat(raws))
    ensures Drain(d, Concat(raws)) == Drained(Run(d, raws).0, [], Run(d, raws).1)
    decreases |raws|
  {
    hide Step, Drain;
    if raws == [] {
      DrainRest(d, [], []);
      assert Prepend([], Drain(d, [])) == Drain(d, []);
    } else {
      var bytes := Concat(raws);
      assert bytes[..PACKET_SIZE] == raws[0] && bytes[PACKET_SIZE..] == Concat(raws[1..]);
      var (next, events) := Step(d, raws[0]);
      DrainIsRun(next, raws[1..]);
      DrainAt(d, bytes);
    }
  }

  // ----- one packet in sequence -----

  predicate InSequence(d: DemuxState, pid: U16, counter: Counter) {
    pid in d.continuity ==> counter == Later(d.continuity[pid], 1)
  }

  function Counted(d: DemuxState, pid: U16, counter: Counter): DemuxState {
    d.(continuity := d.continuity[pid := counter])
  }

  function Clock(pid: U16, pcr: Option<U64>): seq<DemuxEvent> {
    if pcr.Some? then [ClockReference(pid, pcr.value % PCR_MODULUS)] else []
  }

  lemma StepPrinted(d: DemuxState, pid: Pid, unitStart: bool, counter: Counter, pcr: Option<U64>, randomAccess: bool,
                    payload: ByteString)
    requires 1 <= |payload| <= MaxPayload(pcr) && InSequence(d, pid, counter)
    ensures var raw := PrintPacket(pid, unitStart, counter, pcr, randomAccess, payload);
            var r := ProcessPayload(Counted(d, pid, counter),
                                    ParsedForm(pid, unitStart, counter, pcr, randomAccess, payload));
            r.error.None? ==> Step(d, raw) == (r.state, Clock(pid, pcr) + r.events)
  {
    hide ParsePacket, PrintPacket, ProcessPayload;
    PacketRoundTrip(pid, unitStart, counter, pcr, randomAccess, payload);
    var packet := ParsedForm(pid, unitStart, counter, pcr, randomAccess, payload);
    var r := ProcessPayload(Counted(d, pid, counter), packet);
    assert CheckContinuity(d, packet) == (Counted(d, pid, counter), []);
    assert ClockEvents(packet) == Clock(pid, pcr);
    assert Clock(pid, pcr) + [] + [] + r.events == Clock(pid, pcr) + r.events;
  }

  // ----- units of one elementary stream -----

  predicate TablesKnown(d: DemuxState) {
    d.pmtPid == Some(PMT_PID) && d.videoPid == Some(VIDEO_PID) && d.audioPid == Some(AUDIO_PID)
  }

  predicate MediaPid(pid: U16) {
    pid == VIDEO_PID || pid == AUDIO_PID
  }

  /** The length a unit declares, when it declares one. */
  function Declared(whole: ByteString): Option<nat>
    requires 6 <= |whole|
  {
    if JoinU16(whole[4], whole[5]) == 0 then None else Some(6 + JoinU16(whole[4], whole[5]))
  }

  /** A unit that fits the reassembly buffer and declares its own length or none. */
  predicate SoundUnit(whole: ByteString) {
    14 <= |whole| <= MAX_PES_BYTES && (Declared(whole).Some? ==> Declared(whole).value == |whole|)
  }

  /** The assembler after the first `n` bytes of a unit. */
  function Partial(whole: ByteString, n: nat): PesAssembler
    requires 6 <= n <= |whole|
  {
    PesAssembler(whole[..n], Declared(whole))
  }

  function WithPes(d: DemuxState, pid: U16, a: PesAssembler): DemuxState {
    d.(pes := d.pes[pid := a])
  }

  lemma ContinueStep(d: DemuxState, pid: Pid, whole: ByteString, n: nat, chunk: ByteString, counter: Counter)
    requires MediaPid(pid) && TablesKnown(d) && SoundUnit(whole) && 14 <= n && n + |chunk| <= |whole|
    requires 1 <= |chunk| <= 184 && chunk == whole[n..n + |chunk|]
    requires PesOf(d, pid) == Partial(whole, n) && InSequence(d, pid, counter)
    ensures var extended := WithPes(Counted(d, pid, counter), pid, Partial(whole, n + |chunk|));
            var r := EmitComplete(extended, pid);
            r.error.None? ==> Step(d, PrintPacket(pid, false, counter, None, false, chunk)) == (r.state, r.events)
  {
    hide PrintPacket, Step, EmitComplete, InSequence;
    StepPrinted(d, pid, false, counter, None, false, chunk);
    assert whole[..n] + chunk == whole[..n + |chunk|];
    assert PesPush(Partial(whole, n), chunk) == (Partial(whole, n + |chunk|), None);
    var r := EmitComplete(WithPes(Counted(d, pid, counter), pid, Partial(whole, n + |chunk|)), pid);
    assert [] + r.events == r.events;
  }

  lemma Incomplete(d: DemuxState, pid: Pid, whole: ByteString, n: nat)
    requires SoundUnit(whole) && 14 <= n < |whole| && PesOf(d, pid) == Partial(whole, n)
    ensures EmitComplete(d, pid) == Outcome(d, [], None)
  {
  }

  lemma {:induction false} ContinueUnit(d: DemuxState, pid: Pid, whole: ByteString, n: nat, counter: Counter)
    requires MediaPid(pid) && TablesKnown(d) && SoundUnit(whole) && 14 <= n < |whole|
    requires PesOf(d, pid) == Partial(whole, n) && InSequence(d, pid, counter)
    ensures var raws := Packetize(pid, whole[n..], false, None, false, counter);
            var full := WithPes(Counted(d, pid, Later(counter, |raws| - 1)), pid, Partial(whole, |whole|));
            var r := EmitComplete(full, pid);
            r.error.None? ==> Run(d, raws) == (r.state, r.events)
    decreases |whole| - n
  {
    hide PrintPacket, EmitComplete, Step, Later, Declared, SoundUnit, Run, MediaPid, WithPes, TablesKnown, InSequence,
      PesOf, Counted;
    var rest := whole[n..];
    var take := Min(|rest|, 184);
    var chunk := whole[n..n + take];
    var raws := Packetize(pid, rest, false, None, false, counter);
    var more := Packetize(pid, rest[take..], false, None, false, Later(counter, 1));
    var raw := PrintPacket(pid, false, counter, None, false, rest[..take]);
    assert rest[..take] == chunk && rest[take..] == whole[n + take..];
    assert raws == [raw] + more;
    RunFirst(d, raw, more);
    ContinueStep(d, pid, whole, n, chunk, counter);
    var extended := WithPes(Counted(d, pid, counter), pid, Partial(whole, n + take));
    ExtendedFacts(d, pid, whole, n + take, counter, Later(counter, |raws| - 1));
    if n + take < |whole| {
      Incomplete(extended, pid, whole, n + take);
      ContinueUnit(extended, pid, whole, n + take, Later(counter, 1));
      LaterAgain(counter, 1, |more| - 1);
      assert [] + Run(extended, more).1 == Run(extended, more).1;
    } else {
      LaterNone(counter);
      assert more == [];
      var r := EmitComplete(extended, pid);
      RunNothing(r.state);
      assert r.events + [] == r.events;
    }
  }

  lemma ExtendedFacts(d: DemuxState, pid: Pid, whole: ByteString, n: nat, counter: Counter, last: Counter)
    requires 6 <= n <= |whole| && TablesKnown(d)
    ensures var extended := WithPes(Counted(d, pid, counter), pid, Partial(whole, n));
            && PesOf(extended, pid) == Partial(whole, n) && TablesKnown(extended)
            && InSequence(extended, pid, Later(counter, 1))
            && WithPes(Counted(extended, pid, last), pid, Partial(whole, |whole|))
               == WithPes(Counted(d, pid, last), pid, Partial(whole, |whole|))
  {
    hide Declared, Later;
    assert d.continuity[pid := counter][pid := last] == d.continuity[pid := last];
    assert d.pes[pid := Partial(whole, n)][pid := Partial(whole, |whole|)] == d.pes[pid := Partial(whole, |whole|)];
  }

  lemma EmitVideoCommutes(d: DemuxState, pid: U16, parsed: ParsedPes, discontinuity: bool,
                          continuity: map<U16, Byte>, pes: map<U16, PesAssembler>)
    requires parsed.pts < PTS_MODULUS && (parsed.dts.Some? ==> parsed.dts.value < PTS_MODULUS)
    ensures var r := EmitVideo(d, pid, parsed, discontinuity);
            EmitVideo(d.(continuity := continuity, pes := pes), pid, parsed, discontinuity)
            == Outcome(r.state.(continuity := continuity, pes := pes), r.events, r.error)
  {
    hide Unwrap, UnwrapOptional, ContainsIdr;
  }

  lemma EmitAudioCommutes(d: DemuxState, pid: U16, parsed: ParsedPes, discontinuity: bool,
                          continuity: map<U16, Byte>, pes: map<U16, PesAssembler>)
    requires parsed.pts < PTS_MODULUS
    ensures var r := EmitAudio(d, pid, parsed, discontinuity);
            EmitAudio(d.(continuity := continuity, pes := pes), pid, parsed, discontinuity)
            == Outcome(r.state.(continuity := continuity, pes := pes), r.events, r.error)
  {
    hide Unwrap, AdtsFrames, AudioPackets;
  }

  /** Continuity counters and assemblers take no part in emitting a unit. */
  lemma EmitCommutes(d: DemuxState, pid: U16, data: ByteString, continuity: map<U16, Byte>, pes: map<U16, PesAssembler>)
    ensures var r := EmitPes(d, pid, data);
            EmitPes(d.(continuity := continuity, pes := pes), pid, data)
            == Outcome(r.state.(continuity := continuity, pes := pes), r.events, r.error)
  {
    hide ParsePes, EmitVideo, EmitAudio;
    match ParsePes(data) {
      case Err(_) =>
      case Ok(parsed) =>
        var discontinuity := pid in d.pending && d.pending[pid];
        var taken := d.(pending := d.pending - {pid});
        if d.videoPid == Some(pid) {
          EmitVideoCommutes(taken, pid, parsed, discontinuity, continuity, pes);
        } else if d.audioPid == Some(pid) {
          EmitAudioCommutes(taken, pid, parsed, discontinuity, continuity, pes);
        }
    }
  }

  /** What starting a new unit does with the open one. */
  function EmitPrevious(d: DemuxState, pid: U16): Outcome {
    if PesOf(d, pid).data == [] then Outcome(d, [], None) else EmitPes(d, pid, PesOf(d, pid).data)
  }

  /** After emitting the open unit, with the first `n` bytes of the new one assembled. */
  function Begun(d: DemuxState, pid: Pid, whole: ByteString, n: nat, counter: Counter): DemuxState
    requires 6 <= n <= |whole|
  {
    EmitPrevious(d, pid).state.(continuity := d.continuity[pid := counter], pes := d.pes[pid := Partial(whole, n)])
  }

  lemma BegunFacts(d: DemuxState, pid: Pid, whole: ByteString, n: nat, counter: Counter, last: Counter)
    requires 6 <= n <= |whole| && TablesKnown(EmitPrevious(d, pid).state)
    ensures var begun := Begun(d, pid, whole, n, counter);
            && PesOf(begun, pid) == Partial(whole, n) && TablesKnown(begun) && InSequence(begun, pid, Later(counter, 1))
            && WithPes(Counted(begun, pid, last), pid, Partial(whole, |whole|)) == Begun(d, pid, whole, |whole|, last)
  {
    hide EmitPrevious, Declared;
    assert d.continuity[pid := counter][pid := last] == d.continuity[pid := last];
    assert d.pes[pid := Partial(whole, n)][pid := Partial(whole, |whole|)] == d.pes[pid := Partial(whole, |whole|)];
  }

  lemma StartStep(d: DemuxState, pid: Pid, whole: ByteString, n: nat, counter: Counter, pcr: Option<U64>,
                  randomAccess: bool)
    requires MediaPid(pid) && TablesKnown(d) && SoundUnit(whole) && 14 <= n <= |whole| && n <= MaxPayload(pcr)
    requires InSequence(d, pid, counter)
    requires EmitPrevious(d, pid).error.None?
    ensures var r := EmitComplete(Begun(d, pid, whole, n, counter), pid);
            r.error.None? ==>
              Step(d, PrintPacket(pid, true, counter, pcr, randomAccess, whole[..n]))
              == (r.state, Clock(pid, pcr) + (EmitPrevious(d, pid).events + r.events))
  {
    hide PrintPacket, Step, EmitPes, EmitComplete;
    var chunk := whole[..n];
    StepPrinted(d, pid, true, counter, pcr, randomAccess, chunk);
    assert PesStart(PesOf(d, pid), chunk).0 == Partial(whole, n);
    EmitCommutes(d, pid, PesOf(d, pid).data, d.continuity[pid := counter], d.pes[pid := Partial(whole, n)]);
    var r := EmitComplete(Begun(d, pid, whole, n, counter), pid);
    assert [] + r.events == r.events;
  }

  /** A whole unit: the open one is emitted first, then this one if it declares its length. */
  lemma UnitRun(d: DemuxState, pid: Pid, whole: ByteString, counter: Counter, pcr: Option<U64>, randomAccess: bool)
    requires MediaPid(pid) && TablesKnown(d) && SoundUnit(whole) && InSequence(d, pid, counter)
    requires EmitPrevious(d, pid).error.None? && TablesKnown(EmitPrevious(d, pid).state)
    ensures var raws := Packetize(pid, whole, true, pcr, randomAccess, counter);
            var r := EmitComplete(Begun(d, pid, whole, |whole|, Later(counter, |raws| - 1)), pid);
            r.error.None? ==> Run(d, raws) == (r.state, Clock(pid, pcr) + (EmitPrevious(d, pid).events + r.events))
  {
    hide PrintPacket, EmitPrevious, EmitComplete, Step, Later, Declared, SoundUnit, Run, MediaPid, Begun, WithPes,
      TablesKnown, InSequence, PesOf, Counted, Clock;
    SoundLength(whole);
    var take := Min(|whole|, MaxPayload(pcr));
    var raws := Packetize(pid, whole, true, pcr, randomAccess, counter);
    var more := Packetize(pid, whole[take..], false, None, false, Later(counter, 1));
    var raw := PrintPacket(pid, true, counter, pcr, randomAccess, whole[..take]);
    assert raws == [raw] + more;
    RunFirst(d, raw, more);
    StartStep(d, pid, whole, take, counter, pcr, randomAccess);
    var previous := EmitPrevious(d, pid).events;
    var begun := Begun(d, pid, whole, take, counter);
    var last := Later(counter, |raws| - 1);
    BegunFacts(d, pid, whole, take, counter, last);
    var clock := Clock(pid, pcr);
    if take < |whole| {
      Incomplete(begun, pid, whole, take);
      ContinueUnit(begun, pid, whole, take, Later(counter, 1));
      LaterAgain(counter, 1, |more| - 1);
      var rest := Run(begun, more).1;
      assert clock + (previous + []) + rest == clock + (previous + rest);
    } else {
      LaterNone(counter);
      assert more == [];
      var r := EmitComplete(begun, pid);
      RunNothing(r.state);
      assert clock + (previous + r.events) + [] == clock + (previous + r.events);
    }
  }

  lemma SoundLength(whole: ByteString)
    requires SoundUnit(whole)
    ensures 14 <= |whole|
  {
  }

  // ----- clocks -----

  /** The unwrappers of one stream, and whether its next packet is marked as a discontinuity. */
  datatype Times = Times(pts: Unwrapper, dts: Unwrapper, marked: bool)

  const NO_TIMES: Times := Times(FRESH, FRESH, false)

  function TimesOf(d: DemuxState, stream: MuxStream): Times {
    var marked := PidFor(stream) in d.pending;
    if stream.Video? then Times(d.videoPts, d.videoDts, marked) else Times(d.audioPts, FRESH, marked)
  }

  function WithTimes(d: DemuxState, stream: MuxStream, t: Times): DemuxState {
    var pid := PidFor(stream);
    var e := d.(pending := if t.marked then d.pending[pid := true] else d.pending - {pid});
    if stream.Video? then e.(videoPts := t.pts, videoDts := t.dts) else e.(audioPts := t.pts)
  }

  /** A pending discontinuity is never recorded as `false`. */
  predicate Marks(d: DemuxState) {
    forall pid :: pid in d.pending ==> d.pending[pid]
  }

  lemma SameTimesSet(d: DemuxState, stream: MuxStream)
    requires Marks(d)
    ensures WithTimes(d, stream, TimesOf(d, stream)) == d
  {
    var pid := PidFor(stream);
    assert pid in d.pending ==> d.pending[pid := true] == d.pending;
    assert pid !in d.pending ==> d.pending - {pid} == d.pending;
  }

  /** A decoding time that is transmitted and reported. */
  predicate ReportsDts(packet: MuxPacket) {
    packet.stream.Video? && HasDts(packet.pts, packet.dts)
  }

  /** After one packet of the stream. */
  function Tick(t: Times, packet: MuxPacket): Times {
    Times(Unwrap(t.pts, packet.pts % PTS_MODULUS).0,
          if ReportsDts(packet) then Unwrap(t.dts, packet.dts.value % PTS_MODULUS).0 else t.dts, false)
  }

  function TickAll(t: Times, packets: seq<MuxPacket>): Times
    decreases |packets|
  {
    if packets == [] then t else TickAll(Tick(t, packets[0]), packets[1..])
  }

  lemma {:induction false} TickAllAppend(t: Times, a: seq<MuxPacket>, b: seq<MuxPacket>)
    ensures TickAll(t, a + b) == TickAll(TickAll(t, a), b)
    decreases |a|
  {
    hide Tick;
    if a == [] {
      assert a + b == b;
    } else {
      assert (a + b)[1..] == a[1..] + b;
      TickAllAppend(Tick(t, a[0]), a[1..], b);
    }
  }

  // ----- one packet delivered -----

  function Reported(packet: MuxPacket, pts: U64, dts: Option<U64>, marked: bool): ElementaryPacket {
    if packet.stream.Video? then
      ElementaryPacket(Video, VIDEO_PID, pts, dts, ContainsIdr(packet.data), marked, packet.data)
    else ElementaryPacket(Audio, AUDIO_PID, pts, None, true, marked, packet.data)
  }

  /** What the demultiplexer reports for a packet: the same data, and the times as its unwrappers follow
      them; the DTS of a video packet when it was transmitted; never the DTS of an audio packet. */
  function Delivered(t: Times, packet: MuxPacket): ElementaryPacket {
    Reported(packet, Unwrap(t.pts, packet.pts % PTS_MODULUS).1,
             if ReportsDts(packet) then Some(Unwrap(t.dts, packet.dts.value % PTS_MODULUS).1) else None, t.marked)
  }

  /** What the muxer's callers must respect: units fit the reassembly limit, audio is one frame. */
  predicate Acceptable(packet: MuxPacket) {
    |PesFor(packet)| <= MAX_PES_BYTES && (packet.stream.Audio? ==> SingleAdtsFrame(packet.data))
  }

  /** The unit of a packet is emitted as that packet and changes the unwrappers of its stream only. */
  function Emission(d: DemuxState, packet: MuxPacket): Outcome {
    var t := TimesOf(d, packet.stream);
    Outcome(WithTimes(d, packet.stream, Tick(t, packet)), [Packet(Delivered(t, packet))], None)
  }

  lemma DeliverVideo(d: DemuxState, packet: MuxPacket)
    requires TablesKnown(d) && Marks(d) && packet.stream.Video?
    ensures EmitPes(d, VIDEO_PID, PesFor(packet)) == Emission(d, packet)
  {
    hide ParsePes, BuildPes, Unwrap, ContainsIdr;
    PesRoundTrip(0xe0, packet.pts, packet.dts, packet.data);
  }

  lemma DeliverAudio(d: DemuxState, packet: MuxPacket)
    requires TablesKnown(d) && Marks(d) && packet.stream.Audio? && SingleAdtsFrame(packet.data)
    ensures EmitPes(d, AUDIO_PID, PesFor(packet)) == Emission(d, packet)
  {
    hide ParsePes, BuildPes, Unwrap, ParseAdtsFrame, AdtsFrames;
    PesRoundTrip(0xc0, packet.pts, packet.dts, packet.data);
    SingleFrameStream(packet.data);
    OneFrame(Unwrap(d.audioPts, packet.pts % PTS_MODULUS).1, ParseAdtsFrame(packet.data).value,
             AUDIO_PID in d.pending);
  }

  lemma OneFrame(pts: U64, frame: AdtsFrame, marked: bool)
    ensures AudioPackets(AUDIO_PID, pts, [frame], marked, 0)
            == [Packet(ElementaryPacket(Audio, AUDIO_PID, pts, None, true, marked, frame.bytes))]
  {
    assert [frame][1..] == [];
  }

  lemma DeliverOne(d: DemuxState, packet: MuxPacket)
    requires TablesKnown(d) && Marks(d) && Acceptable(packet)
    ensures EmitPes(d, PidFor(packet.stream), PesFor(packet)) == Emission(d, packet)
  {
    hide EmitPes, PesFor, Emission, SingleAdtsFrame;
    if packet.stream.Video? {
      DeliverVideo(d, packet);
    } else {
      DeliverAudio(d, packet);
    }
  }

  function Mine(packet: MuxPacket, stream: MuxStream): seq<MuxPacket> {
    if packet.stream == stream then [packet] else []
  }

  // ----- held units -----

  /** Units too long to declare a length wait for the next unit of their stream. */
  predicate Unbounded(packet: MuxPacket) {
    Declared(PesFor(packet)).None?
  }

  datatype Held = Held(video: Option<MuxPacket>, audio: Option<MuxPacket>)
  {
    function Get(stream: MuxStream): Option<MuxPacket> {
      if stream.Video? then video else audio
    }

    function Put(stream: MuxStream, packet: Option<MuxPacket>): Held {
      if stream.Video? then this.(video := packet) else this.(audio := packet)
    }

    function Queue(stream: MuxStream): seq<MuxPacket> {
      if Get(stream).Some? then [Get(stream).value] else []
    }
  }

  const NOTHING_HELD: Held := Held(None, None)

  predicate Holds(d: DemuxState, stream: MuxStream, packet: Option<MuxPacket>) {
    PesOf(d, PidFor(stream)) == (if packet.None? then EMPTY_PES else PesAssembler(PesFor(packet.value), None))
    && (packet.Some? ==> packet.value.stream == stream && Acceptable(packet.value))
  }

  lemma AcceptableIsSound(packet: MuxPacket)
    requires Acceptable(packet)
    ensures SoundUnit(PesFor(packet))
  {
    hide BuildPes, SingleAdtsFrame;
    DeclaredLength(if packet.stream.Video? then 0xe0 else 0xc0, packet.pts, packet.dts, packet.data);
  }

  /** The next packet of this PID comes with a counter that does not follow the last one seen. */
  predicate JumpsAhead(d: DemuxState, pid: U16, counter: Counter) {
    pid in d.continuity && counter != Later(d.continuity[pid], 1)
  }

  /** Muxer and demultiplexer between two pushes. A `lost` stream is one whose next packet will show that
      packets are missing; what its assembler holds will be dropped then. */
  ghost predicate Matched(m: MuxState, d: DemuxState, h: Held, lost: Option<MuxStream>) {
    && (forall pid: U16 :: (lost.Some? && pid == PidFor(lost.value)) || InSequence(d, pid, CounterOf(m, pid)))
    && (lost.Some? ==> JumpsAhead(d, PidFor(lost.value), CounterOf(m, PidFor(lost.value)))
                       && h.Get(lost.value).None? && m.lastPsi.Some?)
    && Marks(d)
    && SectionsOf(d, PAT_PID) == EMPTY_SECTION && SectionsOf(d, PMT_PID) == EMPTY_SECTION
    && (lost != Some(Video) ==> Holds(d, Video, h.video)) && (lost != Some(Audio) ==> Holds(d, Audio, h.audio))
    && (if m.lastPsi.Some? then TablesKnown(d)
        else d.videoPid.None? && d.audioPid.None? && h == NOTHING_HELD)
  }

  /** Events of a run without trouble: the one program map, clocks and packets. */
  predicate Benign(events: seq<DemuxEvent>) {
    forall i :: 0 <= i < |events| ==>
      events[i].Packet? || events[i].ClockReference? || events[i] == ProgramMapEvent(PROGRAM)
  }

  /** The same, but for notices of trouble on the PID of a lost stream. */
  predicate Calm(events: seq<DemuxEvent>, lost: Option<MuxStream>) {
    forall i :: 0 <= i < |events| ==>
      || events[i].Packet? || events[i].ClockReference? || events[i] == ProgramMapEvent(PROGRAM)
      || (lost.Some? && Trouble(events[i], PidFor(lost.value)))
  }

  function PacketOf(event: DemuxEvent, stream: MuxStream): seq<ElementaryPacket> {
    if event.Packet? && event.packet.stream == stream then [event.packet] else []
  }

  function PacketsOf(events: seq<DemuxEvent>, stream: MuxStream): seq<ElementaryPacket>
    decreases |events|
  {
    if events == [] then [] else PacketOf(events[0], stream) + PacketsOf(events[1..], stream)
  }

  function ClockOf(event: DemuxEvent): seq<nat> {
    if event.ClockReference? then [event.pcr] else []
  }

  function ClocksOf(events: seq<DemuxEvent>): seq<nat>
    decreases |events|
  {
    if events == [] then [] else ClockOf(events[0]) + ClocksOf(events[1..])
  }

  lemma {:induction false} PacketsAppend(a: seq<DemuxEvent>, b: seq<DemuxEvent>, stream: MuxStream)
    ensures PacketsOf(a + b, stream) == PacketsOf(a, stream) + PacketsOf(b, stream)
    decreases |a|
  {
    hide PacketOf;
    if a == [] {
      assert a + b == b;
    } else {
      assert (a + b)[1..] == a[1..] + b;
      PacketsAppend(a[1..], b, stream);
    }
  }

  lemma {:induction false} ClocksAppend(a: seq<DemuxEvent>, b: seq<DemuxEvent>)
    ensures ClocksOf(a + b) == ClocksOf(a) + ClocksOf(b)
    decreases |a|
  {
    hide ClockOf;
    if a == [] {
      assert a + b == b;
    } else {
      assert (a + b)[1..] == a[1..] + b;
      ClocksAppend(a[1..], b);
    }
  }

  /** The events for packets of one stream, in order. */
  function Deliveries(t: Times, packets: seq<MuxPacket>): (events: seq<DemuxEvent>)
    decreases |packets|
  {
    if packets == [] then [] else [Packet(Delivered(t, packets[0]))] + Deliveries(Tick(t, packets[0]), packets[1..])
  }

  function DeliveredAll(t: Times, packets: seq<MuxPacket>): seq<ElementaryPacket>
    decreases |packets|
  {
    if packets == [] then [] else [Delivered(t, packets[0])] + DeliveredAll(Tick(t, packets[0]), packets[1..])
  }

  function Of(packets: seq<MuxPacket>, stream: MuxStream): seq<MuxPacket>
    decreases |packets|
  {
    if packets == [] then [] else Mine(packets[0], stream) + Of(packets[1..], stream)
  }

  /** The packets a push makes the demultiplexer emit: what was held, and itself unless it is held. */
  function Emitted(h: Held, packet: MuxPacket): seq<MuxPacket> {
    h.Queue(packet.stream) + (if Unbounded(packet) then [] else [packet])
  }

  function HeldAfter(h: Held, packet: MuxPacket): Held {
    h.Put(packet.stream, if Unbounded(packet) then Some(packet) else None)
  }

  // ----- the media part of one push -----

  /** The emission of the unit that was held. */
  lemma PreviousDelivered(d: DemuxState, h: Held, stream: MuxStream)
    requires TablesKnown(d) && Marks(d) && Holds(d, stream, h.Get(stream))
    ensures var t, held := TimesOf(d, stream), h.Queue(stream);
            EmitPrevious(d, PidFor(stream)) ==
            Outcome(WithTimes(d, stream, TickAll(t, held)), Deliveries(t, held), None)
  {
    hide EmitPes, PesFor, Acceptable, Tick, Delivered;
    var held := h.Get(stream);
    if held.Some? {
      assert PesFor(held.value) != [];
      DeliverOne(d, held.value);
      assert [held.value][1..] == [];
    } else {
      SameTimesSet(d, stream);
    }
  }

  lemma CompleteUnbounded(d: DemuxState, pid: Pid, whole: ByteString)
    requires SoundUnit(whole) && PesOf(d, pid) == Partial(whole, |whole|) && Declared(whole).None?
    ensures EmitComplete(d, pid) == Outcome(d, [], None)
  {
  }

  lemma CompleteBounded(d: DemuxState, pid: Pid, whole: ByteString)
    requires SoundUnit(whole) && PesOf(d, pid) == Partial(whole, |whole|) && Declared(whole).Some?
    ensures EmitComplete(d, pid) == EmitPes(WithPes(d, pid, EMPTY_PES), pid, whole)
  {
    hide EmitPes;
    assert whole[..|whole|] == whole && whole[|whole|..] == [];
  }

  /** A unit changes the counter, the assembler and the clocks of its own PID only. */
  lemma MatchedAfter(m: MuxState, d: DemuxState, h: Held, lost: Option<MuxStream>, packet: MuxPacket, n: nat,
                     after: DemuxState, held: Option<MuxPacket>)
    requires Matched(m, d, h, lost) && m.lastPsi.Some? && n > 0 && lost != Some(packet.stream)
    requires var pid := PidFor(packet.stream);
             && after.continuity == d.continuity[pid := Later(CounterOf(m, pid), n - 1)]
             && pid in after.pes && after.pes == d.pes[pid := after.pes[pid]]
             && after == d.(continuity := after.continuity, pes := after.pes, videoPts := after.videoPts,
                            videoDts := after.videoDts, audioPts := after.audioPts, pending := after.pending)
    requires Marks(after) && Holds(after, packet.stream, held)
    ensures var pid := PidFor(packet.stream);
            Matched(m.(continuity := m.continuity[pid := Later(CounterOf(m, pid), n)]), after,
                    h.Put(packet.stream, held), lost)
  {
    hide PesFor, Acceptable, Later;
    var pid := PidFor(packet.stream);
    var next := m.(continuity := m.continuity[pid := Later(CounterOf(m, pid), n)]);
    LaterAgain(CounterOf(m, pid), n - 1, 1);
    forall p: U16 | !(lost.Some? && p == PidFor(lost.value))
      ensures InSequence(after, p, CounterOf(next, p))
    {
      assert InSequence(d, p, CounterOf(m, p));
    }
  }

  function OtherStream(stream: MuxStream): MuxStream {
    if stream.Video? then Audio else Video
  }

  /** A stream's unwrappers have passed these packets, the other stream's have not moved. */
  predicate Advanced(d: DemuxState, after: DemuxState, stream: MuxStream, packets: seq<MuxPacket>) {
    && TimesOf(after, stream) == TickAll(TimesOf(d, stream), packets)
    && TimesOf(after, OtherStream(stream)) == TimesOf(d, OtherStream(stream))
  }

  lemma {:induction false} AudioKeepsDts(t: Times, packets: seq<MuxPacket>)
    requires AllOf(packets, Audio)
    ensures TickAll(t, packets).dts == t.dts
    decreases |packets|
  {
    hide Unwrap;
    if packets != [] {
      AudioKeepsDts(Tick(t, packets[0]), packets[1..]);
    }
  }

  /** Setting the unwrappers of a stream advances them. */
  lemma TimesSet(d: DemuxState, after: DemuxState, stream: MuxStream, packets: seq<MuxPacket>)
    requires AllOf(packets, stream)
    requires var f := WithTimes(d, stream, TickAll(TimesOf(d, stream), packets));
             && after.videoPts == f.videoPts && after.videoDts == f.videoDts && after.audioPts == f.audioPts
             && after.pending == f.pending
    ensures Advanced(d, after, stream, packets)
    ensures Marks(d) ==> Marks(after)
  {
    hide TickAll;
    if stream.Audio? {
      AudioKeepsDts(TimesOf(d, stream), packets);
    }
  }

  lemma MediaRun(m: MuxState, d: DemuxState, h: Held, lost: Option<MuxStream>, packet: MuxPacket)
    requires Matched(m, d, h, lost) && lost != Some(packet.stream) && m.lastPsi.Some? && Acceptable(packet)
    ensures var (next, raws) := SendPes(m, packet);
            && WholePackets(raws)
            && Run(d, raws).1 == Clock(PidFor(packet.stream), ClockFor(packet))
                                 + Deliveries(TimesOf(d, packet.stream), Emitted(h, packet))
            && Matched(next, Run(d, raws).0, HeldAfter(h, packet), lost) && next.lastPsi == m.lastPsi
            && Advanced(d, Run(d, raws).0, packet.stream, Emitted(h, packet))
  {
    hide EmitPes, PesFor, Acceptable, Tick, EmitPrevious, EmitComplete, Later, Declared, SoundUnit, Packetize, Run,
      Clock, ClockFor, Holds, Matched, Unbounded, Partial, TablesKnown, InSequence, PesOf, WithPes, Counted,
      Deliveries, TickAll, Advanced, WithTimes, Begun, TimesOf;
    var pid, whole := PidFor(packet.stream), PesFor(packet);
    var counter := CounterOf(m, pid);
    var t, held := TimesOf(d, packet.stream), h.Queue(packet.stream);
    var raws := Packetize(pid, whole, true, ClockFor(packet), packet.keyframe, counter);
    AcceptableIsSound(packet);
    MatchedParts(m, d, h, lost, packet.stream);
    PreviousDelivered(d, h, packet.stream);
    KnownCarries(d, packet.stream, TickAll(t, held));
    UnitRun(d, pid, whole, counter, ClockFor(packet), packet.keyframe);
    UnitNotEmpty(pid, whole, true, ClockFor(packet), packet.keyframe, counter);
    if Unbounded(packet) {
      FinishUnbounded(m, d, h, lost, packet, |raws|);
      assert held + [] == held && Deliveries(t, held) + [] == Deliveries(t, held);
    } else {
      FinishBounded(m, d, h, lost, packet, |raws|);
      DeliveriesSnoc(t, held, packet);
    }
  }

  lemma MatchedParts(m: MuxState, d: DemuxState, h: Held, lost: Option<MuxStream>, stream: MuxStream)
    requires Matched(m, d, h, lost) && m.lastPsi.Some? && lost != Some(stream)
    ensures InSequence(d, PidFor(stream), CounterOf(m, PidFor(stream)))
    ensures TablesKnown(d) && Marks(d) && Holds(d, stream, h.Get(stream))
  {
    hide Holds, TablesKnown, InSequence, SectionsOf;
  }

  lemma KnownCarries(d: DemuxState, stream: MuxStream, t: Times)
    requires TablesKnown(d)
    ensures TablesKnown(WithTimes(d, stream, t))
  {
  }

  lemma HeldStream(d: DemuxState, h: Held, stream: MuxStream)
    requires Holds(d, stream, h.Get(stream))
    ensures AllOf(h.Queue(stream), stream)
  {
  }

  lemma FinishUnbounded(m: MuxState, d: DemuxState, h: Held, lost: Option<MuxStream>, packet: MuxPacket, n: nat)
    requires Matched(m, d, h, lost) && lost != Some(packet.stream) && m.lastPsi.Some? && n > 0 && Acceptable(packet)
             && Unbounded(packet)
    ensures var pid, whole := PidFor(packet.stream), PesFor(packet);
            var full := Begun(d, pid, whole, |whole|, Later(CounterOf(m, pid), n - 1));
            && EmitComplete(full, pid) == Outcome(full, [], None)
            && Matched(m.(continuity := m.continuity[pid := Later(CounterOf(m, pid), n)]), full, HeldAfter(h, packet),
                       lost)
            && Advanced(d, full, packet.stream, Emitted(h, packet))
  {
    hide EmitPes, PesFor, Acceptable, EmitPrevious, EmitComplete, Later, Declared, Holds, Matched, TickAll, Deliveries,
      Advanced;
    var pid, whole := PidFor(packet.stream), PesFor(packet);
    var held := h.Queue(packet.stream);
    var last := Later(CounterOf(m, pid), n - 1);
    var full := Begun(d, pid, whole, |whole|, last);
    AcceptableIsSound(packet);
    MatchedParts(m, d, h, lost, packet.stream);
    HeldStream(d, h, packet.stream);
    PreviousDelivered(d, h, packet.stream);
    BegunFacts(d, pid, whole, |whole|, last, last);
    CompleteUnbounded(full, pid, whole);
    HoldsUnbounded(full, packet);
    MatchedAfter(m, d, h, lost, packet, n, full, Some(packet));
    assert held + [] == held;
    TimesSet(d, full, packet.stream, held);
  }

  lemma FinishBounded(m: MuxState, d: DemuxState, h: Held, lost: Option<MuxStream>, packet: MuxPacket, n: nat)
    requires Matched(m, d, h, lost) && lost != Some(packet.stream) && m.lastPsi.Some? && n > 0 && Acceptable(packet)
             && !Unbounded(packet)
    ensures var pid, whole := PidFor(packet.stream), PesFor(packet);
            var t := TickAll(TimesOf(d, packet.stream), h.Queue(packet.stream));
            var r := EmitComplete(Begun(d, pid, whole, |whole|, Later(CounterOf(m, pid), n - 1)), pid);
            && r.error.None? && r.events == [Packet(Delivered(t, packet))]
            && Matched(m.(continuity := m.continuity[pid := Later(CounterOf(m, pid), n)]), r.state,
                       HeldAfter(h, packet), lost)
            && Advanced(d, r.state, packet.stream, Emitted(h, packet))
  {
    hide EmitPes, PesFor, Acceptable, Tick, EmitPrevious, EmitComplete, Later, Declared, Holds, Matched, TickAll,
      Deliveries, Delivered, Advanced, Emission, WithTimes, TimesOf, Marks, TablesKnown, InSequence;
    var pid, whole := PidFor(packet.stream), PesFor(packet);
    var held := h.Queue(packet.stream);
    var t := TimesOf(d, packet.stream);
    var last := Later(CounterOf(m, pid), n - 1);
    var full := Begun(d, pid, whole, |whole|, last);
    var emptied := WithPes(full, pid, EMPTY_PES);
    AcceptableIsSound(packet);
    MatchedParts(m, d, h, lost, packet.stream);
    HeldStream(d, h, packet.stream);
    PreviousDelivered(d, h, packet.stream);
    EmptiedShape(d, h, packet, last);
    BegunFacts(d, pid, whole, |whole|, last, last);
    CompleteBounded(full, pid, whole);
    DeliverOne(emptied, packet);
    EmissionShape(emptied, packet);
    var after := Emission(emptied, packet).state;
    HoldsNothing(after, packet.stream);
    MatchedAfter(m, d, h, lost, packet, n, after, None);
    TickAllAppend(t, held, [packet]);
    OneTick(TickAll(t, held), packet);
    BothAdvance(d, emptied, after, packet.stream, held, packet);
  }

  /** The receiver after the held unit was emitted and the new one taken out of its assembler. */
  lemma EmptiedShape(d: DemuxState, h: Held, packet: MuxPacket, last: Counter)
    requires TablesKnown(d) && Marks(d) && Holds(d, packet.stream, h.Get(packet.stream))
    ensures var pid, whole, held := PidFor(packet.stream), PesFor(packet), h.Queue(packet.stream);
            var emptied := WithPes(Begun(d, pid, whole, |whole|, last), pid, EMPTY_PES);
            && TablesKnown(EmitPrevious(d, pid).state)
            && TablesKnown(emptied) && Marks(emptied) && Advanced(d, emptied, packet.stream, held)
            && emptied == d.(continuity := d.continuity[pid := last], pes := d.pes[pid := EMPTY_PES],
                             videoPts := emptied.videoPts, videoDts := emptied.videoDts,
                             audioPts := emptied.audioPts, pending := emptied.pending)
  {
    hide EmitPrevious, PesFor, Acceptable, Declared, TickAll, Deliveries, Advanced;
    var pid, whole, held := PidFor(packet.stream), PesFor(packet), h.Queue(packet.stream);
    HeldStream(d, h, packet.stream);
    PreviousDelivered(d, h, packet.stream);
    var begun := Begun(d, pid, whole, |whole|, last);
    TimesSet(d, WithPes(begun, pid, EMPTY_PES), packet.stream, held);
    assert d.pes[pid := Partial(whole, |whole|)][pid := EMPTY_PES] == d.pes[pid := EMPTY_PES];
  }

  lemma EmissionShape(d: DemuxState, packet: MuxPacket)
    ensures Emission(d, packet).error.None?
    ensures Emission(d, packet).events == [Packet(Delivered(TimesOf(d, packet.stream), packet))]
    ensures var after := Emission(d, packet).state;
            && after == d.(videoPts := after.videoPts, videoDts := after.videoDts, audioPts := after.audioPts,
                           pending := after.pending)
            && (Marks(d) ==> Marks(after))
            && TimesOf(after, packet.stream) == Tick(TimesOf(d, packet.stream), packet)
            && TimesOf(after, OtherStream(packet.stream)) == TimesOf(d, OtherStream(packet.stream))
  {
    hide Unwrap, Delivered;
  }

  lemma BothAdvance(d: DemuxState, e: DemuxState, after: DemuxState, stream: MuxStream, held: seq<MuxPacket>,
                    packet: MuxPacket)
    requires Advanced(d, e, stream, held)
    requires TimesOf(after, stream) == Tick(TimesOf(e, stream), packet)
    requires TimesOf(after, OtherStream(stream)) == TimesOf(e, OtherStream(stream))
    requires TickAll(TimesOf(d, stream), held + [packet]) == Tick(TickAll(TimesOf(d, stream), held), packet)
    ensures Advanced(d, after, stream, held + [packet]) && TimesOf(e, stream) == TickAll(TimesOf(d, stream), held)
  {
  }

  lemma OneTick(t: Times, packet: MuxPacket)
    ensures TickAll(t, [packet]) == Tick(t, packet)
  {
    assert [packet][1..] == [];
  }

  lemma UnitNotEmpty(pid: Pid, whole: ByteString, unitStart: bool, pcr: Option<U64>, randomAccess: bool,
                     counter: Counter)
    requires whole != []
    ensures Packetize(pid, whole, unitStart, pcr, randomAccess, counter) != []
  {
  }

  lemma HoldsUnbounded(d: DemuxState, packet: MuxPacket)
    requires Acceptable(packet) && Unbounded(packet)
    requires PesOf(d, PidFor(packet.stream)) == Partial(PesFor(packet), |PesFor(packet)|)
    ensures Holds(d, packet.stream, Some(packet))
  {
    hide PesFor, Acceptable;
    assert PesFor(packet)[..|PesFor(packet)|] == PesFor(packet);
  }

  lemma HoldsNothing(d: DemuxState, stream: MuxStream)
    requires PesOf(d, PidFor(stream)) == EMPTY_PES
    ensures Holds(d, stream, None)
  {
  }

  lemma {:induction false} DeliveriesSnoc(t: Times, packets: seq<MuxPacket>, packet: MuxPacket)
    ensures Deliveries(t, packets + [packet])
            == Deliveries(t, packets) + [Packet(Delivered(TickAll(t, packets), packet))]
    decreases |packets|
  {
    hide Delivered, Tick;
    if packets == [] {
      assert packets + [packet] == [packet] && [packet][1..] == [];
    } else {
      assert (packets + [packet])[1..] == packets[1..] + [packet];
      DeliveriesSnoc(Tick(t, packets[0]), packets[1..], packet);
    }
  }

  // ----- the program tables -----

  lemma SectionUnit(d: DemuxState, pid: Pid, section: ByteString, counter: Counter)
    requires pid == PAT_PID || d.pmtPid == Some(pid)
    requires WholeSectionBytes(section) && |section| < 184 && SectionsOf(d, pid) == EMPTY_SECTION
    requires InSequence(d, pid, counter)
    ensures var raws := Packetize(pid, [0] + section, true, None, false, counter);
            var stored := d.(continuity := d.continuity[pid := counter], sections := d.sections[pid := EMPTY_SECTION]);
            var r := ProcessSection(stored, pid, section);
            |raws| == 1 && (r.error.None? ==> Run(d, raws) == (r.state, r.events))
  {
    hide PrintPacket, Step, ProcessSection, SectionPush, Later, InSequence, Run;
    var payload := [0] + section;
    var raw := PrintPacket(pid, true, counter, None, false, payload);
    var raws := Packetize(pid, payload, true, None, false, counter);
    assert payload[..|payload|] == payload && payload[|payload|..] == [];
    PacketizeNothing(pid, [], false, None, false, Later(counter, 1));
    assert raws == [raw] + [];
    WholeSection(section);
    StepPrinted(d, pid, true, counter, None, false, payload);
    OneSection(d, pid, section, counter, payload);
    var r := ProcessSection(d.(continuity := d.continuity[pid := counter],
                               sections := d.sections[pid := EMPTY_SECTION]),
                            pid, section);
    RunFirst(d, raw, []);
    RunNothing(r.state);
    assert Clock(pid, None) + r.events == r.events && r.events + [] == r.events;
  }

  lemma OneSection(d: DemuxState, pid: Pid, section: ByteString, counter: Counter, payload: ByteString)
    requires pid == PAT_PID || d.pmtPid == Some(pid)
    requires SectionsOf(d, pid) == EMPTY_SECTION && payload != [] && |payload| <= 184
    requires SectionPush(EMPTY_SECTION, payload, true) == (EMPTY_SECTION, [section])
    ensures var stored := d.(continuity := d.continuity[pid := counter], sections := d.sections[pid := EMPTY_SECTION]);
            ProcessPayload(Counted(d, pid, counter), ParsedForm(pid, true, counter, None, false, payload))
            == ProcessSection(stored, pid, section)
  {
    hide ProcessSection, SectionPush;
    var stored := d.(continuity := d.continuity[pid := counter], sections := d.sections[pid := EMPTY_SECTION]);
    var r := ProcessSection(stored, pid, section);
    assert [section][1..] == [] && r.events + [] == r.events;
    assert ProcessSections(r.state, pid, []) == Outcome(r.state, [], None);
    assert ProcessSections(stored, pid, [section]) == Outcome(r.state, r.events, r.error);
    assert SectionsOf(Counted(d, pid, counter), pid) == EMPTY_SECTION;
  }

  lemma PatProcessed(d: DemuxState)
    ensures WholeSectionBytes(BuildPat()) && |BuildPat()| == 16
    ensures ProcessSection(d, PAT_PID, BuildPat()) == Outcome(d.(pmtPid := Some(PMT_PID)), [], None)
  {
    hide AppendCrc, ValidateSectionCrc, ParsePat;
    var s := BuildPat();
    AppendedCrcIsValid(PAT_BODY);
    PatParses(s);
    assert s[0] == s[..12][0] && s[1] == s[..12][1] && s[2] == s[..12][2];
  }

  lemma PmtProcessed(d: DemuxState)
    requires d.pmtPid == Some(PMT_PID)
    ensures WholeSectionBytes(BuildPmt()) && |BuildPmt()| == 26
    ensures ProcessSection(d, PMT_PID, BuildPmt())
            == Outcome(d.(videoPid := Some(VIDEO_PID), audioPid := Some(AUDIO_PID)), [ProgramMapEvent(PROGRAM)], None)
  {
    hide AppendCrc, ValidateSectionCrc, ParsePmt;
    var s := BuildPmt();
    AppendedCrcIsValid(PMT_BODY);
    PmtParses(s);
    assert s[0] == s[..22][0] && s[1] == s[..22][1] && s[2] == s[..22][2];
  }

  /** One program map is reported if no tables were sent yet, or 9000 ticks after they were. */
  function TableEvents(m: MuxState, pts: U64): seq<DemuxEvent> {
    if m.lastPsi.None? || pts >= m.lastPsi.value + 9000 then [ProgramMapEvent(PROGRAM)] else []
  }

  /** The tables leave the unwrappers alone. */
  predicate SameClocks(d: DemuxState, after: DemuxState) {
    TimesOf(after, Video) == TimesOf(d, Video) && TimesOf(after, Audio) == TimesOf(d, Audio)
  }

  lemma TablesRun(m: MuxState, d: DemuxState, h: Held, lost: Option<MuxStream>, pts: U64)
    requires Matched(m, d, h, lost)
    ensures var (next, raws) := SendTables(m, pts);
            && WholePackets(raws)
            && Run(d, raws).1 == TableEvents(m, pts)
            && Matched(next, Run(d, raws).0, h, lost) && next.lastPsi.Some?
            && SameClocks(d, Run(d, raws).0)
  {
    hide PrintPacket, Step, ProcessSection, Later, BuildPat, BuildPmt, Packetize, Run, Holds, InSequence;
    if TablesDue(m, pts) {
      var patCounter, pmtCounter := CounterOf(m, PAT_PID), CounterOf(m, PMT_PID);
      var pat := Packetize(PAT_PID, [0] + BuildPat(), true, None, false, patCounter);
      var pmt := Packetize(PMT_PID, [0] + BuildPmt(), true, None, false, pmtCounter);
      assert InSequence(d, PAT_PID, patCounter) && InSequence(d, PMT_PID, pmtCounter);
      var afterPat := d.(continuity := d.continuity[PAT_PID := patCounter],
                         sections := d.sections[PAT_PID := EMPTY_SECTION], pmtPid := Some(PMT_PID));
      PatProcessed(d.(continuity := d.continuity[PAT_PID := patCounter],
                      sections := d.sections[PAT_PID := EMPTY_SECTION]));
      SectionUnit(d, PAT_PID, BuildPat(), patCounter);
      SequenceElsewhere(d, afterPat, PAT_PID, patCounter, PMT_PID, pmtCounter);
      var stored := afterPat.(continuity := afterPat.continuity[PMT_PID := pmtCounter],
                              sections := afterPat.sections[PMT_PID := EMPTY_SECTION]);
      PmtProcessed(stored);
      SectionUnit(afterPat, PMT_PID, BuildPmt(), pmtCounter);
      RunAppend(d, pat, pmt);
      assert [] + [ProgramMapEvent(PROGRAM)] == [ProgramMapEvent(PROGRAM)];
      var after := stored.(videoPid := Some(VIDEO_PID), audioPid := Some(AUDIO_PID));
      TablesMatched(m, d, h, lost, pts, after);
    } else {
      NoTables(m, pts);
      RunNothing(d);
    }
  }

  lemma SequenceElsewhere(d: DemuxState, e: DemuxState, pid: Pid, counter: Counter, other: Pid, otherCounter: Counter)
    requires e.continuity == d.continuity[pid := counter] && other != pid && InSequence(d, other, otherCounter)
    ensures InSequence(e, other, otherCounter)
  {
  }

  lemma TablesMatched(m: MuxState, d: DemuxState, h: Held, lost: Option<MuxStream>, pts: U64, after: DemuxState)
    requires Matched(m, d, h, lost)
    requires after == d.(continuity := d.continuity[PAT_PID := CounterOf(m, PAT_PID)][PMT_PID := CounterOf(m, PMT_PID)],
                         sections := d.sections[PAT_PID := EMPTY_SECTION][PMT_PID := EMPTY_SECTION],
                         pmtPid := Some(PMT_PID), videoPid := Some(VIDEO_PID), audioPid := Some(AUDIO_PID))
    ensures Matched(m.(continuity := m.continuity[PAT_PID := Later(CounterOf(m, PAT_PID), 1)]
                                                 [PMT_PID := Later(CounterOf(m, PMT_PID), 1)], lastPsi := Some(pts)),
                    after, h, lost)
  {
    hide Later, PesFor, Acceptable;
    var next := m.(continuity := m.continuity[PAT_PID := Later(CounterOf(m, PAT_PID), 1)]
                                             [PMT_PID := Later(CounterOf(m, PMT_PID), 1)], lastPsi := Some(pts));
    forall p: U16 | !(lost.Some? && p == PidFor(lost.value))
      ensures InSequence(after, p, CounterOf(next, p))
    {
      assert InSequence(d, p, CounterOf(m, p));
    }
  }

  // ----- a unit that shows that packets are missing -----

  const LOST_TIMES: Times := Times(FRESH, FRESH, true)

  /** What a stream will be followed with: afresh and marked, once the loss has shown. */
  function Ear(d: DemuxState, lost: Option<MuxStream>, stream: MuxStream): Times {
    if lost == Some(stream) then LOST_TIMES else TimesOf(d, stream)
  }

  /** After the loss has shown, the stream is one with nothing open, nothing followed, and a mark. */
  lemma LossShown(m: MuxState, d: DemuxState, h: Held, stream: MuxStream)
    requires Matched(m, d, h, Some(stream))
    ensures var e := Interrupt(d, PidFor(stream));
            && Matched(m, e, h, None) && TimesOf(e, stream) == LOST_TIMES
            && TimesOf(e, OtherStream(stream)) == TimesOf(d, OtherStream(stream))
  {
    hide Later, PesFor, Acceptable;
    var e := Interrupt(d, PidFor(stream));
    forall p: U16 ensures InSequence(e, p, CounterOf(m, p)) {
      if p != PidFor(stream) {
        assert InSequence(d, p, CounterOf(m, p));
      }
    }
  }

  function Forgotten(d: DemuxState, pid: U16): DemuxState {
    d.(continuity := d.continuity - {pid})
  }

  lemma PayloadIgnoresCounters(d: DemuxState, packet: TsPacket, continuity: map<U16, Byte>)
    requires TablesKnown(d) && MediaPid(packet.pid)
    ensures var r := ProcessPayload(d, packet);
            ProcessPayload(d.(continuity := continuity), packet)
            == Outcome(r.state.(continuity := continuity), r.events, r.error)
  {
    hide EmitPes;
    var pid := packet.pid;
    if packet.payload != [] {
      if packet.payloadUnitStart {
        var (a, previous) := PesStart(PesOf(d, pid), packet.payload);
        if previous.Ok? {
          var started := d.(pes := d.pes[pid := a]);
          var first := Outcome(started, [], None);
          if previous.value.Some? {
            EmitIgnoresCounters(started, pid, previous.value.value, continuity);
            first := EmitPes(started, pid, previous.value.value);
          }
          if first.error.None? {
            CompleteIgnoresCounters(first.state, pid, continuity);
          }
        }
      } else {
        var (a, overflow) := PesPush(PesOf(d, pid), packet.payload);
        CompleteIgnoresCounters(d.(pes := d.pes[pid := a]), pid, continuity);
      }
    }
  }

  lemma CompleteIgnoresCounters(d: DemuxState, pid: U16, continuity: map<U16, Byte>)
    ensures var r := EmitComplete(d, pid);
            EmitComplete(d.(continuity := continuity), pid)
            == Outcome(r.state.(continuity := continuity), r.events, r.error)
  {
    hide EmitPes;
    var (rest, complete) := PesTakeComplete(PesOf(d, pid));
    if complete.Some? {
      var taken := d.(pes := d.pes[pid := rest]);
      EmitIgnoresCounters(taken, pid, complete.value, continuity);
    }
  }

  lemma EmitIgnoresCounters(d: DemuxState, pid: U16, data: ByteString, continuity: map<U16, Byte>)
    ensures var r := EmitPes(d, pid, data);
            EmitPes(d.(continuity := continuity), pid, data)
            == Outcome(r.state.(continuity := continuity), r.events, r.error)
  {
    hide EmitPes;
    EmitCommutes(d, pid, data, d.continuity, d.pes);
    EmitCommutes(d, pid, data, continuity, d.pes);
  }

  /** A sound packet of a media PID. */
  predicate MediaPacket(packet: TsPacket, pid: Pid, counter: Counter) {
    && !packet.transportError && packet.pid == pid && packet.control.HasPayload() && !Discontinuous(packet)
    && packet.continuityCounter == counter
  }

  lemma JumpProcessed(d: DemuxState, packet: TsPacket, pid: Pid, counter: Counter)
    requires MediaPacket(packet, pid, counter) && JumpsAhead(d, pid, counter)
    ensures var body := ProcessPayload(Interrupt(d, pid), packet);
            var notice := ContinuityError(pid, Later(d.continuity[pid], 1), counter);
            ProcessPacket(d, packet) ==
            Outcome(body.state, ClockEvents(packet) + [notice] + body.events, body.error)
  {
    hide ProcessPayload, Later, ClockEvents;
    assert d.continuity[pid := counter] - {pid} == d.continuity - {pid};
    var body := ProcessPayload(Interrupt(d, pid), packet);
    var notice := ContinuityError(pid, Later(d.continuity[pid], 1), counter);
    assert ClockEvents(packet) + [notice] + [] + body.events == ClockEvents(packet) + [notice] + body.events;
  }

  lemma InterruptedProcessed(d: DemuxState, packet: TsPacket, pid: Pid, counter: Counter)
    requires MediaPacket(packet, pid, counter) && pid !in d.continuity && TablesKnown(d) && MediaPid(pid)
    ensures var body := ProcessPayload(d, packet);
            ProcessPacket(d, packet) ==
            Outcome(body.state.(continuity := d.continuity[pid := counter]), ClockEvents(packet) + body.events,
                    body.error)
  {
    hide ProcessPayload, Later, ClockEvents, TablesKnown, MediaPid;
    var body := ProcessPayload(d, packet);
    PayloadIgnoresCounters(d, packet, d.continuity[pid := counter]);
    assert ClockEvents(packet) + [] + [] + body.events == ClockEvents(packet) + body.events;
  }

  /** A jump interrupts the PID, and the packet is then handled as by a receiver that was interrupted
      before, except that its counter is forgotten. */
  lemma JumpStep(d: DemuxState, raw: ByteString, pid: Pid, counter: Counter)
    requires |raw| == PACKET_SIZE && ParsePacket(raw).Ok? && MediaPacket(ParsePacket(raw).value, pid, counter)
    requires PidOf(raw[1], raw[2]) == pid && TablesKnown(d) && MediaPid(pid) && JumpsAhead(d, pid, counter)
    ensures var e := Interrupt(d, pid);
            var notice := ContinuityError(pid, Later(d.continuity[pid], 1), counter);
            var clock := ClockEvents(ParsePacket(raw).value);
            && Step(d, raw).0 == Forgotten(Step(e, raw).0, pid)
            && exists rest: seq<DemuxEvent> ::
                 Step(e, raw).1 == clock + rest && Step(d, raw).1 == clock + [notice] + rest
  {
    hide ParsePacket, ProcessPacket, ProcessPayload, Later, ClockEvents, MediaPacket, TablesKnown, MediaPid, PidOf,
      Step, Interrupt;
    var packet := ParsePacket(raw).value;
    var e := Interrupt(d, pid);
    PidRead(raw);
    InterruptedKnows(d, pid);
    JumpProcessed(d, packet, pid, counter);
    InterruptedProcessed(e, packet, pid, counter);
    PayloadKeepsCounters(e, packet);
    var body := ProcessPayload(e, packet);
    var notice := ContinuityError(pid, Later(d.continuity[pid], 1), counter);
    var clock := ClockEvents(packet);
    var rest := body.events + if body.error.Some? then [CorruptData(pid, body.error.value)] else [];
    StepProcesses(d, raw);
    StepProcesses(e, raw);
    assert Step(e, raw).1 == clock + rest;
    assert Step(d, raw).1 == clock + [notice] + rest;
    ForgetCounted(body.state, pid, counter);
  }

  lemma StepProcesses(d: DemuxState, raw: ByteString)
    requires |raw| == PACKET_SIZE && ParsePacket(raw).Ok?
    ensures var r := ProcessPacket(d, ParsePacket(raw).value);
            var pid := PidOf(raw[1], raw[2]);
            Step(d, raw) == if r.error.Some?
              then (Interrupt(r.state, pid), r.events + [CorruptData(pid, r.error.value)])
                            else (r.state, r.events)
  {
    hide ParsePacket, ProcessPacket;
  }

  lemma ForgetCounted(d: DemuxState, pid: Pid, counter: Counter)
    requires pid !in d.continuity
    ensures var counted := d.(continuity := d.continuity[pid := counter]);
            Forgotten(counted, pid) == d && Forgotten(Interrupt(counted, pid), pid) == Interrupt(d, pid)
  {
    assert d.continuity[pid := counter] - {pid} == d.continuity - {pid} == d.continuity;
    assert d.continuity - {pid} - {pid} == d.continuity;
  }

  lemma PayloadKeepsCounters(d: DemuxState, packet: TsPacket)
    requires TablesKnown(d) && MediaPid(packet.pid)
    ensures ProcessPayload(d, packet).state.continuity == d.continuity
  {
    hide ProcessPayload;
    PayloadIgnoresCounters(d, packet, d.continuity);
  }

  /** A counter that is in sequence may as well have been forgotten. */
  lemma ForgottenStep(d: DemuxState, raw: ByteString, pid: Pid, counter: Counter)
    requires |raw| == PACKET_SIZE && ParsePacket(raw).Ok? && MediaPacket(ParsePacket(raw).value, pid, counter)
    requires InSequence(d, pid, counter)
    ensures Step(Forgotten(d, pid), raw) == Step(d, raw)
  {
    hide ParsePacket, ProcessPayload, Later;
    assert (d.continuity - {pid})[pid := counter] == d.continuity[pid := counter];
  }

  lemma StepCounts(d: DemuxState, raw: ByteString, pid: Pid, counter: Counter)
    requires |raw| == PACKET_SIZE && ParsePacket(raw).Ok? && MediaPacket(ParsePacket(raw).value, pid, counter)
    requires PidOf(raw[1], raw[2]) == pid && TablesKnown(d) && MediaPid(pid) && InSequence(d, pid, counter)
    ensures pid in Step(d, raw).0.continuity ==> Step(d, raw).0.continuity[pid] == counter
  {
    hide ParsePacket, ProcessPayload, Later;
    var packet := ParsePacket(raw).value;
    PayloadKeepsCounters(d.(continuity := d.continuity[pid := counter]), packet);
  }

  lemma PidRead(raw: ByteString)
    requires |raw| == PACKET_SIZE
    ensures ParsePacket(raw).Ok? ==> ParsePacket(raw).value.pid == PidOf(raw[1], raw[2])
  {
  }

  lemma UnitPacketRead(raw: ByteString, i: nat, pid: Pid, unitStart: bool, pcr: Option<U64>, counter: Counter)
    requires |raw| == PACKET_SIZE && IsUnitPacket(raw, i, pid, unitStart, pcr, counter)
    ensures PidOf(raw[1], raw[2]) == pid
    ensures ParsePacket(raw).Ok? && MediaPacket(ParsePacket(raw).value, pid, Later(counter, i))
    ensures ClockEvents(ParsePacket(raw).value) == if i == 0 then Clock(pid, pcr) else []
  {
    hide ParsePacket, Later;
    PidRead(raw);
  }

  /** What follows a forgotten counter is handled as if it had been kept. */
  lemma ForgottenRest(d: DemuxState, pid: Pid, raws: seq<ByteString>, pcr: Option<U64>, start: Counter)
    requires WholePackets(raws) && (pid in d.continuity ==> d.continuity[pid] == start)
    requires raws != [] ==> IsUnitPacket(raws[0], 1, pid, true, pcr, start)
    ensures Run(Forgotten(d, pid), raws).1 == Run(d, raws).1
    ensures Run(Forgotten(d, pid), raws).0 == if raws == [] then Forgotten(d, pid) else Run(d, raws).0
  {
    hide Step, ParsePacket, IsUnitPacket, Later, MediaPacket, Clock, Forgotten;
    if raws != [] {
      UnitPacketRead(raws[0], 1, pid, true, pcr, start);
      ForgottenStep(d, raws[0], pid, Later(start, 1));
      assert raws == [raws[0]] + raws[1..];
    }
  }

  /** A whole unit behind a loss: one notice, and otherwise what an interrupted receiver makes of it. */
  lemma JumpRun(d: DemuxState, pid: Pid, whole: ByteString, pcr: Option<U64>, randomAccess: bool, counter: Counter)
    requires MediaPid(pid) && TablesKnown(d) && whole != [] && JumpsAhead(d, pid, counter)
    ensures var raws := Packetize(pid, whole, true, pcr, randomAccess, counter);
            var e := Interrupt(d, pid);
            var notice := ContinuityError(pid, Later(d.continuity[pid], 1), counter);
            && (Run(d, raws).0 == Run(e, raws).0 || Run(d, raws).0 == Forgotten(Run(e, raws).0, pid))
            && exists rest: seq<DemuxEvent> ::
                 Run(e, raws).1 == Clock(pid, pcr) + rest && Run(d, raws).1 == Clock(pid, pcr) + [notice] + rest
  {
    hide Step, Packetize, PrintPacket, ParsePacket, IsUnitPacket, Later, MediaPacket, Clock, Interrupt, Run, Forgotten,
      MediaPid, TablesKnown, PidOf;
    var raws := Packetize(pid, whole, true, pcr, randomAccess, counter);
    var e := Interrupt(d, pid);
    var notice := ContinuityError(pid, Later(d.continuity[pid], 1), counter);
    var clock := Clock(pid, pcr);
    PacketizeRefines(pid, whole, true, pcr, randomAccess, counter);
    UnitPacketRead(raws[0], 0, pid, true, pcr, counter);
    LaterNone(counter);
    JumpStep(d, raws[0], pid, counter);
    var first: seq<DemuxEvent> :| Step(e, raws[0]).1 == clock + first && Step(d, raws[0]).1 == clock + [notice] + first;
    var more := raws[1..];
    assert raws == [raws[0]] + more;
    RunFirst(d, raws[0], more);
    RunFirst(e, raws[0], more);
    var after := Step(e, raws[0]).0;
    InterruptedKnows(d, pid);
    StepCounts(e, raws[0], pid, counter);
    ForgottenRest(after, pid, more, pcr, counter);
    if more == [] {
      RunNothing(after);
    }
    var rest := Run(after, more).1;
    assert Run(e, raws).1 == clock + (first + rest);
    assert Run(d, raws).1 == clock + [notice] + (first + rest);
  }

  lemma InterruptedKnows(d: DemuxState, pid: U16)
    requires TablesKnown(d)
    ensures TablesKnown(Interrupt(d, pid)) && pid !in Interrupt(d, pid).continuity
  {
  }

  lemma ForgottenMatches(m: MuxState, d: DemuxState, h: Held, pid: Pid)
    requires Matched(m, d, h, None)
    ensures Matched(m, Forgotten(d, pid), h, None)
  {
    hide Later, PesFor, Acceptable;
    var e := Forgotten(d, pid);
    forall p: U16 ensures InSequence(e, p, CounterOf(m, p)) {
      assert InSequence(d, p, CounterOf(m, p));
    }
  }

  // ----- whole runs -----

  function LeftAfter(lost: Option<MuxStream>, packet: MuxPacket): Option<MuxStream> {
    if lost == Some(packet.stream) then None else lost
  }

  predicate Trouble(event: DemuxEvent, pid: U16) {
    (event.ContinuityError? || event.Discontinuity? || event.CorruptData?) && event.pid == pid
  }

  /** A notice of the loss when it shows, and nothing otherwise. */
  predicate Notices(notices: seq<DemuxEvent>, lost: Option<MuxStream>, packet: MuxPacket) {
    notices == [] || (lost == Some(packet.stream) && |notices| == 1 && Trouble(notices[0], PidFor(packet.stream)))
  }

  function PushEvents(m: MuxState, t: Times, h: Held, notices: seq<DemuxEvent>, packet: MuxPacket): seq<DemuxEvent> {
    TableEvents(m, packet.pts)
    + (Clock(PidFor(packet.stream), ClockFor(packet)) + notices + Deliveries(t, Emitted(h, packet)))
  }

  /** The streams have moved on by these packets of one of them. */
  predicate Heard(d: DemuxState, lost: Option<MuxStream>, after: DemuxState, left: Option<MuxStream>,
                  stream: MuxStream, packets: seq<MuxPacket>) {
    && Ear(after, left, stream) == TickAll(Ear(d, lost, stream), packets)
    && Ear(after, left, OtherStream(stream)) == Ear(d, lost, OtherStream(stream))
  }

  lemma PushRun(m: MuxState, d: DemuxState, h: Held, lost: Option<MuxStream>, packet: MuxPacket)
    returns (notices: seq<DemuxEvent>)
    requires Matched(m, d, h, lost) && Acceptable(packet)
    ensures Notices(notices, lost, packet)
    ensures var (next, raws) := MuxPush(m, packet);
            && WholePackets(raws)
            && Run(d, raws).1 == PushEvents(m, Ear(d, lost, packet.stream), h, notices, packet)
            && Matched(next, Run(d, raws).0, HeldAfter(h, packet), LeftAfter(lost, packet))
            && Heard(d, lost, Run(d, raws).0, LeftAfter(lost, packet), packet.stream, Emitted(h, packet))
  {
    hide Matched, Acceptable, SendTables, SendPes, Run, Clock, ClockFor, Emitted, TableEvents, HeldAfter, Deliveries,
      TickAll, TimesOf;
    TablesRun(m, d, h, lost, packet.pts);
    var (ready, tables) := SendTables(m, packet.pts);
    var known := Run(d, tables).0;
    if lost == Some(packet.stream) {
      notices := LostMediaRun(ready, known, h, packet);
    } else {
      MediaRun(ready, known, h, lost, packet);
      notices := [];
      assert Clock(PidFor(packet.stream), ClockFor(packet)) + [] == Clock(PidFor(packet.stream), ClockFor(packet));
    }
    RunAppend(d, tables, SendPes(ready, packet).1);
  }

  lemma LostMediaRun(m: MuxState, d: DemuxState, h: Held, packet: MuxPacket) returns (notices: seq<DemuxEvent>)
    requires Matched(m, d, h, Some(packet.stream)) && m.lastPsi.Some? && Acceptable(packet)
    ensures |notices| == 1 && Trouble(notices[0], PidFor(packet.stream))
    ensures var (next, raws) := SendPes(m, packet);
            && WholePackets(raws)
            && Run(d, raws).1 == Clock(PidFor(packet.stream), ClockFor(packet)) + notices
                                 + Deliveries(LOST_TIMES, Emitted(h, packet))
            && Matched(next, Run(d, raws).0, HeldAfter(h, packet), None)
            && Heard(d, Some(packet.stream), Run(d, raws).0, None, packet.stream, Emitted(h, packet))
  {
    hide Matched, Acceptable, Run, Clock, ClockFor, Emitted, HeldAfter, Deliveries, TickAll, TimesOf, Interrupt,
      Packetize,
      PesFor, Forgotten, JumpsAhead, TablesKnown, Later, LOST_TIMES;
    var pid, whole, counter := PidFor(packet.stream), PesFor(packet), CounterOf(m, PidFor(packet.stream));
    LossShown(m, d, h, packet.stream);
    LostParts(m, d, h, packet.stream);
    var e := Interrupt(d, pid);
    MediaRun(m, e, h, None, packet);
    JumpRun(d, pid, whole, ClockFor(packet), packet.keyframe, counter);
    var (next, raws) := SendPes(m, packet);
    notices := [ContinuityError(pid, Later(d.continuity[pid], 1), counter)];
    var clock := Clock(pid, ClockFor(packet));
    var rest: seq<DemuxEvent> :| Run(e, raws).1 == clock + rest && Run(d, raws).1 == clock + notices + rest;
    assert rest == (clock + rest)[|clock|..];
    assert Deliveries(LOST_TIMES, Emitted(h, packet)) ==
           (clock + Deliveries(LOST_TIMES, Emitted(h, packet)))[|clock|..];
    ForgottenMatches(next, Run(e, raws).0, HeldAfter(h, packet), pid);
    ForgottenTimes(Run(e, raws).0, pid);
  }

  lemma ForgottenTimes(d: DemuxState, pid: Pid)
    ensures forall stream: MuxStream :: TimesOf(Forgotten(d, pid), stream) == TimesOf(d, stream)
  {
  }

  lemma LostParts(m: MuxState, d: DemuxState, h: Held, stream: MuxStream)
    requires Matched(m, d, h, Some(stream))
    ensures JumpsAhead(d, PidFor(stream), CounterOf(m, PidFor(stream))) && TablesKnown(d)
    ensures PidFor(stream) in d.continuity
  {
    hide PesFor, Acceptable, Later;
  }

  lemma FlushHeld(m: MuxState, d: DemuxState, h: Held)
    requires Matched(m, d, h, None)
    ensures FlushState(d).1 ==
            Deliveries(TimesOf(d, Video), h.Queue(Video)) + Deliveries(TimesOf(d, Audio), h.Queue(Audio))
  {
    if m.lastPsi.Some? {
      hide FlushPid, Acceptable, PesFor, Delivered, TickAll, Deliveries;
      FlushStream(d, h, Video);
      var (first, _) := FlushPid(d, d.videoPid);
      FlushStream(first, h.(video := None), Audio);
      assert h.(video := None).Queue(Audio) == h.Queue(Audio);
    }
  }

  lemma FlushStream(d: DemuxState, h: Held, stream: MuxStream)
    requires TablesKnown(d) && Marks(d)
    requires Holds(d, Video, h.video) && Holds(d, Audio, h.audio)
    ensures var (end, events) := FlushPid(d, Some(PidFor(stream)));
            var others := h.Put(stream, None);
            && events == Deliveries(TimesOf(d, stream), h.Queue(stream))
            && TablesKnown(end) && Marks(end)
            && Holds(end, Video, others.video) && Holds(end, Audio, others.audio)
            && TimesOf(end, OtherStream(stream)) == TimesOf(d, OtherStream(stream))
  {
    hide EmitPes, PesFor, Acceptable, Tick, Delivered;
    var pid := PidFor(stream);
    if pid in d.pes {
      var finished := WithPes(d, pid, EMPTY_PES);
      if h.Get(stream).Some? {
        var held := h.Get(stream).value;
        assert PesFor(held) != [];
        DeliverOne(finished, held);
        assert [held][1..] == [];
      }
    } else {
      assert h.Get(stream).None?;
    }
  }

  /** The PCR values of the video packets, reduced to the 33-bit base. */
  function ClockTimes(packets: seq<MuxPacket>): seq<nat>
    decreases |packets|
  {
    if packets == [] then [] else ClockTime(packets[0]) + ClockTimes(packets[1..])
  }

  function ClockTime(packet: MuxPacket): seq<nat> {
    if ClockFor(packet).Some? then [ClockFor(packet).value % PCR_MODULUS] else []
  }

  predicate AllOf(packets: seq<MuxPacket>, stream: MuxStream) {
    forall i :: 0 <= i < |packets| ==> packets[i].stream == stream
  }

  lemma {:induction false} DeliveriesFiltered(t: Times, packets: seq<MuxPacket>, own: MuxStream, stream: MuxStream)
    requires AllOf(packets, own)
    ensures PacketsOf(Deliveries(t, packets), stream) == (if stream == own then DeliveredAll(t, packets) else [])
    ensures ClocksOf(Deliveries(t, packets)) == [] && Calm(Deliveries(t, packets), None)
    decreases |packets|
  {
    if packets != [] {
      hide ContainsIdr, Tick, Unwrap;
      var rest := Deliveries(Tick(t, packets[0]), packets[1..]);
      DeliveriesFiltered(Tick(t, packets[0]), packets[1..], own, stream);
      assert Deliveries(t, packets)[0] == Packet(Delivered(t, packets[0])) && Deliveries(t, packets)[1..] == rest;
    }
  }

  lemma {:induction false} DeliveredAllAppend(t: Times, a: seq<MuxPacket>, b: seq<MuxPacket>)
    ensures DeliveredAll(t, a + b) == DeliveredAll(t, a) + DeliveredAll(TickAll(t, a), b)
    decreases |a|
  {
    hide Delivered, Tick;
    if a == [] {
      assert a + b == b;
    } else {
      assert (a + b)[1..] == a[1..] + b;
      DeliveredAllAppend(Tick(t, a[0]), a[1..], b);
    }
  }

  /** The events of one push, seen through the filters. */
  lemma PushFiltered(m: MuxState, t: Times, h: Held, notices: seq<DemuxEvent>, lost: Option<MuxStream>,
                     packet: MuxPacket, stream: MuxStream)
    requires AllOf(Emitted(h, packet), packet.stream) && Notices(notices, lost, packet)
    ensures var events := PushEvents(m, t, h, notices, packet);
            && PacketsOf(events, stream) ==
               (if stream == packet.stream then DeliveredAll(t, Emitted(h, packet)) else [])
            && ClocksOf(events) == ClockTime(packet) && Calm(events, lost)
  {
    hide ClockFor, ClockTime, Clock, PacketsOf, ClocksOf, Calm, Deliveries, DeliveredAll, AllOf, Emitted, TableEvents,
      Notices;
    var pid, emitted := PidFor(packet.stream), Emitted(h, packet);
    var tables, clock, media := TableEvents(m, packet.pts), Clock(pid, ClockFor(packet)), Deliveries(t, emitted);
    TablesFiltered(m, packet.pts, stream);
    ClockFiltered(pid, packet, stream);
    NoticesFiltered(notices, lost, packet, stream);
    DeliveriesFiltered(t, emitted, packet.stream, stream);
    PacketsAppend(tables, clock + notices + media, stream);
    PacketsAppend(clock + notices, media, stream);
    PacketsAppend(clock, notices, stream);
    ClocksAppend(tables, clock + notices + media);
    ClocksAppend(clock + notices, media);
    ClocksAppend(clock, notices);
    CalmAppend(clock, notices, lost);
    CalmAppend(clock + notices, media, lost);
    CalmAppend(tables, clock + notices + media, lost);
    var found := PacketsOf(media, stream);
    assert [] + ([] + [] + found) == found && [] + (ClockTime(packet) + [] + []) == ClockTime(packet);
  }

  lemma NoticesFiltered(notices: seq<DemuxEvent>, lost: Option<MuxStream>, packet: MuxPacket, stream: MuxStream)
    requires Notices(notices, lost, packet)
    ensures PacketsOf(notices, stream) == [] && ClocksOf(notices) == [] && Calm(notices, lost)
  {
  }

  lemma TablesFiltered(m: MuxState, pts: U64, stream: MuxStream)
    ensures var tables := TableEvents(m, pts);
            PacketsOf(tables, stream) == [] && ClocksOf(tables) == [] && Calm(tables, None)
  {
  }

  lemma ClockFiltered(pid: Pid, packet: MuxPacket, stream: MuxStream)
    ensures var clock := Clock(pid, ClockFor(packet));
            PacketsOf(clock, stream) == [] && ClocksOf(clock) == ClockTime(packet) && Calm(clock, None)
  {
    hide ClockFor;
  }

  predicate AllAcceptable(packets: seq<MuxPacket>) {
    forall i :: 0 <= i < |packets| ==> Acceptable(packets[i])
  }

  // ----- what has passed, and what is held -----

  function HeldRun(h: Held, packets: seq<MuxPacket>): Held
    decreases |packets|
  {
    if packets == [] then h else HeldRun(HeldAfter(h, packets[0]), packets[1..])
  }

  function LeftRun(lost: Option<MuxStream>, packets: seq<MuxPacket>): Option<MuxStream>
    decreases |packets|
  {
    if packets == [] then lost else LeftRun(LeftAfter(lost, packets[0]), packets[1..])
  }

  /** Of the packets of a stream all but those still held have been reported, and its clocks have passed
      them. */
  ghost predicate Passed(before: Times, events: seq<DemuxEvent>, packets: seq<MuxPacket>, after: Times,
                         held: seq<MuxPacket>, stream: MuxStream) {
    && |held| <= |packets|
    && var passed := packets[..|packets| - |held|];
       && packets == passed + held
       && PacketsOf(events, stream) == DeliveredAll(before, passed)
       && after == TickAll(before, passed)
  }

  lemma PassedAs(before: Times, events: seq<DemuxEvent>, passed: seq<MuxPacket>, after: Times, held: seq<MuxPacket>,
                 stream: MuxStream)
    requires PacketsOf(events, stream) == DeliveredAll(before, passed) && after == TickAll(before, passed)
    ensures Passed(before, events, passed + held, after, held, stream)
  {
    assert (passed + held)[..|passed|] == passed;
  }

  lemma PassedThen(t0: Times, first: seq<DemuxEvent>, q0: seq<MuxPacket>, mine: seq<MuxPacket>, t1: Times,
                   q1: seq<MuxPacket>, more: seq<DemuxEvent>, rest: seq<MuxPacket>, t2: Times, q2: seq<MuxPacket>,
                   stream: MuxStream)
    requires Passed(t0, first, q0 + mine, t1, q1, stream) && Passed(t1, more, q1 + rest, t2, q2, stream)
    ensures Passed(t0, first + more, q0 + (mine + rest), t2, q2, stream)
  {
    hide DeliveredAll, TickAll, PacketsOf;
    var a, b := (q0 + mine)[..|q0 + mine| - |q1|], (q1 + rest)[..|q1 + rest| - |q2|];
    PacketsAppend(first, more, stream);
    DeliveredAllAppend(t0, a, b);
    TickAllAppend(t0, a, b);
    assert q0 + (mine + rest) == a + q1 + rest == a + (q1 + rest) == a + (b + q2) == (a + b) + q2;
    PassedAs(t0, first + more, a + b, t2, q2, stream);
  }

  /** One push, seen on one stream. */
  lemma PushPassed(m: MuxState, d: DemuxState, h: Held, lost: Option<MuxStream>, packet: MuxPacket,
                   after: DemuxState, notices: seq<DemuxEvent>, stream: MuxStream)
    requires AllOf(Emitted(h, packet), packet.stream) && Notices(notices, lost, packet)
    requires Heard(d, lost, after, LeftAfter(lost, packet), packet.stream, Emitted(h, packet))
    ensures Passed(Ear(d, lost, stream), PushEvents(m, Ear(d, lost, packet.stream), h, notices, packet),
                   h.Queue(stream) + Mine(packet, stream), Ear(after, LeftAfter(lost, packet), stream),
                   HeldAfter(h, packet).Queue(stream), stream)
  {
    hide DeliveredAll, PacketsOf, PushEvents, Ear, Unbounded, Notices, AllOf;
    PushFiltered(m, Ear(d, lost, packet.stream), h, notices, lost, packet, stream);
    var events := PushEvents(m, Ear(d, lost, packet.stream), h, notices, packet);
    var kept := HeldAfter(h, packet).Queue(stream);
    if stream == packet.stream {
      assert Emitted(h, packet) + kept == h.Queue(stream) + [packet];
      PassedAs(Ear(d, lost, stream), events, Emitted(h, packet), Ear(after, LeftAfter(lost, packet), stream), kept,
               stream);
    } else {
      assert stream == OtherStream(packet.stream);
      assert DeliveredAll(Ear(d, lost, stream), []) == [] by { NothingDelivered(Ear(d, lost, stream)); }
      assert [] + kept == h.Queue(stream) + [];
      PassedAs(Ear(d, lost, stream), events, [], Ear(after, LeftAfter(lost, packet), stream), kept, stream);
    }
  }

  lemma NothingDelivered(t: Times)
    ensures DeliveredAll(t, []) == [] && TickAll(t, []) == t
  {
  }

  /** What a run does, flush aside. */
  ghost predicate Ran(d: DemuxState, h: Held, lost: Option<MuxStream>, packets: seq<MuxPacket>,
                      events: seq<DemuxEvent>, after: DemuxState) {
    var held, left := HeldRun(h, packets), LeftRun(lost, packets);
    && Calm(events, lost) && ClocksOf(events) == ClockTimes(packets)
    && Passed(Ear(d, lost, Video), events, h.Queue(Video) + Of(packets, Video), Ear(after, left, Video),
              held.Queue(Video), Video)
    && Passed(Ear(d, lost, Audio), events, h.Queue(Audio) + Of(packets, Audio), Ear(after, left, Audio),
              held.Queue(Audio), Audio)
  }

  lemma {:induction false} RunTo(m: MuxState, d: DemuxState, h: Held, lost: Option<MuxStream>, packets: seq<MuxPacket>)
    requires Matched(m, d, h, lost) && AllAcceptable(packets)
    ensures var (next, raws) := MuxRun(m, packets);
            && WholePackets(raws)
            && Matched(next, Run(d, raws).0, HeldRun(h, packets), LeftRun(lost, packets))
            && Ran(d, h, lost, packets, Run(d, raws).1, Run(d, raws).0)
    decreases |packets|
  {
    hide Matched, MuxPush, Run, Ran, WholePackets, AllAcceptable, HeldAfter, LeftAfter, Emitted, PushEvents, Heard,
      Notices;
    if packets == [] {
      RunNothing(d);
      NoPackets();
      RanNothing(d, h, lost);
    } else {
      var packet, rest := packets[0], packets[1..];
      FirstAcceptable(packets);
      var notices := PushRun(m, d, h, lost, packet);
      var (next, first) := MuxPush(m, packet);
      var after := Run(d, first).0;
      RunTo(next, after, HeldAfter(h, packet), LeftAfter(lost, packet), rest);
      var more := MuxRun(next, rest).1;
      RunAppend(d, first, more);
      EmittedStream(m, d, h, lost, packet);
      assert [packet] + rest == packets;
      RanStep(m, d, h, lost, packet, rest, after, notices, Run(after, more).1, Run(after, more).0);
    }
  }

  lemma RanNothing(d: DemuxState, h: Held, lost: Option<MuxStream>)
    ensures Ran(d, h, lost, [], [], d)
  {
    hide Ear, Passed, Calm, PacketsOf, DeliveredAll, TickAll, ClocksOf, ClockTimes, Of, HeldRun, LeftRun;
    NoEvents(h, lost);
    PassedNothing(Ear(d, lost, Video), h.Queue(Video), Video);
    PassedNothing(Ear(d, lost, Audio), h.Queue(Audio), Audio);
    assert h.Queue(Video) + [] == h.Queue(Video) && h.Queue(Audio) + [] == h.Queue(Audio);
  }

  lemma NoEvents(h: Held, lost: Option<MuxStream>)
    ensures HeldRun(h, []) == h && LeftRun(lost, []) == lost && Of([], Video) == [] && Of([], Audio) == []
    ensures Calm([], lost) && ClocksOf([]) == ClockTimes([])
  {
  }

  lemma PassedNothing(t: Times, held: seq<MuxPacket>, stream: MuxStream)
    ensures Passed(t, [], held, t, held, stream)
  {
    hide Tick, Delivered;
    assert [] + held == held;
    PassedAs(t, [], [], t, held, stream);
  }

  lemma EmittedStream(m: MuxState, d: DemuxState, h: Held, lost: Option<MuxStream>, packet: MuxPacket)
    requires Matched(m, d, h, lost)
    ensures AllOf(Emitted(h, packet), packet.stream)
  {
    hide InSequence, Acceptable, PesFor, Unbounded;
  }

  lemma RanStep(m: MuxState, d: DemuxState, h: Held, lost: Option<MuxStream>, packet: MuxPacket, rest: seq<MuxPacket>,
                after: DemuxState, notices: seq<DemuxEvent>, more: seq<DemuxEvent>, end: DemuxState)
    requires AllOf(Emitted(h, packet), packet.stream) && Notices(notices, lost, packet)
    requires Heard(d, lost, after, LeftAfter(lost, packet), packet.stream, Emitted(h, packet))
    requires Ran(after, HeldAfter(h, packet), LeftAfter(lost, packet), rest, more, end)
    ensures var first := PushEvents(m, Ear(d, lost, packet.stream), h, notices, packet);
            Ran(d, h, lost, [packet] + rest, first + more, end)
  {
    hide Calm, ClockFor, ClockTime, Unbounded, Heard, Ear, PushEvents, Passed, PacketsOf, ClocksOf, Emitted, HeldAfter,
      Notices, LeftAfter;
    var left := LeftAfter(lost, packet);
    var packets := [packet] + rest;
    assert packets[0] == packet && packets[1..] == rest;
    var first := PushEvents(m, Ear(d, lost, packet.stream), h, notices, packet);
    var (held, gone) := (HeldRun(HeldAfter(h, packet), rest), LeftRun(left, rest));
    PushPassed(m, d, h, lost, packet, after, notices, Video);
    PushPassed(m, d, h, lost, packet, after, notices, Audio);
    PassedThen(Ear(d, lost, Video), first, h.Queue(Video), Mine(packet, Video), Ear(after, left, Video),
               HeldAfter(h, packet).Queue(Video), more, Of(rest, Video), Ear(end, gone, Video), held.Queue(Video),
                 Video);
    PassedThen(Ear(d, lost, Audio), first, h.Queue(Audio), Mine(packet, Audio), Ear(after, left, Audio),
               HeldAfter(h, packet).Queue(Audio), more, Of(rest, Audio), Ear(end, gone, Audio), held.Queue(Audio),
                 Audio);
    PushFiltered(m, Ear(d, lost, packet.stream), h, notices, lost, packet, Video);
    ClocksAppend(first, more);
    CalmWider(more, left, lost, packet);
    CalmAppend(first, more, lost);
  }

  lemma CalmWider(events: seq<DemuxEvent>, left: Option<MuxStream>, lost: Option<MuxStream>, packet: MuxPacket)
    requires Calm(events, left) && left == LeftAfter(lost, packet)
    ensures Calm(events, lost)
  {
  }

  lemma CalmAppend(a: seq<DemuxEvent>, b: seq<DemuxEvent>, lost: Option<MuxStream>)
    requires (Calm(a, lost) || Calm(a, None)) && (Calm(b, lost) || Calm(b, None))
    ensures Calm(a + b, lost)
  {
  }

  /** What a run from `d` and its flush must report. */
  ghost predicate Reports(d: DemuxState, lost: Option<MuxStream>, events: seq<DemuxEvent>, packets: seq<MuxPacket>,
                          h: Held) {
    && Calm(events, lost)
    && PacketsOf(events, Video) == DeliveredAll(Ear(d, lost, Video), h.Queue(Video) + Of(packets, Video))
    && PacketsOf(events, Audio) == DeliveredAll(Ear(d, lost, Audio), h.Queue(Audio) + Of(packets, Audio))
    && ClocksOf(events) == ClockTimes(packets)
  }

  /** A run and its flush, provided that every loss shows. */
  lemma RunReports(m: MuxState, d: DemuxState, h: Held, lost: Option<MuxStream>, packets: seq<MuxPacket>)
    requires Matched(m, d, h, lost) && AllAcceptable(packets) && LeftRun(lost, packets).None?
    ensures var raws := MuxRun(m, packets).1;
            && WholePackets(raws)
            && Reports(d, lost, Run(d, raws).1 + FlushState(Run(d, raws).0).1, packets, h)
  {
    hide Matched, MuxRun, Run, FlushState, WholePackets, AllAcceptable, LeftRun, HeldRun, PacketsOf, Passed, Deliveries,
      Ear, TimesOf, Of, ClocksOf, Calm, DeliveredAll, ClockTimes;
    RunTo(m, d, h, lost, packets);
    var (next, raws) := MuxRun(m, packets);
    var (after, events) := Run(d, raws);
    var held := HeldRun(h, packets);
    FlushHeld(next, after, held);
    HeldStreams(next, after, held);
    NotLost(after);
    var flushed := FlushState(after).1;
    FlushFiltered(after, held);
    FlushPassed(Ear(d, lost, Video), events, h.Queue(Video) + Of(packets, Video), TimesOf(after, Video),
                held.Queue(Video), flushed, Video);
    FlushPassed(Ear(d, lost, Audio), events, h.Queue(Audio) + Of(packets, Audio), TimesOf(after, Audio),
                held.Queue(Audio), flushed, Audio);
    ClocksAppend(events, flushed);
    CalmAppend(events, flushed, lost);
    assert ClockTimes(packets) + [] == ClockTimes(packets);
  }

  lemma NotLost(d: DemuxState)
    ensures Ear(d, None, Video) == TimesOf(d, Video) && Ear(d, None, Audio) == TimesOf(d, Audio)
  {
  }

  lemma FlushPassed(before: Times, events: seq<DemuxEvent>, packets: seq<MuxPacket>, after: Times,
                    held: seq<MuxPacket>, flushed: seq<DemuxEvent>, stream: MuxStream)
    requires Passed(before, events, packets, after, held, stream)
    requires PacketsOf(flushed, stream) == DeliveredAll(after, held)
    ensures PacketsOf(events + flushed, stream) == DeliveredAll(before, packets)
  {
    hide PacketsOf, DeliveredAll, TickAll;
    var passed := packets[..|packets| - |held|];
    PacketsAppend(events, flushed, stream);
    DeliveredAllAppend(before, passed, held);
  }

  lemma NoPackets()
    ensures WholePackets([])
  {
  }

  lemma FirstOf(packets: seq<MuxPacket>, stream: MuxStream)
    ensures packets == [] ==> Of(packets, stream) == []
    ensures packets != [] ==> Of(packets, stream) == Mine(packets[0], stream) + Of(packets[1..], stream)
  {
  }

  lemma FirstAcceptable(packets: seq<MuxPacket>)
    requires packets != [] && AllAcceptable(packets)
    ensures Acceptable(packets[0]) && AllAcceptable(packets[1..])
  {
    hide Acceptable;
  }

  lemma HeldStreams(m: MuxState, d: DemuxState, h: Held)
    requires Matched(m, d, h, None)
    ensures AllOf(h.Queue(Video), Video) && AllOf(h.Queue(Audio), Audio)
  {
    hide InSequence, Acceptable, PesFor;
  }

  /** The events of a flush, seen through the filters. */
  lemma FlushFiltered(d: DemuxState, h: Held)
    requires AllOf(h.Queue(Video), Video) && AllOf(h.Queue(Audio), Audio)
    ensures var events := Deliveries(TimesOf(d, Video), h.Queue(Video)) + Deliveries(TimesOf(d, Audio), h.Queue(Audio));
            && PacketsOf(events, Video) == DeliveredAll(TimesOf(d, Video), h.Queue(Video))
            && PacketsOf(events, Audio) == DeliveredAll(TimesOf(d, Audio), h.Queue(Audio))
            && ClocksOf(events) == [] && Calm(events, None)
  {
    hide Calm, PacketsOf, ClocksOf, AllOf, Delivered, Deliveries, TimesOf;
    var v, a := TimesOf(d, Video), TimesOf(d, Audio);
    var video, audio := Deliveries(v, h.Queue(Video)), Deliveries(a, h.Queue(Audio));
    DeliveriesFiltered(v, h.Queue(Video), Video, Video);
    DeliveriesFiltered(v, h.Queue(Video), Video, Audio);
    DeliveriesFiltered(a, h.Queue(Audio), Audio, Video);
    DeliveriesFiltered(a, h.Queue(Audio), Audio, Audio);
    PacketsAppend(video, audio, Video);
    PacketsAppend(video, audio, Audio);
    ClocksAppend(video, audio);
    CalmAppend(video, audio, None);
    assert DeliveredAll(v, h.Queue(Video)) + [] == DeliveredAll(v, h.Queue(Video));
    assert [] + DeliveredAll(a, h.Queue(Audio)) == DeliveredAll(a, h.Queue(Audio));
  }

  lemma FreshMatched()
    ensures Matched(FRESH_MUXER, INITIAL_STATE, NOTHING_HELD, None)
  {
  }

  /** Whatever packets are multiplexed and however the transport bytes are cut, a fresh demultiplexer that
      is finally flushed reports, per stream and in order, exactly those packets, with their times as seen
      through 33 bits, the clock of every video packet, and no error, discontinuity or loss of sync. */
  lemma DemuxReports(packets: seq<MuxPacket>, cuts: seq<ByteString>)
    requires AllAcceptable(packets) && Concat(cuts) == Concat(MuxRun(FRESH_MUXER, packets).1)
    ensures var pushed := DrainCuts(INITIAL_STATE, [], cuts);
            var events := pushed.events + FlushState(pushed.state).1;
            && pushed.buffer == []
            && PacketsOf(events, Video) == DeliveredAll(NO_TIMES, Of(packets, Video))
            && PacketsOf(events, Audio) == DeliveredAll(NO_TIMES, Of(packets, Audio))
            && ClocksOf(events) == ClockTimes(packets)
            && Benign(events)
  {
    hide Matched, Acceptable, MuxRun, Run, Drain, DrainCuts, FlushState, Benign, Calm, Aligned, DeliveredAll, PacketsOf,
      ClocksOf, ClockTimes, LeftRun;
    var raws := MuxRun(FRESH_MUXER, packets).1;
    assert [] + Of(packets, Video) == Of(packets, Video) && [] + Of(packets, Audio) == Of(packets, Audio);
    FreshMatched();
    NeverLost(packets);
    RunReports(FRESH_MUXER, INITIAL_STATE, NOTHING_HELD, None, packets);
    CalmIsBenign(Run(INITIAL_STATE, raws).1 + FlushState(Run(INITIAL_STATE, raws).0).1);
    DrainIsRun(INITIAL_STATE, raws);
    CutIndependence(INITIAL_STATE, Concat(raws), cuts);
  }

  lemma {:induction false} NeverLost(packets: seq<MuxPacket>)
    ensures LeftRun(None, packets) == None
    decreases |packets|
  {
    if packets != [] {
      NeverLost(packets[1..]);
    }
  }

  lemma CalmIsBenign(events: seq<DemuxEvent>)
    requires Calm(events, None)
    ensures Benign(events)
  {
  }

  // ----- true times -----

  function PtsOf(packets: seq<MuxPacket>): seq<U64>
    decreases |packets|
  {
    if packets == [] then [] else [packets[0].pts] + PtsOf(packets[1..])
  }

  /** The decoding times that are transmitted. */
  function DtsOf(packets: seq<MuxPacket>): seq<U64>
    decreases |packets|
  {
    if packets == [] then []
    else (if ReportsDts(packets[0]) then [packets[0].dts.value] else []) + DtsOf(packets[1..])
  }

  /** The packets with their own times. */
  function Originals(packets: seq<MuxPacket>): (r: seq<ElementaryPacket>)
    ensures |r| == |packets|
    decreases |packets|
  {
    if packets == [] then []
    else
      var packet := packets[0];
      [Reported(packet, packet.pts, if ReportsDts(packet) then packet.dts else None, false)] + Originals(packets[1..])
  }

  predicate TimesRecovered(t: Times, packets: seq<MuxPacket>) {
    UnwrapAll(t.pts, PtsOf(packets)) == PtsOf(packets) && UnwrapAll(t.dts, DtsOf(packets)) == DtsOf(packets)
  }

  lemma HeadEqual<T>(a: seq<T>, b: seq<T>)
    requires a != [] && b != []
    ensures a == b <==> a[0] == b[0] && a[1..] == b[1..]
  {
    assert a == [a[0]] + a[1..] && b == [b[0]] + b[1..];
  }

  /** The head of the queue, and its times, come back exactly if its own unwrapping does. */
  lemma HeadRecovered(t: Times, packets: seq<MuxPacket>)
    requires packets != []
    ensures var packet := packets[0];
            TimesRecovered(t, packets) <==>
            && Unwrap(t.pts, packet.pts % PTS_MODULUS).1 == packet.pts
            && (ReportsDts(packet) ==> Unwrap(t.dts, packet.dts.value % PTS_MODULUS).1 == packet.dts.value)
            && TimesRecovered(Tick(t, packet), packets[1..])
  {
    hide Unwrap;
    var packet := packets[0];
    HeadEqual(UnwrapAll(t.pts, PtsOf(packets)), PtsOf(packets));
    assert PtsOf(packets)[1..] == PtsOf(packets[1..]);
    assert UnwrapAll(t.pts, PtsOf(packets))[1..] == UnwrapAll(Tick(t, packet).pts, PtsOf(packets[1..]));
    if ReportsDts(packet) {
      HeadEqual(UnwrapAll(t.dts, DtsOf(packets)), DtsOf(packets));
      assert DtsOf(packets)[1..] == DtsOf(packets[1..]);
      assert UnwrapAll(t.dts, DtsOf(packets))[1..] == UnwrapAll(Tick(t, packet).dts, DtsOf(packets[1..]));
    } else {
      assert DtsOf(packets) == DtsOf(packets[1..]);
    }
  }

  lemma {:induction false} OriginalsIff(t: Times, packets: seq<MuxPacket>)
    requires !t.marked
    ensures DeliveredAll(t, packets) == Originals(packets) <==> TimesRecovered(t, packets)
    decreases |packets|
  {
    hide Unwrap, ContainsIdr, TimesRecovered;
    if packets == [] {
      NothingToRecover(t);
    } else {
      var packet, rest := packets[0], packets[1..];
      HeadRecovered(t, packets);
      OriginalsIff(Tick(t, packet), rest);
      HeadEqual(DeliveredAll(t, packets), Originals(packets));
      assert DeliveredAll(t, packets)[1..] == DeliveredAll(Tick(t, packet), rest);
      assert Originals(packets)[1..] == Originals(rest);
    }
  }

  lemma NothingToRecover(t: Times)
    ensures TimesRecovered(t, [])
  {
  }

  /** The times of a stream can be followed through 33 bits: its PTS, and the DTS it reports. */
  predicate Followed(packets: seq<MuxPacket>) {
    Followable(None, PtsOf(packets)) && Followable(None, DtsOf(packets))
  }

  lemma FollowedIff(packets: seq<MuxPacket>)
    ensures DeliveredAll(NO_TIMES, packets) == Originals(packets) <==> Followed(packets)
  {
    hide Followable, UnwrapAll, DeliveredAll, Originals, PtsOf, DtsOf;
    OriginalsIff(NO_TIMES, packets);
    UnwrapRecoversIff(PtsOf(packets));
    UnwrapRecoversIff(DtsOf(packets));
  }

  /** Main result. Whatever packets are multiplexed and however the transport bytes are cut, a fresh
      demultiplexer that is finally flushed reports nothing but packets, clocks and the program map, one
      clock for every video packet, and each stream comes back, in order, with its data and its times if
      and only if its times can be followed through 33 bits. */
  lemma DemuxUndoesMux(packets: seq<MuxPacket>, cuts: seq<ByteString>)
    requires AllAcceptable(packets) && Concat(cuts) == Concat(MuxRun(FRESH_MUXER, packets).1)
    ensures var pushed := DrainCuts(INITIAL_STATE, [], cuts);
            var events := pushed.events + FlushState(pushed.state).1;
            && pushed.buffer == [] && Benign(events) && ClocksOf(events) == ClockTimes(packets)
            && |PacketsOf(events, Video)| == |Of(packets, Video)|
            && |PacketsOf(events, Audio)| == |Of(packets, Audio)|
            && (PacketsOf(events, Video) == Originals(Of(packets, Video)) <==> Followed(Of(packets, Video)))
            && (PacketsOf(events, Audio) == Originals(Of(packets, Audio)) <==> Followed(Of(packets, Audio)))
  {
    hide Acceptable, MuxRun, DrainCuts, FlushState, Benign, DeliveredAll, PacketsOf, ClocksOf, ClockTimes, Originals,
      Followed, Of;
    DemuxReports(packets, cuts);
    FollowedIff(Of(packets, Video));
    FollowedIff(Of(packets, Audio));
    SameCount(NO_TIMES, Of(packets, Video));
    SameCount(NO_TIMES, Of(packets, Audio));
  }

  lemma {:induction false} SameCount(t: Times, packets: seq<MuxPacket>)
    ensures |DeliveredAll(t, packets)| == |packets|
    decreases |packets|
  {
    hide Tick, Delivered;
    if packets != [] {
      SameCount(Tick(t, packets[0]), packets[1..]);
    }
  }
}
