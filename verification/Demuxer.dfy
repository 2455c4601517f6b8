/** The streaming demultiplexer (crates/mpegts/src/stream.rs): its state as a value, the
    functions that specify every step, and the class that updates the state in place. */
module Demuxer {
  import opened Bytes
  import opened Timestamps
  import opened TsPackets
  import opened Psi
  import opened Pes
  import opened Elementary

  datatype MuxStream = Video | Audio

  datatype ElementaryPacket = ElementaryPacket(
    stream: MuxStream, pid: U16, pts: U64, dts: Option<U64>, keyframe: bool, discontinuity: bool, data: ByteString)

  datatype DemuxEvent =
    | ProgramMapEvent(program: ProgramMap)
    | Packet(packet: ElementaryPacket)
    | ClockReference(pid: U16, pcr: nat)
    | ContinuityError(pid: U16, expected: nat, actual: nat)
    | Discontinuity(pid: U16)
    | SyncRecovered(discarded: nat)
    | CorruptData(pid: U16, reason: TsError)

  datatype DemuxState = DemuxState(
    continuity: map<U16, Byte>,
    sections: map<U16, SectionAssembler>,
    pes: map<U16, PesAssembler>,
    pmtPid: Option<U16>, videoPid: Option<U16>, audioPid: Option<U16>,
    videoPts: Unwrapper, videoDts: Unwrapper, audioPts: Unwrapper,
    pending: map<U16, bool>)

  const INITIAL_STATE: DemuxState :=
    DemuxState(map[], map[], map[], None, None, None, FRESH, FRESH, FRESH, map[])

  /** State and events after a fallible step; an error keeps what was done before it. */
  datatype Outcome = Outcome(state: DemuxState, events: seq<DemuxEvent>, error: Option<TsError>)

  function SectionsOf(d: DemuxState, pid: U16): SectionAssembler {
    if pid in d.sections then d.sections[pid] else EMPTY_SECTION
  }

  function PesOf(d: DemuxState, pid: U16): PesAssembler {
    if pid in d.pes then d.pes[pid] else EMPTY_PES
  }

  // ----- one packet -----

  function ResetPid(d: DemuxState, pid: U16): DemuxState {
    var cleared := d.(continuity := d.continuity - {pid}, sections := d.sections[pid := EMPTY_SECTION],
                      pes := d.pes[pid := EMPTY_PES]);
    if d.videoPid == Some(pid) then cleared.(videoPts := FRESH, videoDts := FRESH)
    else if d.audioPid == Some(pid) then cleared.(audioPts := FRESH)
    else cleared
  }

  /** Reset a PID and mark its next packet. */
  function Interrupt(d: DemuxState, pid: U16): DemuxState {
    var reset := ResetPid(d, pid);
    reset.(pending := reset.pending[pid := true])
  }

  function AudioPackets(pid: U16, base: U64, frames: seq<AdtsFrame>, discontinuity: bool, offset: U64)
    : seq<DemuxEvent>
    decreases |frames|
  {
    if frames == [] then []
    else
      var frame := frames[0];
      var packet := ElementaryPacket(Audio, pid, SaturatingAdd(base, offset), None, true,
                                     discontinuity && offset == 0, frame.bytes);
      [Packet(packet)] + AudioPackets(pid, base, frames[1..], discontinuity,
                                      NextOffset(offset, frame.header.rawDataBlocks))
  }

  function NextOffset(offset: U64, blocks: nat): U64 {
    if offset + 1024 * (blocks + 1) * 90000 / 48000 <= U64_MAX then offset + 1024 * (blocks + 1) * 90000 / 48000
    else U64_MAX
  }

  /** Ticks of the 90 kHz clock before the i-th frame of a unit: 1920 for every 1024 samples at 48 kHz. */
  function TicksBefore(frames: seq<AdtsFrame>, i: nat): nat
    requires i <= |frames|
    decreases |frames|
  {
    if i == 0 then 0 else 1920 * (frames[0].header.rawDataBlocks + 1) + TicksBefore(frames[1..], i - 1)
  }

  /** A unit of several frames becomes one packet per frame, in order, each at the time of the samples before
      it, and only the first marked as following a discontinuity. */
  lemma {:induction false} UnitSpreads(pid: U16, base: U64, frames: seq<AdtsFrame>, discontinuity: bool, offset: U64,
                                       i: nat)
    requires i < |frames| && base + offset + TicksBefore(frames, i) <= U64_MAX
    ensures var events := AudioPackets(pid, base, frames, discontinuity, offset);
            && |events| == |frames|
            && events[i] == Packet(ElementaryPacket(Audio, pid, base + offset + TicksBefore(frames, i), None, true,
                                                    discontinuity && offset == 0 && i == 0, frames[i].bytes))
    decreases |frames|
  {
    var rest := frames[1..];
    var next := NextOffset(offset, frames[0].header.rawDataBlocks);
    OnePerFrame(pid, base, rest, discontinuity, next);
    if i > 0 {
      UnitSpreads(pid, base, rest, discontinuity, next, i - 1);
    }
  }

  lemma {:induction false} OnePerFrame(pid: U16, base: U64, frames: seq<AdtsFrame>, discontinuity: bool, offset: U64)
    ensures |AudioPackets(pid, base, frames, discontinuity, offset)| == |frames|
    decreases |frames|
  {
    if frames != [] {
      OnePerFrame(pid, base, frames[1..], discontinuity, NextOffset(offset, frames[0].header.rawDataBlocks));
    }
  }

  function EmitVideo(d: DemuxState, pid: U16, parsed: ParsedPes, discontinuity: bool): Outcome
    requires parsed.pts < PTS_MODULUS && (parsed.dts.Some? ==> parsed.dts.value < PTS_MODULUS)
  {
    var (ptsClock, pts) := Unwrap(d.videoPts, parsed.pts);
    var (dtsClock, dts) := UnwrapOptional(d.videoDts, parsed.dts);
    var packet := ElementaryPacket(Video, pid, pts, dts, ContainsIdr(parsed.payload), discontinuity, parsed.payload);
    Outcome(d.(videoPts := ptsClock, videoDts := dtsClock), [Packet(packet)], None)
  }

  function EmitAudio(d: DemuxState, pid: U16, parsed: ParsedPes, discontinuity: bool): Outcome
    requires parsed.pts < PTS_MODULUS
  {
    var (ptsClock, base) := Unwrap(d.audioPts, parsed.pts);
    var advanced := d.(audioPts := ptsClock);
    match AdtsFrames(parsed.payload)
    case Err(_) => Outcome(advanced, [], Some(MalformedPes("invalid AAC ADTS payload")))
    case Ok(frames) => Outcome(advanced, AudioPackets(pid, base, frames, discontinuity, 0), None)
  }

  function EmitPes(d: DemuxState, pid: U16, data: ByteString): Outcome {
    match ParsePes(data)
    case Err(e) => Outcome(d, [], Some(e))
    case Ok(parsed) =>
      var discontinuity := pid in d.pending && d.pending[pid];
      var taken := d.(pending := d.pending - {pid});
      if d.videoPid == Some(pid) then EmitVideo(taken, pid, parsed, discontinuity)
      else if d.audioPid == Some(pid) then EmitAudio(taken, pid, parsed, discontinuity)
      else Outcome(taken, [], None)
  }

  function UnwrapOptional(u: Unwrapper, raw: Option<nat>): (Unwrapper, Option<U64>)
    requires raw.Some? ==> raw.value < PTS_MODULUS
  {
    if raw.None? then (u, None) else (Unwrap(u, raw.value).0, Some(Unwrap(u, raw.value).1))
  }

  function ProcessSection(d: DemuxState, pid: U16, section: ByteString): Outcome {
    if ValidateSectionCrc(section).Some? then Outcome(d, [], ValidateSectionCrc(section))
    else if pid == PAT_PID && section[0] == 0 then Outcome(d.(pmtPid := ParsePat(section)), [], None)
    else if d.pmtPid == Some(pid) && section[0] == 2 then
      match ParsePmt(section, pid)
      case Err(e) => Outcome(d, [], Some(e))
      case Ok(program) =>
        Outcome(d.(videoPid := Some(program.videoPid), audioPid := Some(program.audioPid)), [ProgramMapEvent(program)],
                None)
    else Outcome(d, [], None)
  }

  /** The sections of one payload, up to the first error. */
  function ProcessSections(d: DemuxState, pid: U16, sections: seq<ByteString>): Outcome
    decreases |sections|
  {
    if sections == [] then Outcome(d, [], None)
    else
      var first := ProcessSection(d, pid, sections[0]);
      if first.error.Some? then first
      else
        var rest := ProcessSections(first.state, pid, sections[1..]);
        Outcome(rest.state, first.events + rest.events, rest.error)
  }

  /** Emits the assembled unit when its declared length has arrived. */
  function EmitComplete(d: DemuxState, pid: U16): Outcome {
    var (rest, complete) := PesTakeComplete(PesOf(d, pid));
    if complete.None? then Outcome(d, [], None)
    else EmitPes(d.(pes := d.pes[pid := rest]), pid, complete.value)
  }

  function ProcessPes(d: DemuxState, pid: U16, payload: ByteString, start: bool): Outcome {
    if start then
      match PesStart(PesOf(d, pid), payload)
      case (a, Err(e)) => Outcome(d.(pes := d.pes[pid := a]), [], Some(e))
      case (a, Ok(previous)) =>
        var started := d.(pes := d.pes[pid := a]);
        var first := if previous.Some? then EmitPes(started, pid, previous.value) else Outcome(started, [], None);
        if first.error.Some? then first
        else
          var rest := EmitComplete(first.state, pid);
          Outcome(rest.state, first.events + rest.events, rest.error)
    else
      match PesPush(PesOf(d, pid), payload)
      case (a, Some(e)) => Outcome(d.(pes := d.pes[pid := a]), [], Some(e))
      case (a, None) => EmitComplete(d.(pes := d.pes[pid := a]), pid)
  }

  function ProcessPayload(d: DemuxState, packet: TsPacket): Outcome {
    var pid := packet.pid;
    if packet.payload == [] then Outcome(d, [], None)
    else if pid == PAT_PID || d.pmtPid == Some(pid) then
      var (a, completed) := SectionPush(SectionsOf(d, pid), packet.payload, packet.payloadUnitStart);
      ProcessSections(d.(sections := d.sections[pid := a]), pid, completed)
    else if d.videoPid == Some(pid) || d.audioPid == Some(pid) then
      ProcessPes(d, pid, packet.payload, packet.payloadUnitStart)
    else Outcome(d, [], None)
  }

  predicate Discontinuous(packet: TsPacket) {
    packet.adaptation.Some? && packet.adaptation.value.discontinuity
  }

  function ClockEvents(packet: TsPacket): seq<DemuxEvent> {
    if packet.adaptation.Some? && packet.adaptation.value.pcr.Some?
    then [ClockReference(packet.pid, packet.adaptation.value.pcr.value)] else []
  }

  /** Records the counter of a packet that has a payload, and reports a jump. */
  function CheckContinuity(d: DemuxState, packet: TsPacket): (DemuxState, seq<DemuxEvent>) {
    var pid, counter := packet.pid, packet.continuityCounter;
    if !packet.control.HasPayload() then (d, [])
    else
      var counted := d.(continuity := d.continuity[pid := counter]);
      if pid in d.continuity && !Discontinuous(packet) && counter != Later(d.continuity[pid], 1)
      then (Interrupt(counted, pid), [ContinuityError(pid, Later(d.continuity[pid], 1), counter)])
      else (counted, [])
  }

  function ProcessPacket(d: DemuxState, packet: TsPacket): Outcome {
    var pid := packet.pid;
    if packet.transportError then Outcome(Interrupt(d, pid), [Discontinuity(pid)], None)
    else
      var (counted, jumps) := CheckContinuity(d, packet);
      var ready := if Discontinuous(packet) then Interrupt(counted, pid) else counted;
      var notices := if Discontinuous(packet) then [Discontinuity(pid)] else [];
      var body := ProcessPayload(ready, packet);
      Outcome(body.state, ClockEvents(packet) + jumps + notices + body.events, body.error)
  }

  /** One aligned packet: parse, process, and turn any error into an interruption. */
  function Step(d: DemuxState, raw: ByteString): (DemuxState, seq<DemuxEvent>)
    requires |raw| == PACKET_SIZE
  {
    var pid := PidOf(raw[1], raw[2]);
    match ParsePacket(raw)
    case Err(e) => (Interrupt(d, pid), [CorruptData(pid, e)])
    case Ok(packet) =>
      var r := ProcessPacket(d, packet);
      if r.error.Some? then (Interrupt(r.state, pid), r.events + [CorruptData(pid, r.error.value)])
      else (r.state, r.events)
  }

  // ----- alignment -----

  /** A later sync byte whose successor, when already visible, is a sync byte too. */
  predicate SyncCandidate(data: ByteString, offset: nat) {
    offset < |data| && data[offset] == SYNC_BYTE
    && (offset + PACKET_SIZE < |data| ==> data[offset + PACKET_SIZE] == SYNC_BYTE)
  }

  function FindNextSync(data: ByteString, from: nat): (offset: Option<nat>)
    ensures offset.Some? ==> from <= offset.value < |data| && SyncCandidate(data, offset.value)
    decreases |data| - from
  {
    if from >= |data| then None
    else if SyncCandidate(data, from) then Some(from)
    else FindNextSync(data, from + 1)
  }

  datatype Drained = Drained(state: DemuxState, buffer: ByteString, events: seq<DemuxEvent>)

  /** Everything one push does with the bytes it has buffered. */
  function Drain(d: DemuxState, buffer: ByteString): (r: Drained)
    ensures |r.buffer| < PACKET_SIZE
    decreases |buffer|
  {
    if |buffer| < PACKET_SIZE then Drained(d, buffer, [])
    else if buffer[0] != SYNC_BYTE then
      match FindNextSync(buffer, 1)
      case None =>
        var discarded := |buffer| - (PACKET_SIZE - 1);
        Drained(d, buffer[discarded..], [SyncRecovered(discarded)])
      case Some(offset) =>
        var rest := Drain(d, buffer[offset..]);
        Drained(rest.state, rest.buffer, [SyncRecovered(offset)] + rest.events)
    else
      var (next, events) := Step(d, buffer[..PACKET_SIZE]);
      var rest := Drain(next, buffer[PACKET_SIZE..]);
      Drained(rest.state, rest.buffer, events + rest.events)
  }

  function Prepend(events: seq<DemuxEvent>, r: Drained): Drained {
    Drained(r.state, r.buffer, events + r.events)
  }

  lemma DrainRest(d: DemuxState, buffer: ByteString, events: seq<DemuxEvent>)
    requires |buffer| < PACKET_SIZE
    ensures Prepend(events, Drain(d, buffer)) == Drained(d, buffer, events)
  {
    assert events + [] == events;
  }

  lemma DrainLost(d: DemuxState, buffer: ByteString, events: seq<DemuxEvent>)
    requires PACKET_SIZE <= |buffer| && buffer[0] != SYNC_BYTE && FindNextSync(buffer, 1).None?
    ensures var discarded := |buffer| - (PACKET_SIZE - 1);
            Prepend(events, Drain(d, buffer)) == Drained(d, buffer[discarded..], events + [SyncRecovered(discarded)])
  {
  }

  lemma DrainResync(d: DemuxState, buffer: ByteString, events: seq<DemuxEvent>)
    requires PACKET_SIZE <= |buffer| && buffer[0] != SYNC_BYTE && FindNextSync(buffer, 1).Some?
    ensures var offset := FindNextSync(buffer, 1).value;
            Prepend(events, Drain(d, buffer)) == Prepend(events + [SyncRecovered(offset)], Drain(d, buffer[offset..]))
  {
    var offset := FindNextSync(buffer, 1).value;
    var rest := Drain(d, buffer[offset..]);
    assert events + ([SyncRecovered(offset)] + rest.events) == events + [SyncRecovered(offset)] + rest.events;
  }

  lemma DrainAt(d: DemuxState, buffer: ByteString)
    requires PACKET_SIZE <= |buffer| && buffer[0] == SYNC_BYTE
    ensures var (next, emitted) := Step(d, buffer[..PACKET_SIZE]);
            Drain(d, buffer) == Prepend(emitted, Drain(next, buffer[PACKET_SIZE..]))
  {
    hide Step, FindNextSync;
  }

  lemma PrependTwice(a: seq<DemuxEvent>, b: seq<DemuxEvent>, r: Drained)
    ensures Prepend(a, Prepend(b, r)) == Prepend(a + b, r)
  {
    assert a + (b + r.events) == a + b + r.events;
  }

  // ----- flushing -----

  function FlushPid(d: DemuxState, pid: Option<U16>): (DemuxState, seq<DemuxEvent>) {
    if pid.None? || pid.value !in d.pes then (d, [])
    else
      var (rest, complete) := PesFinish(d.pes[pid.value]);
      var finished := d.(pes := d.pes[pid.value := rest]);
      if complete.None? then (finished, [])
      else
        var r := EmitPes(finished, pid.value, complete.value);
        if r.error.Some? then (ResetPid(r.state, pid.value), r.events + [CorruptData(pid.value, r.error.value)])
        else (r.state, r.events)
  }

  function FlushState(d: DemuxState): (DemuxState, seq<DemuxEvent>) {
    var (first, video) := FlushPid(d, d.videoPid);
    var (second, audio) := FlushPid(first, d.audioPid);
    (second, video + audio)
  }

  // ----- several pushes -----

  /** The pushes of one byte stream cut into pieces. */
  function DrainCuts(d: DemuxState, buffer: ByteString, cuts: seq<ByteString>): Drained
    decreases |cuts|
  {
    if cuts == [] then Drained(d, buffer, [])
    else
      var first := Drain(d, buffer + cuts[0]);
      var rest := DrainCuts(first.state, first.buffer, cuts[1..]);
      Drained(rest.state, rest.buffer, first.events + rest.events)
  }

  // ----- the demultiplexer object -----

  class StreamDemuxer {
    var bytes: ByteString
    var continuity: map<U16, Byte>
    var sections: map<U16, SectionAssembler>
    var pes: map<U16, PesAssembler>
    var pmtPid: Option<U16>
    var videoPid: Option<U16>
    var audioPid: Option<U16>
    var videoPts: Unwrapper
    var videoDts: Unwrapper
    var audioPts: Unwrapper
    var pending: map<U16, bool>

    ghost function View(): DemuxState
      reads this
    {
      DemuxState(continuity, sections, pes, pmtPid, videoPid, audioPid, videoPts, videoDts, audioPts, pending)
    }

    constructor ()
      ensures View() == INITIAL_STATE && bytes == []
    {
      bytes := [];
      continuity, sections, pes, pending := map[], map[], map[], map[];
      pmtPid, videoPid, audioPid := None, None, None;
      videoPts, videoDts, audioPts := FRESH, FRESH, FRESH;
    }

    /** Whatever arrives, fewer than 188 bytes stay buffered, so the trailing overflow guard of
        the source never runs. */
    method Push(input: ByteString) returns (events: seq<DemuxEvent>)
      modifies this
      ensures var r := Drain(old(View()), old(bytes) + input);
              View() == r.state && bytes == r.buffer && events == r.events
      ensures |bytes| < PACKET_SIZE
    {
      hide Drain, Step, FindNextSync;
      bytes := bytes + input;
      events := [];
      ghost var all := Drain(View(), bytes);
      assert Prepend([], all) == all;
      while PACKET_SIZE <= |bytes|
        invariant Prepend(events, Drain(View(), bytes)) == all
        decreases |bytes|
      {
        if bytes[0] != SYNC_BYTE {
          var offset := NextSync();
          if offset.None? {
            var discarded := |bytes| - (PACKET_SIZE - 1);
            DrainLost(View(), bytes, events);
            bytes := bytes[discarded..];
            events := events + [SyncRecovered(discarded)];
            DrainRest(View(), bytes, events);
            break;
          }
          DrainResync(View(), bytes, events);
          bytes := bytes[offset.value..];
          events := events + [SyncRecovered(offset.value)];
        } else {
          var raw := bytes[..PACKET_SIZE];
          ghost var (next, emitted) := Step(View(), raw);
          DrainAt(View(), bytes);
          PrependTwice(events, emitted, Drain(next, bytes[PACKET_SIZE..]));
          bytes := bytes[PACKET_SIZE..];
          var more := HandlePacket(raw);
          events := events + more;
        }
      }
      DrainRest(View(), bytes, events);
      assert |bytes| <= 3 * PACKET_SIZE;
    }

    method NextSync() returns (offset: Option<nat>)
      ensures offset == FindNextSync(bytes, 1)
    {
      var i := 1;
      while i < |bytes|
        invariant FindNextSync(bytes, i) == FindNextSync(bytes, 1)
        decreases |bytes| - i
      {
        if SyncCandidate(bytes, i) {
          return Some(i);
        }
        i := i + 1;
      }
      return None;
    }

    method HandlePacket(raw: ByteString) returns (events: seq<DemuxEvent>)
      requires |raw| == PACKET_SIZE
      modifies this
      ensures (View(), events) == Step(old(View()), raw) && bytes == old(bytes)
    {
      var pid := PidOf(raw[1], raw[2]);
      var packet := ParsePacket(raw);
      if packet.Err? {
        InterruptPid(pid);
        return [CorruptData(pid, packet.error)];
      }
      var error;
      events, error := Process(packet.value);
      if error.Some? {
        InterruptPid(pid);
        events := events + [CorruptData(pid, error.value)];
      }
    }

    method InterruptPid(pid: U16)
      modifies this
      ensures View() == Interrupt(old(View()), pid) && bytes == old(bytes)
    {
      Reset(pid);
      pending := pending[pid := true];
    }

    method Reset(pid: U16)
      modifies this
      ensures View() == ResetPid(old(View()), pid) && bytes == old(bytes)
    {
      continuity := continuity - {pid};
      sections := sections[pid := EMPTY_SECTION];
      pes := pes[pid := EMPTY_PES];
      if videoPid == Some(pid) {
        videoPts, videoDts := FRESH, FRESH;
      } else if audioPid == Some(pid) {
        audioPts := FRESH;
      }
    }

    method Process(packet: TsPacket) returns (events: seq<DemuxEvent>, error: Option<TsError>)
      modifies this
      ensures Outcome(View(), events, error) == ProcessPacket(old(View()), packet) && bytes == old(bytes)
    {
      var pid := packet.pid;
      if packet.transportError {
        InterruptPid(pid);
        return [Discontinuity(pid)], None;
      }
      events := ClockEvents(packet);
      ghost var clock := events;
      ghost var (counted, jumps) := CheckContinuity(View(), packet);
      var discontinuity := Discontinuous(packet);
      if packet.control.HasPayload() {
        var previous := if pid in continuity then Some(continuity[pid]) else None;
        continuity := continuity[pid := packet.continuityCounter];
        if previous.Some? && !discontinuity && packet.continuityCounter != Later(previous.value, 1) {
          InterruptPid(pid);
          events := events + [ContinuityError(pid, Later(previous.value, 1), packet.continuityCounter)];
        }
      }
      assert View() == counted && events == clock + jumps;
      if discontinuity {
        InterruptPid(pid);
        events := events + [Discontinuity(pid)];
      }
      var more;
      more, error := Payload(packet);
      events := events + more;
    }

    method Payload(packet: TsPacket) returns (events: seq<DemuxEvent>, error: Option<TsError>)
      modifies this
      ensures Outcome(View(), events, error) == ProcessPayload(old(View()), packet) && bytes == old(bytes)
    {
      var pid := packet.pid;
      events, error := [], None;
      if packet.payload == [] {
        return;
      }
      if pid == PAT_PID || pmtPid == Some(pid) {
        var assembler := if pid in sections then sections[pid] else EMPTY_SECTION;
        var b, completed := PushSection(assembler, packet.payload, packet.payloadUnitStart);
        sections := sections[pid := b];
        events, error := Sections(pid, completed);
      } else if videoPid == Some(pid) || audioPid == Some(pid) {
        events, error := PesPayload(pid, packet.payload, packet.payloadUnitStart);
      }
    }

    method Sections(pid: U16, completed: seq<ByteString>) returns (events: seq<DemuxEvent>, error: Option<TsError>)
      modifies this
      ensures Outcome(View(), events, error) == ProcessSections(old(View()), pid, completed) && bytes == old(bytes)
    {
      hide ProcessSection;
      events, error := [], None;
      ghost var all := ProcessSections(View(), pid, completed);
      assert [] + all.events == all.events && completed[0..] == completed;
      for i := 0 to |completed|
        invariant bytes == old(bytes) && error.None?
        invariant var rest := ProcessSections(View(), pid, completed[i..]);
                  rest.state == all.state && rest.error == all.error && events + rest.events == all.events
      {
        ghost var first := ProcessSection(View(), pid, completed[i]);
        ghost var rest := ProcessSections(first.state, pid, completed[i + 1..]);
        assert completed[i..][1..] == completed[i + 1..];
        assert events + (first.events + rest.events) == events + first.events + rest.events;
        var more;
        more, error := Section(pid, completed[i]);
        events := events + more;
        if error.Some? {
          return;
        }
      }
      assert events + [] == events;
    }

    method Section(pid: U16, section: ByteString) returns (events: seq<DemuxEvent>, error: Option<TsError>)
      modifies this
      ensures Outcome(View(), events, error) == ProcessSection(old(View()), pid, section) && bytes == old(bytes)
    {
      events, error := [], ValidateSectionCrc(section);
      if error.Some? {
        return;
      }
      if pid == PAT_PID && section[0] == 0 {
        pmtPid := ParsePatPmtPid(section);
      } else if pmtPid == Some(pid) && section[0] == 2 {
        var program := ParseProgramMap(section, pid);
        if program.Err? {
          return [], Some(program.error);
        }
        videoPid, audioPid := Some(program.value.videoPid), Some(program.value.audioPid);
        events := [ProgramMapEvent(program.value)];
      }
    }

    method PesPayload(pid: U16, payload: ByteString, start: bool)
      returns (events: seq<DemuxEvent>, error: Option<TsError>)
      modifies this
      ensures Outcome(View(), events, error) == ProcessPes(old(View()), pid, payload, start) && bytes == old(bytes)
    {
      events, error := [], None;
      var assembler := if pid in pes then pes[pid] else EMPTY_PES;
      if start {
        var (a, previous) := PesStart(assembler, payload);
        pes := pes[pid := a];
        if previous.Err? {
          return [], Some(previous.error);
        }
        if previous.value.Some? {
          events, error := Emit(pid, previous.value.value);
          if error.Some? {
            return;
          }
        }
      } else {
        var (a, overflow) := PesPush(assembler, payload);
        pes := pes[pid := a];
        if overflow.Some? {
          return [], overflow;
        }
      }
      var more;
      more, error := Complete(pid);
      assert [] + more == more;
      events := events + more;
    }

    /** The source loops, but a second turn never finds a declared length. */
    method Complete(pid: U16) returns (events: seq<DemuxEvent>, error: Option<TsError>)
      modifies this
      ensures Outcome(View(), events, error) == EmitComplete(old(View()), pid) && bytes == old(bytes)
    {
      events, error := [], None;
      var (rest, complete) := PesTakeComplete(if pid in pes then pes[pid] else EMPTY_PES);
      if complete.Some? {
        pes := pes[pid := rest];
        events, error := Emit(pid, complete.value);
      }
    }

    method Emit(pid: U16, data: ByteString) returns (events: seq<DemuxEvent>, error: Option<TsError>)
      modifies this
      ensures Outcome(View(), events, error) == EmitPes(old(View()), pid, data)
      ensures bytes == old(bytes) && audioPid == old(audioPid)
    {
      hide ParsePes, AnnexBUnits, AdtsFrames, Unwrap, AudioPackets;
      events, error := [], None;
      var parsed := ParsePes(data);
      if parsed.Err? {
        return [], Some(parsed.error);
      }
      var discontinuity := pid in pending && pending[pid];
      pending := pending - {pid};
      if videoPid == Some(pid) {
        var (ptsClock, pts) := Unwrap(videoPts, parsed.value.pts);
        var (dtsClock, dts) := UnwrapOptional(videoDts, parsed.value.dts);
        videoPts, videoDts := ptsClock, dtsClock;
        var units := ParseAnnexB(parsed.value.payload);
        var keyframe := units.Ok? && exists i :: 0 <= i < |units.value| && units.value[i].nalUnitType == 5;
        events := [Packet(ElementaryPacket(Video, pid, pts, dts, keyframe, discontinuity, parsed.value.payload))];
      } else if audioPid == Some(pid) {
        var (ptsClock, base) := Unwrap(audioPts, parsed.value.pts);
        audioPts := ptsClock;
        var frames := ParseAdtsStream(parsed.value.payload);
        if frames.Err? {
          return [], Some(MalformedPes("invalid AAC ADTS payload"));
        }
        events := SpreadFrames(pid, base, frames.value, discontinuity);
      }
    }

    method SpreadFrames(pid: U16, base: U64, frames: seq<AdtsFrame>, discontinuity: bool)
      returns (events: seq<DemuxEvent>)
      ensures events == AudioPackets(pid, base, frames, discontinuity, 0)
    {
      events := [];
      var offset: U64 := 0;
      ghost var all := AudioPackets(pid, base, frames, discontinuity, 0);
      assert [] + all == all && frames[0..] == frames;
      for i := 0 to |frames|
        invariant events + AudioPackets(pid, base, frames[i..], discontinuity, offset) == all
      {
        assert frames[i..][1..] == frames[i + 1..];
        var packet := ElementaryPacket(Audio, pid, SaturatingAdd(base, offset), None, true,
                                       discontinuity && offset == 0, frames[i].bytes);
        ghost var rest := AudioPackets(pid, base, frames[i + 1..], discontinuity,
                                       NextOffset(offset, frames[i].header.rawDataBlocks));
        assert events + ([Packet(packet)] + rest) == events + [Packet(packet)] + rest;
        events := events + [Packet(packet)];
        offset := NextOffset(offset, frames[i].header.rawDataBlocks);
      }
      assert events + [] == events;
    }

    method Flush() returns (events: seq<DemuxEvent>)
      modifies this
      ensures (View(), events) == FlushState(old(View())) && bytes == old(bytes)
    {
      var audio := audioPid;
      events := FlushOne(videoPid);
      var more := FlushOne(audio);
      events := events + more;
    }

    method FlushOne(pid: Option<U16>) returns (events: seq<DemuxEvent>)
      modifies this
      ensures (View(), events) == FlushPid(old(View()), pid) && bytes == old(bytes) && audioPid == old(audioPid)
    {
      hide EmitPes;
      events := [];
      if pid.None? || pid.value !in pes {
        return;
      }
      var (rest, complete) := PesFinish(pes[pid.value]);
      pes := pes[pid.value := rest];
      if complete.Some? {
        var error;
        events, error := Emit(pid.value, complete.value);
        if error.Some? {
          Reset(pid.value);
          events := events + [CorruptData(pid.value, error.value)];
        }
      }
    }
  }
}
