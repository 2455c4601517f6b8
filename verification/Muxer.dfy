/** The stream multiplexer (crates/mpegts/src/stream.rs). */
module Muxer {
  import opened Bytes
  import opened Timestamps
  import opened TsPackets
  import opened Psi
  import opened Pes
  import opened Demuxer

  datatype MuxPacket = MuxPacket(stream: MuxStream, pts: U64, dts: Option<U64>, keyframe: bool, data: ByteString)

  datatype MuxState = MuxState(continuity: map<U16, Counter>, lastPsi: Option<U64>)

  const FRESH_MUXER: MuxState := MuxState(map[], None)

  function CounterOf(m: MuxState, pid: U16): Counter {
    if pid in m.continuity then m.continuity[pid] else 0
  }

  /** The transport packets carrying one payload; only the first has the start flag and the PCR. */
  function Packetize(pid: Pid, payload: ByteString, unitStart: bool, pcr: Option<U64>, randomAccess: bool,
                     counter: Counter)
    : (packets: seq<ByteString>)
    ensures forall i :: 0 <= i < |packets| ==> |packets[i]| == PACKET_SIZE && packets[i][0] == SYNC_BYTE
    ensures payload != [] ==> packets != []
    decreases |payload|
  {
    if payload == [] then []
    else
      var take := Min(|payload|, MaxPayload(pcr));
      [PrintPacket(pid, unitStart, counter, pcr, randomAccess, payload[..take])]
      + Packetize(pid, payload[take..], false, None, false, Later(counter, 1))
  }

  function SendUnit(m: MuxState, pid: Pid, payload: ByteString, pcr: Option<U64>, randomAccess: bool)
    : (MuxState, seq<ByteString>)
  {
    var packets := Packetize(pid, payload, true, pcr, randomAccess, CounterOf(m, pid));
    (if packets == [] then m else m.(continuity := m.continuity[pid := Later(CounterOf(m, pid), |packets|)]), packets)
  }

  /** Program tables are repeated once the PTS has advanced by a tenth of a second. */
  predicate TablesDue(m: MuxState, pts: U64) {
    m.lastPsi.None? || SaturatingSub(pts, m.lastPsi.value) >= 9000
  }

  function SendTables(m: MuxState, pts: U64): (MuxState, seq<ByteString>) {
    if !TablesDue(m, pts) then (m, [])
    else
      var (afterPat, pat) := SendUnit(m, PAT_PID, [0] + BuildPat(), None, false);
      var (afterPmt, pmt) := SendUnit(afterPat, PMT_PID, [0] + BuildPmt(), None, false);
      (afterPmt.(lastPsi := Some(pts)), pat + pmt)
  }

  lemma NoTables(m: MuxState, pts: U64)
    requires !TablesDue(m, pts)
    ensures SendTables(m, pts) == (m, [])
  {
  }

  function PidFor(stream: MuxStream): Pid {
    if stream.Video? then VIDEO_PID else AUDIO_PID
  }

  function PesFor(packet: MuxPacket): (pes: ByteString)
    ensures 14 <= |pes|
  {
    BuildPes(if packet.stream.Video? then 0xe0 else 0xc0, packet.pts, packet.dts, packet.data)
  }

  /** The 27 MHz clock carried by video only: `pts.saturating_mul(300)`. */
  function ClockFor(packet: MuxPacket): Option<U64> {
    if packet.stream.Audio? then None
    else if packet.pts * 300 <= U64_MAX then Some(packet.pts * 300) else Some(U64_MAX)
  }

  function SendPes(m: MuxState, packet: MuxPacket): (MuxState, seq<ByteString>) {
    SendUnit(m, PidFor(packet.stream), PesFor(packet), ClockFor(packet), packet.keyframe)
  }

  function MuxPush(m: MuxState, packet: MuxPacket): (MuxState, seq<ByteString>) {
    var (ready, tables) := SendTables(m, packet.pts);
    var (next, media) := SendPes(ready, packet);
    (next, tables + media)
  }

  function MuxRun(m: MuxState, packets: seq<MuxPacket>): (MuxState, seq<ByteString>)
    decreases |packets|
  {
    if packets == [] then (m, [])
    else
      var (next, first) := MuxPush(m, packets[0]);
      var (end, rest) := MuxRun(next, packets[1..]);
      (end, first + rest)
  }

  // ----- what packetization means -----

  function PayloadOf(raw: ByteString): ByteString {
    match ParsePacket(raw)
    case Ok(packet) => packet.payload
    case Err(_) => []
  }

  function PayloadsOf(packets: seq<ByteString>): ByteString
    decreases |packets|
  {
    if packets == [] then [] else PayloadOf(packets[0]) + PayloadsOf(packets[1..])
  }

  /** The i-th packet of a unit: it parses, only the first opens the unit and carries the PCR, and
      the counters run on modulo 16. */
  predicate IsUnitPacket(raw: ByteString, i: nat, pid: Pid, unitStart: bool, pcr: Option<U64>, counter: Counter) {
    var r := ParsePacket(raw);
    r.Ok? &&
    var packet := r.value;
    && !packet.transportError && packet.pid == pid && packet.control.HasPayload() && packet.payload != []
    && packet.payloadUnitStart == (unitStart && i == 0)
    && packet.continuityCounter == Later(counter, i)
    && !Discontinuous(packet)
    && ClockEvents(packet) == (if i == 0 && pcr.Some? then [ClockReference(pid, pcr.value % PCR_MODULUS)] else [])
  }

  lemma FirstUnitPacket(pid: Pid, chunk: ByteString, unitStart: bool, pcr: Option<U64>, randomAccess: bool,
                        counter: Counter)
    requires 1 <= |chunk| <= MaxPayload(pcr)
    ensures var raw := PrintPacket(pid, unitStart, counter, pcr, randomAccess, chunk);
            IsUnitPacket(raw, 0, pid, unitStart, pcr, counter) && PayloadOf(raw) == chunk
  {
    hide ParsePacket, PrintPacket;
    PacketRoundTrip(pid, unitStart, counter, pcr, randomAccess, chunk);
  }

  lemma NextUnitPacket(raw: ByteString, i: nat, pid: Pid, unitStart: bool, pcr: Option<U64>, counter: Counter)
    requires IsUnitPacket(raw, i, pid, false, None, Later(counter, 1))
    ensures IsUnitPacket(raw, i + 1, pid, unitStart, pcr, counter)
  {
    hide ParsePacket;
    LaterAgain(counter, 1, i);
  }

  lemma {:induction false} PacketizeRefines(pid: Pid, payload: ByteString, unitStart: bool, pcr: Option<U64>,
                                            randomAccess: bool, counter: Counter)
    ensures var packets := Packetize(pid, payload, unitStart, pcr, randomAccess, counter);
            && PayloadsOf(packets) == payload
            && forall i :: 0 <= i < |packets| ==> IsUnitPacket(packets[i], i, pid, unitStart, pcr, counter)
    decreases |payload|
  {
    hide PayloadOf, PrintPacket, Later, IsUnitPacket;
    if payload != [] {
      var packets := Packetize(pid, payload, unitStart, pcr, randomAccess, counter);
      var take := Min(|payload|, MaxPayload(pcr));
      var rest := Packetize(pid, payload[take..], false, None, false, Later(counter, 1));
      FirstUnitPacket(pid, payload[..take], unitStart, pcr, randomAccess, counter);
      PacketizeRefines(pid, payload[take..], false, None, false, Later(counter, 1));
      assert packets[1..] == rest;
      assert payload == payload[..take] + payload[take..];
      forall i | 0 <= i < |packets| ensures IsUnitPacket(packets[i], i, pid, unitStart, pcr, counter) {
        if i > 0 {
          assert packets[i] == rest[i - 1];
          NextUnitPacket(rest[i - 1], i - 1, pid, unitStart, pcr, counter);
        }
      }
    }
  }

  lemma PacketizeStep(pid: Pid, payload: ByteString, cursor: nat, unitStart: bool, pcr: Option<U64>, randomAccess: bool,
                      counter: Counter, done: seq<ByteString>)
    requires cursor < |payload|
    ensures var take := Min(|payload| - cursor, MaxPayload(pcr));
            var packet := PrintPacket(pid, unitStart, counter, pcr, randomAccess, payload[cursor..cursor + take]);
            && done + Packetize(pid, payload[cursor..], unitStart, pcr, randomAccess, counter)
               == done + [packet] + Packetize(pid, payload[cursor + take..], false, None, false, Later(counter, 1))
  {
    hide PrintPacket;
    var rest := payload[cursor..];
    var take := Min(|rest|, MaxPayload(pcr));
    assert rest[..take] == payload[cursor..cursor + take] && rest[take..] == payload[cursor + take..];
  }

  lemma PacketizeNothing(pid: Pid, payload: ByteString, unitStart: bool, pcr: Option<U64>, randomAccess: bool,
                         counter: Counter)
    requires payload == []
    ensures Packetize(pid, payload, unitStart, pcr, randomAccess, counter) == []
  {
  }

  // ----- where program tables stand -----

  /** One packet with the PAT and one with the PMT, numbered on from the counters, then media. */
  predicate OpensWithTables(m: MuxState, raws: seq<ByteString>) {
    && |raws| > 2
    && IsUnitPacket(raws[0], 0, PAT_PID, true, None, CounterOf(m, PAT_PID)) && PayloadOf(raws[0]) == [0] + BuildPat()
    && IsUnitPacket(raws[1], 0, PMT_PID, true, None, CounterOf(m, PMT_PID)) && PayloadOf(raws[1]) == [0] + BuildPmt()
  }

  /** A multiplexer that has sent no tables yet, or was told to send them again, begins the next push of
      any packet with them, whatever its time. */
  lemma NeverSentOpensWithTables(m: MuxState, packet: MuxPacket)
    requires m.lastPsi.None?
    ensures OpensWithTables(m, MuxPush(m, packet).1)
  {
    hide OpensWithTables, MuxPush;
    OpensIff(m, packet);
  }

  /** A push begins with the tables if and only if none were sent yet or the PTS has advanced by a tenth of
      a second, 9000 ticks, since they were; all its other packets belong to the stream it was given. */
  lemma OpensIff(m: MuxState, packet: MuxPacket)
    ensures var due := m.lastPsi.None? || packet.pts >= m.lastPsi.value + 9000;
            var (next, raws) := MuxPush(m, packet);
            && (OpensWithTables(m, raws) <==> due)
            && AllOnPid(raws, if due then 2 else 0, PidFor(packet.stream))
            && next.lastPsi == if due then Some(packet.pts) else m.lastPsi
  {
    hide Packetize, BuildPat, BuildPmt, IsUnitPacket, PayloadOf, PesFor, PrintPacket, OnPid, ParsePacket;
    var ready, tables := SendTables(m, packet.pts).0, SendTables(m, packet.pts).1;
    MediaOnly(ready, packet);
    if m.lastPsi.None? || packet.pts >= m.lastPsi.value + 9000 {
      TableSizes();
      var patCounter, pmtCounter := CounterOf(m, PAT_PID), CounterOf(m, PMT_PID);
      OneTablePacket(PAT_PID, [0] + BuildPat(), patCounter);
      OneTablePacket(PMT_PID, [0] + BuildPmt(), pmtCounter);
      var pat := Packetize(PAT_PID, [0] + BuildPat(), true, None, false, patCounter);
      var pmt := Packetize(PMT_PID, [0] + BuildPmt(), true, None, false, pmtCounter);
      assert tables == pat + pmt;
      assert (pat + pmt)[0] == pat[0] && (pat + pmt)[1] == pmt[0];
    } else {
      var raws := MuxPush(m, packet).1;
      assert raws == SendPes(m, packet).1;
      OtherPid(raws[0], PidFor(packet.stream), CounterOf(m, PAT_PID));
    }
  }

  predicate OnPid(raw: ByteString, pid: Pid) {
    ParsePacket(raw).Ok? && ParsePacket(raw).value.pid == pid
  }

  predicate AllOnPid(raws: seq<ByteString>, start: nat, pid: Pid) {
    forall i :: start <= i < |raws| ==> OnPid(raws[i], pid)
  }

  lemma MediaOnly(m: MuxState, packet: MuxPacket)
    ensures var raws := SendPes(m, packet).1;
            raws != [] && AllOnPid(raws, 0, PidFor(packet.stream))
  {
    hide PesFor, PrintPacket, ParsePacket, ClockFor;
    PacketizeRefines(PidFor(packet.stream), PesFor(packet), true, ClockFor(packet), packet.keyframe,
                     CounterOf(m, PidFor(packet.stream)));
  }

  lemma OtherPid(raw: ByteString, pid: Pid, counter: Counter)
    requires OnPid(raw, pid) && pid != PAT_PID
    ensures !IsUnitPacket(raw, 0, PAT_PID, true, None, counter)
  {
  }

  /** How a unit begins: on the PID of its stream, with the stream id of its kind; the first packet of a video
      unit carries its PTS as a 27 MHz clock, saturated at 64 bits and reduced, and the keyframe flag; that of
      an audio unit carries no clock. */
  lemma UnitHead(m: MuxState, packet: MuxPacket)
    ensures var raws := SendPes(m, packet).1;
            && raws != [] && ParsePacket(raws[0]).Ok?
            && var first := ParsePacket(raws[0]).value;
               && first.pid == (if packet.stream.Video? then 0x0100 else 0x0101) && first.payloadUnitStart
               && |first.payload| >= 14
               && first.payload[..4] == [0, 0, 1, if packet.stream.Video? then 0xe0 else 0xc0]
               && (packet.stream.Video? ==>
                     first.adaptation ==
                     Some(AdaptationField(false, packet.keyframe, false,
                                          Some(Min(packet.pts * 300, 0xffff_ffff_ffff_ffff) % (300 * 0x2_0000_0000)))))
               && (packet.stream.Audio? && first.adaptation.Some? ==> first.adaptation.value.pcr.None?)
  {
    hide ParsePacket, PrintPacket;
    var pid, clock, pes := PidFor(packet.stream), ClockFor(packet), PesFor(packet);
    var chunk := pes[..Min(|pes|, MaxPayload(clock))];
    PacketRoundTrip(pid, true, CounterOf(m, pid), clock, packet.keyframe, chunk);
    assert chunk[..4] == pes[..4];
  }

  // ----- how long a receiver waits for the tables -----

  lemma {:induction false} MuxRunAppend(m: MuxState, a: seq<MuxPacket>, b: seq<MuxPacket>)
    ensures MuxRun(m, a + b).0 == MuxRun(MuxRun(m, a).0, b).0
    ensures MuxRun(m, a + b).1 == MuxRun(m, a).1 + MuxRun(MuxRun(m, a).0, b).1
    decreases |a|
  {
    hide MuxPush;
    if a == [] {
      assert a + b == b;
    } else {
      assert (a + b)[1..] == a[1..] + b;
      MuxRunAppend(MuxPush(m, a[0]).0, a[1..], b);
    }
  }

  /** The multiplexer before the k-th of these pushes. */
  function MuxAt(packets: seq<MuxPacket>, k: nat): MuxState
    requires k <= |packets|
  {
    MuxRun(FRESH_MUXER, packets[..k]).0
  }

  /** The k-th push begins with the tables. */
  predicate OpensAt(packets: seq<MuxPacket>, k: nat)
    requires k < |packets|
  {
    OpensWithTables(MuxAt(packets, k), MuxPush(MuxAt(packets, k), packets[k]).1)
  }

  lemma OnePush(packets: seq<MuxPacket>, k: nat)
    requires k < |packets|
    ensures MuxAt(packets, k + 1) == MuxPush(MuxAt(packets, k), packets[k]).0
  {
    hide MuxPush;
    assert packets[..k + 1] == packets[..k] + [packets[k]];
    MuxRunAppend(FRESH_MUXER, packets[..k], [packets[k]]);
    var m := MuxAt(packets, k);
    assert [packets[k]][1..] == [];
    assert MuxRun(m, [packets[k]]).0 == MuxRun(MuxPush(m, packets[k]).0, []).0;
  }

  /** The table time is the PTS of the last push that began with them, and the first push did. */
  lemma {:induction false} LastOpening(packets: seq<MuxPacket>, k: nat)
    requires k <= |packets|
    ensures var m := MuxAt(packets, k);
            if m.lastPsi.None? then k == 0
            else exists j :: 0 <= j < k && OpensAt(packets, j) && packets[j].pts == m.lastPsi.value
    decreases k
  {
    hide OpensWithTables, MuxPush;
    if k > 0 {
      LastOpening(packets, k - 1);
      OnePush(packets, k - 1);
      OpensIff(MuxAt(packets, k - 1), packets[k - 1]);
    }
  }

  /** Main result, over every run of a multiplexer, whatever its clocks do: no push comes 9000 ticks or more
      after the last one that began with the tables, so a receiver that joins waits a tenth of a second. */
  lemma TablesNeverLate(packets: seq<MuxPacket>, k: nat)
    requires k < |packets|
    ensures exists j :: 0 <= j <= k && OpensAt(packets, j) && packets[k].pts < packets[j].pts + 9000
  {
    hide OpensWithTables, MuxPush;
    LastOpening(packets, k);
    OpensIff(MuxAt(packets, k), packets[k]);
    if OpensAt(packets, k) {
      assert packets[k].pts < packets[k].pts + 9000;
    }
  }

  lemma SameCountersOpen(m: MuxState, n: MuxState, raws: seq<ByteString>)
    requires m.continuity == n.continuity && OpensWithTables(m, raws)
    ensures OpensWithTables(n, raws)
  {
    hide IsUnitPacket, PayloadOf, BuildPat, BuildPmt;
  }

  lemma TableSizes()
    ensures |BuildPat()| < 183 && |BuildPmt()| < 183
  {
  }

  lemma OneTablePacket(pid: Pid, payload: ByteString, counter: Counter)
    requires 0 < |payload| < 184
    ensures var raws := Packetize(pid, payload, true, None, false, counter);
            |raws| == 1 && IsUnitPacket(raws[0], 0, pid, true, None, counter) && PayloadOf(raws[0]) == payload
  {
    hide PrintPacket, IsUnitPacket, PayloadOf, Later;
    PacketizeRefines(pid, payload, true, None, false, counter);
    assert payload[..|payload|] == payload && payload[|payload|..] == [];
    PacketizeNothing(pid, [], false, None, false, Later(counter, 1));
    var raws := Packetize(pid, payload, true, None, false, counter);
    assert PayloadsOf(raws) == PayloadOf(raws[0]) + PayloadsOf(raws[1..]);
    assert PayloadOf(raws[0]) + [] == PayloadOf(raws[0]);
  }

  // ----- the multiplexer object -----

  class StreamMuxer {
    var continuity: map<U16, Counter>
    var lastPsi: Option<U64>

    ghost function View(): MuxState
      reads this
    {
      MuxState(continuity, lastPsi)
    }

    constructor ()
      ensures View() == FRESH_MUXER
    {
      continuity, lastPsi := map[], None;
    }

    method Push(packet: MuxPacket) returns (output: ByteString)
      modifies this
      ensures View() == MuxPush(old(View()), packet).0
      ensures output == Concat(MuxPush(old(View()), packet).1)
      ensures old(lastPsi).None? || packet.pts >= old(lastPsi).value + 9000 <==>
              OpensWithTables(old(View()), MuxPush(old(View()), packet).1)
    {
      OpensIff(View(), packet);
      hide OpensWithTables, SendUnit, PesFor, ClockFor, SendTables, PidFor;
      output := [];
      ghost var before := View();
      ghost var tables := SendTables(before, packet.pts).1;
      if lastPsi.None? || SaturatingSub(packet.pts, lastPsi.value) >= 9000 {
        output := PushTables(packet.pts);
      } else {
        NoTables(before, packet.pts);
      }
      ghost var ready := View();
      output := PacketizePayload(PidFor(packet.stream), PesFor(packet), ClockFor(packet), packet.keyframe, output);
      ConcatAppend(tables, SendPes(ready, packet).1);
    }

    method PushTables(pts: U64) returns (output: ByteString)
      requires TablesDue(View(), pts)
      modifies this
      ensures View() == SendTables(old(View()), pts).0
      ensures output == Concat(SendTables(old(View()), pts).1)
    {
      hide SendUnit, BuildPat, BuildPmt;
      var pat, pmt := [0] + BuildPat(), [0] + BuildPmt();
      ghost var (afterPat, patPackets) := SendUnit(View(), PAT_PID, pat, None, false);
      output := PacketizePayload(PAT_PID, pat, None, false, []);
      assert output == Concat(patPackets);
      ghost var pmtPackets := SendUnit(afterPat, PMT_PID, pmt, None, false).1;
      output := PacketizePayload(PMT_PID, pmt, None, false, output);
      ConcatAppend(patPackets, pmtPackets);
      lastPsi := Some(pts);
    }

    /** Whatever is pushed next begins with the program tables; the counters run on. */
    method ForceProgramTables()
      modifies `lastPsi
      ensures View() == old(View()).(lastPsi := None)
      ensures forall packet: MuxPacket :: OpensWithTables(old(View()), MuxPush(View(), packet).1)
    {
      hide OpensWithTables, MuxPush;
      lastPsi := None;
      forall packet: MuxPacket ensures OpensWithTables(old(View()), MuxPush(View(), packet).1) {
        NeverSentOpensWithTables(View(), packet);
        SameCountersOpen(View(), old(View()), MuxPush(View(), packet).1);
      }
    }

    method PacketizePayload(pid: Pid, payload: ByteString, firstPcr: Option<U64>, randomAccess: bool,
                            output: ByteString)
      returns (extended: ByteString)
      modifies this
      ensures View() == SendUnit(old(View()), pid, payload, firstPcr, randomAccess).0
      ensures extended == output + Concat(SendUnit(old(View()), pid, payload, firstPcr, randomAccess).1)
    {
      hide PrintPacket, Packetize, Later;
      extended := output;
      LaterNone(CounterOf(View(), pid));
      var cursor := 0;
      var first := true;
      ghost var start := CounterOf(View(), pid);
      ghost var packets := Packetize(pid, payload, true, firstPcr, randomAccess, start);
      ghost var done: seq<ByteString> := [];
      assert payload[0..] == payload && packets == [] + packets;
      while cursor < |payload|
        invariant cursor <= |payload| && first == (done == [])
        invariant packets == done + Packetize(pid, payload[cursor..], first, if first then firstPcr else None,
                                              first && randomAccess, CounterOf(View(), pid))
        invariant extended == output + Concat(done)
        invariant CounterOf(View(), pid) == Later(start, |done|)
        invariant View() == if first then old(View())
                            else old(View()).(continuity := old(continuity)[pid := Later(start, |done|)])
        decreases |payload| - cursor
      {
        var pcr := if first then firstPcr else None;
        var take := Min(|payload| - cursor, MaxPayload(pcr));
        var chunk := payload[cursor..cursor + take];
        PacketizeStep(pid, payload, cursor, first, pcr, randomAccess && first, CounterOf(View(), pid), done);
        var counter := NextContinuity(pid);
        var packet := BuildPacket(pid, first, counter, pcr, randomAccess && first, chunk);
        LaterAgain(start, |done|, 1);
        ConcatSnoc(done, packet);
        assert output + Concat(done + [packet]) == extended + packet;
        extended := extended + packet;
        done := done + [packet];
        cursor := cursor + take;
        first := false;
      }
      PacketizeNothing(pid, payload[cursor..], first, if first then firstPcr else None, first && randomAccess,
                       CounterOf(View(), pid));
      assert done + [] == done;
    }

    method NextContinuity(pid: U16) returns (current: Counter)
      modifies this
      ensures current == CounterOf(old(View()), pid)
      ensures View() == old(View()).(continuity := old(continuity)[pid := Later(current, 1)])
    {
      current := if pid in continuity then continuity[pid] else 0;
      continuity := continuity[pid := Later(current, 1)];
    }

    /** Fills one packet in place, starting from 188 stuffing bytes. */
    static method BuildPacket(pid: Pid, unitStart: bool, continuity: Counter, pcr: Option<U64>, randomAccess: bool,
                              chunk: ByteString)
      returns (s: ByteString)
      requires 1 <= |chunk| <= MaxPayload(pcr)
      ensures s == PrintPacket(pid, unitStart, continuity, pcr, randomAccess, chunk)
    {
      hide PrintHeader, PrintAdaptation;
      var packet := new Byte[PACKET_SIZE](_ => 0xff);
      var total := 184 - |chunk|;
      WriteHeader(packet, pid, unitStart, if total > 0 then 3 else 1, continuity);
      WriteAdaptation(packet, total, randomAccess, pcr);
      ghost var front := packet[..4 + total];
      assert front == packet[..4] + packet[4..4 + total];
      forall i | 0 <= i < |chunk| {
        packet[4 + total + i] := chunk[i];
      }
      s := packet[..];
      assert s[..4 + total] == front;
      assert s[4 + total..] == chunk;
      assert s == s[..4 + total] + s[4 + total..];
    }

    static method WriteHeader(packet: array<Byte>, pid: Pid, unitStart: bool, control: nat, continuity: Counter)
      requires packet.Length == PACKET_SIZE && control < 4
      modifies packet
      ensures packet[..4] == PrintHeader(pid, unitStart, control, continuity)
      ensures packet[4..] == old(packet[4..])
    {
      packet[0] := SYNC_BYTE;
      packet[1] := pid / 256 % 32;
      if unitStart {
        packet[1] := packet[1] + 0x40;
      }
      packet[2] := pid % 256;
      packet[3] := continuity;
      packet[3] := packet[3] + control * 16;
    }

    static method WriteAdaptation(packet: array<Byte>, total: nat, randomAccess: bool, pcr: Option<U64>)
      requires packet.Length == PACKET_SIZE && total <= 184 && (pcr.Some? ==> 8 <= total)
      requires forall i :: 4 <= i < PACKET_SIZE ==> packet[i] == 0xff
      modifies packet
      ensures packet[..4] == old(packet[..4])
      ensures packet[4..4 + total] == PrintAdaptation(total, randomAccess, pcr)
    {
      if total > 0 {
        packet[4] := total - 1;
        if total > 1 {
          packet[5] := AdaptationFlags(randomAccess, pcr.Some?);
          if pcr.Some? {
            var clock := EncodePcr(pcr.value);
            forall i | 0 <= i < 6 {
              packet[6 + i] := clock[i];
            }
            assert packet[6..12] == clock;
            assert packet[12..4 + total] == Fill(total - 8, 0xff);
            assert packet[4..4 + total] == packet[4..6] + packet[6..12] + packet[12..4 + total];
          } else {
            assert packet[6..4 + total] == Fill(total - 2, 0xff);
            assert packet[4..4 + total] == packet[4..6] + packet[6..4 + total];
            assert packet[4..6] + [] == packet[4..6];
          }
          assert packet[4..6] == [total - 1, AdaptationFlags(randomAccess, pcr.Some?)];
        }
      }
    }
  }
}
