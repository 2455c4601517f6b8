/** Continuity counters over the whole life of a multiplexer (ISO/IEC 13818-1, section 2.4.3.3). */
module Continuity {
  import opened Bytes
  import opened TsPackets
  import opened Psi
  import opened Muxer

  function CounterIn(raw: ByteString, pid: Pid): seq<Byte> {
    match ParsePacket(raw)
    case Err(_) => []
    case Ok(packet) => if packet.pid == pid then [packet.continuityCounter] else []
  }

  /** The counters that a receiver sees on one PID. */
  function CountersOn(raws: seq<ByteString>, pid: Pid): seq<Byte> {
    if raws == [] then [] else CounterIn(raws[0], pid) + CountersOn(raws[1..], pid)
  }

  /** The counters run on from `start`, one by one and modulo 16. */
  predicate Consecutive(counters: seq<Byte>, start: Counter) {
    forall i :: 0 <= i < |counters| ==> counters[i] == Later(start, i)
  }

  /** From one state of the multiplexer to another, with these packets between them. */
  ghost predicate RunsOn(m: MuxState, raws: seq<ByteString>, n: MuxState) {
    forall pid: Pid ::
      && Consecutive(CountersOn(raws, pid), CounterOf(m, pid))
      && CounterOf(n, pid) == Later(CounterOf(m, pid), |CountersOn(raws, pid)|)
  }

  lemma {:induction false} CountersAppend(a: seq<ByteString>, b: seq<ByteString>, pid: Pid)
    ensures CountersOn(a + b, pid) == CountersOn(a, pid) + CountersOn(b, pid)
    decreases |a|
  {
    hide CounterIn;
    if a == [] {
      assert a + b == b;
    } else {
      assert (a + b)[1..] == a[1..] + b;
      CountersAppend(a[1..], b, pid);
    }
  }

  lemma ConsecutiveAppend(a: seq<Byte>, b: seq<Byte>, start: Counter)
    requires Consecutive(a, start) && Consecutive(b, Later(start, |a|))
    ensures Consecutive(a + b, start) && Later(start, |a + b|) == Later(Later(start, |a|), |b|)
  {
    hide Later;
    LaterAgain(start, |a|, |b|);
    forall i | 0 <= i < |a + b| ensures (a + b)[i] == Later(start, i) {
      if i >= |a| {
        LaterAgain(start, |a|, i - |a|);
      }
    }
  }

  lemma RunsOnAppend(m: MuxState, a: seq<ByteString>, n: MuxState, b: seq<ByteString>, o: MuxState)
    requires RunsOn(m, a, n) && RunsOn(n, b, o)
    ensures RunsOn(m, a + b, o)
  {
    hide Consecutive, CountersOn, Later;
    forall pid: Pid
      ensures Consecutive(CountersOn(a + b, pid), CounterOf(m, pid))
      ensures CounterOf(o, pid) == Later(CounterOf(m, pid), |CountersOn(a + b, pid)|)
    {
      CountersAppend(a, b, pid);
      ConsecutiveAppend(CountersOn(a, pid), CountersOn(b, pid), CounterOf(m, pid));
    }
  }

  lemma RunsOnNothing(m: MuxState)
    ensures RunsOn(m, [], m)
  {
    forall pid: Pid ensures Later(CounterOf(m, pid), 0) == CounterOf(m, pid) {
      LaterNone(CounterOf(m, pid));
    }
  }

  /** The packets of one unit, from the i-th on. */
  lemma {:induction false} UnitCounters(raws: seq<ByteString>, i: nat, pid: Pid, unitStart: bool, pcr: Option<U64>,
                                        counter: Counter, other: Pid)
    requires forall k :: 0 <= k < |raws| ==> IsUnitPacket(raws[k], i + k, pid, unitStart, pcr, counter)
    ensures var on := CountersOn(raws, other);
            if other == pid then |on| == |raws| && forall k :: 0 <= k < |on| ==> on[k] == Later(counter, i + k)
            else on == []
    decreases |raws|
  {
    hide ParsePacket, Later;
    if raws != [] {
      assert IsUnitPacket(raws[0], i + 0, pid, unitStart, pcr, counter);
      forall k | 0 <= k < |raws[1..]| ensures IsUnitPacket(raws[1..][k], i + 1 + k, pid, unitStart, pcr, counter) {
        assert IsUnitPacket(raws[k + 1], i + (k + 1), pid, unitStart, pcr, counter);
      }
      UnitCounters(raws[1..], i + 1, pid, unitStart, pcr, counter, other);
    }
  }

  lemma SendUnitRunsOn(m: MuxState, pid: Pid, payload: ByteString, pcr: Option<U64>, randomAccess: bool)
    ensures var (n, raws) := SendUnit(m, pid, payload, pcr, randomAccess); RunsOn(m, raws, n)
  {
    hide Packetize, Later, IsUnitPacket, CountersOn;
    var (n, raws) := SendUnit(m, pid, payload, pcr, randomAccess);
    PacketizeRefines(pid, payload, true, pcr, randomAccess, CounterOf(m, pid));
    forall other: Pid
      ensures Consecutive(CountersOn(raws, other), CounterOf(m, other))
      ensures CounterOf(n, other) == Later(CounterOf(m, other), |CountersOn(raws, other)|)
    {
      UnitCounters(raws, 0, pid, true, pcr, CounterOf(m, pid), other);
      LaterNone(CounterOf(m, other));
    }
  }

  lemma PushRunsOn(m: MuxState, packet: MuxPacket)
    ensures RunsOn(m, MuxPush(m, packet).1, MuxPush(m, packet).0)
  {
    hide SendUnit, RunsOn, BuildPat, BuildPmt, PesFor;
    var (ready, tables) := SendTables(m, packet.pts);
    if TablesDue(m, packet.pts) {
      var (afterPat, pat) := SendUnit(m, PAT_PID, [0] + BuildPat(), None, false);
      var (afterPmt, pmt) := SendUnit(afterPat, PMT_PID, [0] + BuildPmt(), None, false);
      SendUnitRunsOn(m, PAT_PID, [0] + BuildPat(), None, false);
      SendUnitRunsOn(afterPat, PMT_PID, [0] + BuildPmt(), None, false);
      SameCounters(afterPat, pmt, afterPmt, packet.pts);
      RunsOnAppend(m, pat, afterPat, pmt, ready);
    } else {
      NoTables(m, packet.pts);
      RunsOnNothing(m);
    }
    SendUnitRunsOn(ready, PidFor(packet.stream), PesFor(packet), ClockFor(packet), packet.keyframe);
    var (next, media) := SendPes(ready, packet);
    RunsOnAppend(m, tables, ready, media, next);
  }

  lemma SameCounters(m: MuxState, raws: seq<ByteString>, n: MuxState, pts: U64)
    requires RunsOn(m, raws, n)
    ensures RunsOn(m, raws, n.(lastPsi := Some(pts)))
  {
    hide Consecutive, CountersOn, Later;
    assert forall pid: Pid :: CounterOf(n.(lastPsi := Some(pts)), pid) == CounterOf(n, pid);
  }

  /** Over the whole life of a multiplexer the counters of every PID step by one modulo 16, across
      program tables, media units and calls. */
  lemma {:induction false} CountersNeverSkip(m: MuxState, packets: seq<MuxPacket>)
    ensures RunsOn(m, MuxRun(m, packets).1, MuxRun(m, packets).0)
    decreases |packets|
  {
    hide MuxPush, RunsOn;
    if packets == [] {
      RunsOnNothing(m);
    } else {
      var (next, first) := MuxPush(m, packets[0]);
      PushRunsOn(m, packets[0]);
      CountersNeverSkip(next, packets[1..]);
      var (end, rest) := MuxRun(next, packets[1..]);
      RunsOnAppend(m, first, next, rest, end);
    }
  }
}
