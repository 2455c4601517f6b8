/** What a peer can make the demultiplexer hold, on any input at all (crates/mpegts/src/stream.rs). */
module Memory {
  import opened Bytes
  import opened Timestamps
  import opened TsPackets
  import opened Psi
  import opened Pes
  import opened Elementary
  import opened Demuxer

  /** Three bytes and a 12-bit length. */
  const MAX_SECTION_BYTES: nat := 4098

  /** An open section is shorter than its length, which is known from the third byte on. */
  predicate OpenSection(a: SectionAssembler) {
    if a.expected.None? then |a.data| < 3 else 3 <= |a.data| < a.expected.value <= MAX_SECTION_BYTES
  }

  ghost predicate Bounded(d: DemuxState) {
    && (forall pid :: pid in d.sections ==> OpenSection(d.sections[pid]))
    && (forall pid :: pid in d.pes ==> |d.pes[pid].data| <= MAX_PES_BYTES)
  }

  lemma AppendBounded(a: SectionAssembler, input: ByteString)
    requires OpenSection(a)
    ensures OpenSection(Append(a, input).assembler)
  {
    hide SectionLength;
    if input != [] {
      var headerTake := Min(SaturatingSub(3, |a.data|), |input|);
      var data := a.data + input[..headerTake];
      if a.expected.None? && |data| >= 3 {
        LengthInRange(data[1], data[2]);
      }
    }
  }

  lemma LengthInRange(b1: Byte, b2: Byte)
    ensures 3 <= SectionLength(b1, b2) <= MAX_SECTION_BYTES
  {
  }

  lemma {:induction false} AppendAllBounded(a: SectionAssembler, input: ByteString)
    requires OpenSection(a)
    ensures OpenSection(AppendAll(a, input).0)
    decreases |input|
  {
    hide Append, OpenSection;
    if input != [] && input[0] != 0xff {
      AppendBounded(a, input);
      var r := Append(a, input);
      if r.consumed != 0 {
        AppendAllBounded(r.assembler, input[r.consumed..]);
      }
    }
  }

  lemma SectionPushBounded(a: SectionAssembler, payload: ByteString, start: bool)
    requires OpenSection(a)
    ensures OpenSection(SectionPush(a, payload, start).0)
  {
    hide Append, AppendAll, OpenSection;
    if !start {
      AppendAllBounded(a, payload);
    } else if payload != [] {
      var end := Min(payload[0] as int + 1, |payload|);
      AppendBounded(a, payload[1..end]);
      assert OpenSection(EMPTY_SECTION) by { EmptyIsOpen(); }
      var r := if a.data == [] then Appended(a, 0, []) else Append(a, payload[1..end]);
      AppendAllBounded(if r.assembler.data == [] then r.assembler else EMPTY_SECTION, payload[end..]);
    }
  }

  lemma EmptyIsOpen()
    ensures OpenSection(EMPTY_SECTION)
  {
  }

  lemma EmitKeepsBuffers(d: DemuxState, pid: U16, data: ByteString)
    ensures EmitPes(d, pid, data).state.sections == d.sections && EmitPes(d, pid, data).state.pes == d.pes
  {
    hide ParsePes, AdtsFrames, Unwrap, ContainsIdr, AudioPackets;
  }

  lemma {:induction false} ProcessSectionsKeepsBuffers(d: DemuxState, pid: U16, sections: seq<ByteString>)
    ensures var e := ProcessSections(d, pid, sections).state; e.sections == d.sections && e.pes == d.pes
    decreases |sections|
  {
    hide ParsePat, ParsePmt, ValidateSectionCrc;
    if sections != [] {
      var first := ProcessSection(d, pid, sections[0]);
      if first.error.None? {
        ProcessSectionsKeepsBuffers(first.state, pid, sections[1..]);
      }
    }
  }

  lemma WithPesBounded(d: DemuxState, pid: U16, a: PesAssembler)
    requires Bounded(d) && |a.data| <= MAX_PES_BYTES
    ensures Bounded(d.(pes := d.pes[pid := a]))
  {
  }

  lemma SameBuffers(d: DemuxState, e: DemuxState)
    requires Bounded(d) && e.sections == d.sections && e.pes == d.pes
    ensures Bounded(e)
  {
  }

  lemma EmitCompleteBounded(d: DemuxState, pid: U16)
    requires Bounded(d)
    ensures Bounded(EmitComplete(d, pid).state)
  {
    hide EmitPes;
    var (rest, complete) := PesTakeComplete(PesOf(d, pid));
    if complete.Some? {
      WithPesBounded(d, pid, rest);
      var taken := d.(pes := d.pes[pid := rest]);
      EmitKeepsBuffers(taken, pid, complete.value);
      SameBuffers(taken, EmitPes(taken, pid, complete.value).state);
    }
  }

  lemma ProcessPesBounded(d: DemuxState, pid: U16, payload: ByteString, start: bool)
    requires Bounded(d)
    ensures Bounded(ProcessPes(d, pid, payload, start).state)
  {
    hide EmitPes, EmitComplete, Bounded;
    assert |PesOf(d, pid).data| <= MAX_PES_BYTES by { PesBounded(d, pid); }
    if start {
      var (a, r) := PesStart(PesOf(d, pid), payload);
      WithPesBounded(d, pid, a);
      var started := d.(pes := d.pes[pid := a]);
      if r.Ok? {
        var first := if r.value.Some? then EmitPes(started, pid, r.value.value) else Outcome(started, [], None);
        if r.value.Some? {
          EmitKeepsBuffers(started, pid, r.value.value);
        }
        SameBuffers(started, first.state);
        EmitCompleteBounded(first.state, pid);
      }
    } else {
      var (a, e) := PesPush(PesOf(d, pid), payload);
      WithPesBounded(d, pid, a);
      EmitCompleteBounded(d.(pes := d.pes[pid := a]), pid);
    }
  }

  lemma PesBounded(d: DemuxState, pid: U16)
    requires Bounded(d)
    ensures |PesOf(d, pid).data| <= MAX_PES_BYTES && OpenSection(SectionsOf(d, pid))
  {
  }

  lemma PayloadBounded(d: DemuxState, packet: TsPacket)
    requires Bounded(d)
    ensures Bounded(ProcessPayload(d, packet).state)
  {
    hide SectionPush, ProcessSections, ProcessPes, OpenSection;
    var pid := packet.pid;
    PesBounded(d, pid);
    SectionPushBounded(SectionsOf(d, pid), packet.payload, packet.payloadUnitStart);
    var (a, completed) := SectionPush(SectionsOf(d, pid), packet.payload, packet.payloadUnitStart);
    var pushed := d.(sections := d.sections[pid := a]);
    ProcessSectionsKeepsBuffers(pushed, pid, completed);
    SameBuffers(pushed, ProcessSections(pushed, pid, completed).state);
    ProcessPesBounded(d, pid, packet.payload, packet.payloadUnitStart);
  }

  lemma InterruptBounded(d: DemuxState, pid: U16)
    requires Bounded(d)
    ensures Bounded(Interrupt(d, pid)) && Bounded(ResetPid(d, pid))
  {
  }

  lemma StepBounded(d: DemuxState, raw: ByteString)
    requires |raw| == PACKET_SIZE && Bounded(d)
    ensures Bounded(Step(d, raw).0)
  {
    hide ParsePacket, ProcessPayload, Interrupt, Bounded, ClockEvents;
    var pid := PidOf(raw[1], raw[2]);
    InterruptBounded(d, pid);
    var parsed := ParsePacket(raw);
    if parsed.Ok? {
      var packet := parsed.value;
      InterruptBounded(d, packet.pid);
      var counted := d.(continuity := d.continuity[packet.pid := packet.continuityCounter]);
      SameBuffers(d, counted);
      InterruptBounded(counted, packet.pid);
      var checked := CheckContinuity(d, packet).0;
      InterruptBounded(checked, packet.pid);
      var ready := if Discontinuous(packet) then Interrupt(checked, packet.pid) else checked;
      PayloadBounded(ready, packet);
      InterruptBounded(ProcessPacket(d, packet).state, pid);
    }
  }

  lemma {:induction false} DrainBounded(d: DemuxState, buffer: ByteString)
    requires Bounded(d)
    ensures Bounded(Drain(d, buffer).state)
    decreases |buffer|
  {
    hide Step, Bounded;
    if PACKET_SIZE <= |buffer| {
      if buffer[0] != SYNC_BYTE {
        var offset := FindNextSync(buffer, 1);
        if offset.Some? {
          DrainBounded(d, buffer[offset.value..]);
        }
      } else {
        StepBounded(d, buffer[..PACKET_SIZE]);
        DrainBounded(Step(d, buffer[..PACKET_SIZE]).0, buffer[PACKET_SIZE..]);
      }
    }
  }

  lemma {:induction false} CutsBounded(d: DemuxState, buffer: ByteString, cuts: seq<ByteString>)
    requires Bounded(d) && |buffer| < PACKET_SIZE
    ensures var r := DrainCuts(d, buffer, cuts); Bounded(r.state) && |r.buffer| < PACKET_SIZE
    decreases |cuts|
  {
    hide Drain, Bounded;
    if cuts != [] {
      DrainBounded(d, buffer + cuts[0]);
      var first := Drain(d, buffer + cuts[0]);
      CutsBounded(first.state, first.buffer, cuts[1..]);
    }
  }

  /** Whatever bytes arrive, in whatever pieces: fewer than 188 bytes wait for alignment, no section
      being assembled exceeds 4098 bytes, and no PES exceeds 8 MiB. */
  lemma MemoryIsBounded(cuts: seq<ByteString>)
    ensures var r := DrainCuts(INITIAL_STATE, [], cuts);
            && |r.buffer| < PACKET_SIZE
            && (forall pid :: pid in r.state.sections ==> |r.state.sections[pid].data| < MAX_SECTION_BYTES)
            && (forall pid :: pid in r.state.pes ==> |r.state.pes[pid].data| <= MAX_PES_BYTES)
  {
    hide Drain, DrainCuts;
    CutsBounded(INITIAL_STATE, [], cuts);
  }
}
