/** What the demultiplexer refuses: exactly which packets, PES packets, tables and audio units are malformed
    (crates/mpegts/src/lib.rs:97-169, crates/mpegts/src/stream.rs:426-561). */
module Malformed {
  import opened Bytes
  import opened Timestamps
  import opened TsPackets
  import opened Psi
  import opened Pes
  import opened Elementary
  import opened Demuxer

  /** A packet is read if and only if it is whole, begins with the sync byte, has a payload or an adaptation field,
      and the field lies within it and is long enough for the clock it announces. */
  lemma PacketReadIff(raw: ByteString)
    ensures ParsePacket(raw).Ok? <==>
            && |raw| == 188 && raw[0] == 0x47
            && raw[3] / 16 % 4 in {1, 2, 3}
            && (raw[3] / 32 % 2 == 1 ==> raw[4] <= 183 && (raw[4] > 0 && raw[5] / 16 % 2 == 1 ==> raw[4] >= 7))
  {
    if |raw| == 188 {
      assert raw[3] / 32 % 2 == 1 <==> raw[3] / 16 % 4 in {2, 3};
    }
  }

  /** The three marker bits of a timestamp field. */
  predicate Marked(data: ByteString, at: nat)
    requires at + 5 <= |data|
  {
    data[at] % 2 == 1 && data[at + 2] % 2 == 1 && data[at + 4] % 2 == 1
  }

  /** A PES packet is read if and only if it has a start code, its optional header lies within it, it announces a
      PTS, and the times it announces are there with their marker bits; the payload begins behind the header, and
      a DTS comes back exactly when it is announced. */
  lemma PesReadIff(data: ByteString)
    ensures ParsePes(data).Ok? <==>
            && |data| >= 14 && data[..3] == [0, 0, 1] && 9 + data[8] as int <= |data|
            && data[7] >= 0x80 && Marked(data, 9)
            && (data[7] >= 0xc0 ==> |data| >= 19 && Marked(data, 14))
    ensures ParsePes(data).Ok? ==>
              ParsePes(data).value.payload == data[9 + data[8]..]
              && (ParsePes(data).value.dts.Some? <==> data[7] >= 0xc0)
  {
    if |data| >= 14 {
      assert data[9..14][0] == data[9] && data[9..14][2] == data[11] && data[9..14][4] == data[13];
      if |data| >= 19 {
        assert data[14..19][0] == data[14] && data[14..19][2] == data[16] && data[14..19][4] == data[18];
      }
    }
  }

  /** Sections that are refused have no effect on the state: a table that was good and is changed within four
      bytes reports the bad CRC and leaves the demultiplexer as it is. */
  lemma CorruptTableRefused(d: DemuxState, pid: U16, before: ByteString, good: ByteString, bad: ByteString,
                            after: ByteString)
    requires |good| == |bad| == 4 && good != bad
    requires ValidateSectionCrc(before + good + after) == None
    ensures ProcessSection(d, pid, before + bad + after) == Outcome(d, [], Some(InvalidSectionCrc))
  {
    hide ValidateSectionCrc, ParsePat, ParsePmt;
    CorruptionRejected(before, good, bad, after);
  }

  /** An audio unit is refused as a whole exactly if its payload does not split into ADTS frames; otherwise it
      gives one packet per frame. */
  lemma AudioRefusedIff(d: DemuxState, pid: U16, parsed: ParsedPes, discontinuity: bool)
    requires parsed.pts < PTS_MODULUS
    ensures var r := EmitAudio(d, pid, parsed, discontinuity);
            match AdtsFrames(parsed.payload)
            case Err(_) => r.error.Some? && r.events == []
            case Ok(frames) => r.error.None? && |r.events| == |frames|
  {
    hide AdtsFrames, Unwrap;
    var frames := AdtsFrames(parsed.payload);
    if frames.Ok? {
      OnePerFrame(pid, Unwrap(d.audioPts, parsed.pts).1, frames.value, discontinuity, 0);
    }
  }
}
