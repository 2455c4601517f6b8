/** PSI sections: reassembly, CRC validation, PAT and PMT (crates/mpegts/src/stream.rs). */
module Psi {
  import opened Bytes
  import opened Crc
  import opened TsPackets

  const PAT_PID: U16 := 0x0000
  const PMT_PID: U16 := 0x1000
  const VIDEO_PID: U16 := 0x0100
  const AUDIO_PID: U16 := 0x0101

  // ----- reassembly -----

  datatype SectionAssembler = SectionAssembler(data: ByteString, expected: Option<nat>)

  const EMPTY_SECTION: SectionAssembler := SectionAssembler([], None)

  function SectionLength(b1: int, b2: int): int {
    3 + b1 % 16 * 256 + b2
  }

  /** The length becomes known once three header bytes are there. */
  function KnowLength(a: SectionAssembler): SectionAssembler {
    if |a.data| >= 3 && a.expected.None? then a.(expected := Some(SectionLength(a.data[1], a.data[2]))) else a
  }

  datatype Appended = Appended(assembler: SectionAssembler, consumed: nat, completed: seq<ByteString>)

  /** Consumes at most the rest of one section. */
  function Append(a: SectionAssembler, input: ByteString): (r: Appended)
    ensures r.consumed <= |input|
  {
    if input == [] then Appended(a, 0, [])
    else
      var headerTake := Min(SaturatingSub(3, |a.data|), |input|);
      var b := KnowLength(a.(data := a.data + input[..headerTake]));
      match b.expected
      case None => Appended(b, headerTake, [])
      case Some(expected) =>
        var take := Min(SaturatingSub(expected, |b.data|), |input| - headerTake);
        var data := b.data + input[headerTake..headerTake + take];
        if |data| == expected then Appended(EMPTY_SECTION, headerTake + take, [data])
        else Appended(b.(data := data), headerTake + take, [])
  }

  /** Sections back to back until stuffing (0xff) or the end of the payload. */
  function AppendAll(a: SectionAssembler, input: ByteString): (SectionAssembler, seq<ByteString>)
    decreases |input|
  {
    if input == [] || input[0] == 0xff then (a, [])
    else
      var r := Append(a, input);
      if r.consumed == 0 then (r.assembler, r.completed)
      else
        var (b, more) := AppendAll(r.assembler, input[r.consumed..]);
        (b, r.completed + more)
  }

  /** One payload; a payload with the start flag begins with a pointer field. */
  function SectionPush(a: SectionAssembler, payload: ByteString, start: bool): (SectionAssembler, seq<ByteString>) {
    if !start then
      if a.data == [] then (a, []) else AppendAll(a, payload)
    else if payload == [] then (a, [])
    else
      var end := Min(payload[0] as int + 1, |payload|);
      var r := if a.data == [] then Appended(a, 0, []) else Append(a, payload[1..end]);
      var b := if r.assembler.data == [] then r.assembler else EMPTY_SECTION;
      var (c, more) := AppendAll(b, payload[end..]);
      (c, r.completed + more)
  }

  method PushSection(a: SectionAssembler, payload: ByteString, start: bool)
    returns (b: SectionAssembler, completed: seq<ByteString>)
    ensures (b, completed) == SectionPush(a, payload, start)
  {
    b, completed := a, [];
    var cursor := 0;
    if start {
      if |payload| == 0 {
        return;
      }
      cursor := 1;
      var continuationEnd := Min(payload[0] as int + cursor, |payload|);
      if |b.data| != 0 {
        var r := Append(b, payload[cursor..continuationEnd]);
        b, completed := r.assembler, r.completed;
      }
      if |b.data| != 0 {
        b := EMPTY_SECTION;
      }
      cursor := continuationEnd;
    } else if |b.data| == 0 {
      return;
    }
    var more;
    b, more := AppendSections(b, payload, cursor);
    assert payload[0..] == payload && [] + more == more;
    completed := completed + more;
  }

  method AppendSections(a: SectionAssembler, payload: ByteString, start: nat)
    returns (b: SectionAssembler, completed: seq<ByteString>)
    requires start <= |payload|
    ensures (b, completed) == AppendAll(a, payload[start..])
  {
    hide Append;
    b, completed := a, [];
    var cursor := start;
    ghost var (end, all) := AppendAll(a, payload[start..]);
    assert [] + all == all;
    while cursor < |payload|
      invariant cursor <= |payload|
      invariant AppendAll(b, payload[cursor..]).0 == end
      invariant completed + AppendAll(b, payload[cursor..]).1 == all
      decreases |payload| - cursor
    {
      if payload[cursor] == 0xff {
        break;
      }
      var r := Append(b, payload[cursor..]);
      assert payload[cursor..][r.consumed..] == payload[cursor + r.consumed..];
      b, completed := r.assembler, completed + r.completed;
      if r.consumed == 0 {
        break;
      }
      cursor := cursor + r.consumed;
    }
    assert completed + [] == completed;
  }

  // ----- contents -----

  function ValidateSectionCrc(section: ByteString): Option<TsError> {
    if |section| < 4 then Some(TruncatedSection)
    else if Crc32(section) != ZERO then Some(InvalidSectionCrc)
    else None
  }

  /** The first non-zero program of a PAT, read from `cursor` on. */
  function PatEntry(section: ByteString, cursor: nat): Option<U16>
    requires 4 <= |section|
    decreases |section| - cursor
  {
    if cursor + 4 > |section| - 4 then None
    else if section[cursor] != 0 || section[cursor + 1] != 0 then Some(PidOf(section[cursor + 2], section[cursor + 3]))
    else PatEntry(section, cursor + 4)
  }

  function ParsePat(section: ByteString): Option<U16> {
    if |section| < 4 then None else PatEntry(section, 8)
  }

  method ParsePatPmtPid(section: ByteString) returns (pid: Option<U16>)
    ensures pid == ParsePat(section)
  {
    if |section| < 4 {
      return None;
    }
    var cursor := 8;
    while cursor + 4 <= |section| - 4
      invariant PatEntry(section, cursor) == ParsePat(section)
      decreases |section| - cursor
    {
      if section[cursor] != 0 || section[cursor + 1] != 0 {
        return Some(PidOf(section[cursor + 2], section[cursor + 3]));
      }
      cursor := cursor + 4;
    }
    return None;
  }

  datatype ProgramMap = ProgramMap(
    programNumber: U16, pmtPid: U16, pcrPid: U16, videoPid: U16, audioPid: U16, version: Byte)

  function Twelve(high: int, low: int): int {
    high % 16 * 256 + low
  }

  /** First H.264 (0x1b) and first AAC ADTS (0x0f) stream from `cursor` on. */
  function PmtStreams(section: ByteString, cursor: nat, video: Option<U16>, audio: Option<U16>)
    : (Option<U16>, Option<U16>)
    requires 4 <= |section|
    decreases |section| - cursor
  {
    if cursor + 5 > |section| - 4 then (video, audio)
    else
      var pid := PidOf(section[cursor + 1], section[cursor + 2]);
      PmtStreams(section, cursor + 5 + Twelve(section[cursor + 3], section[cursor + 4]),
                 if section[cursor] == 0x1b && video.None? then Some(pid) else video,
                 if section[cursor] == 0x0f && audio.None? then Some(pid) else audio)
  }

  function AssembleMap(section: ByteString, pmtPid: U16, video: Option<U16>, audio: Option<U16>)
    : Result<ProgramMap, TsError>
    requires 16 <= |section|
  {
    if video.None? then Err(MalformedPes("PMT has no H.264 stream"))
    else if audio.None? then Err(MalformedPes("PMT has no AAC ADTS stream"))
    else Ok(ProgramMap(JoinU16(section[3], section[4]), pmtPid, PidOf(section[8], section[9]), video.value, audio.value,
                       section[5] / 2 % 32))
  }

  function ParsePmt(section: ByteString, pmtPid: U16): Result<ProgramMap, TsError> {
    if |section| < 16 then Err(TruncatedSection)
    else
      var (video, audio) := PmtStreams(section, 12 + Twelve(section[10], section[11]), None, None);
      AssembleMap(section, pmtPid, video, audio)
  }

  method ParseProgramMap(section: ByteString, pmtPid: U16) returns (map_: Result<ProgramMap, TsError>)
    ensures map_ == ParsePmt(section, pmtPid)
  {
    if |section| < 16 {
      return Err(TruncatedSection);
    }
    var cursor := 12 + Twelve(section[10], section[11]);
    var end := |section| - 4;
    var video: Option<U16>, audio: Option<U16> := None, None;
    while cursor + 5 <= end
      invariant PmtStreams(section, cursor, video, audio)
                == PmtStreams(section, 12 + Twelve(section[10], section[11]), None, None)
      decreases |section| - cursor
    {
      var pid := PidOf(section[cursor + 1], section[cursor + 2]);
      if section[cursor] == 0x1b && video.None? {
        video := Some(pid);
      } else if section[cursor] == 0x0f && audio.None? {
        audio := Some(pid);
      }
      cursor := cursor + 5 + Twelve(section[cursor + 3], section[cursor + 4]);
    }
    return AssembleMap(section, pmtPid, video, audio);
  }

  // ----- the muxer's tables -----

  const PAT_BODY: ByteString := [0x00, 0xb0, 0x0d, 0x00, 0x01, 0xc1, 0x00, 0x00, 0x00, 0x01, 0xf0, 0x00]

  const PMT_BODY: ByteString := [
    0x02, 0xb0, 0x17, 0x00, 0x01, 0xc1, 0x00, 0x00, 0xe1, 0x00, 0xf0, 0x00,
    0x1b, 0xe1, 0x00, 0xf0, 0x00, 0x0f, 0xe1, 0x01, 0xf0, 0x00]

  function BuildPat(): ByteString { AppendCrc(PAT_BODY) }

  function BuildPmt(): ByteString { AppendCrc(PMT_BODY) }

  const PROGRAM: ProgramMap := ProgramMap(1, PMT_PID, VIDEO_PID, VIDEO_PID, AUDIO_PID, 0)

  /** A section the muxer closes with its CRC is accepted. */
  lemma AppendedCrcIsValid(body: ByteString)
    ensures ValidateSectionCrc(AppendCrc(body)) == None
  {
    ResidueZero(body, BigEndian(Crc32(body)));
  }

  /** Corruption confined to four consecutive bytes of a valid section is rejected. */
  lemma CorruptionRejected(before: ByteString, good: ByteString, bad: ByteString, after: ByteString)
    requires |good| == |bad| == 4 && good != bad
    requires ValidateSectionCrc(before + good + after) == None
    ensures ValidateSectionCrc(before + bad + after) == Some(InvalidSectionCrc)
  {
    BurstDetected(before, good, bad, after);
  }

  lemma PatParses(s: ByteString)
    requires |s| == 16 && s[..12] == PAT_BODY
    ensures ParsePat(s) == Some(PMT_PID)
  {
    assert s[8] == s[..12][8] && s[9] == s[..12][9] && s[10] == s[..12][10] && s[11] == s[..12][11];
  }

  lemma PmtParses(s: ByteString)
    requires |s| == 26 && s[..22] == PMT_BODY
    ensures ParsePmt(s, PMT_PID) == Ok(PROGRAM)
  {
    assert forall i :: 0 <= i < 22 ==> s[i] == s[..22][i];
    assert s[17] == 0x0f && s[18] == 0xe1 && s[19] == 0x01 && s[20] == 0xf0 && s[21] == 0x00;
    assert s[12] == 0x1b && s[13] == 0xe1 && s[14] == 0x00 && s[15] == 0xf0 && s[16] == 0x00;
    assert s[3] == 0x00 && s[4] == 0x01 && s[5] == 0xc1 && s[8] == 0xe1 && s[9] == 0x00 && s[10] == 0xf0
           && s[11] == 0x00;
    PmtFirstStream(s);
    assert Twelve(s[10], s[11]) == 0;
  }

  lemma PmtFirstStream(s: ByteString)
    requires |s| == 26
    requires s[12] == 0x1b && s[13] == 0xe1 && s[14] == 0x00 && s[15] == 0xf0 && s[16] == 0x00
    requires s[17] == 0x0f && s[18] == 0xe1 && s[19] == 0x01 && s[20] == 0xf0 && s[21] == 0x00
    ensures PmtStreams(s, 12, None, None) == (Some(VIDEO_PID), Some(AUDIO_PID))
  {
    PmtSecondStream(s);
    assert PidOf(s[13], s[14]) == VIDEO_PID && Twelve(s[15], s[16]) == 0;
  }

  lemma PmtSecondStream(s: ByteString)
    requires |s| == 26
    requires s[17] == 0x0f && s[18] == 0xe1 && s[19] == 0x01 && s[20] == 0xf0 && s[21] == 0x00
    ensures PmtStreams(s, 17, Some(VIDEO_PID), None) == (Some(VIDEO_PID), Some(AUDIO_PID))
  {
    assert PidOf(s[18], s[19]) == AUDIO_PID && Twelve(s[20], s[21]) == 0;
    assert PmtStreams(s, 22, Some(VIDEO_PID), Some(AUDIO_PID)) == (Some(VIDEO_PID), Some(AUDIO_PID));
  }

  predicate WholeSectionBytes(section: ByteString) {
    3 <= |section| && section[0] != 0xff && SectionLength(section[1], section[2]) == |section|
  }

  lemma AppendWhole(section: ByteString)
    requires WholeSectionBytes(section)
    ensures Append(EMPTY_SECTION, section) == Appended(EMPTY_SECTION, |section|, [section])
  {
    var n := |section|;
    assert [] + section[..3] == section[..3];
    assert section[..3] + section[3..3 + (n - 3)] == section;
  }

  /** One complete section behind a zero pointer field is returned at once. */
  lemma WholeSection(section: ByteString)
    requires WholeSectionBytes(section)
    ensures SectionPush(EMPTY_SECTION, [0] + section, true) == (EMPTY_SECTION, [section])
  {
    hide Append;
    var payload := [0] + section;
    assert payload[1..] == section;
    AppendWhole(section);
    assert section[|section|..] == [];
    assert AppendAll(EMPTY_SECTION, section) == (EMPTY_SECTION, [section] + []);
    assert [] + ([section] + []) == [section];
  }
}
