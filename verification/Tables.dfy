/** Program tables as ISO/IEC 13818-1, section 2.4.4, lays them out, and what the parsers make of every
    one of them (crates/mpegts/src/stream.rs:503-554). */
module Tables {
  import opened Bytes
  import opened TsPackets
  import opened Psi

  datatype Program = Program(number: U16, pid: Pid)

  /** `info` holds the descriptors of the stream. */
  datatype Stream = Stream(typeId: Byte, pid: Pid, info: ByteString)

  const H264_STREAM: Byte := 0x1b
  const ADTS_STREAM: Byte := 0x0f

  function High(n: int): Byte
    requires 0 <= n < 0x2000
  {
    n / 256
  }

  function Low(n: int): Byte
    requires 0 <= n
  {
    n % 256
  }

  function ProgramBytes(p: Program): (s: ByteString)
    ensures |s| == 4
  {
    [p.number / 256, Low(p.number), 0xe0 + High(p.pid), Low(p.pid)]
  }

  function ProgramsBytes(programs: seq<Program>): ByteString {
    if programs == [] then [] else ProgramBytes(programs[0]) + ProgramsBytes(programs[1..])
  }

  predicate Describable(info: ByteString) {
    |info| < 0x1000
  }

  function StreamBytes(s: Stream): (r: ByteString)
    requires Describable(s.info)
    ensures |r| == 5 + |s.info|
  {
    [s.typeId, 0xe0 + High(s.pid), Low(s.pid), 0xf0 + High(|s.info|), Low(|s.info|)] + s.info
  }

  predicate AllDescribable(streams: seq<Stream>) {
    forall i :: 0 <= i < |streams| ==> Describable(streams[i].info)
  }

  function StreamsBytes(streams: seq<Stream>): ByteString
    requires AllDescribable(streams)
  {
    if streams == [] then []
    else
      assert Describable(streams[0].info);
      StreamBytes(streams[0]) + StreamsBytes(streams[1..])
  }

  /** The PID of the first program that is not the network information table. */
  function FirstProgram(programs: seq<Program>): Option<U16> {
    if programs == [] then None
    else if programs[0].number != 0 then Some(programs[0].pid)
    else FirstProgram(programs[1..])
  }

  /** The PID of the first stream of a type. */
  function FirstStream(streams: seq<Stream>, typeId: Byte): Option<U16> {
    if streams == [] then None
    else if streams[0].typeId == typeId then Some(streams[0].pid)
    else FirstStream(streams[1..], typeId)
  }

  lemma PidReads(pid: Pid)
    ensures PidOf(0xe0 + High(pid), Low(pid)) == pid
  {
    assert (0xe0 + pid / 256) % 32 == pid / 256;
  }

  lemma TwelveReads(n: nat)
    requires n < 0x1000
    ensures Twelve(0xf0 + High(n), Low(n)) == n
  {
    assert (0xf0 + n / 256) % 16 == n / 256;
  }

  lemma SplitNumber(number: U16)
    ensures number / 256 == 0 && Low(number) == 0 <==> number == 0
  {
  }

  lemma {:induction false} ProgramsRead(front: ByteString, programs: seq<Program>, crc: ByteString)
    requires |crc| == 4
    ensures PatEntry(front + ProgramsBytes(programs) + crc, |front|) == FirstProgram(programs)
    decreases |programs|
  {
    hide High, Low, PidOf;
    var section := front + ProgramsBytes(programs) + crc;
    if programs != [] {
      var p, entry := programs[0], ProgramBytes(programs[0]);
      assert section == (front + entry) + ProgramsBytes(programs[1..]) + crc;
      assert forall i :: 0 <= i < 4 ==> section[|front| + i] == entry[i];
      PidReads(p.pid);
      SplitNumber(p.number);
      ProgramsRead(front + entry, programs[1..], crc);
      assert section[|front| + 0] == entry[0] && section[|front| + 1] == entry[1];
      assert section[|front| + 2] == entry[2] && section[|front| + 3] == entry[3];
    }
  }

  /** Every PAT gives the PID of its first real program, or none. */
  lemma PatReads(header: ByteString, programs: seq<Program>, crc: ByteString)
    requires |header| == 8 && |crc| == 4
    ensures ParsePat(header + ProgramsBytes(programs) + crc) == FirstProgram(programs)
  {
    hide PatEntry;
    ProgramsRead(header, programs, crc);
  }

  function Or(a: Option<U16>, b: Option<U16>): Option<U16> {
    if a.Some? then a else b
  }

  lemma StreamHead(front: ByteString, s: Stream, rest: ByteString)
    requires Describable(s.info)
    ensures var section := front + (StreamBytes(s) + rest);
            && section[|front|] == s.typeId && PidOf(section[|front| + 1], section[|front| + 2]) == s.pid
            && Twelve(section[|front| + 3], section[|front| + 4]) == |s.info|
            && section == (front + StreamBytes(s)) + rest
  {
    hide PidOf, Twelve, High, Low;
    var section, head := front + (StreamBytes(s) + rest), StreamBytes(s);
    assert forall i :: 0 <= i < 5 ==> section[|front| + i] == head[i];
    assert section[|front| + 0] == head[0] && section[|front| + 1] == head[1] && section[|front| + 2] == head[2];
    assert section[|front| + 3] == head[3] && section[|front| + 4] == head[4];
    PidReads(s.pid);
    TwelveReads(|s.info|);
  }

  lemma {:induction false} StreamsRead(front: ByteString, streams: seq<Stream>, crc: ByteString,
                                       video: Option<U16>, audio: Option<U16>)
    requires |crc| == 4 && AllDescribable(streams)
    ensures PmtStreams(front + StreamsBytes(streams) + crc, |front|, video, audio) ==
            (Or(video, FirstStream(streams, H264_STREAM)), Or(audio, FirstStream(streams, ADTS_STREAM)))
    decreases |streams|
  {
    hide PidOf, Twelve, StreamBytes;
    var section := front + StreamsBytes(streams) + crc;
    if streams != [] {
      var s, rest := streams[0], streams[1..];
      assert Describable(s.info);
      var bytes := StreamBytes(s);
      assert section == front + (bytes + (StreamsBytes(rest) + crc));
      StreamHead(front, s, StreamsBytes(rest) + crc);
      assert section == (front + bytes) + StreamsBytes(rest) + crc;
      StreamsRead(front + bytes, rest, crc,
                  if s.typeId == 0x1b && video.None? then Some(s.pid) else video,
                  if s.typeId == 0x0f && audio.None? then Some(s.pid) else audio);
    }
  }

  /** Every PMT with program descriptors `info` and any list of streams gives its first H.264 and its
      first ADTS stream, and is refused, in that order, if it has none. */
  lemma PmtReads(header: ByteString, info: ByteString, streams: seq<Stream>, crc: ByteString, pmtPid: U16)
    requires |header| == 12 && |crc| == 4 && AllDescribable(streams) && Twelve(header[10], header[11]) == |info|
    ensures var r := ParsePmt(header + info + StreamsBytes(streams) + crc, pmtPid);
            var video, audio := FirstStream(streams, H264_STREAM), FirstStream(streams, ADTS_STREAM);
            && (video.None? ==> r == Err(MalformedPes("PMT has no H.264 stream")))
            && (video.Some? && audio.None? ==> r == Err(MalformedPes("PMT has no AAC ADTS stream")))
            && (video.Some? && audio.Some? ==>
                  r == Ok(ProgramMap(JoinU16(header[3], header[4]), pmtPid, PidOf(header[8], header[9]), video.value,
                                     audio.value, header[5] / 2 % 32)))
  {
    hide PmtStreams, Twelve, PidOf;
    var section := header + info + StreamsBytes(streams) + crc;
    assert section[3] == header[3] && section[4] == header[4] && section[5] == header[5];
    assert section[8] == header[8] && section[9] == header[9] && section[10] == header[10] && section[11] == header[11];
    StreamsRead(header + info, streams, crc, None, None);
  }
}
