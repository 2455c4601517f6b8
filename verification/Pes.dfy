/** PES packets: printing, parsing and reassembly (crates/mpegts/src/stream.rs). */
module Pes {
  import opened Bytes
  import opened Timestamps
  import opened TsPackets

  const MAX_PES_BYTES: nat := 8 * 1024 * 1024

  function BuildPes(streamId: Byte, pts: U64, dts: Option<U64>, data: ByteString): (s: ByteString)
    ensures |s| == PesHeaderLength(pts, dts) + |data|
  {
    var body := PesHeaderLength(pts, dts) - 6 + |data|;
    var declared := if body > 0xffff then 0 else body;
    PrintPesHeader(streamId, declared, HasDts(pts, dts)) + PrintPesTimes(pts, dts) + data
  }

  /** The DTS is transmitted only when it differs from the PTS. */
  predicate HasDts(pts: U64, dts: Option<U64>) {
    dts.Some? && dts.value != pts
  }

  function PesHeaderLength(pts: U64, dts: Option<U64>): nat {
    if HasDts(pts, dts) then 19 else 14
  }

  function PrintPesHeader(streamId: Byte, declared: U16, hasDts: bool): (s: ByteString)
    ensures |s| == 9
  {
    [0, 0, 1, streamId, declared / 256, declared % 256, 0x80, if hasDts then 0xc0 else 0x80, if hasDts then 10 else 5]
  }

  function PrintPesTimes(pts: U64, dts: Option<U64>): (s: ByteString)
    ensures |s| == PesHeaderLength(pts, dts) - 9
  {
    if HasDts(pts, dts) then EncodeTimestamp(3, pts) + EncodeTimestamp(1, dts.value) else EncodeTimestamp(2, pts)
  }

  datatype ParsedPes = ParsedPes(pts: nat, dts: Option<nat>, payload: ByteString)

  function ParsePes(data: ByteString): (r: Result<ParsedPes, TsError>)
    ensures r.Ok? ==> r.value.pts < PTS_MODULUS && (r.value.dts.Some? ==> r.value.dts.value < PTS_MODULUS)
  {
    if |data| < 9 || data[..3] != [0, 0, 1] then Err(MalformedPes("missing start code or fixed header"))
    else if 9 + data[8] > |data| then Err(MalformedPes("truncated optional header"))
    else
      var payload := data[9 + data[8]..];
      var flags := data[7] / 64;
      if flags != 2 && flags != 3 then Err(MalformedPes("PTS is required"))
      else if |data| < 14 then Err(MalformedPes("truncated PTS"))
      else
        match DecodeTimestamp(data[9..14])
        case None => Err(MalformedPes("invalid timestamp marker bits"))
        case Some(pts) =>
          if flags == 2 then Ok(ParsedPes(pts, None, payload))
          else if |data| < 19 then Err(MalformedPes("truncated DTS"))
          else
            match DecodeTimestamp(data[14..19])
            case None => Err(MalformedPes("invalid timestamp marker bits"))
            case Some(dts) => Ok(ParsedPes(pts, Some(dts), payload))
  }

  lemma PesRoundTrip(streamId: Byte, pts: U64, dts: Option<U64>, data: ByteString)
    ensures ParsePes(BuildPes(streamId, pts, dts, data))
            == Ok(ParsedPes(pts % PTS_MODULUS,
                            if HasDts(pts, dts) then Some(dts.value % PTS_MODULUS) else None, data))
  {
    var s := BuildPes(streamId, pts, dts, data);
    var n := PesHeaderLength(pts, dts);
    var declared := if n - 6 + |data| > 0xffff then 0 else n - 6 + |data|;
    assert s[..9] == PrintPesHeader(streamId, declared, HasDts(pts, dts));
    assert s[..3] == s[..9][..3] && s[7] == s[..9][7] && s[8] == s[..9][8];
    assert s[9..n] == PrintPesTimes(pts, dts);
    assert s[9..14] == s[9..n][..5];
    assert s[n..] == data;
    if HasDts(pts, dts) {
      assert s[14..19] == s[9..n][5..];
      TimestampRoundTrip(3, pts);
      TimestampRoundTrip(1, dts.value);
    } else {
      TimestampRoundTrip(2, pts);
    }
  }

  /** The declared length read back from the first bytes of a printed packet. */
  lemma DeclaredLength(streamId: Byte, pts: U64, dts: Option<U64>, data: ByteString)
    ensures var s := BuildPes(streamId, pts, dts, data);
            && JoinU16(s[4], s[5]) == (if |s| - 6 > 0xffff then 0 else |s| - 6)
  {
    var s := BuildPes(streamId, pts, dts, data);
    var n := PesHeaderLength(pts, dts);
    var declared := if n - 6 + |data| > 0xffff then 0 else n - 6 + |data|;
    var header := PrintPesHeader(streamId, declared, HasDts(pts, dts));
    assert s[4] == header[4] && s[5] == header[5];
  }

  // ----- reassembly -----

  datatype PesAssembler = PesAssembler(data: ByteString, expected: Option<nat>)

  const EMPTY_PES: PesAssembler := PesAssembler([], None)

  function UpdateExpected(a: PesAssembler): PesAssembler {
    if |a.data| >= 6 && a.expected.None? && JoinU16(a.data[4], a.data[5]) != 0
    then a.(expected := Some(6 + JoinU16(a.data[4], a.data[5])))
    else a
  }

  /** A unit start: the new state and the unit that was still open. */
  function PesStart(a: PesAssembler, payload: ByteString): (PesAssembler, Result<Option<ByteString>, TsError>) {
    if |payload| > MAX_PES_BYTES then (EMPTY_PES, Err(PesBufferOverflow))
    else (UpdateExpected(PesAssembler(payload, None)), Ok(if a.data == [] then None else Some(a.data)))
  }

  /** A continuation, ignored when no unit is open. */
  function PesPush(a: PesAssembler, payload: ByteString): (PesAssembler, Option<TsError>) {
    if a.data == [] then (a, None)
    else if |a.data| + |payload| > MAX_PES_BYTES then (EMPTY_PES, Some(PesBufferOverflow))
    else (UpdateExpected(a.(data := a.data + payload)), None)
  }

  function PesTakeComplete(a: PesAssembler): (PesAssembler, Option<ByteString>) {
    if a.expected.Some? && a.expected.value <= |a.data|
    then (PesAssembler(a.data[a.expected.value..], None), Some(a.data[..a.expected.value]))
    else (a, None)
  }

  function PesFinish(a: PesAssembler): (PesAssembler, Option<ByteString>) {
    (EMPTY_PES, if a.data == [] then None else Some(a.data))
  }
}
