/** Elementary stream parsers: H.264 Annex B and AAC ADTS (crates/mpegts/src/elementary.rs). */
module Elementary {
  import opened Bytes

  datatype ElementaryError =
    | AnnexBStartCodeNotFound
    | EmptyNalUnit(offset: nat)
    | ForbiddenZeroBit(offset: nat)
    | TruncatedAdtsHeader(length: nat)
    | InvalidAdtsSync
    | InvalidAdtsLayer
    | InvalidAdtsSampleRate(index: nat)
    | UnsupportedAdtsProgramConfig
    | InvalidAdtsFrameLength(frameLength: nat, headerLength: nat)
    | TruncatedAdtsFrame(declared: nat, available: nat)

  // ----- Annex B -----

  datatype StartCode = StartCode(offset: nat, length: nat)

  datatype NalUnit = NalUnit(offset: nat, startCodeLength: nat, nalUnitType: nat, nalRefIdc: nat, bytes: ByteString)

  predicate ThreeByteCodeAt(data: ByteString, i: nat) {
    i + 3 <= |data| && data[i] == 0 && data[i + 1] == 0 && data[i + 2] == 1
  }

  predicate FourByteCodeAt(data: ByteString, i: nat) {
    i + 4 <= |data| && data[i] == 0 && data[i + 1] == 0 && data[i + 2] == 0 && data[i + 3] == 1
  }

  function NextStartCode(data: ByteString, from: nat): (code: Option<StartCode>)
    ensures code.Some? ==> from <= code.value.offset && code.value.offset + code.value.length <= |data|
                           && 3 <= code.value.length
    decreases |data| - from
  {
    if from + 3 > |data| then None
    else if ThreeByteCodeAt(data, from) then Some(StartCode(from, 3))
    else if FourByteCodeAt(data, from) then Some(StartCode(from, 4))
    else NextStartCode(data, from + 1)
  }

  method FindStartCode(data: ByteString, from: nat) returns (code: Option<StartCode>)
    ensures code == NextStartCode(data, from)
  {
    var offset := from;
    while offset + 3 <= |data|
      invariant NextStartCode(data, offset) == NextStartCode(data, from)
      decreases |data| - offset
    {
      if ThreeByteCodeAt(data, offset) {
        return Some(StartCode(offset, 3));
      }
      if FourByteCodeAt(data, offset) {
        return Some(StartCode(offset, 4));
      }
      offset := offset + 1;
    }
    return None;
  }

  function UnitAt(code: StartCode, bytes: ByteString): (unit: NalUnit)
    requires bytes != []
  {
    NalUnit(code.offset, code.length, bytes[0] % 32, bytes[0] / 32 % 4, bytes)
  }

  function EndOfUnit(data: ByteString, next: Option<StartCode>): nat {
    if next.Some? then next.value.offset else |data|
  }

  /** The units from a given start code to the end of the data. */
  function UnitsFrom(data: ByteString, code: StartCode): Result<seq<NalUnit>, ElementaryError>
    requires 3 <= code.length && code.offset + code.length <= |data|
    decreases |data| - code.offset
  {
    var begin := code.offset + code.length;
    var next := NextStartCode(data, begin);
    var bytes := data[begin..EndOfUnit(data, next)];
    if bytes == [] then Err(EmptyNalUnit(code.offset))
    else if bytes[0] >= 0x80 then Err(ForbiddenZeroBit(begin))
    else if next.None? then Ok([UnitAt(code, bytes)])
    else
      match UnitsFrom(data, next.value)
      case Err(e) => Err(e)
      case Ok(rest) => Ok([UnitAt(code, bytes)] + rest)
  }

  function AnnexBUnits(data: ByteString): Result<seq<NalUnit>, ElementaryError> {
    match NextStartCode(data, 0)
    case None => Err(AnnexBStartCodeNotFound)
    case Some(code) => UnitsFrom(data, code)
  }

  lemma UnitsStep(data: ByteString, code: StartCode, units: seq<NalUnit>)
    requires 3 <= code.length && code.offset + code.length <= |data|
    requires var begin := code.offset + code.length;
             var next := NextStartCode(data, begin);
             var bytes := data[begin..EndOfUnit(data, next)];
             next.Some? && bytes != [] && bytes[0] < 0x80
    ensures var begin := code.offset + code.length;
            var next := NextStartCode(data, begin);
            var bytes := data[begin..EndOfUnit(data, next)];
            After(units, UnitsFrom(data, code)) == After(units + [UnitAt(code, bytes)], UnitsFrom(data, next.value))
  {
    var begin := code.offset + code.length;
    var next := NextStartCode(data, begin);
    var bytes := data[begin..EndOfUnit(data, next)];
    var rest := UnitsFrom(data, next.value);
    if rest.Ok? {
      assert units + ([UnitAt(code, bytes)] + rest.value) == units + [UnitAt(code, bytes)] + rest.value;
    }
  }

  function After<T>(done: seq<T>, rest: Result<seq<T>, ElementaryError>): (r: Result<seq<T>, ElementaryError>)
    ensures done == [] ==> r == rest
  {
    match rest
    case Err(e) => Err(e)
    case Ok(more) =>
      assert done == [] ==> done + more == more;
      Ok(done + more)
  }

  method ParseAnnexB(data: ByteString) returns (r: Result<seq<NalUnit>, ElementaryError>)
    ensures r == AnnexBUnits(data)
  {
    var first := FindStartCode(data, 0);
    if first.None? {
      return Err(AnnexBStartCodeNotFound);
    }
    var units := [];
    var code := first.value;
    while true
      invariant 3 <= code.length && code.offset + code.length <= |data|
      invariant After(units, UnitsFrom(data, code)) == AnnexBUnits(data)
      decreases |data| - code.offset
    {
      var begin := code.offset + code.length;
      var next := FindStartCode(data, begin);
      var bytes := data[begin..EndOfUnit(data, next)];
      if |bytes| == 0 {
        return Err(EmptyNalUnit(code.offset));
      }
      if bytes[0] >= 0x80 {
        return Err(ForbiddenZeroBit(begin));
      }
      if next.None? {
        units := units + [UnitAt(code, bytes)];
        break;
      }
      UnitsStep(data, code, units);
      units := units + [UnitAt(code, bytes)];
      code := next.value;
    }
    return Ok(units);
  }

  /** The demuxer's keyframe flag: some unit is an IDR slice. */
  function ContainsIdr(data: ByteString): bool {
    match AnnexBUnits(data)
    case Err(_) => false
    case Ok(units) => exists i :: 0 <= i < |units| && units[i].nalUnitType == 5
  }

  // ----- ADTS -----

  const ADTS_SAMPLE_RATES: seq<nat> :=
    [96000, 88200, 64000, 48000, 44100, 32000, 24000, 22050, 16000, 12000, 11025, 8000, 7350]

  datatype AdtsHeader = AdtsHeader(
    mpegVersion: nat, audioObjectType: nat, sampleRateHz: nat, channelConfiguration: nat,
    frameLength: nat, headerLength: nat, rawDataBlocks: nat)

  datatype AdtsFrame = AdtsFrame(header: AdtsHeader, bytes: ByteString, payload: ByteString)

  function JoinFrameLength(high: int, middle: int, low: int): int {
    high * 2048 + middle * 8 + low
  }

  function JoinChannels(high: int, low: int): int {
    high * 4 + low
  }

  function ParseAdtsFrame(data: ByteString): (r: Result<AdtsFrame, ElementaryError>)
    ensures r.Ok? ==> 7 <= r.value.header.headerLength <= r.value.header.frameLength <= |data|
                      && r.value.bytes == data[..r.value.header.frameLength]
                      && r.value.payload == r.value.bytes[r.value.header.headerLength..]
  {
    if |data| < 7 then Err(TruncatedAdtsHeader(|data|))
    else if data[0] != 0xff || data[1] / 16 != 15 then Err(InvalidAdtsSync)
    else if data[1] / 2 % 4 != 0 then Err(InvalidAdtsLayer)
    else
      var headerLength := if data[1] % 2 == 1 then 7 else 9;
      var rate := data[2] / 4 % 16;
      var channels := JoinChannels(data[2] % 2, data[3] / 64);
      var frameLength := JoinFrameLength(data[3] % 4, data[4], data[5] / 32);
      if |data| < headerLength then Err(TruncatedAdtsHeader(|data|))
      else if rate >= |ADTS_SAMPLE_RATES| then Err(InvalidAdtsSampleRate(rate))
      else if channels == 0 then Err(UnsupportedAdtsProgramConfig)
      else if frameLength < headerLength then Err(InvalidAdtsFrameLength(frameLength, headerLength))
      else if |data| < frameLength then Err(TruncatedAdtsFrame(frameLength, |data|))
      else
        var bytes := data[..frameLength];
        Ok(AdtsFrame(
             AdtsHeader(data[1] / 8 % 2, data[2] / 64 + 1, ADTS_SAMPLE_RATES[rate], channels,
                        frameLength, headerLength, data[6] % 4),
             bytes, bytes[headerLength..]))
  }

  function AdtsFrames(data: ByteString): Result<seq<AdtsFrame>, ElementaryError>
    decreases |data|
  {
    if data == [] then Ok([])
    else
      match ParseAdtsFrame(data)
      case Err(e) => Err(e)
      case Ok(frame) =>
        match AdtsFrames(data[frame.header.frameLength..])
        case Err(e) => Err(e)
        case Ok(rest) => Ok([frame] + rest)
  }

  lemma FramesStep(data: ByteString, frames: seq<AdtsFrame>)
    requires ParseAdtsFrame(data).Ok?
    ensures var frame := ParseAdtsFrame(data).value;
            After(frames, AdtsFrames(data)) == After(frames + [frame], AdtsFrames(data[frame.header.frameLength..]))
  {
    hide ParseAdtsFrame;
    var frame := ParseAdtsFrame(data).value;
    var rest := AdtsFrames(data[frame.header.frameLength..]);
    if rest.Ok? {
      assert frames + ([frame] + rest.value) == frames + [frame] + rest.value;
    }
  }

  method ParseAdtsStream(data: ByteString) returns (r: Result<seq<AdtsFrame>, ElementaryError>)
    ensures r == AdtsFrames(data)
  {
    var frames := [];
    var rest := data;
    while rest != []
      invariant After(frames, AdtsFrames(rest)) == AdtsFrames(data)
      decreases |rest|
    {
      var frame := ParseAdtsFrame(rest);
      if frame.Err? {
        return Err(frame.error);
      }
      FramesStep(rest, frames);
      rest := rest[frame.value.header.frameLength..];
      frames := frames + [frame.value];
    }
    assert frames + [] == frames;
    return Ok(frames);
  }

  /** The data is exactly one ADTS frame. */
  predicate SingleAdtsFrame(data: ByteString) {
    var frame := ParseAdtsFrame(data);
    frame.Ok? && frame.value.header.frameLength == |data|
  }

  lemma SingleFrameStream(data: ByteString)
    requires SingleAdtsFrame(data)
    ensures AdtsFrames(data) == Ok([ParseAdtsFrame(data).value])
    ensures ParseAdtsFrame(data).value.bytes == data
  {
    var frame := ParseAdtsFrame(data).value;
    assert data[|data|..] == [];
    assert [frame] + [] == [frame];
  }
}
