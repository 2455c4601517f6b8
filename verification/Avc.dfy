/** H.264 on RTMP (crates/rtmp/src/avc.rs): Annex B access units to length-prefixed AVCC and back. */
module Avc {
  import opened Bytes
  import opened Elementary

  const START_CODE: ByteString := [0, 0, 0, 1]
  const MAX_ACCESS_UNIT_BYTES: nat := 16_777_216
  const MAX_CONFIG_BYTES: nat := 262_144
  const MIN_OFFSET: int := -8_388_608
  const MAX_OFFSET: int := 8_388_607

  datatype AvcError =
    | UnsupportedFormat
    | MissingConfig
    | InvalidConfig
    | InvalidAvcc
    | InvalidAnnexB
    | InvalidCompositionOffset
    | MissingParameterSets

  /** The decoder configuration record as the RTMP library takes it apart. */
  datatype AvcHeader = AvcHeader(profile: Byte, compatibility: Byte, level: Byte, lengthSizeMinusOne: Byte,
                                 sps: seq<ByteString>, pps: seq<ByteString>)

  /** The RTMP library's own encoding of that record, which is not part of this model. */
  datatype HeaderCodec = HeaderCodec(toBytes: AvcHeader -> Option<ByteString>,
                                     fromBytes: ByteString -> Option<AvcHeader>)

  /** The one thing assumed of it: what it encodes, it decodes to the same record. */
  ghost predicate Lossless(codec: HeaderCodec) {
    forall h :: codec.toBytes(h).Some? ==> codec.fromBytes(codec.toBytes(h).value) == Some(h)
  }

  datatype PacketKind = SequenceHeader | NalUnits | EndOfSequence

  datatype VideoFrame = VideoFrame(timestamp: U32, offset: int, avc: bool, kind: Option<PacketKind>, keyframe: bool,
                                   payload: ByteString)

  datatype AccessUnit = AccessUnit(dts: U32, pts: int, keyframe: bool, annexB: ByteString)

  // ----- NAL units and their two framings -----

  function NalType(unit: ByteString): nat
    requires unit != []
  {
    unit[0] as int % 32
  }

  predicate IsParameterSet(unit: ByteString) {
    unit != [] && (NalType(unit) == 7 || NalType(unit) == 8)
  }

  /** A unit that both framings can carry. */
  predicate GoodUnit(unit: ByteString) {
    && 0 < |unit| < 0x1_0000_0000 && unit[0] < 0x80
    && forall i :: 0 <= i < |unit| ==> !ThreeByteCodeAt(unit, i)
  }

  predicate GoodUnits(units: seq<ByteString>) {
    forall i :: 0 <= i < |units| ==> GoodUnit(units[i])
  }

  predicate HasIdr(units: seq<ByteString>) {
    exists i :: 0 <= i < |units| && units[i] != [] && NalType(units[i]) == 5
  }

  function LengthField(n: nat): (s: ByteString)
    requires n < 0x1_0000_0000
    ensures |s| == 4
  {
    [n / 0x100_0000, n / 0x1_0000 % 0x100, n / 0x100 % 0x100, n % 0x100]
  }

  function BigEndianValue(s: ByteString): nat {
    if s == [] then 0 else BigEndianValue(s[..|s| - 1]) * 0x100 + s[|s| - 1] as int
  }

  function FramedSize(units: seq<ByteString>): nat {
    if units == [] then 0 else 4 + |units[0]| + FramedSize(units[1..])
  }

  function Avcc(units: seq<ByteString>): (s: ByteString)
    requires GoodUnits(units)
    ensures |s| == FramedSize(units)
  {
    if units == [] then [] else LengthField(|units[0]|) + units[0] + Avcc(units[1..])
  }

  function AnnexB(units: seq<ByteString>): (s: ByteString)
    ensures |s| == FramedSize(units)
  {
    if units == [] then [] else START_CODE + units[0] + AnnexB(units[1..])
  }

  /** Where the first length-prefixed unit ends, `None` if it is empty, cut short or not a NAL unit. */
  function FirstUnitEnd(data: ByteString, lengthBytes: nat): (end: Option<nat>)
    ensures end.Some? ==> lengthBytes < end.value <= |data|
  {
    if |data| < lengthBytes then None
    else
      var end := lengthBytes + BigEndianValue(data[..lengthBytes]);
      if end > |data| || end == lengthBytes || data[lengthBytes] >= 0x80 then None else Some(end)
  }

  /** Units with a length field of `lengthBytes` bytes each, to the end of the data. */
  function AvccFrom(data: ByteString, lengthBytes: nat): Result<seq<ByteString>, AvcError>
    decreases |data|
  {
    if data == [] then Ok([])
    else
      match FirstUnitEnd(data, lengthBytes)
      case None => Err(InvalidAvcc)
      case Some(end) =>
        match AvccFrom(data[end..], lengthBytes)
        case Err(e) => Err(e)
        case Ok(rest) => Ok([data[lengthBytes..end]] + rest)
  }

  function AvccUnits(data: ByteString, lengthBytes: nat): Result<seq<ByteString>, AvcError>
    requires lengthBytes > 0
  {
    if data == [] then Err(InvalidAvcc) else AvccFrom(data, lengthBytes)
  }

  lemma ValueSnoc(s: ByteString, b: Byte)
    ensures BigEndianValue(s + [b]) == BigEndianValue(s) * 0x100 + b as int
  {
    assert (s + [b])[..|s|] == s;
  }

  lemma Digits(n: nat)
    ensures n / 0x1_0000 == n / 0x100_0000 * 0x100 + n / 0x1_0000 % 0x100
    ensures n / 0x100 == n / 0x1_0000 * 0x100 + n / 0x100 % 0x100
    ensures n == n / 0x100 * 0x100 + n % 0x100
  {
  }

  lemma LengthFieldReads(n: nat)
    requires n < 0x1_0000_0000
    ensures BigEndianValue(LengthField(n)) == n
  {
    hide BigEndianValue;
    var s := LengthField(n);
    assert s == [] + [s[0]] + [s[1]] + [s[2]] + [s[3]];
    ValueOfNothing();
    ValueSnoc([], s[0]);
    ValueSnoc([] + [s[0]], s[1]);
    ValueSnoc([] + [s[0]] + [s[1]], s[2]);
    ValueSnoc([] + [s[0]] + [s[1]] + [s[2]], s[3]);
    Digits(n);
  }

  lemma ValueOfNothing()
    ensures BigEndianValue([]) == 0
  {
  }

  /** Reading AVCC data returns the units it was made from. */
  lemma {:induction false} AvccRoundTrip(units: seq<ByteString>)
    requires GoodUnits(units)
    ensures AvccFrom(Avcc(units), 4) == Ok(units)
    decreases |units|
  {
    hide LengthField, BigEndianValue;
    if units != [] {
      var unit, rest := units[0], Avcc(units[1..]);
      var data := Avcc(units);
      LengthFieldReads(|unit|);
      assert data[..4] == LengthField(|unit|);
      assert data[4..4 + |unit|] == unit && data[4 + |unit|..] == rest;
      assert data[4] == unit[0];
      AvccRoundTrip(units[1..]);
      assert [unit] + units[1..] == units;
    }
  }

  // ----- Annex B in both directions -----

  function UnitBytes(units: seq<NalUnit>): (r: seq<ByteString>)
    ensures |r| == |units| && forall i :: 0 <= i < |r| ==> r[i] == units[i].bytes
  {
    seq(|units|, i requires 0 <= i < |units| => units[i].bytes)
  }

  /** Units as the Annex B parser returns them. */
  predicate WellParsed(units: seq<NalUnit>) {
    forall i :: 0 <= i < |units| ==> GoodUnit(units[i].bytes) && units[i].nalUnitType == NalType(units[i].bytes)
  }

  lemma {:induction false} NoCodeBefore(data: ByteString, from: nat, i: nat)
    requires from <= i
    requires i < (if NextStartCode(data, from).Some? then NextStartCode(data, from).value.offset else |data|)
    ensures !ThreeByteCodeAt(data, i) && !FourByteCodeAt(data, i)
    decreases i - from
  {
    if from < i {
      NoCodeBefore(data, from + 1, i);
    }
  }

  predicate CodeAt(data: ByteString, i: nat) {
    ThreeByteCodeAt(data, i) || FourByteCodeAt(data, i)
  }

  lemma {:induction false} FirstCodeIs(data: ByteString, from: nat, at: nat)
    requires from <= at && FourByteCodeAt(data, at)
    requires forall i :: from <= i < at ==> !CodeAt(data, i)
    ensures NextStartCode(data, from) == Some(StartCode(at, 4))
    decreases at - from
  {
    if from < at {
      assert !CodeAt(data, from);
      FirstCodeIs(data, from + 1, at);
    }
  }

  lemma {:induction false} NoCodeAtAll(data: ByteString, from: nat)
    requires forall i :: from <= i < |data| ==> !CodeAt(data, i)
    ensures NextStartCode(data, from) == None
    decreases |data| - from
  {
    if from + 3 <= |data| {
      assert !CodeAt(data, from);
      NoCodeAtAll(data, from + 1);
    }
  }

  lemma SliceCode(data: ByteString, begin: nat, end: nat, i: nat)
    requires begin <= end <= |data| && i < end - begin
    ensures ThreeByteCodeAt(data[begin..end], i) ==> ThreeByteCodeAt(data, begin + i)
  {
  }

  /** A slice that ends where the next start code begins holds no start code itself. */
  lemma SliceIsGood(data: ByteString, begin: nat)
    requires begin <= |data| < 0x1_0000_0000
    ensures var unit := data[begin..EndOfUnit(data, NextStartCode(data, begin))];
            unit != [] && unit[0] < 0x80 ==> GoodUnit(unit)
  {
    var end := EndOfUnit(data, NextStartCode(data, begin));
    var unit := data[begin..end];
    forall i | 0 <= i < |unit| ensures !ThreeByteCodeAt(unit, i) {
      NoCodeBefore(data, begin, begin + i);
      SliceCode(data, begin, end, i);
    }
  }

  /** Everything the Annex B parser returns can be framed again, and carries its own type. */
  lemma {:induction false} ParsedFromAreGood(data: ByteString, code: StartCode)
    requires 3 <= code.length && code.offset + code.length <= |data| < 0x1_0000_0000
    ensures var r := UnitsFrom(data, code);
            r.Ok? ==> r.value != [] && WellParsed(r.value)
    decreases |data| - code.offset
  {
    hide NextStartCode;
    var begin := code.offset + code.length;
    SliceIsGood(data, begin);
    var next := NextStartCode(data, begin);
    if next.Some? {
      ParsedFromAreGood(data, next.value);
    }
  }

  lemma ParsedAreGood(data: ByteString)
    requires |data| < 0x1_0000_0000
    ensures var r := AnnexBUnits(data);
            r.Ok? ==> r.value != [] && WellParsed(r.value)
  {
    hide UnitsFrom;
    var first := NextStartCode(data, 0);
    if first.Some? {
      ParsedFromAreGood(data, first.value);
    }
  }

  /** Around the seam between a good unit and the start code behind it, no code begins early. */
  lemma NoEarlyCode(data: ByteString, begin: nat, unit: ByteString, i: nat)
    requires GoodUnit(unit) && begin + |unit| <= |data| && data[begin..begin + |unit|] == unit
    requires begin + |unit| == |data| || FourByteCodeAt(data, begin + |unit|)
    requires begin <= i < begin + |unit|
    ensures !ThreeByteCodeAt(data, i) && !FourByteCodeAt(data, i)
  {
    var k := i - begin;
    assert unit[k] == data[i];
    assert !ThreeByteCodeAt(unit, k);
    assert k + 1 < |unit| ==> unit[k + 1] == data[i + 1] && !ThreeByteCodeAt(unit, k + 1);
    assert k + 2 < |unit| ==> unit[k + 2] == data[i + 2];
    assert k + 3 < |unit| ==> unit[k + 3] == data[i + 3];
  }

  /** The start code behind a good unit is the next one the scan finds. */
  lemma NextAfterUnit(data: ByteString, begin: nat, unit: ByteString)
    requires GoodUnit(unit) && begin + |unit| <= |data| && data[begin..begin + |unit|] == unit
    requires begin + |unit| == |data| || FourByteCodeAt(data, begin + |unit|)
    ensures NextStartCode(data, begin) ==
            if begin + |unit| == |data| then None else Some(StartCode(begin + |unit|, 4))
  {
    hide NextStartCode, GoodUnit, ThreeByteCodeAt, FourByteCodeAt;
    forall i | begin <= i < begin + |unit| ensures !CodeAt(data, i) {
      NoEarlyCode(data, begin, unit, i);
    }
    if begin + |unit| == |data| {
      NoCodeAtAll(data, begin);
    } else {
      FirstCodeIs(data, begin, begin + |unit|);
    }
  }

  lemma FramesLineUp(prefix: ByteString, units: seq<ByteString>)
    requires units != []
    ensures var data := prefix + AnnexB(units);
            var begin := |prefix| + 4;
            && begin + |units[0]| <= |data| && data[begin..begin + |units[0]|] == units[0]
            && data == prefix + START_CODE + units[0] + AnnexB(units[1..])
            && (|units| == 1 ==> begin + |units[0]| == |data|)
            && (|units| > 1 ==> FourByteCodeAt(data, begin + |units[0]|))
  {
    hide FourByteCodeAt;
    var rest := units[1..];
    Seam(prefix, units[0], AnnexB(rest));
    if |units| > 1 {
      StartsWithCode(rest);
      CodeAtSeam(prefix + START_CODE + units[0], AnnexB(rest)[4..]);
    }
  }

  lemma StartsWithCode(units: seq<ByteString>)
    requires units != []
    ensures 4 <= |AnnexB(units)| && AnnexB(units) == START_CODE + AnnexB(units)[4..]
  {
    hide FourByteCodeAt;
  }

  lemma Seam(prefix: ByteString, unit: ByteString, rest: ByteString)
    ensures var data := prefix + (START_CODE + unit + rest);
            && data == prefix + START_CODE + unit + rest
            && data[|prefix| + 4..|prefix| + 4 + |unit|] == unit
  {
  }

  lemma CodeAtSeam(front: ByteString, tail: ByteString)
    ensures FourByteCodeAt(front + (START_CODE + tail), |front|)
  {
  }

  lemma {:induction false} ReparseFrom(prefix: ByteString, units: seq<ByteString>)
    requires units != [] && GoodUnits(units)
    ensures var r := UnitsFrom(prefix + AnnexB(units), StartCode(|prefix|, 4));
            r.Ok? && UnitBytes(r.value) == units
    decreases |units|
  {
    hide NextStartCode, AnnexB, FourByteCodeAt, ThreeByteCodeAt;
    FramesLineUp(prefix, units);
    var data, front := prefix + AnnexB(units), prefix + START_CODE + units[0];
    NextAfterUnit(data, |prefix| + 4, units[0]);
    if |units| > 1 {
      ReparseFrom(front, units[1..]);
    }
  }

  /** Parsing Annex B data returns the units it was made from, trailing zero bytes included. */
  lemma AnnexBRoundTrip(units: seq<ByteString>)
    requires units != [] && GoodUnits(units)
    ensures AnnexBUnits(AnnexB(units)).Ok? && UnitBytes(AnnexBUnits(AnnexB(units)).value) == units
  {
    hide UnitsFrom;
    var data := AnnexB(units);
    assert data == START_CODE + units[0] + AnnexB(units[1..]);
    FirstCodeIs(data, 0, 0);
    assert [] + data == data;
    ReparseFrom([], units);
  }

  /** The demultiplexer's keyframe flag is set exactly when one of the units is an IDR slice; what it hands out
      has at most 8 MiB. */
  lemma IdrIsFound(units: seq<ByteString>)
    requires units != [] && GoodUnits(units) && FramedSize(units) <= 8 * 1024 * 1024
    ensures ContainsIdr(AnnexB(units)) <==> HasIdr(units)
  {
    hide AnnexBUnits, AnnexB, GoodUnit;
    AnnexBRoundTrip(units);
    ParsedAreGood(AnnexB(units));
    var parsed := AnnexBUnits(AnnexB(units)).value;
    assert forall i :: 0 <= i < |units| ==> units[i] == parsed[i].bytes && units[i] != [] by {
      assert forall i :: 0 <= i < |units| ==> UnitBytes(parsed)[i] == units[i];
      assert forall i :: 0 <= i < |units| ==> GoodUnit(units[i]);
      NotEmpty(units);
    }
  }

  lemma NotEmpty(units: seq<ByteString>)
    requires GoodUnits(units)
    ensures forall i :: 0 <= i < |units| ==> units[i] != []
  {
  }

  // ----- the receiving side -----

  datatype DecoderConfig = DecoderConfig(lengthBytes: nat, sps: seq<ByteString>, pps: seq<ByteString>)

  datatype Ingest = Ingest(config: Option<DecoderConfig>, waiting: bool)

  const FRESH_INGEST: Ingest := Ingest(None, false)

  predicate IngestInv(s: Ingest) {
    s.config.Some? ==> s.config.value.lengthBytes > 0
  }

  function ParseConfig(codec: HeaderCodec, data: ByteString): (r: Result<DecoderConfig, AvcError>)
    ensures r.Ok? ==> r.value.lengthBytes in {1, 2, 4}
  {
    if |data| > MAX_CONFIG_BYTES then Err(InvalidConfig)
    else
      match codec.fromBytes(data)
      case None => Err(InvalidConfig)
      case Some(header) =>
        var lengthBytes := header.lengthSizeMinusOne as int + 1;
        if lengthBytes == 1 || lengthBytes == 2 || lengthBytes == 4
        then Ok(DecoderConfig(lengthBytes, header.sps, header.pps))
        else Err(InvalidConfig)
  }

  function WithoutParameterSets(units: seq<ByteString>): (r: seq<ByteString>)
  {
    if units == [] then []
    else (if IsParameterSet(units[0]) then [] else [units[0]]) + WithoutParameterSets(units[1..])
  }

  /** What one parsed access unit becomes. */
  function Assemble(s: Ingest, frame: VideoFrame, units: seq<ByteString>)
    : (Ingest, Result<Option<AccessUnit>, AvcError>)
    requires s.config.Some?
  {
    var idr := HasIdr(units);
    if s.waiting && !idr then (s, Ok(None))
    else
      var prefix := if s.waiting then s.config.value.sps + s.config.value.pps else [];
      var kept := prefix + WithoutParameterSets(units);
      if FramedSize(kept) > MAX_ACCESS_UNIT_BYTES || kept == [] then (s, Err(InvalidAvcc))
      else (s.(waiting := s.waiting && !idr),
            Ok(Some(AccessUnit(frame.timestamp, frame.timestamp + frame.offset, idr, AnnexB(kept)))))
  }

  function IngestPush(codec: HeaderCodec, s: Ingest, frame: VideoFrame)
    : (r: (Ingest, Result<Option<AccessUnit>, AvcError>))
    requires IngestInv(s)
    ensures IngestInv(r.0)
  {
    if !frame.avc || frame.kind.None? then (s, Err(UnsupportedFormat))
    else
      match frame.kind.value
      case SequenceHeader =>
        (match ParseConfig(codec, frame.payload)
         case Err(e) => (s, Err(e))
         case Ok(config) => (Ingest(Some(config), true), Ok(None)))
      case EndOfSequence => (s.(waiting := true), Ok(None))
      case NalUnits =>
        if |frame.payload| > MAX_ACCESS_UNIT_BYTES then (s, Err(InvalidAvcc))
        else if s.config.None? then (s, Err(MissingConfig))
        else
          match AvccUnits(frame.payload, s.config.value.lengthBytes)
          case Err(e) => (s, Err(e))
          case Ok(units) => Assemble(s, frame, units)
  }

  // ----- the publishing side -----

  datatype Publisher = Publisher(sps: seq<ByteString>, pps: seq<ByteString>, headerSent: bool)

  const FRESH_PUBLISHER: Publisher := Publisher([], [], false)

  function OfType(units: seq<NalUnit>, nalType: nat): seq<ByteString> {
    if units == [] then []
    else (if units[0].nalUnitType == nalType then [units[0].bytes] else []) + OfType(units[1..], nalType)
  }

  function MediaOf(units: seq<NalUnit>): seq<ByteString> {
    if units == [] then []
    else (if units[0].nalUnitType == 7 || units[0].nalUnitType == 8 then [] else [units[0].bytes]) + MediaOf(units[1..])
  }

  /** New parameter sets replace the known ones, which makes a new header due. */
  function Learn(p: Publisher, units: seq<NalUnit>): (Publisher, bool) {
    var nextSps, nextPps := OfType(units, 7), OfType(units, 8);
    var newSps, newPps := nextSps != [] && nextSps != p.sps, nextPps != [] && nextPps != p.pps;
    (Publisher(if newSps then nextSps else p.sps, if newPps then nextPps else p.pps,
               p.headerSent && !newSps && !newPps),
     newSps || newPps)
  }

  predicate HeaderDue(p: Publisher) {
    !p.headerSent && p.sps != [] && p.pps != []
  }

  function BuildHeader(codec: HeaderCodec, p: Publisher): Result<ByteString, AvcError> {
    if p.sps == [] || |p.sps[0]| < 4 then Err(InvalidAnnexB)
    else
      var header := AvcHeader(p.sps[0][1], p.sps[0][2], p.sps[0][3], 3, p.sps, p.pps);
      match codec.toBytes(header)
      case None => Err(InvalidAnnexB)
      case Some(bytes) => Ok(bytes)
  }

  function MediaFrame(dts: U32, offset: int, idr: bool, media: seq<ByteString>): VideoFrame
    requires GoodUnits(media)
  {
    VideoFrame(dts, offset, true, Some(NalUnits), idr, Avcc(media))
  }

  function HeaderFrame(dts: U32, payload: ByteString): VideoFrame {
    VideoFrame(dts, 0, true, Some(SequenceHeader), true, payload)
  }

  function PublishUnits(codec: HeaderCodec, p: Publisher, dts: U32, offset: int, units: seq<NalUnit>):
    (Publisher, Result<seq<VideoFrame>, AvcError>)
    requires WellParsed(units)
  {
    MediaIsGood(units);
    var (learned, changed) := Learn(p, units);
    var idr, media := OfType(units, 5) != [], MediaOf(units);
    if (idr || changed) && (learned.sps == [] || learned.pps == []) then (learned, Err(MissingParameterSets))
    else
      var due := HeaderDue(learned);
      var header := if due then BuildHeader(codec, learned) else Ok([]);
      if header.Err? then (learned, Err(header.error))
      else
        var done := learned.(headerSent := learned.headerSent || due);
        var frames := if due then [HeaderFrame(dts, header.value)] else [];
        if media == [] then (done, Ok(frames))
        else if FramedSize(media) > MAX_ACCESS_UNIT_BYTES then (done, Err(InvalidAnnexB))
        else (done, Ok(frames + [MediaFrame(dts, offset, idr, media)]))
  }

  lemma {:induction false} TypeIsGood(units: seq<NalUnit>, nalType: nat)
    requires WellParsed(units)
    ensures GoodUnits(OfType(units, nalType))
    decreases |units|
  {
    hide GoodUnit;
    if units != [] {
      TypeIsGood(units[1..], nalType);
    }
  }

  lemma {:induction false} MediaIsGood(units: seq<NalUnit>)
    requires WellParsed(units)
    ensures GoodUnits(MediaOf(units))
    ensures forall i :: 0 <= i < |MediaOf(units)| ==> GoodUnit(MediaOf(units)[i]) && !IsParameterSet(MediaOf(units)[i])
    decreases |units|
  {
    if units != [] {
      MediaIsGood(units[1..]);
    }
  }

  lemma HasIdrCons(unit: ByteString, rest: seq<ByteString>)
    requires GoodUnit(unit)
    ensures HasIdr([unit] + rest) <==> NalType(unit) == 5 || HasIdr(rest)
  {
    var all := [unit] + rest;
    if NalType(unit) == 5 {
      assert all[0] == unit;
    }
    if HasIdr(rest) {
      var i :| 0 <= i < |rest| && rest[i] != [] && NalType(rest[i]) == 5;
      assert all[i + 1] == rest[i];
    }
  }

  lemma {:induction false} IdrIsMedia(units: seq<NalUnit>)
    requires WellParsed(units)
    ensures GoodUnits(MediaOf(units)) && (HasIdr(MediaOf(units)) <==> OfType(units, 5) != [])
    decreases |units|
  {
    hide GoodUnit, HasIdr, GoodUnits;
    MediaIsGood(units);
    if units == [] {
      NoIdrInNothing();
    } else {
      MediaIsGood(units[1..]);
      IdrIsMedia(units[1..]);
      var media, rest := MediaOf(units), MediaOf(units[1..]);
      if units[0].nalUnitType == 7 || units[0].nalUnitType == 8 {
        assert media == rest;
      } else {
        HasIdrCons(units[0].bytes, rest);
      }
    }
  }

  lemma NoIdrInNothing()
    ensures !HasIdr([])
  {
  }

  // ----- the objects -----

  method FindUnitEnd(data: ByteString, lengthBytes: nat) returns (end: Option<nat>)
    ensures end == FirstUnitEnd(data, lengthBytes)
  {
    if |data| < lengthBytes {
      return None;
    }
    var field, length := data[..lengthBytes], 0;
    for i := 0 to lengthBytes
      invariant length == BigEndianValue(field[..i])
    {
      assert field[..i + 1][..i] == field[..i];
      length := length * 0x100 + field[i] as int;
    }
    assert field[..lengthBytes] == field;
    if lengthBytes + length > |data| || length == 0 || data[lengthBytes] >= 0x80 {
      return None;
    }
    return Some(lengthBytes + length);
  }

  method ParseAvccUnits(data: ByteString, lengthBytes: nat) returns (r: Result<seq<ByteString>, AvcError>)
    requires lengthBytes > 0
    ensures r == AvccUnits(data, lengthBytes)
  {
    hide FirstUnitEnd, AvccFrom;
    var units := [];
    var offset := 0;
    assert data[0..] == data;
    BehindNothing(AvccFrom(data, lengthBytes));
    while offset < |data|
      invariant offset <= |data| && (offset > 0 ==> units != [])
      invariant AvccFrom(data, lengthBytes) == Behind(units, AvccFrom(data[offset..], lengthBytes))
    {
      ghost var rest := data[offset..];
      var end := FindUnitEnd(data[offset..], lengthBytes);
      AvccStep(rest, lengthBytes, units);
      if end.None? {
        return Err(InvalidAvcc);
      }
      units := units + [data[offset..][lengthBytes..end.value]];
      assert data[offset + end.value..] == rest[end.value..];
      offset := offset + end.value;
    }
    assert data[offset..] == [];
    AvccStep([], lengthBytes, units);
    return if units == [] then Err(InvalidAvcc) else Ok(units);
  }

  function Behind(done: seq<ByteString>, rest: Result<seq<ByteString>, AvcError>): Result<seq<ByteString>, AvcError> {
    match rest
    case Err(e) => Err(e)
    case Ok(more) => Ok(done + more)
  }

  lemma BehindNothing(rest: Result<seq<ByteString>, AvcError>)
    ensures Behind([], rest) == rest
  {
    assert rest.Ok? ==> [] + rest.value == rest.value;
  }

  lemma AvccStep(rest: ByteString, lengthBytes: nat, units: seq<ByteString>)
    ensures Behind(units, AvccFrom(rest, lengthBytes)) ==
            if rest == [] then Ok(units)
            else
              match FirstUnitEnd(rest, lengthBytes)
              case None => Err(InvalidAvcc)
              case Some(end) => Behind(units + [rest[lengthBytes..end]], AvccFrom(rest[end..], lengthBytes))
  {
    hide FirstUnitEnd;
    if rest == [] {
      assert units + [] == units;
    } else {
      var end := FirstUnitEnd(rest, lengthBytes);
      if end.Some? {
        var more := AvccFrom(rest[end.value..], lengthBytes);
        if more.Ok? {
          assert units + ([rest[lengthBytes..end.value]] + more.value) ==
                 units + [rest[lengthBytes..end.value]] + more.value;
        }
      }
    }
  }

  method AddMedia(prefix: seq<ByteString>, units: seq<ByteString>) returns (kept: seq<ByteString>)
    ensures kept == prefix + WithoutParameterSets(units)
  {
    hide IsParameterSet;
    kept := prefix;
    assert units[0..] == units;
    for i := 0 to |units|
      invariant kept + WithoutParameterSets(units[i..]) == prefix + WithoutParameterSets(units)
    {
      var unit := units[i];
      assert units[i..][0] == unit && units[i..][1..] == units[i + 1..];
      ghost var rest := WithoutParameterSets(units[i + 1..]);
      assert kept + ([unit] + rest) == kept + [unit] + rest;
      assert [] + rest == rest;
      if !IsParameterSet(unit) {
        kept := kept + [unit];
      }
    }
    assert kept + [] == kept;
  }

  /** The whole call: limits, parsing, publishing. */
  function Publish(codec: HeaderCodec, p: Publisher, dts: U32, offset: int, annexB: ByteString):
    (Publisher, Result<seq<VideoFrame>, AvcError>)
  {
    if |annexB| > MAX_ACCESS_UNIT_BYTES then (p, Err(InvalidAnnexB))
    else if !(MIN_OFFSET <= offset <= MAX_OFFSET) then (p, Err(InvalidCompositionOffset))
    else
      match AnnexBUnits(annexB)
      case Err(_) => (p, Err(InvalidAnnexB))
      case Ok(units) =>
        ParsedAreGood(annexB);
        PublishUnits(codec, p, dts, offset, units)
  }

  class AvcIngest {
    const codec: HeaderCodec
    var config: Option<DecoderConfig>
    var waitingForIdr: bool

    ghost function View(): Ingest
      reads this
    {
      Ingest(config, waitingForIdr)
    }

    constructor (codec: HeaderCodec)
      ensures View() == FRESH_INGEST && this.codec == codec
    {
      this.codec := codec;
      config, waitingForIdr := None, false;
    }

    method Push(frame: VideoFrame) returns (r: Result<Option<AccessUnit>, AvcError>)
      requires IngestInv(View())
      modifies this
      ensures (View(), r) == IngestPush(codec, old(View()), frame) && IngestInv(View())
    {
      if !frame.avc || frame.kind.None? {
        return Err(UnsupportedFormat);
      }
      match frame.kind.value {
        case SequenceHeader =>
          var parsed := ParseConfig(codec, frame.payload);
          if parsed.Err? {
            return Err(parsed.error);
          }
          config, waitingForIdr := Some(parsed.value), true;
          return Ok(None);
        case EndOfSequence =>
          waitingForIdr := true;
          return Ok(None);
        case NalUnits =>
          r := PushNalUnits(frame);
      }
    }

    method PushNalUnits(frame: VideoFrame) returns (r: Result<Option<AccessUnit>, AvcError>)
      requires IngestInv(View()) && frame.avc && frame.kind == Some(NalUnits)
      modifies this
      ensures (View(), r) == IngestPush(codec, old(View()), frame)
    {
      hide AvccUnits, HasIdr, WithoutParameterSets, FramedSize, AnnexB;
      if |frame.payload| > MAX_ACCESS_UNIT_BYTES {
        return Err(InvalidAvcc);
      }
      if config.None? {
        return Err(MissingConfig);
      }
      var units := ParseAvccUnits(frame.payload, config.value.lengthBytes);
      if units.Err? {
        return Err(units.error);
      }
      var idr := HasIdr(units.value);
      if waitingForIdr && !idr {
        return Ok(None);
      }
      var kept := AddMedia(if waitingForIdr then config.value.sps + config.value.pps else [], units.value);
      if FramedSize(kept) > MAX_ACCESS_UNIT_BYTES || kept == [] {
        return Err(InvalidAvcc);
      }
      if idr {
        waitingForIdr := false;
      }
      return Ok(Some(AccessUnit(frame.timestamp, frame.timestamp + frame.offset, idr, AnnexB(kept))));
    }
  }

  class AvcPublisher {
    const codec: HeaderCodec
    var sps: seq<ByteString>
    var pps: seq<ByteString>
    var sequenceHeaderSent: bool

    ghost function View(): Publisher
      reads this
    {
      Publisher(sps, pps, sequenceHeaderSent)
    }

    constructor (codec: HeaderCodec)
      ensures View() == FRESH_PUBLISHER && this.codec == codec
    {
      this.codec := codec;
      sps, pps, sequenceHeaderSent := [], [], false;
    }

    method PushAnnexB(dts: U32, offset: int, annexB: ByteString) returns (r: Result<seq<VideoFrame>, AvcError>)
      modifies this
      ensures (View(), r) == Publish(codec, old(View()), dts, offset, annexB)
    {
      if |annexB| > MAX_ACCESS_UNIT_BYTES {
        return Err(InvalidAnnexB);
      }
      if !(MIN_OFFSET <= offset <= MAX_OFFSET) {
        return Err(InvalidCompositionOffset);
      }
      var units := ParseAnnexB(annexB);
      if units.Err? {
        return Err(InvalidAnnexB);
      }
      ParsedAreGood(annexB);
      r := PushUnits(dts, offset, units.value);
    }

    method PushUnits(dts: U32, offset: int, units: seq<NalUnit>) returns (r: Result<seq<VideoFrame>, AvcError>)
      requires WellParsed(units)
      modifies this
      ensures (View(), r) == PublishUnits(codec, old(View()), dts, offset, units)
    {
      hide OfType, MediaOf, WellParsed, GoodUnit, BuildHeader, FramedSize, Avcc, GoodUnits;
      var nextSps, nextPps, media, idr := SortUnits(units);
      MediaIsGood(units);
      var changed := false;
      if nextSps != [] && nextSps != sps {
        sps, changed := nextSps, true;
      }
      if nextPps != [] && nextPps != pps {
        pps, changed := nextPps, true;
      }
      if changed {
        sequenceHeaderSent := false;
      }
      if (idr || changed) && (sps == [] || pps == []) {
        return Err(MissingParameterSets);
      }
      var output := [];
      if !sequenceHeaderSent && sps != [] && pps != [] {
        var header := BuildHeader(codec, Publisher(sps, pps, false));
        if header.Err? {
          return Err(header.error);
        }
        output := [HeaderFrame(dts, header.value)];
        sequenceHeaderSent := true;
      }
      if media != [] {
        if FramedSize(media) > MAX_ACCESS_UNIT_BYTES {
          return Err(InvalidAnnexB);
        }
        output := output + [MediaFrame(dts, offset, idr, media)];
      }
      return Ok(output);
    }
  }

  method SortUnits(units: seq<NalUnit>)
    returns (sps: seq<ByteString>, pps: seq<ByteString>, media: seq<ByteString>, idr: bool)
    ensures sps == OfType(units, 7) && pps == OfType(units, 8) && media == MediaOf(units)
    ensures idr == (OfType(units, 5) != [])
  {
    sps, pps, media, idr := [], [], [], false;
    for i := 0 to |units|
      invariant sps == OfType(units[..i], 7) && pps == OfType(units[..i], 8) && media == MediaOf(units[..i])
      invariant idr == (OfType(units[..i], 5) != [])
    {
      assert units[..i + 1] == units[..i] + [units[i]];
      OneMore(units[..i], units[i], 7);
      OneMore(units[..i], units[i], 8);
      OneMore(units[..i], units[i], 5);
      if units[i].nalUnitType == 7 {
        sps := sps + [units[i].bytes];
      } else if units[i].nalUnitType == 8 {
        pps := pps + [units[i].bytes];
      } else {
        if units[i].nalUnitType == 5 {
          idr := true;
        }
        media := media + [units[i].bytes];
      }
    }
    assert units[..|units|] == units;
  }

  lemma {:induction false} OneMore(units: seq<NalUnit>, unit: NalUnit, nalType: nat)
    ensures OfType(units + [unit], nalType) ==
            OfType(units, nalType) + if unit.nalUnitType == nalType then [unit.bytes] else []
    ensures MediaOf(units + [unit]) ==
            MediaOf(units) + if unit.nalUnitType == 7 || unit.nalUnitType == 8 then [] else [unit.bytes]
    decreases |units|
  {
    hide OfType, MediaOf;
    NoneOf(nalType);
    if units == [] {
      assert units + [unit] == [unit] + [];
      HeadOf(unit, [], nalType);
    } else {
      var rest := units[1..];
      assert units == [units[0]] + rest && units + [unit] == [units[0]] + (rest + [unit]);
      HeadOf(units[0], rest, nalType);
      HeadOf(units[0], rest + [unit], nalType);
      OneMore(rest, unit, nalType);
    }
  }

  lemma NoneOf(nalType: nat)
    ensures OfType([], nalType) == [] && MediaOf([]) == []
  {
  }

  lemma HeadOf(unit: NalUnit, rest: seq<NalUnit>, nalType: nat)
    ensures OfType([unit] + rest, nalType) ==
            (if unit.nalUnitType == nalType then [unit.bytes] else []) + OfType(rest, nalType)
    ensures MediaOf([unit] + rest) ==
            (if unit.nalUnitType == 7 || unit.nalUnitType == 8 then [] else [unit.bytes]) + MediaOf(rest)
  {
    assert ([unit] + rest)[1..] == rest;
  }
}
