/** A limit of the H.264 publisher (crates/rtmp/src/avc.rs:195-214): a call can mark its sequence header
    as sent, fail on the size of the AVCC data, and drop the header with the rest of its output. */
module AvcHeaderLoss {
  import opened Bytes
  import opened Elementary
  import opened Avc

  const SHORT_CODE: ByteString := [0, 0, 1]

  /** When it happens: a due header that could be built is lost if and only if the media units do not
      fit once each has a four-byte length field. */
  lemma HeaderLostIff(codec: HeaderCodec, p: Publisher, dts: U32, offset: int, units: seq<NalUnit>)
    requires WellParsed(units)
    ensures var learned := Learn(p, units).0;
            var (after, r) := PublishUnits(codec, p, dts, offset, units);
            HeaderDue(learned) && BuildHeader(codec, learned).Ok? ==>
              && (after.headerSent && r.Err? <==> FramedSize(MediaOf(units)) > MAX_ACCESS_UNIT_BYTES)
              && (r.Ok? <==> FramedSize(MediaOf(units)) <= MAX_ACCESS_UNIT_BYTES)
  {
    hide MediaOf, OfType, BuildHeader;
  }

  // ----- an input of legal size that does it -----

  function ShortAnnexB(units: seq<ByteString>): (s: ByteString)
    ensures |units| > 0 ==> |s| >= 3
  {
    if units == [] then [] else SHORT_CODE + units[0] + ShortAnnexB(units[1..])
  }

  /** A good unit that does not end in a zero byte, which would make the next code a long one. */
  predicate ShortFramable(unit: ByteString) {
    GoodUnit(unit) && unit[|unit| - 1] != 0
  }

  predicate AllShortFramable(units: seq<ByteString>) {
    forall i :: 0 <= i < |units| ==> ShortFramable(units[i])
  }

  lemma NoEarlyShortCode(data: ByteString, begin: nat, unit: ByteString, i: nat)
    requires ShortFramable(unit) && begin + |unit| <= |data| && data[begin..begin + |unit|] == unit
    requires begin <= i < begin + |unit|
    ensures !CodeAt(data, i)
  {
    var k := i - begin;
    assert unit[k] == data[i] && !ThreeByteCodeAt(unit, k);
    assert data[begin + |unit| - 1] == unit[|unit| - 1];
    assert k + 1 < |unit| ==> unit[k + 1] == data[i + 1] && !ThreeByteCodeAt(unit, k + 1);
    assert k + 2 < |unit| ==> unit[k + 2] == data[i + 2];
    assert k + 3 < |unit| ==> unit[k + 3] == data[i + 3];
  }

  lemma {:induction false} FirstShortCodeIs(data: ByteString, from: nat, at: nat)
    requires from <= at && ThreeByteCodeAt(data, at)
    requires forall i :: from <= i < at ==> !CodeAt(data, i)
    ensures NextStartCode(data, from) == Some(StartCode(at, 3))
    decreases at - from
  {
    if from < at {
      assert !CodeAt(data, from);
      FirstShortCodeIs(data, from + 1, at);
    }
  }

  lemma NextAfterShort(data: ByteString, begin: nat, unit: ByteString)
    requires ShortFramable(unit) && begin + |unit| <= |data| && data[begin..begin + |unit|] == unit
    requires begin + |unit| == |data| || ThreeByteCodeAt(data, begin + |unit|)
    ensures NextStartCode(data, begin) ==
            if begin + |unit| == |data| then None else Some(StartCode(begin + |unit|, 3))
  {
    hide NextStartCode, ShortFramable, ThreeByteCodeAt, FourByteCodeAt, CodeAt;
    forall i | begin <= i < begin + |unit| ensures !CodeAt(data, i) {
      NoEarlyShortCode(data, begin, unit, i);
    }
    if begin + |unit| == |data| {
      NoCodeAtAll(data, begin);
    } else {
      FirstShortCodeIs(data, begin, begin + |unit|);
    }
  }

  lemma ShortSeam(prefix: ByteString, unit: ByteString, rest: ByteString)
    ensures var data := prefix + (SHORT_CODE + unit + rest);
            && data == prefix + SHORT_CODE + unit + rest
            && data[|prefix| + 3..|prefix| + 3 + |unit|] == unit
            && (3 <= |rest| && rest[..3] == SHORT_CODE ==> ThreeByteCodeAt(data, |prefix| + 3 + |unit|))
  {
    var data := prefix + (SHORT_CODE + unit + rest);
    var end := |prefix| + 3 + |unit|;
    assert data[end..] == rest;
    if 3 <= |rest| {
      assert data[end] == rest[..3][0] && data[end + 1] == rest[..3][1] && data[end + 2] == rest[..3][2];
    }
  }

  lemma ShortStart(units: seq<ByteString>)
    requires units != []
    ensures ShortAnnexB(units)[..3] == SHORT_CODE
  {
  }

  lemma ShortFramesLineUp(prefix: ByteString, units: seq<ByteString>)
    requires units != []
    ensures var data := prefix + ShortAnnexB(units);
            var begin := |prefix| + 3;
            && begin + |units[0]| <= |data| && data[begin..begin + |units[0]|] == units[0]
            && data == prefix + SHORT_CODE + units[0] + ShortAnnexB(units[1..])
            && (|units| == 1 ==> begin + |units[0]| == |data|)
            && (|units| > 1 ==> ThreeByteCodeAt(data, begin + |units[0]|))
  {
    hide ThreeByteCodeAt, ShortAnnexB;
    var rest := ShortAnnexB(units[1..]);
    ShortUnfolds(units);
    ShortSeam(prefix, units[0], rest);
    if |units| > 1 {
      ShortStart(units[1..]);
    } else {
      assert prefix + SHORT_CODE + units[0] + [] == prefix + SHORT_CODE + units[0];
    }
  }

  lemma ShortUnfolds(units: seq<ByteString>)
    requires units != []
    ensures ShortAnnexB(units) == SHORT_CODE + units[0] + ShortAnnexB(units[1..])
    ensures |units| == 1 ==> ShortAnnexB(units[1..]) == []
  {
  }

  lemma {:induction false} ShortReparseFrom(prefix: ByteString, units: seq<ByteString>)
    requires units != [] && AllShortFramable(units)
    ensures var r := UnitsFrom(prefix + ShortAnnexB(units), StartCode(|prefix|, 3));
            r.Ok? && UnitBytes(r.value) == units
    decreases |units|
  {
    hide NextStartCode, ThreeByteCodeAt, ShortAnnexB;
    ShortFramesLineUp(prefix, units);
    NextAfterShort(prefix + ShortAnnexB(units), |prefix| + 3, units[0]);
    if |units| > 1 {
      ShortReparseFrom(prefix + SHORT_CODE + units[0], units[1..]);
    }
  }

  lemma ShortReparse(units: seq<ByteString>)
    requires units != [] && AllShortFramable(units)
    ensures AnnexBUnits(ShortAnnexB(units)).Ok? && UnitBytes(AnnexBUnits(ShortAnnexB(units)).value) == units
  {
    hide UnitsFrom, AllShortFramable;
    ShortStart(units);
    var data := ShortAnnexB(units);
    assert data[0] == data[..3][0] && data[1] == data[..3][1] && data[2] == data[..3][2];
    FirstShortCodeIs(data, 0, 0);
    assert [] + data == data;
    ShortReparseFrom([], units);
  }

  const SPS: ByteString := [0x67, 0x64, 0x01, 0x1f]
  const PPS: ByteString := [0x68, 0xee]
  const SLICE: ByteString := [0x65]
  const SLICES: nat := 4_000_000

  function Slices(n: nat): (units: seq<ByteString>)
    ensures |units| == n && forall i :: 0 <= i < n ==> units[i] == SLICE
  {
    if n == 0 then [] else [SLICE] + Slices(n - 1)
  }

  function ManySlices(n: nat): seq<ByteString> {
    [SPS, PPS] + Slices(n)
  }

  lemma {:induction false} ManySlicesSizes(n: nat)
    ensures |ShortAnnexB(Slices(n))| == 4 * n && FramedSize(Slices(n)) == 5 * n
  {
    if n > 0 {
      assert Slices(n)[1..] == Slices(n - 1);
      ManySlicesSizes(n - 1);
    }
  }

  lemma ManySlicesBytes(n: nat)
    ensures |ShortAnnexB(ManySlices(n))| == 12 + 4 * n && AllShortFramable(ManySlices(n))
  {
    ManySlicesSizes(n);
    var units := ManySlices(n);
    assert units[1..][1..] == Slices(n);
    assert ShortAnnexB(units) == SHORT_CODE + SPS + (SHORT_CODE + PPS + ShortAnnexB(Slices(n)));
    assert GoodUnit(SPS) && GoodUnit(PPS) && GoodUnit(SLICE);
  }

  /** The parsed units by type, when only their bytes are known. */
  lemma {:induction false} SlicesOnly(units: seq<NalUnit>, n: nat)
    requires WellParsed(units) && UnitBytes(units) == Slices(n)
    ensures MediaOf(units) == Slices(n) && OfType(units, 7) == [] && OfType(units, 8) == []
            && OfType(units, 5) == Slices(n)
    decreases n
  {
    if n == 0 {
      assert units == [];
    } else {
      assert UnitBytes(units)[0] == units[0].bytes == SLICE;
      assert UnitBytes(units[1..]) == UnitBytes(units)[1..] == Slices(n)[1..] == Slices(n - 1);
      SlicesOnly(units[1..], n - 1);
    }
  }

  lemma ParameterSet(unit: NalUnit, rest: seq<NalUnit>, media: seq<ByteString>)
    requires unit.nalUnitType == 7 || unit.nalUnitType == 8
    requires MediaOf(rest) == media == OfType(rest, 5)
    ensures MediaOf([unit] + rest) == media == OfType([unit] + rest, 5)
    ensures OfType([unit] + rest, 7) == (if unit.nalUnitType == 7 then [unit.bytes] else []) + OfType(rest, 7)
    ensures OfType([unit] + rest, 8) == (if unit.nalUnitType == 8 then [unit.bytes] else []) + OfType(rest, 8)
  {
    hide MediaOf, OfType;
    HeadOf(unit, rest, 5);
    HeadOf(unit, rest, 7);
    HeadOf(unit, rest, 8);
    assert [] + media == media;
  }

  lemma ManySlicesTaken(units: seq<NalUnit>, n: nat)
    requires UnitBytes(units) == ManySlices(n)
    ensures |units| == n + 2 && units[0].bytes == SPS && units[1].bytes == PPS && UnitBytes(units[2..]) == Slices(n)
    ensures units == [units[0]] + ([units[1]] + units[2..])
  {
    assert UnitBytes(units)[0] == units[0].bytes && UnitBytes(units)[1] == units[1].bytes;
    assert UnitBytes(units[2..]) == ManySlices(n)[2..] == Slices(n);
  }

  lemma TypeOfUnit(units: seq<NalUnit>, i: nat)
    requires WellParsed(units) && i < |units|
    ensures GoodUnit(units[i].bytes) && units[i].nalUnitType == NalType(units[i].bytes) && WellParsed(units[i + 1..])
  {
  }

  lemma ManySlicesParsed(units: seq<NalUnit>, n: nat)
    requires WellParsed(units) && UnitBytes(units) == ManySlices(n)
    ensures MediaOf(units) == Slices(n) && OfType(units, 7) == [SPS] && OfType(units, 8) == [PPS]
            && OfType(units, 5) == Slices(n)
  {
    hide MediaOf, OfType, WellParsed, UnitBytes, ManySlices, Slices, GoodUnit;
    ManySlicesTaken(units, n);
    TypeOfUnit(units, 0);
    TypeOfUnit(units, 1);
    SlicesOnly(units[2..], n);
    ParameterSet(units[1], units[2..], Slices(n));
    ParameterSet(units[0], [units[1]] + units[2..], Slices(n));
  }

  /** The concrete input: parameter sets and four million one-byte IDR slices behind three-byte start codes
      make a legal access unit of 16,000,012 bytes whose AVCC form has 20,000,000; the call fails, and the
      header it owed the receiver is recorded as sent. */
  lemma HeaderCanBeLost(codec: HeaderCodec)
    requires codec.toBytes(AvcHeader(0x64, 0x01, 0x1f, 3, [SPS], [PPS])).Some?
    ensures var annexB := ShortAnnexB(ManySlices(SLICES));
            && |annexB| <= MAX_ACCESS_UNIT_BYTES
            && AnnexBUnits(annexB).Ok? && OfType(AnnexBUnits(annexB).value, 5) != []
            && Publish(codec, FRESH_PUBLISHER, 0, 0, annexB) == (Publisher([SPS], [PPS], true), Err(InvalidAnnexB))
  {
    hide ShortAnnexB, Slices, ManySlices, WellParsed, MediaOf, OfType, AnnexBUnits, FramedSize, UnitBytes;
    ManySlicesBytes(SLICES);
    ManySlicesSizes(SLICES);
    NotEmpty(SLICES);
    ShortReparse(ManySlices(SLICES));
    var annexB := ShortAnnexB(ManySlices(SLICES));
    ParsedAreGood(annexB);
    ManySlicesParsed(AnnexBUnits(annexB).value, SLICES);
  }

  lemma NotEmpty(n: nat)
    ensures ManySlices(n) != []
  {
  }
}
