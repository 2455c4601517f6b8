/** From Annex B to RTMP frames and back: what an ingest makes of a whole publisher run. */
module AvcRoundTrip {
  import opened Bytes
  import opened Elementary
  import opened Avc

  datatype Input = Input(dts: U32, offset: int, annexB: ByteString)

  /** An access unit at the far end, as its NAL units. */
  datatype Arrival = Arrival(dts: U32, pts: int, keyframe: bool, units: seq<ByteString>)

  type Outcome = Result<Arrival, AvcError>

  /** What the far end knows: the parameter sets of the last header it took, and whether it still
      waits for an IDR. */
  datatype Viewer = Viewer(config: Option<(seq<ByteString>, seq<ByteString>)>, waiting: bool)

  const NEW_VIEWER: Viewer := Viewer(None, false)

  // ----- the run -----

  ghost predicate ErrorFree(codec: HeaderCodec, p: Publisher, inputs: seq<Input>)
    decreases |inputs|
  {
    inputs != [] ==>
      var (next, r) := Publish(codec, p, inputs[0].dts, inputs[0].offset, inputs[0].annexB);
      r.Ok? && ErrorFree(codec, next, inputs[1..])
  }

  ghost function FramesOf(codec: HeaderCodec, p: Publisher, inputs: seq<Input>): seq<VideoFrame>
    requires ErrorFree(codec, p, inputs)
    decreases |inputs|
  {
    if inputs == [] then []
    else
      var (next, r) := Publish(codec, p, inputs[0].dts, inputs[0].offset, inputs[0].annexB);
      r.value + FramesOf(codec, next, inputs[1..])
  }

  function Report(r: Result<Option<AccessUnit>, AvcError>): seq<Result<AccessUnit, AvcError>> {
    match r
    case Err(e) => [Err(e)]
    case Ok(None) => []
    case Ok(Some(unit)) => [Ok(unit)]
  }

  /** The access units and errors an ingest returns; frames that yield nothing are left out. */
  function Receive(codec: HeaderCodec, s: Ingest, frames: seq<VideoFrame>)
    : (r: (Ingest, seq<Result<AccessUnit, AvcError>>))
    requires IngestInv(s)
    ensures IngestInv(r.0)
    decreases |frames|
  {
    if frames == [] then (s, [])
    else
      var (next, r) := IngestPush(codec, s, frames[0]);
      var (end, more) := Receive(codec, next, frames[1..]);
      (end, Report(r) + more)
  }

  // ----- what should arrive -----

  function UnitsOf(input: Input): seq<NalUnit> {
    var r := AnnexBUnits(input.annexB);
    if r.Ok? then r.value else []
  }

  function AfterHeader(codec: HeaderCodec, v: Viewer, learned: Publisher): (Viewer, seq<Outcome>) {
    if !HeaderDue(learned) then (v, [])
    else if BuildHeader(codec, learned).Ok? && |BuildHeader(codec, learned).value| > MAX_CONFIG_BYTES
      then (v, [Err(InvalidConfig)])
    else (Viewer(Some((learned.sps, learned.pps)), true), [])
  }

  function AfterMedia(v: Viewer, input: Input, idr: bool, media: seq<ByteString>): (Viewer, seq<Outcome>) {
    if media == [] then (v, [])
    else if v.config.None? then (v, [Err(MissingConfig)])
    else if v.waiting && !idr then (v, [])
    else
      var units := (if v.waiting then v.config.value.0 + v.config.value.1 else []) + media;
      if FramedSize(units) > MAX_ACCESS_UNIT_BYTES then (v, [Err(InvalidAvcc)])
      else (v.(waiting := v.waiting && !idr), [Ok(Arrival(input.dts, input.dts + input.offset, idr, units))])
  }

  function NextPublisher(p: Publisher, input: Input): Publisher {
    var learned := Learn(p, UnitsOf(input)).0;
    learned.(headerSent := learned.headerSent || HeaderDue(learned))
  }

  /** One access unit: the header it makes due, then its media. */
  function Arriving(codec: HeaderCodec, p: Publisher, v: Viewer, input: Input): (Viewer, seq<Outcome>) {
    var units := UnitsOf(input);
    var (informed, refused) := AfterHeader(codec, v, Learn(p, units).0);
    var (next, arrived) := AfterMedia(informed, input, OfType(units, 5) != [], MediaOf(units));
    (next, refused + arrived)
  }

  function Expected(codec: HeaderCodec, p: Publisher, v: Viewer, inputs: seq<Input>): seq<Outcome>
    decreases |inputs|
  {
    if inputs == [] then []
    else
      var (next, outcomes) := Arriving(codec, p, v, inputs[0]);
      outcomes + Expected(codec, NextPublisher(p, inputs[0]), next, inputs[1..])
  }

  function OnTheWire(o: Outcome): Result<AccessUnit, AvcError> {
    match o
    case Err(e) => Err(e)
    case Ok(a) => Ok(AccessUnit(a.dts, a.pts, a.keyframe, AnnexB(a.units)))
  }

  function AllOnTheWire(outcomes: seq<Outcome>): seq<Result<AccessUnit, AvcError>> {
    if outcomes == [] then [] else [OnTheWire(outcomes[0])] + AllOnTheWire(outcomes[1..])
  }

  // ----- one input -----

  function IngestOf(v: Viewer): (s: Ingest)
    ensures IngestInv(s)
  {
    Ingest(if v.config.None? then None else Some(DecoderConfig(4, v.config.value.0, v.config.value.1)), v.waiting)
  }

  function Reported(outcomes: seq<Outcome>): Result<Option<AccessUnit>, AvcError> {
    if outcomes == [] then Ok(None)
    else match OnTheWire(outcomes[0]) case Err(e) => Err(e) case Ok(unit) => Ok(Some(unit))
  }

  lemma HeaderReceived(codec: HeaderCodec, v: Viewer, learned: Publisher, dts: U32)
    requires Lossless(codec) && HeaderDue(learned) && BuildHeader(codec, learned).Ok?
    ensures var frame := HeaderFrame(dts, BuildHeader(codec, learned).value);
            var (next, outcomes) := AfterHeader(codec, v, learned);
            IngestPush(codec, IngestOf(v), frame) == (IngestOf(next), Reported(outcomes))
  {
    var header := AvcHeader(learned.sps[0][1], learned.sps[0][2], learned.sps[0][3], 3, learned.sps, learned.pps);
    assert codec.toBytes(header).Some?;
  }

  lemma {:induction false} NothingDropped(units: seq<ByteString>)
    requires forall i :: 0 <= i < |units| ==> !IsParameterSet(units[i])
    ensures WithoutParameterSets(units) == units
    decreases |units|
  {
    if units != [] {
      NothingDropped(units[1..]);
      assert [units[0]] + units[1..] == units;
    }
  }

  lemma MediaReceived(codec: HeaderCodec, v: Viewer, input: Input, units: seq<NalUnit>)
    requires WellParsed(units) && MediaOf(units) != [] && FramedSize(MediaOf(units)) <= MAX_ACCESS_UNIT_BYTES
    ensures GoodUnits(MediaOf(units))
    ensures var idr := OfType(units, 5) != [];
            var (next, outcomes) := AfterMedia(v, input, idr, MediaOf(units));
            IngestPush(codec, IngestOf(v), MediaFrame(input.dts, input.offset, idr, MediaOf(units))) ==
            (IngestOf(next), Reported(outcomes))
  {
    hide WellParsed, MediaOf, OfType, GoodUnits, GoodUnit, HasIdr, WithoutParameterSets, FramedSize, AnnexB, AvccFrom;
    MediaIsGood(units);
    IdrIsMedia(units);
    var media := MediaOf(units);
    AvccRoundTrip(media);
    NonEmptyAvcc(media);
    NothingDropped(media);
  }

  lemma NonEmptyAvcc(units: seq<ByteString>)
    requires GoodUnits(units)
    ensures Avcc(units) == [] <==> units == []
    ensures |Avcc(units)| == FramedSize(units)
  {
  }

  lemma AllOnTheWireConcat(a: seq<Outcome>, b: seq<Outcome>)
    ensures AllOnTheWire(a + b) == AllOnTheWire(a) + AllOnTheWire(b)
    decreases |a|
  {
    if a == [] {
      assert a + b == b;
    } else {
      assert (a + b)[1..] == a[1..] + b;
      AllOnTheWireConcat(a[1..], b);
    }
  }

  lemma {:induction false} ReceiveSplit(codec: HeaderCodec, s: Ingest, a: seq<VideoFrame>, b: seq<VideoFrame>)
    requires IngestInv(s)
    ensures var (middle, first) := Receive(codec, s, a);
            var (end, second) := Receive(codec, middle, b);
            IngestInv(middle) && Receive(codec, s, a + b) == (end, first + second)
    decreases |a|
  {
    hide IngestPush;
    if a == [] {
      assert a + b == b;
      assert [] + Receive(codec, s, b).1 == Receive(codec, s, b).1;
    } else {
      assert (a + b)[0] == a[0] && (a + b)[1..] == a[1..] + b;
      var (next, r) := IngestPush(codec, s, a[0]);
      ReceiveSplit(codec, next, a[1..], b);
      var (middle, first) := Receive(codec, next, a[1..]);
      var second := Receive(codec, middle, b).1;
      assert Report(r) + (first + second) == Report(r) + first + second;
    }
  }

  lemma OneFrame(codec: HeaderCodec, v: Viewer, frame: VideoFrame, next: Viewer, outcomes: seq<Outcome>)
    requires IngestPush(codec, IngestOf(v), frame) == (IngestOf(next), Reported(outcomes)) && |outcomes| <= 1
    ensures Receive(codec, IngestOf(v), [frame]) == (IngestOf(next), AllOnTheWire(outcomes))
  {
    hide IngestPush;
    assert [frame][1..] == [] && Receive(codec, IngestOf(next), []) == (IngestOf(next), []);
    var report := Report(Reported(outcomes));
    assert report + [] == report;
    if outcomes != [] {
      assert outcomes[1..] == [] && AllOnTheWire([]) == [];
    }
  }

  lemma NoFrame(codec: HeaderCodec, v: Viewer)
    ensures Receive(codec, IngestOf(v), []) == (IngestOf(v), AllOnTheWire([]))
  {
  }

  /** The frames of one error-free publisher call, as the ingest takes them. */
  lemma CallReceived(codec: HeaderCodec, p: Publisher, v: Viewer, input: Input)
    requires Lossless(codec)
    requires Publish(codec, p, input.dts, input.offset, input.annexB).1.Ok?
    ensures var (after, r) := Publish(codec, p, input.dts, input.offset, input.annexB);
            var (next, outcomes) := Arriving(codec, p, v, input);
            after == NextPublisher(p, input)
              && Receive(codec, IngestOf(v), r.value) == (IngestOf(next), AllOnTheWire(outcomes))
  {
    hide Lossless, IngestPush, Receive, WellParsed, OfType, MediaOf, BuildHeader, AfterMedia, AfterHeader, MediaFrame,
      FramedSize, AllOnTheWire, IngestOf, AnnexBUnits;
    ParsedAreGood(input.annexB);
    var units := UnitsOf(input);
    var learned := Learn(p, units).0;
    var (informed, refused) := AfterHeader(codec, v, learned);
    var idr, media := OfType(units, 5) != [], MediaOf(units);
    var (next, arrived) := AfterMedia(informed, input, idr, media);
    MediaIsGood(units);
    var headers := if HeaderDue(learned) then [HeaderFrame(input.dts, BuildHeader(codec, learned).value)] else [];
    HeadersReceived(codec, v, learned, input.dts);
    var frames := if media == [] then [] else [MediaFrame(input.dts, input.offset, idr, media)];
    assert headers + [] == headers;
    assert Publish(codec, p, input.dts, input.offset, input.annexB).1 == Ok(headers + frames);
    NothingForNoMedia(informed, input, idr);
    if media == [] {
      NoFrame(codec, informed);
    } else {
      MediaReceived(codec, informed, input, units);
      AtMostOne(informed, input, idr, media);
      OneFrame(codec, informed, frames[0], next, arrived);
    }
    ReceiveSplit(codec, IngestOf(v), headers, frames);
    AllOnTheWireConcat(refused, arrived);
  }

  lemma AtMostOne(v: Viewer, input: Input, idr: bool, media: seq<ByteString>)
    ensures |AfterMedia(v, input, idr, media).1| <= 1
  {
  }

  lemma NothingForNoMedia(v: Viewer, input: Input, idr: bool)
    ensures AfterMedia(v, input, idr, []) == (v, [])
  {
  }

  lemma HeadersReceived(codec: HeaderCodec, v: Viewer, learned: Publisher, dts: U32)
    requires Lossless(codec) && (HeaderDue(learned) ==> BuildHeader(codec, learned).Ok?)
    ensures var headers := if HeaderDue(learned) then [HeaderFrame(dts, BuildHeader(codec, learned).value)] else [];
            var (informed, refused) := AfterHeader(codec, v, learned);
            Receive(codec, IngestOf(v), headers) == (IngestOf(informed), AllOnTheWire(refused))
  {
    hide Lossless, IngestPush, Receive, BuildHeader, IngestOf, AllOnTheWire;
    var (informed, refused) := AfterHeader(codec, v, learned);
    if HeaderDue(learned) {
      HeaderReceived(codec, v, learned, dts);
      OneFrame(codec, v, HeaderFrame(dts, BuildHeader(codec, learned).value), informed, refused);
    } else {
      NoFrame(codec, v);
    }
  }

  /** Main result: over a whole error-free publisher run, the ingest returns exactly what the sequence
      of access units calls for. */
  lemma {:induction false} RunReceived(codec: HeaderCodec, p: Publisher, v: Viewer, inputs: seq<Input>)
    requires Lossless(codec) && ErrorFree(codec, p, inputs)
    ensures Receive(codec, IngestOf(v), FramesOf(codec, p, inputs)).1 == AllOnTheWire(Expected(codec, p, v, inputs))
    decreases |inputs|
  {
    hide Lossless, Publish, Receive, Arriving, IngestOf, NextPublisher, AllOnTheWire;
    if inputs == [] {
      NoFrame(codec, v);
    } else {
      var input := inputs[0];
      CallReceived(codec, p, v, input);
      var (after, r) := Publish(codec, p, input.dts, input.offset, input.annexB);
      var (next, outcomes) := Arriving(codec, p, v, input);
      RunReceived(codec, after, next, inputs[1..]);
      ReceiveSplit(codec, IngestOf(v), r.value, FramesOf(codec, after, inputs[1..]));
      AllOnTheWireConcat(outcomes, Expected(codec, after, next, inputs[1..]));
    }
  }

  // ----- runs that fit -----

  /** The header is one the far end takes, and the access unit fits together with the parameter sets of
      its time. */
  predicate FitsOne(codec: HeaderCodec, p: Publisher, input: Input) {
    var learned := Learn(p, UnitsOf(input)).0;
    && (BuildHeader(codec, learned).Ok? ==> |BuildHeader(codec, learned).value| <= MAX_CONFIG_BYTES)
    && FramedSize(learned.sps + learned.pps + MediaOf(UnitsOf(input))) <= MAX_ACCESS_UNIT_BYTES
  }

  predicate Fits(codec: HeaderCodec, p: Publisher, inputs: seq<Input>)
    decreases |inputs|
  {
    inputs != [] ==> FitsOne(codec, p, inputs[0]) && Fits(codec, NextPublisher(p, inputs[0]), inputs[1..])
  }

  /** The non-parameter units of an access unit, unless an IDR is still awaited; the first ones after a
      header stand behind its parameter sets. */
  function KeptOne(p: Publisher, waiting: bool, input: Input): seq<Arrival> {
    var units := UnitsOf(input);
    var learned := Learn(p, units).0;
    var waits, idr := waiting || HeaderDue(learned), OfType(units, 5) != [];
    if MediaOf(units) == [] || (waits && !idr) then []
    else
      var prefix := if waits then learned.sps + learned.pps else [];
      [Arrival(input.dts, input.dts + input.offset, idr, prefix + MediaOf(units))]
  }

  function StillWaiting(p: Publisher, waiting: bool, input: Input): bool {
    (waiting || HeaderDue(Learn(p, UnitsOf(input)).0)) && KeptOne(p, waiting, input) == []
  }

  function Kept(p: Publisher, waiting: bool, inputs: seq<Input>): seq<Arrival>
    decreases |inputs|
  {
    if inputs == [] then []
    else KeptOne(p, waiting, inputs[0])
         + Kept(NextPublisher(p, inputs[0]), StillWaiting(p, waiting, inputs[0]), inputs[1..])
  }

  function AllOk(arrivals: seq<Arrival>): (r: seq<Outcome>)
    ensures |r| == |arrivals| && forall i :: 0 <= i < |r| ==> r[i] == Ok(arrivals[i])
  {
    if arrivals == [] then [] else [Ok(arrivals[0])] + AllOk(arrivals[1..])
  }

  lemma {:induction false} FramedSizeConcat(a: seq<ByteString>, b: seq<ByteString>)
    ensures FramedSize(a + b) == FramedSize(a) + FramedSize(b)
    decreases |a|
  {
    if a == [] {
      assert a + b == b;
    } else {
      assert (a + b)[1..] == a[1..] + b;
      FramedSizeConcat(a[1..], b);
    }
  }

  /** The far end holds the publisher's parameter sets. */
  predicate Synced(p: Publisher, v: Viewer) {
    p.headerSent && p.sps != [] && p.pps != [] && v.config == Some((p.sps, p.pps))
  }

  lemma StepSynced(codec: HeaderCodec, p: Publisher, v: Viewer, input: Input)
    requires Synced(p, v) || HeaderDue(Learn(p, UnitsOf(input)).0)
    requires FitsOne(codec, p, input)
    ensures var (next, outcomes) := Arriving(codec, p, v, input);
            && Synced(NextPublisher(p, input), next) && next.waiting == StillWaiting(p, v.waiting, input)
            && outcomes == AllOk(KeptOne(p, v.waiting, input))
  {
    hide UnitsOf, OfType, MediaOf, FramedSize, BuildHeader;
    var learned := Learn(p, UnitsOf(input)).0;
    FramedSizeConcat(learned.sps + learned.pps, MediaOf(UnitsOf(input)));
    assert [] + MediaOf(UnitsOf(input)) == MediaOf(UnitsOf(input));
  }

  lemma {:induction false} AllOkConcat(a: seq<Arrival>, b: seq<Arrival>)
    ensures AllOk(a + b) == AllOk(a) + AllOk(b)
  {
  }

  lemma {:induction false} ExpectedIsKept(codec: HeaderCodec, p: Publisher, v: Viewer, inputs: seq<Input>)
    requires Fits(codec, p, inputs)
    requires inputs != [] ==> Synced(p, v) || HeaderDue(Learn(p, UnitsOf(inputs[0])).0)
    ensures Expected(codec, p, v, inputs) == AllOk(Kept(p, v.waiting, inputs))
    decreases |inputs|
  {
    hide Arriving, AllOk, NextPublisher, Synced, HeaderDue, FitsOne, KeptOne, StillWaiting, UnitsOf, Learn;
    if inputs == [] {
      NoneOk();
    } else {
      StepSynced(codec, p, v, inputs[0]);
      var next := Arriving(codec, p, v, inputs[0]).0;
      ExpectedIsKept(codec, NextPublisher(p, inputs[0]), next, inputs[1..]);
      AllOkConcat(KeptOne(p, v.waiting, inputs[0]), Kept(NextPublisher(p, inputs[0]), next.waiting, inputs[1..]));
    }
  }

  lemma NoneOk()
    ensures AllOk([]) == []
  {
  }

  lemma GoodConcat(a: seq<ByteString>, b: seq<ByteString>)
    requires GoodUnits(a) && GoodUnits(b)
    ensures GoodUnits(a + b)
  {
  }

  lemma UnitsAreGood(input: Input)
    requires |input.annexB| <= MAX_ACCESS_UNIT_BYTES
    ensures WellParsed(UnitsOf(input))
  {
    ParsedAreGood(input.annexB);
  }

  lemma LearnedAreGood(p: Publisher, units: seq<NalUnit>)
    requires GoodUnits(p.sps) && GoodUnits(p.pps) && WellParsed(units)
    ensures GoodUnits(Learn(p, units).0.sps) && GoodUnits(Learn(p, units).0.pps)
  {
    hide GoodUnits, OfType, WellParsed;
    TypeIsGood(units, 7);
    TypeIsGood(units, 8);
  }

  /** Everything kept can be framed and parsed again. */
  lemma {:induction false} KeptAreGood(codec: HeaderCodec, p: Publisher, waiting: bool, inputs: seq<Input>)
    requires ErrorFree(codec, p, inputs) && GoodUnits(p.sps) && GoodUnits(p.pps)
    ensures forall a :: a in Kept(p, waiting, inputs) ==> a.units != [] && GoodUnits(a.units)
    decreases |inputs|
  {
    hide GoodUnits, OfType, MediaOf, UnitsOf, Learn, WellParsed, PublishUnits, AnnexBUnits;
    if inputs != [] {
      var input, units := inputs[0], UnitsOf(inputs[0]);
      var learned := Learn(p, units).0;
      UnitsAreGood(input);
      LearnedAreGood(p, units);
      MediaIsGood(units);
      GoodConcat(learned.sps, learned.pps);
      GoodConcat(learned.sps + learned.pps, MediaOf(units));
      assert [] + MediaOf(units) == MediaOf(units);
      PublisherAfter(codec, p, input);
      KeptAreGood(codec, NextPublisher(p, input), StillWaiting(p, waiting, input), inputs[1..]);
    }
  }

  lemma PublisherAfter(codec: HeaderCodec, p: Publisher, input: Input)
    requires Publish(codec, p, input.dts, input.offset, input.annexB).1.Ok?
    ensures Publish(codec, p, input.dts, input.offset, input.annexB).0 == NextPublisher(p, input)
  {
  }

  lemma {:induction false} OnTheWireAt(arrivals: seq<Arrival>, i: nat)
    requires i < |arrivals|
    ensures var wire := AllOnTheWire(AllOk(arrivals)); |wire| == |arrivals| && wire[i] == OnTheWire(Ok(arrivals[i]))
    decreases |arrivals|
  {
    if i > 0 {
      OnTheWireAt(arrivals[1..], i - 1);
    } else if |arrivals| > 1 {
      OnTheWireAt(arrivals[1..], 0);
    }
  }

  lemma {:induction false} OnTheWireSize(outcomes: seq<Outcome>)
    ensures |AllOnTheWire(outcomes)| == |outcomes|
    decreases |outcomes|
  {
    if outcomes != [] {
      OnTheWireSize(outcomes[1..]);
    }
  }

  /** Annex B to AVCC and back: a run that starts with parameter sets and fits the limits is received
      without an error, each kept access unit with its times, and parsing what arrives returns exactly
      the NAL units that were kept. */
  lemma RoundTrip(codec: HeaderCodec, inputs: seq<Input>)
    requires Lossless(codec) && ErrorFree(codec, FRESH_PUBLISHER, inputs) && Fits(codec, FRESH_PUBLISHER, inputs)
    requires inputs != [] ==> OfType(UnitsOf(inputs[0]), 7) != [] && OfType(UnitsOf(inputs[0]), 8) != []
    ensures var got := Receive(codec, FRESH_INGEST, FramesOf(codec, FRESH_PUBLISHER, inputs)).1;
            var kept := Kept(FRESH_PUBLISHER, false, inputs);
            && |got| == |kept|
            && forall i :: 0 <= i < |got| ==>
                 && got[i].Ok?
                 && (got[i].value.dts, got[i].value.pts, got[i].value.keyframe) ==
                    (kept[i].dts, kept[i].pts, kept[i].keyframe)
                 && AnnexBUnits(got[i].value.annexB).Ok?
                 && UnitBytes(AnnexBUnits(got[i].value.annexB).value) == kept[i].units
  {
    hide Receive, FramesOf, Kept, Expected, ErrorFree, Fits, Lossless, AllOk, AllOnTheWire, OfType, UnitsOf,
      UnitsFrom, AnnexBUnits, AnnexB, UnitBytes;
    var kept := Kept(FRESH_PUBLISHER, false, inputs);
    RunReceived(codec, FRESH_PUBLISHER, NEW_VIEWER, inputs);
    ExpectedIsKept(codec, FRESH_PUBLISHER, NEW_VIEWER, inputs);
    KeptAreGood(codec, FRESH_PUBLISHER, false, inputs);
    OnTheWireSize(AllOk(kept));
    forall i | 0 <= i < |kept|
      ensures AllOnTheWire(AllOk(kept))[i] == OnTheWire(Ok(kept[i])) && AnnexBUnits(AnnexB(kept[i].units)).Ok?
              && UnitBytes(AnnexBUnits(AnnexB(kept[i].units)).value) == kept[i].units
    {
      OnTheWireAt(kept, i);
      assert kept[i] in kept;
      AnnexBRoundTrip(kept[i].units);
    }
  }

  // ----- after the end of a sequence -----

  /** The ingest before the k-th of these frames. */
  function IngestAt(codec: HeaderCodec, s: Ingest, frames: seq<VideoFrame>, k: nat): (r: Ingest)
    requires IngestInv(s) && k <= |frames|
    ensures IngestInv(r)
    decreases k
  {
    if k == 0 then s else IngestPush(codec, IngestAt(codec, s, frames, k - 1), frames[k - 1]).0
  }

  /** The access unit that the k-th frame makes the ingest return. */
  function ReturnedAt(codec: HeaderCodec, s: Ingest, frames: seq<VideoFrame>, k: nat): Option<AccessUnit>
    requires IngestInv(s) && k < |frames|
  {
    var r := IngestPush(codec, IngestAt(codec, s, frames, k), frames[k]).1;
    if r.Ok? then r.value else None
  }

  /** An access unit with an IDR, behind the parameter sets of the configuration. */
  ghost predicate OpensWithSets(unit: AccessUnit, config: DecoderConfig, frame: VideoFrame) {
    && unit.keyframe && unit.dts == frame.timestamp && unit.pts == frame.timestamp + frame.offset
    && config.lengthBytes > 0 && AvccUnits(frame.payload, config.lengthBytes).Ok?
    && var units := AvccUnits(frame.payload, config.lengthBytes).value;
       HasIdr(units) && unit.annexB == AnnexB(config.sps + config.pps + WithoutParameterSets(units))
  }

  /** One frame while the ingest waits: it goes on waiting unless an access unit is returned, and that one
      opens with the parameter sets. */
  lemma WaitingStep(codec: HeaderCodec, s: Ingest, frame: VideoFrame)
    requires IngestInv(s) && s.waiting
    ensures var (next, r) := IngestPush(codec, s, frame);
            if r.Ok? && r.value.Some? then s.config.Some? && OpensWithSets(r.value.value, s.config.value, frame)
            else next.waiting
  {
    hide AvccUnits, HasIdr, WithoutParameterSets, AnnexB, FramedSize, ParseConfig;
  }

  lemma {:induction false} WaitingLasts(codec: HeaderCodec, s: Ingest, frames: seq<VideoFrame>, k: nat)
    requires IngestInv(s) && k <= |frames| && s.waiting
    requires forall i :: 0 <= i < k ==> ReturnedAt(codec, s, frames, i).None?
    ensures IngestAt(codec, s, frames, k).waiting
    decreases k
  {
    hide IngestPush, OpensWithSets;
    if k > 0 {
      WaitingLasts(codec, s, frames, k - 1);
      assert ReturnedAt(codec, s, frames, k - 1).None?;
      WaitingStep(codec, IngestAt(codec, s, frames, k - 1), frames[k - 1]);
    }
  }

  /** Over every sequence of frames after an end of sequence or an accepted header: the first access unit
      returned holds an IDR and begins with the parameter sets of the configuration then in force. */
  lemma AfterEndOfSequence(codec: HeaderCodec, s: Ingest, last: VideoFrame, frames: seq<VideoFrame>, k: nat)
    requires IngestInv(s) && last.avc && k < |frames|
    requires last.kind == Some(EndOfSequence)
             || (last.kind == Some(SequenceHeader) && IngestPush(codec, s, last).1.Ok?)
    requires var after := IngestPush(codec, s, last).0;
             && (forall i :: 0 <= i < k ==> ReturnedAt(codec, after, frames, i).None?)
             && ReturnedAt(codec, after, frames, k).Some?
    ensures var after := IngestPush(codec, s, last).0;
            var config := IngestAt(codec, after, frames, k).config;
            config.Some? && OpensWithSets(ReturnedAt(codec, after, frames, k).value, config.value, frames[k])
  {
    hide OpensWithSets, ParseConfig;
    var after := IngestPush(codec, s, last).0;
    assert after.waiting by { NowWaits(codec, s, last); }
    hide IngestPush;
    WaitingLasts(codec, after, frames, k);
    WaitingStep(codec, IngestAt(codec, after, frames, k), frames[k]);
  }

  lemma NowWaits(codec: HeaderCodec, s: Ingest, last: VideoFrame)
    requires IngestInv(s) && last.avc
    requires last.kind == Some(EndOfSequence)
             || (last.kind == Some(SequenceHeader) && IngestPush(codec, s, last).1.Ok?)
    ensures IngestPush(codec, s, last).0.waiting
    ensures last.kind == Some(EndOfSequence) ==>
              IngestPush(codec, s, last).1 == Ok(None) && IngestPush(codec, s, last).0.config == s.config
  {
    hide ParseConfig;
  }
}
