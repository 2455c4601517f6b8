/** AAC on RTMP (crates/rtmp/src/aac.rs): ADTS frames to raw AAC messages and back. */
module Aac {
  import opened Bytes
  import opened Elementary

  const MAX_ADTS_FRAME_BYTES: nat := 0x1fff
  const AAC_LC: nat := 2
  const SAMPLE_RATE_INDEX: nat := 3
  const STEREO: nat := 2
  const AUDIO_SPECIFIC_CONFIG: ByteString := [0x11, 0x90]

  datatype AacError = UnsupportedFormat | MissingConfig | InvalidConfig | InvalidPayloadLength | InvalidAdts

  datatype AudioMessage = AudioMessage(timestamp: U32, aac: bool, sequenceHeader: bool, payload: ByteString)

  datatype AacAccessUnit = AacAccessUnit(timestamp: U32, adts: ByteString)

  // ----- framing -----

  /** The seven bytes in front of a frame of `length` bytes. */
  function AdtsHeaderBytes(length: int): (s: ByteString)
    requires 0 <= length <= MAX_ADTS_FRAME_BYTES
    ensures |s| == 7
  {
    [0xff, 0xf1, 0x4c, 0x80 + length / 2048 % 4, length / 8 % 256, length % 8 * 32 + 0x1f, 0xfc]
  }

  function Framed(payload: ByteString): (s: ByteString)
    requires |payload| + 7 <= MAX_ADTS_FRAME_BYTES
    ensures |s| == |payload| + 7
  {
    AdtsHeaderBytes(|payload| + 7) + payload
  }

  predicate Framable(payload: ByteString) {
    0 < |payload| && |payload| + 7 <= MAX_ADTS_FRAME_BYTES
  }

  lemma LengthFields(length: nat)
    requires length <= MAX_ADTS_FRAME_BYTES
    ensures JoinFrameLength(length / 2048 % 4, length / 8 % 256, length % 8) == length
  {
    var q := length / 8;
    assert q == q / 256 * 256 + q % 256 && q / 256 == length / 2048;
    assert length / 2048 < 4;
  }

  /** The parser on a header of the fixed profile, with the three parts of the frame length. */
  lemma FixedProfileParses(data: ByteString, high: nat, middle: Byte, low: nat)
    requires high < 4 && low < 8 && 7 <= JoinFrameLength(high, middle, low) <= |data|
    requires data[..7] == [0xff, 0xf1, 0x4c, 0x80 + high, middle, low * 32 + 0x1f, 0xfc]
    ensures ParseAdtsFrame(data) ==
            Ok(AdtsFrame(AdtsHeader(0, AAC_LC, 48000, STEREO, JoinFrameLength(high, middle, low), 7, 0),
                         data[..JoinFrameLength(high, middle, low)], data[..JoinFrameLength(high, middle, low)][7..]))
  {
    hide JoinFrameLength;
    var h := data[..7];
    assert h[0] == data[0] && h[1] == data[1] && h[2] == data[2] && h[3] == data[3] && h[4] == data[4]
           && h[5] == data[5]
           && h[6] == data[6];
    assert data[3] / 64 == 2 && data[3] % 4 == high && data[5] / 32 == low;
    assert JoinChannels(0, 2) == 2;
  }

  /** Whatever follows it, a framed payload is parsed back with the fixed profile. */
  lemma FramedParses(payload: ByteString, rest: ByteString)
    requires Framable(payload)
    ensures ParseAdtsFrame(Framed(payload) + rest) ==
            Ok(AdtsFrame(AdtsHeader(0, AAC_LC, 48000, STEREO, |payload| + 7, 7, 0), Framed(payload), payload))
  {
    hide ParseAdtsFrame, JoinFrameLength;
    var length := |payload| + 7;
    var data := Framed(payload) + rest;
    LengthFields(length);
    assert data[..7] == AdtsHeaderBytes(length);
    FixedProfileParses(data, length / 2048 % 4, length / 8 % 256, length % 8);
    assert data[..length] == Framed(payload) && Framed(payload)[7..] == payload;
  }

  function FramedAll(payloads: seq<ByteString>): ByteString
    requires forall i :: 0 <= i < |payloads| ==> Framable(payloads[i])
  {
    if payloads == [] then [] else assert Framable(payloads[0]); Framed(payloads[0]) + FramedAll(payloads[1..])
  }

  /** A concatenation of framed payloads splits into exactly those payloads. */
  lemma {:induction false} FramesSplit(payloads: seq<ByteString>)
    requires forall i :: 0 <= i < |payloads| ==> Framable(payloads[i])
    ensures var r := AdtsFrames(FramedAll(payloads));
            && r.Ok? && |r.value| == |payloads|
            && forall i :: 0 <= i < |payloads| ==>
               r.value[i].payload == payloads[i] && r.value[i].bytes == Framed(payloads[i])
    decreases |payloads|
  {
    hide ParseAdtsFrame, Framed;
    if payloads != [] {
      var rest := FramedAll(payloads[1..]);
      FramedParses(payloads[0], rest);
      assert (Framed(payloads[0]) + rest)[|payloads[0]| + 7..] == rest;
      FramesSplit(payloads[1..]);
    }
  }

  // ----- the receiving side -----

  /** The audio object type, sampling rate and channels of an AudioSpecificConfig must be AAC-LC, 48 kHz
      and stereo. */
  predicate ConfigAccepted(data: ByteString) {
    && |data| >= 2
    && data[0] / 8 == AAC_LC
    && JoinRate(data[0] % 8, data[1] / 128) == SAMPLE_RATE_INDEX
    && data[1] / 8 % 16 == STEREO
  }

  function JoinRate(high: int, low: int): int {
    high * 2 + low
  }

  function IngestPush(configured: bool, message: AudioMessage): (bool, Result<Option<AacAccessUnit>, AacError>) {
    if !message.aac then (configured, Err(UnsupportedFormat))
    else if message.sequenceHeader then
      if ConfigAccepted(message.payload) then (true, Ok(None)) else (configured, Err(InvalidConfig))
    else if !configured then (configured, Err(MissingConfig))
    else if message.payload == [] || |message.payload| + 7 > MAX_ADTS_FRAME_BYTES
      then (configured, Err(InvalidPayloadLength))
    else (configured, Ok(Some(AacAccessUnit(message.timestamp, Framed(message.payload)))))
  }

  // ----- the publishing side -----

  /** Exactly one AAC-LC, 48 kHz, stereo frame with one raw data block. */
  predicate Publishable(adts: ByteString) {
    match ParseAdtsFrame(adts)
    case Err(_) => false
    case Ok(frame) =>
      && |frame.bytes| == |adts| && frame.header.audioObjectType == AAC_LC && frame.header.sampleRateHz == 48000
      && frame.header.channelConfiguration == STEREO && frame.header.rawDataBlocks == 0 && frame.payload != []
  }

  function PayloadOf(adts: ByteString): ByteString
    requires Publishable(adts)
  {
    ParseAdtsFrame(adts).value.payload
  }

  function PushAdts(headerSent: bool, timestamp: U32, adts: ByteString): (bool, Result<seq<AudioMessage>, AacError>) {
    if !Publishable(adts) then (headerSent, Err(InvalidAdts))
    else
      var header := AudioMessage(timestamp, true, true, AUDIO_SPECIFIC_CONFIG);
      var media := AudioMessage(timestamp, true, false, PayloadOf(adts));
      (true, Ok(if headerSent then [media] else [header, media]))
  }

  /** A framed payload is published as that payload. */
  lemma FramedIsPublishable(payload: ByteString)
    requires Framable(payload)
    ensures Publishable(Framed(payload)) && PayloadOf(Framed(payload)) == payload
  {
    hide ParseAdtsFrame, Framed;
    FramedParses(payload, []);
    assert Framed(payload) + [] == Framed(payload);
  }

  /** No frame the publisher accepts is too long to be framed again. */
  lemma PayloadFits(adts: ByteString)
    requires Publishable(adts)
    ensures Framable(PayloadOf(adts))
  {
    FrameLengthBounded(adts);
  }

  lemma FrameLengthBounded(adts: ByteString)
    ensures ParseAdtsFrame(adts).Ok? ==> ParseAdtsFrame(adts).value.header.frameLength <= MAX_ADTS_FRAME_BYTES
  {
  }

  // ----- both directions over a run -----

  datatype Input = Input(timestamp: U32, adts: ByteString)

  function Published(headerSent: bool, inputs: seq<Input>): seq<AudioMessage>
    requires forall i :: 0 <= i < |inputs| ==> Publishable(inputs[i].adts)
    decreases |inputs|
  {
    if inputs == [] then []
    else
      var (sent, r) := PushAdts(headerSent, inputs[0].timestamp, inputs[0].adts);
      r.value + Published(sent, inputs[1..])
  }

  function Report(r: Result<Option<AacAccessUnit>, AacError>): seq<Result<AacAccessUnit, AacError>> {
    match r
    case Err(e) => [Err(e)]
    case Ok(None) => []
    case Ok(Some(unit)) => [Ok(unit)]
  }

  function Received(configured: bool, messages: seq<AudioMessage>): seq<Result<AacAccessUnit, AacError>>
    decreases |messages|
  {
    if messages == [] then []
    else
      var (next, r) := IngestPush(configured, messages[0]);
      Report(r) + Received(next, messages[1..])
  }

  lemma ReceivedFirst(configured: bool, message: AudioMessage, rest: seq<AudioMessage>)
    ensures Received(configured, [message] + rest) ==
            Report(IngestPush(configured, message).1) + Received(IngestPush(configured, message).0, rest)
  {
    assert ([message] + rest)[1..] == rest;
  }

  lemma ConfigIsAccepted()
    ensures ConfigAccepted(AUDIO_SPECIFIC_CONFIG)
  {
  }

  /** Every published run is received without an error: at the same times, each frame's payload behind
      the canonical header, from which parsing recovers it. */
  lemma {:induction false} RunRoundTrip(headerSent: bool, inputs: seq<Input>)
    requires forall i :: 0 <= i < |inputs| ==> Publishable(inputs[i].adts)
    ensures var got := Received(headerSent, Published(headerSent, inputs));
            && |got| == |inputs|
            && forall i :: 0 <= i < |inputs| ==>
                 Framable(PayloadOf(inputs[i].adts)) &&
                 got[i] == Ok(AacAccessUnit(inputs[i].timestamp, Framed(PayloadOf(inputs[i].adts))))
    decreases |inputs|
  {
    hide Publishable, PayloadOf, Framed, ConfigAccepted;
    if inputs != [] {
      var timestamp, adts := inputs[0].timestamp, inputs[0].adts;
      PayloadFits(adts);
      ConfigIsAccepted();
      var header := AudioMessage(timestamp, true, true, AUDIO_SPECIFIC_CONFIG);
      var media := AudioMessage(timestamp, true, false, PayloadOf(adts));
      var rest := Published(true, inputs[1..]);
      assert [header, media] + rest == [header] + ([media] + rest);
      RunRoundTrip(true, inputs[1..]);
      ReceivedFirst(headerSent, header, [media] + rest);
      ReceivedFirst(true, media, rest);
      var got := Received(headerSent, Published(headerSent, inputs));
      assert got == [Ok(AacAccessUnit(timestamp, Framed(PayloadOf(adts))))] + Received(true, rest);
    }
  }

  // ----- the objects -----

  class AacIngest {
    var configured: bool

    constructor ()
      ensures !configured
    {
      configured := false;
    }

    method Push(message: AudioMessage) returns (r: Result<Option<AacAccessUnit>, AacError>)
      modifies this
      ensures (configured, r) == IngestPush(old(configured), message)
    {
      if !message.aac {
        return Err(UnsupportedFormat);
      }
      if message.sequenceHeader {
        if !ConfigAccepted(message.payload) {
          return Err(InvalidConfig);
        }
        configured := true;
        return Ok(None);
      }
      if !configured {
        return Err(MissingConfig);
      }
      if |message.payload| == 0 || |message.payload| + 7 > MAX_ADTS_FRAME_BYTES {
        return Err(InvalidPayloadLength);
      }
      return Ok(Some(AacAccessUnit(message.timestamp, AdtsHeaderBytes(|message.payload| + 7) + message.payload)));
    }
  }

  class AacPublisher {
    var sequenceHeaderSent: bool

    constructor ()
      ensures !sequenceHeaderSent
    {
      sequenceHeaderSent := false;
    }

    method Push(timestamp: U32, adts: ByteString) returns (r: Result<seq<AudioMessage>, AacError>)
      modifies this
      ensures (sequenceHeaderSent, r) == PushAdts(old(sequenceHeaderSent), timestamp, adts)
    {
      hide Publishable, PayloadOf;
      if !Publishable(adts) {
        return Err(InvalidAdts);
      }
      var output := [];
      if !sequenceHeaderSent {
        output := [AudioMessage(timestamp, true, true, AUDIO_SPECIFIC_CONFIG)];
        sequenceHeaderSent := true;
      }
      var media := AudioMessage(timestamp, true, false, PayloadOf(adts));
      assert [] + [media] == [media];
      assert [AudioMessage(timestamp, true, true, AUDIO_SPECIFIC_CONFIG)] + [media]
          == [AudioMessage(timestamp, true, true, AUDIO_SPECIFIC_CONFIG), media];
      output := output + [media];
      return Ok(output);
    }
  }
}
