/** What the AAC converters take and what they refuse, bit by bit and over whole runs
    (crates/rtmp/src/aac.rs:37-120). */
module AacGate {
  import opened Bytes
  import opened Elementary
  import opened Aac

  /** The header length of an ADTS frame, with or without a CRC. */
  function HeaderBytes(adts: ByteString): nat
    requires |adts| >= 2
  {
    if adts[1] % 2 == 1 then 7 else 9
  }

  /** The publisher takes exactly: sync word, layer 0, profile LC, sampling frequency index 3, two channels, a
      declared length that is the length of all the bytes, one raw data block, and a payload. */
  lemma PublishableIff(adts: ByteString)
    ensures Publishable(adts) <==>
            && |adts| >= 7
            && adts[0] == 0xff && adts[1] / 16 == 15 && adts[1] / 2 % 4 == 0
            && adts[2] / 64 == 1 && adts[2] / 4 % 16 == 3 && adts[2] % 2 == 0 && adts[3] / 64 == 2
            && adts[3] as int % 4 * 2048 + adts[4] as int * 8 + adts[5] as int / 32 == |adts|
            && adts[6] % 4 == 0
            && |adts| > HeaderBytes(adts)
    ensures Publishable(adts) ==> PayloadOf(adts) == adts[HeaderBytes(adts)..]
  {
    if |adts| >= 7 {
      var channels := JoinChannels(adts[2] % 2, adts[3] / 64);
      assert channels == 2 <==> adts[2] % 2 == 0 && adts[3] / 64 == 2;
      assert adts[..|adts|] == adts;
    }
  }

  /** A sequence header is taken exactly if its first thirteen bits are 00010 0011 0010: LC, 48 kHz, stereo. */
  lemma ConfigAcceptedIff(data: ByteString)
    ensures ConfigAccepted(data) <==> |data| >= 2 && data[0] == 0x11 && 0x90 <= data[1] < 0x98
  {
  }

  function ConfiguredBy(messages: seq<AudioMessage>): bool
    decreases |messages|
  {
    if messages == [] then false
    else IngestPush(ConfiguredBy(messages[..|messages| - 1]), messages[|messages| - 1]).0
  }

  predicate Configures(m: AudioMessage) {
    m.aac && m.sequenceHeader && |m.payload| >= 2 && m.payload[0] == 0x11 && 0x90 <= m.payload[1] < 0x98
  }

  /** An ingest is configured if and only if it has received a sequence header that it takes. */
  lemma {:induction false} ConfiguredIff(messages: seq<AudioMessage>)
    ensures ConfiguredBy(messages) <==> exists j :: 0 <= j < |messages| && Configures(messages[j])
    decreases |messages|
  {
    if messages != [] {
      var n := |messages| - 1;
      ConfigAcceptedIff(messages[n].payload);
      ConfiguredIff(messages[..n]);
    }
  }

  /** Over every run of messages into a new ingest, what the k-th call returns: a unit, framed at its time, if and
      only if a sequence header was taken before and the payload fits a frame; otherwise the error that tells. */
  lemma ReturnedBy(messages: seq<AudioMessage>, k: nat)
    requires k < |messages|
    ensures var m := messages[k];
            IngestPush(ConfiguredBy(messages[..k]), m).1 ==
            if !m.aac then Err(UnsupportedFormat)
            else if m.sequenceHeader then (if Configures(m) then Ok(None) else Err(InvalidConfig))
            else if forall j :: 0 <= j < k ==> !Configures(messages[j]) then Err(MissingConfig)
            else if !(1 <= |m.payload| <= 8184) then Err(InvalidPayloadLength)
            else Ok(Some(AacAccessUnit(m.timestamp, Framed(m.payload))))
  {
    hide Framed;
    ConfigAcceptedIff(messages[k].payload);
    ConfiguredIff(messages[..k]);
    assert forall j :: 0 <= j < k ==> messages[..k][j] == messages[j];
  }
}
