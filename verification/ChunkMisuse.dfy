/** Chunks that section 5.3.1 of Adobe RTMP 1.0 does not allow, or that the ingress guard does not take:
    after any legal run each is refused with its own error, in every cut and whatever follows it. */
module ChunkMisuse {
  import opened Bytes
  import opened Ingress
  import opened ChunkSender

  datatype Misuse =
    /** The first chunk of a chunk stream has a header of type 1, 2 or 3. */
    | Compressed(csid: nat, width: nat, format: nat)
    /** A header of type 0, 1 or 2 comes on a chunk stream whose message is not finished. */
    | Interrupting(csid: nat, width: nat, header: ByteString, format: nat)
    /** A Set Chunk Size message declares a length other than four. */
    | MissizedControl(csid: nat, width: nat, format: nat, timestamp: U32, length: nat, streamId: ByteString)

  /** The misuse is one, where the sender stands. */
  predicate Misused(s: Sender, m: Misuse)
    requires SenderInv(s)
  {
    && LegalId(m.csid, m.width)
    && match m
       case Compressed(csid, _, format) => 0 < format < 4 && csid !in s.lanes
       case Interrupting(csid, _, header, format) =>
         format < 3 && |header| == HeaderSize(format) && csid in s.lanes && !Idle(s.lanes[csid])
       case MissizedControl(csid, _, format, _, length, streamId) =>
         && format < 2 && length != 4 && length < 0x100_0000 && |streamId| == 4
         && (if csid in s.lanes then Idle(s.lanes[csid]) else format == 0 && |s.lanes| < 64)
  }

  function MisuseBytes(s: Sender, m: Misuse): ByteString
    requires SenderInv(s) && Misused(s, m)
  {
    BasicHeader(m.format, m.csid, m.width) +
    match m
    case Compressed(_, _, _) => []
    case Interrupting(_, _, header, _) => header
    case MissizedControl(_, _, format, timestamp, length, streamId) =>
      MessageHeader(format, timestamp, length, SET_CHUNK_SIZE, streamId) + ExtendedTimestamp(timestamp)
  }

  function MisuseError(m: Misuse, max: nat): GuardError {
    match m
    case Compressed(_, _, _) => FirstHeaderCompressed
    case Interrupting(_, _, _, _) => MessageInterrupted
    case MissizedControl(_, _, _, _, length, _) => if length > max then MessageTooLarge else BadSetChunkSize
  }

  lemma CompressedRefused(core: Core, csid: nat, width: nat, format: nat, rest: ByteString)
    requires CoreInv(core) && LegalId(csid, width) && 0 < format < 4 && csid !in core.streams
    ensures ParseChunk(core, BasicHeader(format, csid, width) + rest) == Refused(FirstHeaderCompressed)
  {
    hide CoreInv, BasicHeader, ParseBasicHeader;
    BasicHeaderReads(format, csid, width, rest);
  }

  lemma MissizedRefused(ready: Core, csid: nat, header: Header, size: nat, bytes: ByteString)
    requires csid in ready.streams && header.typeId == SET_CHUNK_SIZE && header.length != 4
    requires size + (if header.extended then 4 else 0) <= |bytes|
    ensures TakePayload(ready, csid, Some(header), size, bytes) ==
            Refused(if header.length > ready.max then MessageTooLarge else BadSetChunkSize)
  {
    hide Absorb;
  }

  /** Where the guard follows the sender, the chunk is refused as soon as its header is there. */
  lemma ChunkMisused(s: Sender, max: nat, m: Misuse, rest: ByteString)
    requires SenderInv(s) && Fits(s, max) && Misused(s, m)
    ensures CoreInv(CoreOf(s, max))
    ensures ParseChunk(CoreOf(s, max), MisuseBytes(s, m) + rest) == Refused(MisuseError(m, max))
  {
    hide CoreInv, ParseChunk, BasicHeader, MessageHeader, Fits, TakePayload, ReadHeader, Registered, HeaderOf;
    CoreOfInv(s, max);
    var core, basic := CoreOf(s, max), BasicHeader(m.format, m.csid, m.width);
    match m
    case Compressed(csid, width, format) =>
      assert MisuseBytes(s, m) == basic;
      CompressedRefused(core, csid, width, format, rest);
    case Interrupting(csid, width, header, format) =>
      assert basic + header + rest == basic + (header + rest);
      InterruptionRefused(core, csid, width, format, header + rest);
    case MissizedControl(csid, width, format, timestamp, length, streamId) =>
      var message, time := MessageHeader(format, timestamp, length, SET_CHUNK_SIZE, streamId),
        ExtendedTimestamp(timestamp);
      var ready := Opened(s, max, csid, format);
      MessageHeaderReads(ready.streams[csid], format, timestamp, length, SET_CHUNK_SIZE, streamId);
      HeadersRead(core, ready, csid, width, format, Some(Header(length, SET_CHUNK_SIZE, timestamp >= 0xff_ffff)),
                  message,
                  time + rest);
      assert basic + (message + time) + rest == basic + message + (time + rest);
      MissizedRefused(ready, csid, Header(length, SET_CHUNK_SIZE, timestamp >= 0xff_ffff), width + |message|,
                      basic + message + (time + rest));
  }

  /** The guard once it has registered the chunk stream of a new message. */
  ghost function Opened(s: Sender, max: nat, csid: nat, format: nat): (ready: Core)
    requires SenderInv(s) && Fits(s, max)
    requires if csid in s.lanes then Idle(s.lanes[csid]) else format == 0 && |s.lanes| < 64
    ensures Registered(CoreOf(s, max), csid, format) == Ok(ready)
    ensures CoreInv(CoreOf(s, max)) && CoreInv(ready) && csid in ready.streams && ready.max == max
    ensures ready.streams[csid].current.None? && (format > 0 ==> ready.streams[csid].previous.Some?)
  {
    CoreOfInv(s, max);
    var core := CoreOf(s, max);
    assert core.streams.Keys == s.lanes.Keys;
    assert |core.streams| == |core.streams.Keys| && |s.lanes| == |s.lanes.Keys|;
    RegisteredKeeps(core, csid, format);
    Registered(core, csid, format).value
  }

  /** Main result: a sender that kept to the protocol and to the guard's limits and then misuses one chunk is
      refused, in every cut, with the error of the misuse unless a size limit came first; nothing that follows
      helps. */
  lemma MisuseIsRefused(max: nat, handshake: ByteString, actions: seq<Send>, m: Misuse, rest: ByteString,
                        feeds: seq<ByteString>)
    requires |handshake| == 1 + 1536 + 1536 && LegalRun(FRESH_SENDER, actions)
    requires Verdict(FRESH_SENDER, max, actions).None?
    requires SenderInv(AfterRun(FRESH_SENDER, actions)) && Misused(AfterRun(FRESH_SENDER, actions), m)
    requires Concat(feeds) ==
             handshake + Wire(FRESH_SENDER, actions) + MisuseBytes(AfterRun(FRESH_SENDER, actions), m) + rest
    ensures GuardInv(NewGuard(max))
    ensures var r := InspectAll(NewGuard(max), feeds);
            r.Err? && r.error in {FeedTooLarge, BufferFull, MisuseError(m, max)}
  {
    hide LegalRun, Wire, AfterRun, SenderInv, CoreOf, GuardInv, CoreInv, InspectAll, Drain, Fits, Verdict, Misused,
      MisuseBytes, ParseChunk, Meaning;
    var s, wire := AfterRun(FRESH_SENDER, actions), Wire(FRESH_SENDER, actions);
    var tail := MisuseBytes(s, m) + rest;
    NewGuardInv(max);
    FreshSender(max);
    RunDrains(FRESH_SENDER, max, actions);
    ChunkMisused(s, max, m, rest);
    RefusedBreaks(CoreOf(s, max), tail);
    DrainSplit(NewGuard(max).core, wire, tail);
    assert [] + tail == tail;
    assert handshake + wire + MisuseBytes(s, m) + rest == handshake + (wire + tail);
    MeaningOfRun(max, handshake, wire + tail);
    CutIndependence(NewGuard(max), feeds);
  }
}
