/** A sender that follows section 5.3.1 of Adobe RTMP 1.0, and the proof that the ingress guard accepts
    everything it can send and counts exactly its messages. */
module ChunkSender {
  import opened Bytes
  import opened Ingress

  /** A protocol control message that sets the chunk size, or any other message. */
  datatype Body = ChunkSize(size: nat) | Media(typeId: Byte, data: ByteString)

  function WriteU24(n: nat): (s: ByteString)
    requires n < 0x100_0000
    ensures |s| == 3
  {
    [n / 0x1_0000, n / 0x100 % 0x100, n % 0x100]
  }

  function WriteU32(n: nat): (s: ByteString)
    requires n < 0x1_0000_0000
    ensures |s| == 4
  {
    [n / 0x100_0000] + WriteU24(n % 0x100_0000)
  }

  function TypeOf(body: Body): Byte {
    if body.ChunkSize? then SET_CHUNK_SIZE else body.typeId
  }

  function PayloadOf(body: Body): ByteString
    requires body.ChunkSize? ==> body.size < 0x1_0000_0000
  {
    if body.ChunkSize? then WriteU32(body.size) else body.data
  }

  /** The message last begun on one chunk stream and how much of it has been sent. */
  datatype Lane = Lane(timestamp: U32, body: Body, sent: nat)

  datatype Sender = Sender(chunkSize: nat, lanes: map<nat, Lane>, completed: nat)

  const FRESH_SENDER: Sender := Sender(128, map[], 0)

  /** `width` is the size of the basic header, `timestamp` absolute or a delta as the format says. */
  datatype Send =
    | Begin(csid: nat, width: nat, format: nat, timestamp: U32, body: Body, streamId: ByteString)
    | Continue(csid: nat, width: nat)

  /** What the protocol allows a chunk size to be. */
  predicate LegalSize(size: nat) {
    0 < size < 0x8000_0000
  }

  /** What can be written; a Set Chunk Size may ask for any size of 32 bits. */
  predicate LegalBody(body: Body) {
    if body.ChunkSize? then body.size < 0x1_0000_0000
    else body.typeId != SET_CHUNK_SIZE && |body.data| < 0x100_0000
  }

  predicate LegalId(csid: nat, width: nat) {
    || (width == 1 && 2 <= csid < 64)
    || (width == 2 && 64 <= csid < 320)
    || (width == 3 && 64 <= csid < 65600)
  }

  predicate Idle(lane: Lane)
    requires lane.body.ChunkSize? ==> lane.body.size < 0x1_0000_0000
  {
    lane.sent == |PayloadOf(lane.body)|
  }

  predicate LaneInv(lane: Lane) {
    LegalBody(lane.body) && lane.sent <= |PayloadOf(lane.body)|
  }

  predicate SenderInv(s: Sender) {
    s.chunkSize > 0 && forall c :: c in s.lanes ==> LaneInv(s.lanes[c])
  }

  /** What the sections on the four header types allow. A message of type 2 repeats the length and
      type of the one before, a message of type 3 its timestamp too. */
  predicate Legal(s: Sender, a: Send)
    requires SenderInv(s)
  {
    && LegalId(a.csid, a.width)
    && match a
       case Continue(csid, _) => csid in s.lanes && !Idle(s.lanes[csid])
       case Begin(csid, _, format, timestamp, body, streamId) =>
         && format < 4 && |streamId| == 4 && LegalBody(body)
         && (csid in s.lanes ==> Idle(s.lanes[csid]))
         && (csid !in s.lanes ==> format == 0)
         && (format >= 2 ==>
               && |PayloadOf(body)| == |PayloadOf(s.lanes[csid].body)|
               && TypeOf(body) == TypeOf(s.lanes[csid].body))
         && (format == 3 ==> timestamp == s.lanes[csid].timestamp)
  }

  // ----- the bytes on the wire -----

  function BasicHeader(format: nat, csid: nat, width: nat): (s: ByteString)
    requires format < 4 && LegalId(csid, width)
    ensures |s| == width
  {
    if width == 1 then [format * 64 + csid]
    else if width == 2 then [format * 64, csid - 64]
    else [format * 64 + 1, (csid - 64) % 0x100, (csid - 64) / 0x100]
  }

  function MessageHeader(format: nat, timestamp: U32, length: nat, typeId: Byte, streamId: ByteString): (s: ByteString)
    requires format < 4 && length < 0x100_0000 && |streamId| == 4
    ensures |s| == HeaderSize(format)
  {
    if format == 3 then []
    else
      var time := WriteU24(Min(timestamp, 0xff_ffff));
      if format == 2 then time
      else if format == 1 then time + WriteU24(length) + [typeId]
      else time + WriteU24(length) + [typeId] + streamId
  }

  /** A timestamp that does not fit 24 bits follows the header, on every chunk of the message. */
  function ExtendedTimestamp(timestamp: U32): ByteString {
    if timestamp >= 0xff_ffff then WriteU32(timestamp) else []
  }

  function NextPart(chunkSize: nat, lane: Lane): ByteString
    requires lane.body.ChunkSize? ==> lane.body.size < 0x1_0000_0000
    requires lane.sent <= |PayloadOf(lane.body)|
  {
    var payload := PayloadOf(lane.body);
    payload[lane.sent..lane.sent + Min(chunkSize, |payload| - lane.sent)]
  }

  /** The lane an action works on, before its chunk. */
  function LaneFor(s: Sender, a: Send): Lane
    requires SenderInv(s) && Legal(s, a)
  {
    if a.Begin? then Lane(a.timestamp, a.body, 0) else s.lanes[a.csid]
  }

  function Emit(s: Sender, a: Send): ByteString
    requires SenderInv(s) && Legal(s, a)
  {
    var lane := LaneFor(s, a);
    (if a.Begin?
     then BasicHeader(a.format, a.csid, a.width) +
          MessageHeader(a.format, a.timestamp, |PayloadOf(a.body)|, TypeOf(a.body), a.streamId)
     else BasicHeader(3, a.csid, a.width)) +
    ExtendedTimestamp(lane.timestamp) + NextPart(s.chunkSize, lane)
  }

  /** A finished Set Chunk Size message counts from the next chunk on, if its size is allowed. */
  function Advance(s: Sender, a: Send): Sender
    requires SenderInv(s) && Legal(s, a)
  {
    var lane := LaneFor(s, a);
    var sent := lane.(sent := lane.sent + |NextPart(s.chunkSize, lane)|);
    var lanes := s.lanes[a.csid := sent];
    if !Idle(sent) then s.(lanes := lanes)
    else
      var resizes := lane.body.ChunkSize? && LegalSize(lane.body.size);
      Sender(if resizes then lane.body.size else s.chunkSize, lanes, s.completed + 1)
  }

  ghost predicate LegalRun(s: Sender, actions: seq<Send>)
    decreases |actions|
  {
    && SenderInv(s)
    && (actions != [] ==> Legal(s, actions[0]) && LegalRun(Advance(s, actions[0]), actions[1..]))
  }

  ghost function Wire(s: Sender, actions: seq<Send>): ByteString
    requires LegalRun(s, actions)
    decreases |actions|
  {
    if actions == [] then []
    else Emit(s, actions[0]) + Wire(Advance(s, actions[0]), actions[1..])
  }

  ghost function AfterRun(s: Sender, actions: seq<Send>): Sender
    requires LegalRun(s, actions)
    decreases |actions|
  {
    if actions == [] then s else AfterRun(Advance(s, actions[0]), actions[1..])
  }

  // ----- the limits of the guard -----

  /** What the sender has begun is within the guard's limits. */
  predicate Fits(s: Sender, max: nat)
    requires SenderInv(s)
  {
    |s.lanes| <= 64 && forall c :: c in s.lanes ==> |PayloadOf(s.lanes[c].body)| <= max
  }

  predicate Completes(s: Sender, a: Send)
    requires SenderInv(s) && Legal(s, a)
  {
    var lane := LaneFor(s, a);
    Idle(lane.(sent := lane.sent + |NextPart(s.chunkSize, lane)|))
  }

  function SizeRefusal(size: nat, max: nat): Option<GuardError> {
    if size >= 0x8000_0000 then Some(ReservedBitSet)
    else if size == 0 || size > max then Some(ChunkSizeRefused)
    else None
  }

  /** What the guard does not take in a chunk: one chunk stream too many, a message longer than the
      configured maximum, or, with its last byte, a Set Chunk Size that is not allowed or above the maximum. */
  function Refusal(s: Sender, max: nat, a: Send): Option<GuardError>
    requires SenderInv(s) && Legal(s, a)
  {
    var lane := LaneFor(s, a);
    if a.csid !in s.lanes && |s.lanes| >= 64 then Some(TooManyStreams)
    else if |PayloadOf(lane.body)| > max then Some(MessageTooLarge)
    else if lane.body.ChunkSize? && Completes(s, a) then SizeRefusal(lane.body.size, max)
    else None
  }

  /** The first limit that a run meets. */
  ghost function Verdict(s: Sender, max: nat, actions: seq<Send>): Option<GuardError>
    requires LegalRun(s, actions)
    decreases |actions|
  {
    if actions == [] then None
    else if Refusal(s, max, actions[0]).Some? then Refusal(s, max, actions[0])
    else Verdict(Advance(s, actions[0]), max, actions[1..])
  }

  // ----- the guard as the sender knows it to be -----

  function HeaderOf(lane: Lane): Header
    requires lane.body.ChunkSize? ==> lane.body.size < 0x1_0000_0000
  {
    Header(|PayloadOf(lane.body)|, TypeOf(lane.body), lane.timestamp >= 0xff_ffff)
  }

  function CurrentOf(lane: Lane): Current
    requires lane.body.ChunkSize? ==> lane.body.size < 0x1_0000_0000
    requires lane.sent <= |PayloadOf(lane.body)|
  {
    Current(|PayloadOf(lane.body)| - lane.sent, TypeOf(lane.body),
            if lane.body.ChunkSize? then PayloadOf(lane.body)[..lane.sent] else [])
  }

  function StreamOf(lane: Lane): ChunkStream
    requires lane.body.ChunkSize? ==> lane.body.size < 0x1_0000_0000
    requires lane.sent <= |PayloadOf(lane.body)|
  {
    ChunkStream(Some(HeaderOf(lane)), if Idle(lane) then None else Some(CurrentOf(lane)))
  }

  function Counted(n: nat): U64 {
    Min(n, U64_MAX)
  }

  function CoreOf(s: Sender, max: nat): Core
    requires SenderInv(s)
  {
    Core(s.chunkSize, max, map c | c in s.lanes :: StreamOf(s.lanes[c]), Counted(s.completed))
  }

  lemma CoreOfInv(s: Sender, max: nat)
    requires SenderInv(s) && Fits(s, max)
    ensures CoreInv(CoreOf(s, max))
  {
    var core := CoreOf(s, max);
    assert core.streams.Keys == s.lanes.Keys;
    assert |core.streams| == |core.streams.Keys| && |s.lanes| == |s.lanes.Keys|;
    forall c | c in core.streams ensures StreamInv(core, core.streams[c]) {
      assert LaneInv(s.lanes[c]);
    }
  }

  // ----- reading back one chunk -----

  lemma U24RoundTrip(n: nat)
    requires n < 0x100_0000
    ensures ReadU24(WriteU24(n)) == n
  {
  }

  lemma U32RoundTrip(n: nat)
    requires n < 0x1_0000_0000
    ensures ReadU32(WriteU32(n)) == n
  {
    U24RoundTrip(n % 0x100_0000);
    assert WriteU32(n)[1..] == WriteU24(n % 0x100_0000);
  }

  lemma BasicHeaderReads(format: nat, csid: nat, width: nat, rest: ByteString)
    requires format < 4 && LegalId(csid, width)
    ensures var bytes := BasicHeader(format, csid, width) + rest;
            bytes[0] as int / 64 == format && ParseBasicHeader(bytes) == Some((csid, width))
  {
    var bytes := BasicHeader(format, csid, width) + rest;
    assert forall i :: 0 <= i < width ==> bytes[i] == BasicHeader(format, csid, width)[i];
  }

  lemma MessageHeaderReads(stream: ChunkStream, format: nat, timestamp: U32, length: nat, typeId: Byte,
                           streamId: ByteString)
    requires format < 4 && length < 0x100_0000 && |streamId| == 4
    requires stream.current.None? && (format > 0 ==> stream.previous.Some?)
    requires format == 2 ==> stream.previous.value.length == length && stream.previous.value.typeId == typeId
    ensures ReadHeader(stream, format, MessageHeader(format, timestamp, length, typeId, streamId)) ==
            Ok(if format == 3 then None else Some(Header(length, typeId, timestamp >= 0xff_ffff)))
  {
    var bytes := MessageHeader(format, timestamp, length, typeId, streamId);
    var time := Min(timestamp, 0xff_ffff);
    if format != 3 {
      hide WriteU24, ReadU24;
      U24RoundTrip(time);
      U24RoundTrip(length);
      assert bytes[..3] == WriteU24(time);
      if format < 2 {
        assert bytes[3..6] == WriteU24(length);
        assert bytes[6] == typeId;
      }
    }
  }

  lemma PartAbsorbed(lane: Lane, chunkSize: nat)
    requires LaneInv(lane)
    ensures var part := NextPart(chunkSize, lane);
            lane.sent + |part| <= |PayloadOf(lane.body)| &&
            WithPrefix(CurrentOf(lane), part) == CurrentOf(lane.(sent := lane.sent + |part|))
  {
    hide WriteU32;
    var payload, part := PayloadOf(lane.body), NextPart(chunkSize, lane);
    if lane.body.ChunkSize? {
      assert part[..|part|] == part;
      assert payload[..lane.sent] + part == payload[..lane.sent + |part|];
      assert payload[..lane.sent] + [] == payload[..lane.sent];
    }
  }

  /** A message that was sent completely is applied and counted, unless it sets a chunk size that is not taken. */
  lemma Completed(core: Core, lane: Lane, completed: nat)
    requires LaneInv(lane) && Idle(lane) && core.messages == Counted(completed)
    ensures Complete(core, CurrentOf(lane)) ==
            if lane.body.ChunkSize? && SizeRefusal(lane.body.size, core.max).Some?
            then Err(SizeRefusal(lane.body.size, core.max).value)
            else Ok(core.(messages := Counted(completed + 1),
                          chunkSize := if lane.body.ChunkSize? then lane.body.size else core.chunkSize))
  {
    if lane.body.ChunkSize? {
      assert CurrentOf(lane).prefix == WriteU32(lane.body.size);
      U32RoundTrip(lane.body.size);
    }
  }

  lemma PayloadTaken(core: Core, csid: nat, header: Option<Header>, lane: Lane, front: ByteString, rest: ByteString)
    requires csid in core.streams && CoreInv(core) && LaneInv(lane) && |PayloadOf(lane.body)| <= core.max
    requires Receiving(core.streams[csid], header, HeaderOf(lane)) == CurrentOf(lane)
    requires if header.Some? then header == Some(HeaderOf(lane))
             else core.streams[csid].previous == Some(HeaderOf(lane))
    requires header.None? ==> StreamInv(core, core.streams[csid])
    ensures var chunk := front + ExtendedTimestamp(lane.timestamp) + NextPart(core.chunkSize, lane);
            TakePayload(core, csid, header, |front|, chunk + rest) ==
            match Absorb(core, csid, header, HeaderOf(lane), NextPart(core.chunkSize, lane))
            case Ok(next) => Took(next, |chunk|)
            case Err(error) => Refused(error)
  {
    hide CoreInv, Absorb, WriteU32;
    var part := NextPart(core.chunkSize, lane);
    var ahead := front + ExtendedTimestamp(lane.timestamp);
    var bytes := ahead + part + rest;
    assert |ahead| == |front| + if HeaderOf(lane).extended then 4 else 0;
    assert bytes[|ahead|..|ahead| + |part|] == part;
    assert |part| == Min(CurrentOf(lane).remaining, core.chunkSize);
  }

  /** The guard's chunk streams with one lane replaced. */
  lemma LaneStored(s: Sender, max: nat, csid: nat, lane: Lane, t: Sender)
    requires SenderInv(s) && LaneInv(lane) && SenderInv(t)
    requires t.lanes == s.lanes[csid := lane]
    ensures CoreOf(t, max).streams == CoreOf(s, max).streams[csid := StreamOf(lane)]
  {
  }

  lemma AdvanceInv(s: Sender, a: Send)
    requires SenderInv(s) && Legal(s, a)
    ensures SenderInv(Advance(s, a))
    ensures LaneInv(LaneFor(s, a))
    ensures var lane := LaneFor(s, a); LaneInv(lane.(sent := lane.sent + |NextPart(s.chunkSize, lane)|))
  {
    var t := Advance(s, a);
    assert a.csid in s.lanes ==> LaneInv(s.lanes[a.csid]);
    forall c | c in t.lanes ensures LaneInv(t.lanes[c]) {
      assert c != a.csid ==> LaneInv(s.lanes[c]);
    }
  }

  lemma AdvanceFits(s: Sender, max: nat, a: Send)
    requires SenderInv(s) && Legal(s, a) && Fits(s, max) && Refusal(s, max, a).None?
    ensures SenderInv(Advance(s, a)) && Fits(Advance(s, a), max)
  {
    AdvanceInv(s, a);
    var t := Advance(s, a);
    assert t.lanes.Keys == s.lanes.Keys + {a.csid};
    assert |t.lanes| == |t.lanes.Keys| && |s.lanes| == |s.lanes.Keys|;
    if a.csid in s.lanes {
      assert t.lanes.Keys == s.lanes.Keys;
    }
  }

  /** The chunk's payload brings the guard where the sender is, unless it completes a chunk size that is not
      taken. */
  lemma AbsorbFollows(s: Sender, max: nat, a: Send, ready: Core, header: Option<Header>)
    requires SenderInv(s) && Legal(s, a) && SenderInv(Advance(s, a))
    requires LaneInv(LaneFor(s, a))
    requires a.csid in ready.streams
    requires ready.(streams := map[]) == CoreOf(s, max).(streams := map[])
    requires ready.streams - {a.csid} == CoreOf(s, max).streams - {a.csid}
    requires Receiving(ready.streams[a.csid], header, HeaderOf(LaneFor(s, a))) == CurrentOf(LaneFor(s, a))
    requires (if header.Some? then header else ready.streams[a.csid].previous) == Some(HeaderOf(LaneFor(s, a)))
    ensures var lane := LaneFor(s, a);
            Absorb(ready, a.csid, header, HeaderOf(lane), NextPart(s.chunkSize, lane)) ==
              if lane.body.ChunkSize? && Completes(s, a) && SizeRefusal(lane.body.size, max).Some?
              then Err(SizeRefusal(lane.body.size, max).value)
              else Ok(CoreOf(Advance(s, a), max))
  {
    hide SenderInv, Legal, Receiving, WithPrefix, Complete, Counted;
    var lane := LaneFor(s, a);
    PartAbsorbed(lane, s.chunkSize);
    var sent := lane.(sent := lane.sent + |NextPart(s.chunkSize, lane)|);
    assert HeaderOf(sent) == HeaderOf(lane);
    LaneStored(s, max, a.csid, sent, Advance(s, a));
    MaxIs(ready, CoreOf(s, max));
    SameElsewhere(ready.streams, CoreOf(s, max).streams, a.csid, StreamOf(sent));
    if Idle(sent) {
      Completed(ready.(streams := ready.streams[a.csid := StreamOf(sent)]), sent, s.completed);
    }
  }

  lemma MaxIs(a: Core, b: Core)
    requires a.(streams := map[]) == b.(streams := map[])
    ensures a.max == b.max && a.messages == b.messages && a.chunkSize == b.chunkSize
  {
  }

  lemma SameElsewhere<K, V>(a: map<K, V>, b: map<K, V>, k: K, v: V)
    requires a - {k} == b - {k}
    ensures a[k := v] == b[k := v]
  {
    assert a[k := v] == (a - {k})[k := v];
    assert b[k := v] == (b - {k})[k := v];
  }

  /** The guard after registering the chunk stream of an action. */
  function ReadyFor(s: Sender, max: nat, a: Send): (core: Core)
    requires SenderInv(s) && Legal(s, a)
    ensures core.max == max && core.chunkSize == s.chunkSize
  {
    var core := CoreOf(s, max);
    if a.csid in s.lanes then core else core.(streams := core.streams[a.csid := ChunkStream(None, None)])
  }

  lemma ReadyForIsRegistered(s: Sender, max: nat, a: Send)
    requires SenderInv(s) && Legal(s, a) && Fits(s, max) && Refusal(s, max, a) != Some(TooManyStreams)
    ensures var core := ReadyFor(s, max, a);
            && Registered(CoreOf(s, max), a.csid, if a.Begin? then a.format else 3) == Ok(core)
            && CoreInv(core) && a.csid in core.streams
            && core.(streams := map[]) == CoreOf(s, max).(streams := map[])
            && core.streams - {a.csid} == CoreOf(s, max).streams - {a.csid}
            && core.streams[a.csid] == if a.csid in s.lanes then StreamOf(s.lanes[a.csid]) else ChunkStream(None, None)
  {
    hide CoreInv;
    CoreOfInv(s, max);
    var core := CoreOf(s, max);
    assert core.streams.Keys == s.lanes.Keys;
    assert |core.streams| == |core.streams.Keys| && |s.lanes| == |s.lanes.Keys|;
    RegisteredKeeps(core, a.csid, if a.Begin? then a.format else 3);
  }

  /** The message header that the guard reads, `None` for type 3. */
  function HeaderRead(s: Sender, a: Send): Option<Header>
    requires SenderInv(s) && Legal(s, a)
  {
    if a.Begin? && a.format < 3 then Some(HeaderOf(LaneFor(s, a))) else None
  }

  lemma HeaderAccepted(s: Sender, max: nat, a: Send)
    requires SenderInv(s) && Legal(s, a) && Fits(s, max) && Refusal(s, max, a) != Some(TooManyStreams)
    ensures var stream := ReadyFor(s, max, a).streams[a.csid];
            var lane := LaneFor(s, a);
            && Receiving(stream, HeaderRead(s, a), HeaderOf(lane)) == CurrentOf(lane)
            && (if a.Begin? && a.format < 3 then HeaderRead(s, a) else stream.previous) == Some(HeaderOf(lane))
            && (a.Begin? ==>
                  ReadHeader(stream, a.format, MessageHeader(a.format, a.timestamp, |PayloadOf(a.body)|, TypeOf(a.body),
                                                             a.streamId))
                  == Ok(HeaderRead(s, a)))
            && (a.Continue? ==> ReadHeader(stream, 3, []) == Ok(None))
  {
    hide SenderInv, ReadHeader, MessageHeader;
    ReadyForIsRegistered(s, max, a);
    var stream := ReadyFor(s, max, a).streams[a.csid];
    if a.Begin? {
      MessageHeaderReads(stream, a.format, a.timestamp, |PayloadOf(a.body)|, TypeOf(a.body), a.streamId);
      assert PayloadOf(a.body)[..0] == [];
    } else {
      TypeThreeReads(stream);
    }
  }

  lemma TypeThreeReads(stream: ChunkStream)
    ensures ReadHeader(stream, 3, []) == Ok(None)
  {
  }

  lemma HeadersRead(core: Core, ready: Core, csid: nat, width: nat, format: nat, header: Option<Header>,
                    message: ByteString, tail: ByteString)
    requires CoreInv(core) && CoreInv(ready) && LegalId(csid, width) && format < 4
    requires csid in ready.streams && Registered(core, csid, format) == Ok(ready)
    requires |message| == HeaderSize(format) && ReadHeader(ready.streams[csid], format, message) == Ok(header)
    ensures StreamInv(ready, ready.streams[csid])
    ensures var bytes := BasicHeader(format, csid, width) + message + tail;
            ParseChunk(core, bytes) == TakePayload(ready, csid, header, width + |message|, bytes)
  {
    hide CoreInv, Registered, ReadHeader, TakePayload, BasicHeader, ParseBasicHeader;
    var basic := BasicHeader(format, csid, width);
    assert basic + message + tail == basic + (message + tail);
    BasicHeaderReads(format, csid, width, message + tail);
    MiddleSlice(basic, message, tail);
    LookUp(ready, csid);
  }

  /** Too long a message is refused before its payload is looked at. */
  lemma TooLongRefused(core: Core, csid: nat, header: Option<Header>, lane: Lane, front: ByteString, rest: ByteString)
    requires csid in core.streams && LaneInv(lane) && |PayloadOf(lane.body)| > core.max
    requires if header.Some? then header == Some(HeaderOf(lane))
             else core.streams[csid].previous == Some(HeaderOf(lane))
    requires header.None? ==> StreamInv(core, core.streams[csid])
    ensures TakePayload(core, csid, header, |front|, front + ExtendedTimestamp(lane.timestamp) + rest)
            == Refused(MessageTooLarge)
  {
    hide Absorb, WriteU32, StreamInv;
  }

  lemma OneTooMany(s: Sender, max: nat, a: Send, rest: ByteString)
    requires SenderInv(s) && Legal(s, a) && Fits(s, max) && Refusal(s, max, a) == Some(TooManyStreams)
    ensures CoreInv(CoreOf(s, max))
    ensures ParseChunk(CoreOf(s, max), BasicHeader(a.format, a.csid, a.width) + rest) == Refused(TooManyStreams)
  {
    hide CoreInv, BasicHeader, ParseBasicHeader;
    CoreOfInv(s, max);
    BasicHeaderReads(a.format, a.csid, a.width, rest);
    var core := CoreOf(s, max);
    assert core.streams.Keys == s.lanes.Keys;
    assert |core.streams| == |core.streams.Keys| && |s.lanes| == |s.lanes.Keys|;
  }

  /** Whatever follows it, one legal chunk is read as exactly that chunk, or refused for the limit it runs
      into. */
  lemma ChunkAccepted(s: Sender, max: nat, a: Send, rest: ByteString)
    requires SenderInv(s) && Legal(s, a) && Fits(s, max)
    ensures SenderInv(Advance(s, a)) && CoreInv(CoreOf(s, max))
    ensures ParseChunk(CoreOf(s, max), Emit(s, a) + rest) ==
            match Refusal(s, max, a)
            case Some(error) => Refused(error)
            case None => Took(CoreOf(Advance(s, a), max), |Emit(s, a)|)
  {
    hide SenderInv, Advance, CoreInv, CoreOf, ReadyFor, Registered, ReadHeader, TakePayload, Absorb, BasicHeader,
      MessageHeader, ParseBasicHeader, ExtendedTimestamp, NextPart, HeaderOf, CurrentOf, Receiving, ParseChunk,
      StreamInv, Fits, Completes;
    AdvanceInv(s, a);
    CoreOfInv(s, max);
    var lane, header := LaneFor(s, a), HeaderRead(s, a);
    var format := if a.Begin? then a.format else 3;
    var basic := BasicHeader(format, a.csid, a.width);
    var message :=
      if a.Begin? then MessageHeader(a.format, a.timestamp, |PayloadOf(a.body)|, TypeOf(a.body), a.streamId) else [];
    var time, part := ExtendedTimestamp(lane.timestamp), NextPart(s.chunkSize, lane);
    assert Emit(s, a) == basic + message + time + part;
    if Refusal(s, max, a) == Some(TooManyStreams) {
      assert basic + message + time + part + rest == basic + (message + time + part + rest);
      OneTooMany(s, max, a, message + time + part + rest);
    } else {
      assert basic + message + time + part + rest == basic + message + (time + part + rest);
      ReadyForIsRegistered(s, max, a);
      HeaderAccepted(s, max, a);
      var ready := ReadyFor(s, max, a);
      HeadersRead(CoreOf(s, max), ready, a.csid, a.width, format, header, message, time + part + rest);
      if |PayloadOf(lane.body)| > max {
        assert basic + message + (time + part + rest) == basic + message + time + (part + rest);
        TooLongRefused(ready, a.csid, header, lane, basic + message, part + rest);
      } else {
        AbsorbFollows(s, max, a, ready, header);
        PayloadTaken(ready, a.csid, header, lane, basic + message, rest);
      }
    }
  }

  lemma MiddleSlice(a: ByteString, b: ByteString, c: ByteString)
    ensures (a + b + c)[|a|..|a| + |b|] == b
  {
  }

  lemma {:induction false} RunDrains(s: Sender, max: nat, actions: seq<Send>)
    requires LegalRun(s, actions) && Fits(s, max)
    ensures SenderInv(AfterRun(s, actions)) && CoreInv(CoreOf(s, max))
    ensures Drain(CoreOf(s, max), Wire(s, actions)) ==
            match Verdict(s, max, actions)
            case Some(error) => Broken(error)
            case None => Rest(CoreOf(AfterRun(s, actions), max), [])
    ensures Verdict(s, max, actions).None? ==> Fits(AfterRun(s, actions), max)
    decreases |actions|
  {
    hide SenderInv, Legal, Advance, CoreInv, CoreOf, ParseChunk, Emit, Fits, Refusal;
    CoreOfInv(s, max);
    RunEnds(s, actions);
    if actions == [] {
      NothingToRead(CoreOf(s, max));
    } else {
      var a, rest := actions[0], actions[1..];
      var next := Advance(s, a);
      ChunkAccepted(s, max, a, Wire(next, rest));
      assert (Emit(s, a) + Wire(next, rest))[|Emit(s, a)|..] == Wire(next, rest);
      if Refusal(s, max, a).None? {
        AdvanceFits(s, max, a);
        RunDrains(next, max, rest);
      } else {
        RefusedBreaks(CoreOf(s, max), Wire(s, actions));
      }
    }
  }

  lemma {:induction false} RunEnds(s: Sender, actions: seq<Send>)
    requires LegalRun(s, actions)
    ensures SenderInv(AfterRun(s, actions))
    decreases |actions|
  {
    hide SenderInv, Legal, Advance;
    if actions != [] {
      RunEnds(Advance(s, actions[0]), actions[1..]);
    }
  }

  lemma NothingToRead(core: Core)
    requires CoreInv(core)
    ensures Drain(core, []) == Rest(core, [])
  {
  }

  lemma FreshSender(max: nat)
    ensures SenderInv(FRESH_SENDER) && Fits(FRESH_SENDER, max)
    ensures CoreOf(FRESH_SENDER, max) == NewGuard(max).core
  {
    assert CoreOf(FRESH_SENDER, max).streams == map[];
  }

  /** Main result: after any handshake (C0 of 1 byte, C1 and C2 of 1536 bytes), any run of chunks the
      protocol allows, whatever chunk sizes it asks for, in any cut that stays within the size limits, is
      accepted if and only if it meets none of the guard's limits, and is otherwise refused with the first it
      meets; when accepted the guard ends with the sender's chunk size and chunk streams, an empty buffer, and
      the number of messages the sender completed. */
  lemma LegalSenderAcceptedIff(max: nat, handshake: ByteString, actions: seq<Send>, feeds: seq<ByteString>)
    requires |handshake| == 1 + 1536 + 1536 && LegalRun(FRESH_SENDER, actions)
    requires Concat(feeds) == handshake + Wire(FRESH_SENDER, actions)
    ensures GuardInv(NewGuard(max))
    ensures var r := InspectAll(NewGuard(max), feeds);
            var sender := AfterRun(FRESH_SENDER, actions);
            && SenderInv(sender)
            && (r.Ok? || r.error !in {FeedTooLarge, BufferFull} ==>
                  (r.Ok? <==> Verdict(FRESH_SENDER, max, actions).None?))
            && (r.Ok? ==> r.value.core == CoreOf(sender, max) && r.value.buffer == [])
            && (r.Err? ==>
                  r.error in {FeedTooLarge, BufferFull} || Verdict(FRESH_SENDER, max, actions) == Some(r.error))
  {
    hide LegalRun, Wire, AfterRun, SenderInv, CoreOf, GuardInv, CoreInv, InspectAll, Drain, Fits, Verdict;
    NewGuardInv(max);
    FreshSender(max);
    RunDrains(FRESH_SENDER, max, actions);
    CutIndependence(NewGuard(max), feeds);
    MeaningOfRun(max, handshake, Wire(FRESH_SENDER, actions));
  }

  lemma MeaningOfRun(max: nat, handshake: ByteString, wire: ByteString)
    requires |handshake| == HANDSHAKE_BYTES && GuardInv(NewGuard(max))
    ensures CoreInv(NewGuard(max).core) && Meaning(NewGuard(max), handshake + wire) == Drain(NewGuard(max).core, wire)
  {
    hide Drain, CoreInv, ParseChunk;
    assert (handshake + wire)[HANDSHAKE_BYTES..] == wire;
    assert [] + wire == wire;
  }

  /** Byte by byte, no prefix of a run that meets no limit is ever refused. */
  lemma LegalPrefixAccepted(max: nat, handshake: ByteString, actions: seq<Send>, sofar: ByteString, later: ByteString)
    requires |handshake| == 1 + 1536 + 1536 && LegalRun(FRESH_SENDER, actions)
    requires Verdict(FRESH_SENDER, max, actions).None?
    requires sofar + later == handshake + Wire(FRESH_SENDER, actions)
    ensures GuardInv(NewGuard(max)) && InspectAll(NewGuard(max), Singles(sofar)).Ok?
  {
    hide LegalRun, Wire, AfterRun, SenderInv, CoreOf, GuardInv, CoreInv, InspectAll, Drain, Meaning, Fits, Verdict;
    var g := NewGuard(max);
    NewGuardInv(max);
    FreshSender(max);
    RunDrains(FRESH_SENDER, max, actions);
    MeaningOfRun(max, handshake, Wire(FRESH_SENDER, actions));
    BytewiseIsUnlimited(g, sofar);
    BrokenStaysBroken(g, sofar, later);
  }

  lemma BrokenStaysBroken(g: Guard, a: ByteString, b: ByteString)
    requires GuardInv(g)
    ensures Meaning(g, a).Broken? ==> Meaning(g, a + b).Broken?
  {
    hide CoreInv, ParseChunk, Drain;
    var skipped := Min(|a|, g.handshakeLeft);
    DrainSplit(g.core, g.buffer + a[skipped..], b);
    if skipped == g.handshakeLeft {
      assert g.buffer + (a + b)[skipped..] == g.buffer + a[skipped..] + b;
    } else {
      DrainStops(g.core, g.buffer + a[skipped..]);
      assert g.buffer + a[skipped..] == g.buffer;
      StillWaiting(g.core, g.buffer);
    }
  }

  lemma StillWaiting(core: Core, buffer: ByteString)
    requires CoreInv(core) && ParseChunk(core, buffer).Waiting?
    ensures Drain(core, buffer).Rest?
  {
  }

  /** The known limit: a sender that gives up a message (an Abort, or simply a new header) is refused,
      because the guard lets only type-3 chunks follow an unfinished message. */
  lemma InterruptionRefused(core: Core, csid: nat, width: nat, format: nat, rest: ByteString)
    requires CoreInv(core) && csid in core.streams && core.streams[csid].current.Some?
    requires format < 4 && LegalId(csid, width) && |rest| >= HeaderSize(format)
    ensures ParseChunk(core, BasicHeader(format, csid, width) + rest) == Refused(MessageInterrupted) <==> format != 3
  {
    hide CoreInv, BasicHeader, ParseBasicHeader, TakePayload;
    BasicHeaderReads(format, csid, width, rest);
    LookUp(core, csid);
    var bytes := BasicHeader(format, csid, width) + rest;
    if format == 3 {
      NeverInterrupted(core, csid, width, bytes);
    }
  }

  lemma NeverInterrupted(core: Core, csid: nat, size: nat, bytes: ByteString)
    requires csid in core.streams && size <= |bytes| && StreamInv(core, core.streams[csid])
    ensures TakePayload(core, csid, None, size, bytes) != Refused(MessageInterrupted)
  {
  }

  // ----- the limits, reached from the start -----

  /** 200 bytes on chunk stream 3, of which the first chunk carries 128. */
  const LONG_MESSAGE: Send := Begin(3, 1, 0, 0, Media(8, Fill(200, 0)), [0, 0, 0, 0])

  lemma LongMessageBegins(max: nat)
    requires max >= 200
    ensures LegalRun(FRESH_SENDER, [LONG_MESSAGE]) && Verdict(FRESH_SENDER, max, [LONG_MESSAGE]).None?
    ensures var after := AfterRun(FRESH_SENDER, [LONG_MESSAGE]);
            SenderInv(after) && 3 in after.lanes && !Idle(after.lanes[3])
              && CoreOf(after, max).streams[3].current.Some?
  {
    FreshSender(max);
    AdvanceInv(FRESH_SENDER, LONG_MESSAGE);
    var after := Advance(FRESH_SENDER, LONG_MESSAGE);
    assert [LONG_MESSAGE][1..] == [];
    assert LegalRun(after, []) && AfterRun(after, []) == after && Verdict(after, max, []).None?;
  }

  /** A sender that begins a message and then gives it up for another header is refused. */
  lemma GivenUpMessageRefused(max: nat)
    requires max >= 200
    ensures LegalRun(FRESH_SENDER, [LONG_MESSAGE]) && CoreInv(NewGuard(max).core)
    ensures var bytes := Wire(FRESH_SENDER, [LONG_MESSAGE]) + (BasicHeader(0, 3, 1) + Fill(11, 0));
            Drain(NewGuard(max).core, bytes) == Broken(MessageInterrupted)
  {
    hide LegalRun, Wire, AfterRun, Drain, CoreInv, CoreOf, SenderInv, ParseChunk, BasicHeader;
    LongMessageBegins(max);
    FreshSender(max);
    RunDrains(FRESH_SENDER, max, [LONG_MESSAGE]);
    var core := CoreOf(AfterRun(FRESH_SENDER, [LONG_MESSAGE]), max);
    CoreOfInv(AfterRun(FRESH_SENDER, [LONG_MESSAGE]), max);
    var tail := BasicHeader(0, 3, 1) + Fill(11, 0);
    DrainSplit(NewGuard(max).core, Wire(FRESH_SENDER, [LONG_MESSAGE]), tail);
    assert [] + tail == tail;
    StreamThree(AfterRun(FRESH_SENDER, [LONG_MESSAGE]), max);
    InterruptionRefused(core, 3, 1, 0, Fill(11, 0));
    RefusedBreaks(core, tail);
  }

  function LargeChunks(max: nat): Send {
    Begin(2, 1, 0, 0, ChunkSize(max + 1), [0, 0, 0, 0])
  }

  /** A chunk size that the protocol allows and that is one above the longest message the guard is
      configured for is refused. */
  lemma LargeChunkSizeRefused(max: nat)
    requires 4 <= max < 0x7fff_ffff
    ensures LegalRun(FRESH_SENDER, [LargeChunks(max)]) && CoreInv(NewGuard(max).core)
    ensures Drain(NewGuard(max).core, Wire(FRESH_SENDER, [LargeChunks(max)])) == Broken(ChunkSizeRefused)
  {
    hide WriteU32, Wire, Drain, CoreInv, CoreOf;
    var a := LargeChunks(max);
    FreshSender(max);
    AdvanceInv(FRESH_SENDER, a);
    assert [a][1..] == [];
    assert LegalRun(Advance(FRESH_SENDER, a), []);
    RunDrains(FRESH_SENDER, max, [a]);
  }

  lemma StreamThree(s: Sender, max: nat)
    requires SenderInv(s) && 3 in s.lanes
    ensures 3 in CoreOf(s, max).streams
  {
  }

  lemma RefusedBreaks(core: Core, buffer: ByteString)
    requires CoreInv(core) && ParseChunk(core, buffer).Refused?
    ensures Drain(core, buffer) == Broken(ParseChunk(core, buffer).error)
  {
    hide CoreInv, ParseChunk;
  }

  /** The chunk size is raised, then 64 KiB are sent as one chunk. */
  const TWO_MESSAGES: seq<Send> :=
    [Begin(2, 1, 0, 0, ChunkSize(65536), [0, 0, 0, 0]), Begin(3, 1, 0, 0, Media(8, Fill(65536, 0)), [0, 0, 0, 0])]

  lemma TwoMessagesAreLegal()
    ensures LegalRun(FRESH_SENDER, TWO_MESSAGES) && Verdict(FRESH_SENDER, 65536, TWO_MESSAGES).None?
    ensures |Wire(FRESH_SENDER, TWO_MESSAGES)| > 65536
  {
    hide WriteU24, WriteU32, BasicHeader, MessageHeader;
    var first, second := TWO_MESSAGES[0], TWO_MESSAGES[1];
    FreshSender(65536);
    AdvanceInv(FRESH_SENDER, first);
    var after := Advance(FRESH_SENDER, first);
    assert after.chunkSize == 65536 && after.lanes.Keys == {2};
    assert |after.lanes| == |after.lanes.Keys|;
    AdvanceInv(after, second);
    assert TWO_MESSAGES[1..] == [second] && [second][1..] == [];
    assert LegalRun(Advance(after, second), []);
    assert LegalRun(after, [second]);
    assert |NextPart(65536, LaneFor(after, second))| == 65536;
  }

  /** A legal stream that is refused as one feed and accepted byte by byte. */
  lemma OneFeedRefusedBytesAccepted(handshake: ByteString)
    requires |handshake| == HANDSHAKE_BYTES
    ensures GuardInv(NewGuard(65536)) && LegalRun(FRESH_SENDER, TWO_MESSAGES)
    ensures var bytes := handshake + Wire(FRESH_SENDER, TWO_MESSAGES);
            && InspectAll(NewGuard(65536), [bytes]) == Err(FeedTooLarge)
            && InspectAll(NewGuard(65536), Singles(bytes)).Ok?
  {
    hide LegalRun, Wire, GuardInv, Singles, Drain, CoreInv, TWO_MESSAGES;
    NewGuardInv(65536);
    TwoMessagesAreLegal();
    var bytes := handshake + Wire(FRESH_SENDER, TWO_MESSAGES);
    assert bytes + [] == bytes;
    LegalPrefixAccepted(65536, handshake, TWO_MESSAGES, bytes, []);
    FirstFeedFails(NewGuard(65536), bytes);
  }

  lemma FirstFeedFails(g: Guard, feed: ByteString)
    requires GuardInv(g) && |feed| > MAX_FEED_BYTES
    ensures InspectAll(g, [feed]) == Err(FeedTooLarge)
  {
    hide GuardInv;
  }
}
