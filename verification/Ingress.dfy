/** The RTMP ingress guard (crates/rtmp/src/ingress.rs): an incremental parser of the chunk stream of
    Adobe RTMP 1.0, section 5.3.1, that bounds what a peer may make the receiver hold. */
module Ingress {
  import opened Bytes

  const HANDSHAKE_BYTES: nat := 3073
  const INITIAL_CHUNK_BYTES: nat := 128
  const MAX_FEED_BYTES: nat := 65536
  const MAX_CHUNK_STREAMS: nat := 64
  const MAX_HEADER_BYTES: nat := 18
  const SET_CHUNK_SIZE: Byte := 1

  datatype GuardError =
    | FeedTooLarge
    | BufferFull
    | FirstHeaderCompressed
    | TooManyStreams
    | MessageInterrupted
    | NoPreviousHeader
    | MessageTooLarge
    | BadSetChunkSize
    | ReservedBitSet
    | ChunkSizeRefused

  datatype Header = Header(length: nat, typeId: Byte, extended: bool)

  /** `prefix` is the part of the first four payload bytes seen so far, kept for Set Chunk Size only. */
  datatype Current = Current(remaining: nat, typeId: Byte, prefix: ByteString)

  datatype ChunkStream = ChunkStream(previous: Option<Header>, current: Option<Current>)

  datatype Core = Core(chunkSize: nat, max: nat, streams: map<nat, ChunkStream>, messages: U64)

  function ReadU24(s: ByteString): nat
    requires |s| == 3
  {
    s[0] as int * 0x1_0000 + s[1] as int * 0x100 + s[2] as int
  }

  function ReadU32(s: ByteString): nat
    requires |s| == 4
  {
    s[0] as int * 0x100_0000 + ReadU24(s[1..])
  }

  // ----- one chunk -----

  /** Chunk stream id and size of the basic header, `None` while it is incomplete. */
  function ParseBasicHeader(bytes: ByteString): (r: Option<(nat, nat)>)
    requires bytes != []
    ensures r.Some? ==> 1 <= r.value.1 <= 3 && r.value.1 <= |bytes|
    ensures r.None? ==> |bytes| < 3
  {
    var low := bytes[0] as int % 64;
    if low == 0 then
      if |bytes| < 2 then None else Some((bytes[1] as int + 64, 2))
    else if low == 1 then
      if |bytes| < 3 then None else Some((bytes[1] as int + bytes[2] as int * 256 + 64, 3))
    else Some((low, 1))
  }

  function HeaderSize(format: nat): nat {
    if format == 0 then 11 else if format == 1 then 7 else if format == 2 then 3 else 0
  }

  /** The header a chunk carries: `None` for type 3. `bytes` holds exactly the message header. */
  function ReadHeader(stream: ChunkStream, format: nat, bytes: ByteString): Result<Option<Header>, GuardError>
    requires format < 4 && |bytes| == HeaderSize(format)
  {
    if format == 3 then Ok(None)
    else if format != 0 && stream.previous.None? then Err(NoPreviousHeader)
    else if stream.current.Some? && stream.current.value.remaining != 0 then Err(MessageInterrupted)
    else
      var extended := ReadU24(bytes[..3]) == 0xff_ffff;
      if format == 2 then Ok(Some(stream.previous.value.(extended := extended)))
      else Ok(Some(Header(ReadU24(bytes[3..6]), bytes[6], extended)))
  }

  /** The message that a chunk belongs to. */
  function Receiving(stream: ChunkStream, header: Option<Header>, effective: Header): Current {
    if header.Some? || stream.current.None? then Current(effective.length, effective.typeId, [])
    else stream.current.value
  }

  function WithPrefix(message: Current, payload: ByteString): Current
    requires |payload| <= message.remaining
  {
    var copied :=
      if message.typeId == SET_CHUNK_SIZE && |message.prefix| < 4
      then payload[..Min(4 - |message.prefix|, |payload|)] else [];
    Current(message.remaining - |payload|, message.typeId, message.prefix + copied)
  }

  /** A Set Chunk Size message is applied, any other one is only counted. */
  function Complete(core: Core, message: Current): Result<Core, GuardError> {
    var counted := core.(messages := SaturatingAdd(core.messages, 1));
    if message.typeId != SET_CHUNK_SIZE then Ok(counted)
    else if |message.prefix| != 4 then Err(BadSetChunkSize)
    else
      var size := ReadU32(message.prefix);
      if size >= 0x8000_0000 then Err(ReservedBitSet)
      else if size == 0 || size > core.max then Err(ChunkSizeRefused)
      else Ok(counted.(chunkSize := size))
  }

  function Absorb(core: Core, csid: nat, header: Option<Header>, effective: Header, payload: ByteString):
    Result<Core, GuardError>
    requires csid in core.streams
    requires |payload| <= Receiving(core.streams[csid], header, effective).remaining
  {
    var stream := core.streams[csid];
    var message := WithPrefix(Receiving(stream, header, effective), payload);
    var previous := if header.Some? then header else stream.previous;
    if message.remaining == 0
    then Complete(core.(streams := core.streams[csid := ChunkStream(previous, None)]), message)
    else Ok(core.(streams := core.streams[csid := ChunkStream(previous, Some(message))]))
  }

  /** `Waiting` keeps the core because a new chunk stream is registered before its chunk is complete. */
  datatype Step = Waiting(core: Core) | Refused(error: GuardError) | Took(core: Core, size: nat)

  /** A chunk whose header has been read and takes `size` bytes. */
  function TakePayload(core: Core, csid: nat, header: Option<Header>, size: nat, bytes: ByteString): Step
    requires csid in core.streams
    requires size <= |bytes|
    requires header.None? ==> StreamInv(core, core.streams[csid])
  {
    var stream := core.streams[csid];
    if header.None? && stream.previous.None? then Refused(NoPreviousHeader)
    else
      var effective := if header.Some? then header.value else stream.previous.value;
      var full := size + if effective.extended then 4 else 0;
      if full > |bytes| then Waiting(core)
      else if effective.length > core.max then Refused(MessageTooLarge)
      else if effective.typeId == SET_CHUNK_SIZE && effective.length != 4 then Refused(BadSetChunkSize)
      else
        var payload := Min(Receiving(stream, header, effective).remaining, core.chunkSize);
        if full + payload > |bytes| then Waiting(core)
        else
          match Absorb(core, csid, header, effective, bytes[full..full + payload])
          case Err(error) => Refused(error)
          case Ok(next) => Took(next, full + payload)
  }

  function Registered(core: Core, csid: nat, format: nat): Result<Core, GuardError> {
    if csid in core.streams then Ok(core)
    else if format != 0 then Err(FirstHeaderCompressed)
    else if |core.streams| >= MAX_CHUNK_STREAMS then Err(TooManyStreams)
    else Ok(core.(streams := core.streams[csid := ChunkStream(None, None)]))
  }

  function ParseChunk(core: Core, bytes: ByteString): Step
    requires CoreInv(core)
  {
    if bytes == [] then Waiting(core)
    else
      var format := bytes[0] as int / 64;
      match ParseBasicHeader(bytes)
      case None => Waiting(core)
      case Some((csid, basic)) =>
        match Registered(core, csid, format)
        case Err(error) => Refused(error)
        case Ok(ready) =>
          var size := basic + HeaderSize(format);
          if size > |bytes| then Waiting(ready)
          else
            match ReadHeader(ready.streams[csid], format, bytes[basic..size])
            case Err(error) => Refused(error)
            case Ok(header) => TakePayload(ready, csid, header, size, bytes)
  }

  // ----- what holds between chunks -----

  /** A message in progress still owes bytes, at most what its header declared and the configured
      maximum allow; an unfinished Set Chunk Size has kept everything it received. */
  predicate StreamInv(core: Core, stream: ChunkStream) {
    stream.current.Some? ==>
      var message := stream.current.value;
      && stream.previous.Some?
      && 0 < message.remaining <= stream.previous.value.length <= core.max
      && message.typeId == stream.previous.value.typeId
      && (message.typeId == SET_CHUNK_SIZE ==> |message.prefix| + message.remaining == 4)
      && (message.typeId != SET_CHUNK_SIZE ==> message.prefix == [])
  }

  predicate CoreInv(core: Core) {
    && |core.streams| <= MAX_CHUNK_STREAMS
    && core.chunkSize > 0
    && forall csid :: csid in core.streams ==> StreamInv(core, core.streams[csid])
  }

  lemma CompleteKeeps(core: Core, message: Current)
    requires CoreInv(core)
    ensures Complete(core, message).Ok? ==> CoreInv(Complete(core, message).value)
  {
    var c := Complete(core, message);
    if c.Ok? {
      assert c.value.streams == core.streams && c.value.max == core.max;
      forall csid | csid in c.value.streams ensures StreamInv(c.value, c.value.streams[csid]) {
        assert StreamInv(core, core.streams[csid]);
      }
    }
  }

  lemma StoreKeeps(core: Core, csid: nat, stream: ChunkStream)
    requires CoreInv(core) && csid in core.streams && StreamInv(core, stream)
    ensures CoreInv(core.(streams := core.streams[csid := stream]))
  {
    var next := core.(streams := core.streams[csid := stream]);
    assert next.streams.Keys == core.streams.Keys;
    assert |next.streams| == |next.streams.Keys| && |core.streams| == |core.streams.Keys|;
    forall c | c in next.streams ensures StreamInv(next, next.streams[c]) {
      assert c != csid ==> StreamInv(core, core.streams[c]);
    }
  }

  lemma TakeKeeps(core: Core, csid: nat, header: Option<Header>, size: nat, bytes: ByteString)
    requires CoreInv(core) && csid in core.streams && 0 < size <= |bytes|
    ensures var step := TakePayload(core, csid, header, size, bytes);
            && (step.Waiting? ==> step.core == core)
            && (step.Took? ==> CoreInv(step.core) && step.core.max == core.max && 0 < step.size <= |bytes|)
  {
    hide CoreInv, Complete;
    assert StreamInv(core, core.streams[csid]) by { LookUp(core, csid); }
    var stream := core.streams[csid];
    var step := TakePayload(core, csid, header, size, bytes);
    if step.Took? {
      var effective := if header.Some? then header.value else stream.previous.value;
      var full := size + if effective.extended then 4 else 0;
      var payload := bytes[full..step.size];
      var message := WithPrefix(Receiving(stream, header, effective), payload);
      var previous := if header.Some? then header else stream.previous;
      AbsorbKeeps(core, csid, header, effective, payload);
    }
  }

  lemma LookUp(core: Core, csid: nat)
    requires CoreInv(core) && csid in core.streams
    ensures StreamInv(core, core.streams[csid]) && core.chunkSize > 0
  {
  }

  lemma AbsorbKeeps(core: Core, csid: nat, header: Option<Header>, effective: Header, payload: ByteString)
    requires CoreInv(core) && csid in core.streams
    requires StreamInv(core, core.streams[csid])
    requires effective.length <= core.max
    requires effective.typeId == SET_CHUNK_SIZE ==> effective.length == 4
    requires header.Some? ==> effective == header.value
    requires header.None? ==> core.streams[csid].previous == Some(effective)
    requires |payload| <= Receiving(core.streams[csid], header, effective).remaining
    ensures var next := Absorb(core, csid, header, effective, payload);
            next.Ok? ==> CoreInv(next.value) && next.value.max == core.max
  {
    hide CoreInv;
    var stream := core.streams[csid];
    var message := WithPrefix(Receiving(stream, header, effective), payload);
    var previous := if header.Some? then header else stream.previous;
    if message.remaining == 0 {
      StoreKeeps(core, csid, ChunkStream(previous, None));
      CompleteKeeps(core.(streams := core.streams[csid := ChunkStream(previous, None)]), message);
    } else {
      StoreKeeps(core, csid, ChunkStream(previous, Some(message)));
    }
  }

  lemma RegisteredKeeps(core: Core, csid: nat, format: nat)
    requires CoreInv(core)
    ensures var r := Registered(core, csid, format);
            r.Ok? ==> CoreInv(r.value) && csid in r.value.streams && r.value.max == core.max
  {
    var r := Registered(core, csid, format);
    if r.Ok? && csid !in core.streams {
      assert r.value.streams.Keys == core.streams.Keys + {csid};
      assert |r.value.streams| == |r.value.streams.Keys| && |core.streams| == |core.streams.Keys|;
      forall c | c in r.value.streams ensures StreamInv(r.value, r.value.streams[c]) {
        assert c != csid ==> StreamInv(core, core.streams[c]);
      }
    }
  }

  /** Every chunk keeps the invariant and consumes at least one byte of those given. */
  lemma ChunkKeeps(core: Core, bytes: ByteString)
    requires CoreInv(core)
    ensures var step := ParseChunk(core, bytes);
            && (!step.Refused? ==> CoreInv(step.core) && step.core.max == core.max)
            && (step.Took? ==> 0 < step.size <= |bytes|)
  {
    hide CoreInv, TakePayload, Registered, ReadHeader;
    if bytes != [] {
      var format := bytes[0] as int / 64;
      var head := ParseBasicHeader(bytes);
      if head.Some? {
        var (csid, basic) := head.value;
        RegisteredKeeps(core, csid, format);
        var ready := Registered(core, csid, format);
        var size := basic + HeaderSize(format);
        if ready.Ok? && size <= |bytes| {
          var header := ReadHeader(ready.value.streams[csid], format, bytes[basic..size]);
          if header.Ok? {
            TakeKeeps(ready.value, csid, header.value, size, bytes);
          }
        }
      }
    }
  }

  /** An unfinished chunk is at most one byte short of the longest header and message. */
  lemma UnfinishedIsBounded(core: Core, bytes: ByteString)
    requires CoreInv(core) && ParseChunk(core, bytes).Waiting?
    ensures |bytes| < core.max + MAX_HEADER_BYTES
  {
    hide CoreInv, Registered, ReadHeader;
    if bytes != [] {
      var format := bytes[0] as int / 64;
      var head := ParseBasicHeader(bytes);
      if head.Some? {
        var (csid, basic) := head.value;
        RegisteredKeeps(core, csid, format);
        var ready := Registered(core, csid, format).value;
        LookUp(ready, csid);
        var size := basic + HeaderSize(format);
        assert size <= 14;
      }
    }
  }

  // ----- more input does not change the outcome -----

  lemma PrefixSlice(a: ByteString, b: ByteString, i: nat, j: nat)
    requires i <= j <= |a|
    ensures (a + b)[i..j] == a[i..j]
  {
  }

  lemma TakeStable(core: Core, csid: nat, header: Option<Header>, size: nat, a: ByteString, b: ByteString)
    requires csid in core.streams && size <= |a|
    requires StreamInv(core, core.streams[csid])
    ensures var step := TakePayload(core, csid, header, size, a);
            !step.Waiting? ==> TakePayload(core, csid, header, size, a + b) == step
  {
    hide Absorb;
    var stream := core.streams[csid];
    var step := TakePayload(core, csid, header, size, a);
    if !step.Waiting? && (header.Some? || stream.previous.Some?) {
      var effective := if header.Some? then header.value else stream.previous.value;
      var full := size + if effective.extended then 4 else 0;
      var payload := Min(Receiving(stream, header, effective).remaining, core.chunkSize);
      if full + payload <= |a| {
        PrefixSlice(a, b, full, full + payload);
      }
    }
  }

  lemma RegisteredTwice(core: Core, csid: nat, format: nat)
    ensures var r := Registered(core, csid, format); r.Ok? ==> Registered(r.value, csid, format) == r
  {
  }

  /** What a prefix of the input decides stays decided, and a chunk that had to wait is read the same
      way from the core left by the first attempt. */
  lemma ChunkIsStable(core: Core, a: ByteString, b: ByteString)
    requires CoreInv(core)
    ensures var step := ParseChunk(core, a);
            if step.Waiting? then CoreInv(step.core) && ParseChunk(core, a + b) == ParseChunk(step.core, a + b)
            else ParseChunk(core, a + b) == step
  {
    hide CoreInv, Registered, TakePayload, ReadHeader;
    ChunkKeeps(core, a);
    if a == [] {
      assert a + b == b;
    } else {
      var format := a[0] as int / 64;
      assert (a + b)[0] == a[0];
      var head := ParseBasicHeader(a);
      if head.Some? {
        assert ParseBasicHeader(a + b) == head;
        var (csid, basic) := head.value;
        var ready := Registered(core, csid, format);
        RegisteredKeeps(core, csid, format);
        RegisteredTwice(core, csid, format);
        var size := basic + HeaderSize(format);
        if ready.Ok? && size <= |a| {
          PrefixSlice(a, b, basic, size);
          var header := ReadHeader(ready.value.streams[csid], format, a[basic..size]);
          if header.Ok? {
            LookUp(ready.value, csid);
            TakeKeeps(ready.value, csid, header.value, size, a);
            TakeStable(ready.value, csid, header.value, size, a, b);
          }
        }
      }
    }
  }

  // ----- feeds -----

  datatype Drained = Rest(core: Core, buffer: ByteString) | Broken(error: GuardError)

  /** All complete chunks of a buffer, as if there were no limit on it. */
  function Drain(core: Core, buffer: ByteString): (r: Drained)
    requires CoreInv(core)
    ensures r.Rest? ==> CoreInv(r.core) && r.core.max == core.max
    decreases |buffer|
  {
    ChunkKeeps(core, buffer);
    match ParseChunk(core, buffer)
    case Waiting(next) => Rest(next, buffer)
    case Refused(error) => Broken(error)
    case Took(next, size) => Drain(next, buffer[size..])
  }

  datatype Guard = Guard(handshakeLeft: nat, core: Core, buffer: ByteString, peak: nat)

  function NewGuard(max: nat): Guard {
    Guard(HANDSHAKE_BYTES, Core(INITIAL_CHUNK_BYTES, max, map[], 0), [], 0)
  }

  /** What is buffered between feeds is the start of one unfinished chunk. */
  predicate GuardInv(g: Guard) {
    && CoreInv(g.core)
    && ParseChunk(g.core, g.buffer) == Waiting(g.core)
    && (g.handshakeLeft > 0 ==> g.buffer == [])
    && |g.buffer| <= g.peak <= g.core.max + MAX_HEADER_BYTES
  }

  function Inspect(g: Guard, feed: ByteString): Result<Guard, GuardError>
    requires GuardInv(g)
  {
    if |feed| > MAX_FEED_BYTES then Err(FeedTooLarge)
    else
      var skipped := Min(|feed|, g.handshakeLeft);
      var bytes := feed[skipped..];
      var left := g.handshakeLeft - skipped;
      if g.handshakeLeft != 0 && bytes == [] then Ok(g.(handshakeLeft := left))
      else if |g.buffer| + |bytes| > g.core.max + MAX_HEADER_BYTES then Err(BufferFull)
      else
        var peak := Max(g.peak, |g.buffer| + |bytes|);
        match Drain(g.core, g.buffer + bytes)
        case Broken(error) => Err(error)
        case Rest(core, buffer) => Ok(Guard(left, core, buffer, peak))
  }

  /** Feeds are inspected until the first error, which ends the session. */
  function InspectAll(g: Guard, feeds: seq<ByteString>): Result<Guard, GuardError>
    requires GuardInv(g)
    decreases |feeds|
  {
    if feeds == [] then Ok(g)
    else
      InspectKeeps(g, feeds[0]);
      match Inspect(g, feeds[0])
      case Err(error) => Err(error)
      case Ok(next) => InspectAll(next, feeds[1..])
  }

  /** The outcome for a byte stream without regard to feeds: what the handshake leaves is drained. */
  function Meaning(g: Guard, bytes: ByteString): Drained
    requires GuardInv(g)
  {
    Drain(g.core, g.buffer + bytes[Min(|bytes|, g.handshakeLeft)..])
  }

  lemma {:induction false} DrainStops(core: Core, buffer: ByteString)
    requires CoreInv(core)
    ensures var r := Drain(core, buffer);
            r.Rest? ==> ParseChunk(r.core, r.buffer) == Waiting(r.core) && |r.buffer| <= |buffer|
    decreases |buffer|
  {
    hide CoreInv, ParseChunk;
    ChunkKeeps(core, buffer);
    match ParseChunk(core, buffer)
    case Waiting(next) =>
      ChunkIsStable(core, buffer, []);
      assert buffer + [] == buffer;
    case Refused(_) =>
    case Took(next, size) => DrainStops(next, buffer[size..]);
  }

  /** Draining in two parts is draining at once. */
  lemma {:induction false} DrainSplit(core: Core, a: ByteString, b: ByteString)
    requires CoreInv(core)
    ensures var first := Drain(core, a);
            Drain(core, a + b) == if first.Broken? then first else Drain(first.core, first.buffer + b)
    decreases |a|
  {
    hide CoreInv, ParseChunk;
    ChunkKeeps(core, a);
    ChunkIsStable(core, a, b);
    ChunkKeeps(core, a + b);
    match ParseChunk(core, a)
    case Waiting(next) =>
      SameStepSameDrain(core, next, a + b);
    case Refused(_) =>
    case Took(next, size) =>
      assert (a + b)[size..] == a[size..] + b;
      DrainSplit(next, a[size..], b);
  }

  lemma SameStepSameDrain(x: Core, y: Core, buffer: ByteString)
    requires CoreInv(x) && CoreInv(y) && ParseChunk(x, buffer) == ParseChunk(y, buffer)
    ensures Drain(x, buffer) == Drain(y, buffer)
  {
    hide CoreInv, ParseChunk;
  }

  lemma InspectKeeps(g: Guard, feed: ByteString)
    requires GuardInv(g)
    ensures Inspect(g, feed).Ok? ==> GuardInv(Inspect(g, feed).value)
  {
    hide CoreInv, ParseChunk, Drain;
    var skipped := Min(|feed|, g.handshakeLeft);
    DrainStops(g.core, g.buffer + feed[skipped..]);
  }

  lemma NewGuardInv(max: nat)
    ensures GuardInv(NewGuard(max))
  {
  }

  // ----- independence of the cut -----

  /** One feed that is not turned away by a size limit means what its bytes mean, and leaves the rest
      of the stream with its meaning. */
  lemma FeedMeans(g: Guard, feed: ByteString, rest: ByteString)
    requires GuardInv(g)
    ensures Inspect(g, feed).Ok? ==> GuardInv(Inspect(g, feed).value)
    ensures match Inspect(g, feed)
            case Ok(next) => Meaning(g, feed + rest) == Meaning(next, rest)
            case Err(error) => error in {FeedTooLarge, BufferFull} || Meaning(g, feed + rest) == Broken(error)
  {
    hide CoreInv, ParseChunk, Drain;
    InspectKeeps(g, feed);
    var skipped := Min(|feed|, g.handshakeLeft);
    var bytes := feed[skipped..];
    if bytes == [] {
      HandshakeOnly(g, feed, rest);
    } else {
      assert (feed + rest)[Min(|feed + rest|, g.handshakeLeft)..] == bytes + rest;
      DrainSplit(g.core, g.buffer + bytes, rest);
      assert g.buffer + (bytes + rest) == (g.buffer + bytes) + rest;
      assert rest[0..] == rest;
    }
  }

  lemma HandshakeOnly(g: Guard, feed: ByteString, rest: ByteString)
    requires GuardInv(g) && |feed| <= g.handshakeLeft
    ensures match Inspect(g, feed)
            case Ok(next) => GuardInv(next) && Meaning(g, feed + rest) == Meaning(next, rest)
            case Err(error) => error in {FeedTooLarge, BufferFull}
  {
    hide CoreInv, ParseChunk;
    if feed == [] {
      assert feed + rest == rest && g.buffer + feed[0..] == g.buffer;
    } else {
      assert (feed + rest)[Min(|feed + rest|, g.handshakeLeft)..] == rest[Min(|rest|, g.handshakeLeft - |feed|)..];
    }
  }

  /** Main result: a cut of a byte stream into feeds that stays within the size limits ends in exactly
      the chunk streams, chunk size, message count and left-over bytes (or exactly the error) that the
      bytes have by themselves; so every two such cuts agree. */
  lemma {:induction false} CutIndependence(g: Guard, feeds: seq<ByteString>)
    requires GuardInv(g)
    ensures match InspectAll(g, feeds)
            case Ok(end) => GuardInv(end) && Meaning(g, Concat(feeds)) == Rest(end.core, end.buffer)
            case Err(error) => error in {FeedTooLarge, BufferFull} || Meaning(g, Concat(feeds)) == Broken(error)
    decreases |feeds|
  {
    hide CoreInv, ParseChunk, Inspect, Meaning;
    if feeds == [] {
      NoBytes(g);
    } else {
      FeedMeans(g, feeds[0], Concat(feeds[1..]));
      if Inspect(g, feeds[0]).Ok? {
        CutIndependence(Inspect(g, feeds[0]).value, feeds[1..]);
      }
    }
  }

  lemma NoBytes(g: Guard)
    requires GuardInv(g)
    ensures Meaning(g, []) == Rest(g.core, g.buffer)
  {
    hide CoreInv, ParseChunk;
    assert g.buffer + [] == g.buffer;
  }

  function Singles(bytes: ByteString): (feeds: seq<ByteString>)
    ensures |feeds| == |bytes| && forall i :: 0 <= i < |feeds| ==> feeds[i] == [bytes[i]]
  {
    seq(|bytes|, i requires 0 <= i < |bytes| => [bytes[i]])
  }

  /** One byte at a time, no stream ever meets a size limit: the outcome is the meaning of the bytes. */
  lemma {:induction false} BytewiseIsUnlimited(g: Guard, bytes: ByteString)
    requires GuardInv(g)
    ensures match InspectAll(g, Singles(bytes))
            case Ok(end) => Meaning(g, bytes) == Rest(end.core, end.buffer)
            case Err(error) => Meaning(g, bytes) == Broken(error)
    decreases |bytes|
  {
    hide CoreInv, ParseChunk, Inspect, Meaning;
    if bytes == [] {
      NoBytes(g);
    } else {
      assert Singles(bytes)[0] == [bytes[0]] && Singles(bytes)[1..] == Singles(bytes[1..]);
      assert [bytes[0]] + bytes[1..] == bytes;
      FeedMeans(g, [bytes[0]], bytes[1..]);
      OneByteFits(g, bytes[0], bytes[1..]);
      if Inspect(g, [bytes[0]]).Ok? {
        BytewiseIsUnlimited(Inspect(g, [bytes[0]]).value, bytes[1..]);
      }
    }
  }

  lemma OneByteFits(g: Guard, b: Byte, rest: ByteString)
    requires GuardInv(g)
    ensures Inspect(g, [b]).Ok? || Meaning(g, [b] + rest) == Broken(Inspect(g, [b]).error)
  {
    hide CoreInv, ParseChunk, Drain;
    UnfinishedIsBounded(g.core, g.buffer);
    if g.handshakeLeft == 0 {
      assert [b][0..] == [b];
      assert ([b] + rest)[0..] == [b] + rest;
      DrainSplit(g.core, g.buffer + [b], rest);
      assert g.buffer + ([b] + rest) == (g.buffer + [b]) + rest;
    }
  }

  /** Where the cut matters: a feed whose bytes are acceptable is refused if and only if it is longer than
      64 KiB or does not fit, behind what is buffered, one longest header and one longest message. */
  lemma GoodFeedRefusedIff(g: Guard, feed: ByteString)
    requires GuardInv(g) && Meaning(g, feed).Rest?
    ensures Inspect(g, feed).Err? <==>
              |feed| > 65536 || |g.buffer| + |feed| - Min(|feed|, g.handshakeLeft) > g.core.max + 18
  {
    hide CoreInv, ParseChunk, Drain;
    UnfinishedIsBounded(g.core, g.buffer);
  }

  // ----- the guard object -----

  datatype Progress = NeedsMore | Chunk(size: nat) | Failed(error: GuardError)

  class IngressGuard {
    var handshakeRemaining: nat
    var chunkSize: nat
    const maxMessageBytes: nat
    var buffer: ByteString
    var streams: map<nat, ChunkStream>
    var messagesSeen: U64
    var peakBufferBytes: nat

    ghost function CoreView(): Core
      reads this
    {
      Core(chunkSize, maxMessageBytes, streams, messagesSeen)
    }

    ghost function View(): Guard
      reads this
    {
      Guard(handshakeRemaining, CoreView(), buffer, peakBufferBytes)
    }

    constructor (max: nat)
      ensures View() == NewGuard(max) && GuardInv(View())
    {
      handshakeRemaining, chunkSize, maxMessageBytes := HANDSHAKE_BYTES, INITIAL_CHUNK_BYTES, max;
      buffer, streams, messagesSeen, peakBufferBytes := [], map[], 0, 0;
      new;
      NewGuardInv(max);
    }

    /** Takes one feed. After an error the session ends and nothing is said about the guard. */
    method InspectFeed(feed: ByteString) returns (error: Option<GuardError>)
      requires GuardInv(View())
      modifies this
      ensures match Inspect(old(View()), feed)
              case Ok(next) => error.None? && View() == next && GuardInv(next)
              case Err(e) => error == Some(e)
    {
      hide CoreInv, ParseChunk, Drain;
      InspectKeeps(View(), feed);
      if |feed| > MAX_FEED_BYTES {
        return Some(FeedTooLarge);
      }
      var bytes := feed;
      if handshakeRemaining != 0 {
        var skipped := Min(|feed|, handshakeRemaining);
        handshakeRemaining := handshakeRemaining - skipped;
        bytes := feed[skipped..];
        if bytes == [] {
          return None;
        }
      }
      assert bytes == feed[Min(|feed|, old(handshakeRemaining))..];
      if |buffer| + |bytes| > maxMessageBytes + MAX_HEADER_BYTES {
        return Some(BufferFull);
      }
      buffer := buffer + bytes;
      peakBufferBytes := Max(peakBufferBytes, |buffer|);
      error := DrainBuffer();
    }

    /** The loop over complete chunks, and the removal of what they took. */
    method DrainBuffer() returns (error: Option<GuardError>)
      requires CoreInv(CoreView())
      modifies `chunkSize, `buffer, `streams, `messagesSeen
      ensures match Drain(old(CoreView()), old(buffer))
              case Rest(core, rest) => error.None? && CoreView() == core && buffer == rest
              case Broken(e) => error == Some(e)
    {
      hide CoreInv, ParseChunk;
      var consumed := 0;
      assert buffer[0..] == buffer;
      while true
        invariant consumed <= |buffer| && buffer == old(buffer) && CoreInv(CoreView())
        invariant Drain(CoreView(), buffer[consumed..]) == Drain(old(CoreView()), old(buffer))
        decreases |buffer| - consumed
      {
        ghost var was := CoreView();
        ChunkKeeps(was, buffer[consumed..]);
        var progress := InspectOneChunk(consumed);
        match progress {
          case Failed(e) => return Some(e);
          case NeedsMore => break;
          case Chunk(size) =>
            assert buffer[consumed..][size..] == buffer[consumed + size..];
            consumed := consumed + size;
        }
      }
      WaitingDrains(CoreView(), buffer[consumed..]);
      if consumed != 0 {
        buffer := buffer[consumed..];
      }
      return None;
    }

    method InspectOneChunk(offset: nat) returns (progress: Progress)
      requires offset <= |buffer| && CoreInv(CoreView())
      modifies `chunkSize, `streams, `messagesSeen
      ensures match ParseChunk(old(CoreView()), buffer[offset..])
              case Waiting(core) => progress == NeedsMore && CoreView() == core
              case Took(core, size) => progress == Chunk(size) && CoreView() == core
              case Refused(e) => progress == Failed(e)
    {
      hide CoreInv, TakePayload;
      var bytes := buffer[offset..];
      if bytes == [] {
        return NeedsMore;
      }
      var format := bytes[0] as int / 64;
      var head := ParseBasicHeader(bytes);
      if head.None? {
        return NeedsMore;
      }
      var csid, headerBytes := head.value.0, head.value.1;
      RegisteredKeeps(CoreView(), csid, format);
      if csid !in streams {
        if format != 0 {
          return Failed(FirstHeaderCompressed);
        }
        if |streams| >= MAX_CHUNK_STREAMS {
          return Failed(TooManyStreams);
        }
        streams := streams[csid := ChunkStream(None, None)];
      }
      var stream := streams[csid];
      LookUp(CoreView(), csid);
      var size := headerBytes + HeaderSize(format);
      if size > |bytes| {
        return NeedsMore;
      }
      var header := ReadHeader(stream, format, bytes[headerBytes..size]);
      if header.Err? {
        return Failed(header.error);
      }
      progress := AddPayload(csid, header.value, size, bytes);
    }

    /** The second half of a chunk: extended timestamp, limits, payload, completion. */
    method AddPayload(csid: nat, header: Option<Header>, size: nat, bytes: ByteString) returns (progress: Progress)
      requires csid in streams && size <= |bytes|
      requires StreamInv(CoreView(), streams[csid])
      modifies `chunkSize, `streams, `messagesSeen
      ensures match TakePayload(old(CoreView()), csid, header, size, bytes)
              case Waiting(core) => progress == NeedsMore && CoreView() == core
              case Took(core, n) => progress == Chunk(n) && CoreView() == core
              case Refused(e) => progress == Failed(e)
    {
      hide Absorb;
      var stream := streams[csid];
      if header.None? && stream.previous.None? {
        return Failed(NoPreviousHeader);
      }
      var effective := if header.Some? then header.value else stream.previous.value;
      var headerBytes := size;
      if effective.extended {
        if headerBytes + 4 > |bytes| {
          return NeedsMore;
        }
        headerBytes := headerBytes + 4;
      }
      if effective.length > maxMessageBytes {
        return Failed(MessageTooLarge);
      }
      if effective.typeId == SET_CHUNK_SIZE && effective.length != 4 {
        return Failed(BadSetChunkSize);
      }
      var message := Receiving(stream, header, effective);
      var payloadBytes := Min(message.remaining, chunkSize);
      if headerBytes + payloadBytes > |bytes| {
        return NeedsMore;
      }
      progress := AddToMessage(csid, header, effective, bytes[headerBytes..headerBytes + payloadBytes]);
      return if progress.Failed? then progress else Chunk(headerBytes + payloadBytes);
    }

    /** `Chunk` reports the payload bytes taken. */
    method AddToMessage(csid: nat, header: Option<Header>, effective: Header, payload: ByteString)
      returns (progress: Progress)
      requires csid in streams
      requires |payload| <= Receiving(streams[csid], header, effective).remaining
      modifies `chunkSize, `streams, `messagesSeen
      ensures match Absorb(old(CoreView()), csid, header, effective, payload)
              case Ok(core) => progress == Chunk(|payload|) && CoreView() == core
              case Err(e) => progress == Failed(e)
    {
      var stream := streams[csid];
      var message := WithPrefix(Receiving(stream, header, effective), payload);
      var previous := if header.Some? then header else stream.previous;
      if message.remaining > 0 {
        streams := streams[csid := ChunkStream(previous, Some(message))];
        return Chunk(|payload|);
      }
      if message.typeId == SET_CHUNK_SIZE {
        if |message.prefix| != 4 {
          return Failed(BadSetChunkSize);
        }
        var requested := ReadU32(message.prefix);
        if requested >= 0x8000_0000 {
          return Failed(ReservedBitSet);
        }
        if requested == 0 || requested > maxMessageBytes {
          return Failed(ChunkSizeRefused);
        }
        chunkSize := requested;
      }
      streams := streams[csid := ChunkStream(previous, None)];
      messagesSeen := SaturatingAdd(messagesSeen, 1);
      return Chunk(|payload|);
    }
  }

  lemma WaitingDrains(core: Core, buffer: ByteString)
    requires CoreInv(core)
    ensures ParseChunk(core, buffer) == Waiting(core) ==> Drain(core, buffer) == Rest(core, buffer)
  {
    hide CoreInv, ParseChunk;
  }
}
