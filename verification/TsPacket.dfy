/** One 188-byte transport packet: parsing (crates/mpegts/src/lib.rs) and printing. */
module TsPackets {
  import opened Bytes
  import opened Timestamps

  const PACKET_SIZE: nat := 188
  const SYNC_BYTE: Byte := 0x47

  datatype TsError =
    | InvalidPacketLength(length: nat)
    | InvalidSyncByte(byte: Byte)
    | ReservedAdaptationControl
    | AdaptationFieldOverflow(length: nat)
    | TruncatedPcr
    | TruncatedSection
    | InvalidSectionCrc
    | MalformedPes(reason: string)
    | PesBufferOverflow

  datatype AdaptationControl = PayloadOnly | AdaptationOnly | AdaptationAndPayload
  {
    predicate HasPayload() { PayloadOnly? || AdaptationAndPayload? }
  }

  datatype AdaptationField = AdaptationField(
    discontinuity: bool, randomAccess: bool, elementaryStreamPriority: bool, pcr: Option<nat>)

  datatype TsPacket = TsPacket(
    transportError: bool, payloadUnitStart: bool, transportPriority: bool, pid: U16,
    scramblingControl: Byte, control: AdaptationControl, continuityCounter: Byte,
    adaptation: Option<AdaptationField>, payload: ByteString)

  /** A 13-bit PID. */
  type Pid = x: int | 0 <= x < 0x2000

  type Counter = x: int | 0 <= x < 16

  /** A continuity counter `n` packets later. */
  function Later(counter: nat, n: nat): Counter {
    (counter + n) % 16
  }

  lemma LaterAgain(counter: nat, m: nat, n: nat)
    ensures Later(Later(counter, m), n) == Later(counter, m + n)
  {
  }

  lemma LaterNone(counter: Counter)
    ensures Later(counter, 0) == counter
  {
  }

  /** The bit of weight `mask` (a power of two). */
  predicate Flag(b: Byte, mask: nat)
    requires mask > 0
  {
    b / mask % 2 == 1
  }

  /** A 13-bit PID from its two bytes. */
  function PidOf(high: int, low: int): int {
    high % 32 * 256 + low
  }

  function ParseAdaptation(packet: ByteString): Result<AdaptationField, TsError>
    requires |packet| == PACKET_SIZE && 5 + packet[4] <= PACKET_SIZE
  {
    if packet[4] == 0 then Ok(AdaptationField(false, false, false, None))
    else
      var flags := packet[5];
      if Flag(flags, 0x10) && packet[4] < 7 then Err(TruncatedPcr)
      else
        Ok(AdaptationField(Flag(flags, 0x80), Flag(flags, 0x40), Flag(flags, 0x20),
                           if Flag(flags, 0x10) then Some(ParsePcr(packet[6..12])) else None))
  }

  function ParsePacket(packet: ByteString): (r: Result<TsPacket, TsError>) {
    if |packet| != PACKET_SIZE then Err(InvalidPacketLength(|packet|))
    else if packet[0] != SYNC_BYTE then Err(InvalidSyncByte(packet[0]))
    else
      var control := packet[3] / 16 % 4;
      if control == 0 then Err(ReservedAdaptationControl)
      else
        var header := TsPacket(
          Flag(packet[1], 0x80), Flag(packet[1], 0x40), Flag(packet[1], 0x20), PidOf(packet[1], packet[2]),
          packet[3] / 64,
          if control == 1 then PayloadOnly else if control == 2 then AdaptationOnly else AdaptationAndPayload,
          packet[3] % 16, None, []);
        if control == 1 then Ok(header.(payload := packet[4..]))
        else if 5 + packet[4] > PACKET_SIZE then Err(AdaptationFieldOverflow(packet[4]))
        else
          match ParseAdaptation(packet)
          case Err(e) => Err(e)
          case Ok(adaptation) =>
            Ok(header.(adaptation := Some(adaptation),
                       payload := if control == 3 then packet[5 + packet[4]..] else []))
  }

  // ----- printing -----

  /** The largest payload of a packet: an adaptation field holding a PCR takes eight bytes. */
  function MaxPayload(pcr: Option<U64>): nat {
    if pcr.Some? then 176 else 184
  }

  function PrintHeader(pid: U16, unitStart: bool, control: nat, continuity: Byte): (s: ByteString)
    requires pid < 0x2000 && control < 4 && continuity < 16
    ensures |s| == 4
  {
    [SYNC_BYTE, pid / 256 % 32 + (if unitStart then 0x40 else 0), pid % 256, control * 16 + continuity]
  }

  function AdaptationFlags(randomAccess: bool, clock: bool): Byte {
    (if randomAccess then 0x40 else 0) + (if clock then 0x10 else 0)
  }

  /** An adaptation field of exactly `total` bytes, stuffed with 0xff. */
  function PrintAdaptation(total: nat, randomAccess: bool, pcr: Option<U64>): (s: ByteString)
    requires total <= 184 && (pcr.Some? ==> 8 <= total)
    ensures |s| == total
  {
    if total == 0 then []
    else if total == 1 then [0]
    else
      var flags := AdaptationFlags(randomAccess, pcr.Some?);
      var clock := if pcr.Some? then EncodePcr(pcr.value) else [];
      [total - 1, flags] + clock + Fill(total - 2 - |clock|, 0xff)
  }

  function PrintPacket(pid: U16, unitStart: bool, continuity: Byte, pcr: Option<U64>, randomAccess: bool,
                       payload: ByteString): (s: ByteString)
    requires pid < 0x2000 && continuity < 16 && 1 <= |payload| <= MaxPayload(pcr)
    ensures |s| == PACKET_SIZE && s[0] == SYNC_BYTE
  {
    PrintHeader(pid, unitStart, if |payload| < 184 then 3 else 1, continuity)
    + PrintAdaptation(184 - |payload|, randomAccess, pcr) + payload
  }

  /** What a printed packet parses back to. */
  function ParsedForm(pid: U16, unitStart: bool, continuity: Byte, pcr: Option<U64>, randomAccess: bool,
                      payload: ByteString): TsPacket
  {
    var adaptation :=
      if |payload| == 184 then None
      else Some(AdaptationField(false, randomAccess && |payload| < 183, false,
                                if pcr.Some? then Some(pcr.value % PCR_MODULUS) else None));
    TsPacket(false, unitStart, false, pid, 0, if |payload| < 184 then AdaptationAndPayload else PayloadOnly,
             continuity, adaptation, payload)
  }

  lemma PacketRoundTrip(pid: U16, unitStart: bool, continuity: Byte, pcr: Option<U64>, randomAccess: bool,
                        payload: ByteString)
    requires pid < 0x2000 && continuity < 16 && 1 <= |payload| <= MaxPayload(pcr)
    ensures ParsePacket(PrintPacket(pid, unitStart, continuity, pcr, randomAccess, payload))
            == Ok(ParsedForm(pid, unitStart, continuity, pcr, randomAccess, payload))
  {
    var s := PrintPacket(pid, unitStart, continuity, pcr, randomAccess, payload);
    var header := PrintHeader(pid, unitStart, if |payload| < 184 then 3 else 1, continuity);
    HeaderRoundTrip(pid, unitStart, if |payload| < 184 then 3 else 1, continuity);
    assert s[1] == header[1] && s[2] == header[2] && s[3] == header[3];
    if |payload| < 184 {
      AdaptationRoundTrip(s, 184 - |payload|, randomAccess, pcr);
      assert s[188 - |payload|..] == payload;
    } else {
      assert s[4..] == payload;
    }
  }

  lemma AdaptationRoundTrip(s: ByteString, total: nat, randomAccess: bool, pcr: Option<U64>)
    requires |s| == PACKET_SIZE && 1 <= total <= 183 && (pcr.Some? ==> 8 <= total)
    requires s[4..4 + total] == PrintAdaptation(total, randomAccess, pcr)
    ensures s[4] == total - 1
    ensures ParseAdaptation(s)
            == Ok(AdaptationField(false, randomAccess && total > 1, false,
                                  if pcr.Some? then Some(pcr.value % PCR_MODULUS) else None))
  {
    var field := PrintAdaptation(total, randomAccess, pcr);
    assert s[4] == s[4..4 + total][0];
    if total > 1 {
      assert s[5] == s[4..4 + total][1] == AdaptationFlags(randomAccess, pcr.Some?);
      if pcr.Some? {
        PrintedClock(total, randomAccess, pcr);
        SliceOfSlice(s, 4, 4 + total, 2, 8);
        PcrRoundTrip(pcr.value);
      }
      FlagsRoundTrip(randomAccess, pcr.Some?);
    }
  }

  lemma FlagsRoundTrip(randomAccess: bool, clock: bool)
    ensures var flags := AdaptationFlags(randomAccess, clock);
            !Flag(flags, 0x80) && Flag(flags, 0x40) == randomAccess && !Flag(flags, 0x20) && Flag(flags, 0x10) == clock
  {
  }

  lemma PrintedClock(total: nat, randomAccess: bool, pcr: Option<U64>)
    requires 8 <= total <= 183 && pcr.Some?
    ensures PrintAdaptation(total, randomAccess, pcr)[2..8] == EncodePcr(pcr.value)
  {
    var prefix := [total - 1, AdaptationFlags(randomAccess, true)];
    var clock := EncodePcr(pcr.value);
    var rest := Fill(total - 2 - |clock|, 0xff);
    assert (prefix + clock + rest)[2..8] == clock;
  }

  lemma HeaderRoundTrip(pid: U16, unitStart: bool, control: nat, continuity: Byte)
    requires pid < 0x2000 && control < 4 && continuity < 16
    ensures var s := PrintHeader(pid, unitStart, control, continuity);
            && !Flag(s[1], 0x80) && Flag(s[1], 0x40) == unitStart && !Flag(s[1], 0x20)
            && PidOf(s[1], s[2]) == pid && s[3] / 16 % 4 == control && s[3] / 64 == 0 && s[3] % 16 == continuity
  {
  }
}
