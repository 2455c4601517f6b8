/** The 33-bit PES timestamp and PCR codecs, and the unwrapping of truncated clocks. */
module Timestamps {
  import opened Bytes

  const PTS_MODULUS: nat := 0x2_0000_0000
  const PTS_HALF_RANGE: nat := 0x1_0000_0000
  const PCR_MODULUS: nat := 300 * PTS_MODULUS

  /** The five-byte field of ISO/IEC 13818-1 section 2.4.3.6: 3 + 15 + 15 bits, each group
      followed by a marker bit. */
  function EncodeTimestamp(prefix: Byte, timestamp: U64): (s: ByteString)
    requires prefix < 16
    ensures |s| == 5
  {
    var value := timestamp % PTS_MODULUS;
    PrintTimestamp(prefix, value / 0x4000_0000 % 8, value / 0x40_0000 % 256, value / 0x8000 % 128,
                   value / 0x80 % 256, value % 128)
  }

  function PrintTimestamp(prefix: int, a: int, b: int, c: int, d: int, e: int): (s: ByteString)
    requires 0 <= prefix < 16 && 0 <= a < 8 && 0 <= b < 256 && 0 <= c < 128 && 0 <= d < 256 && 0 <= e < 128
    ensures |s| == 5
  {
    [prefix * 16 + a * 2 + 1, b, c * 2 + 1, d, e * 2 + 1]
  }

  /** `None` stands for the marker-bit error. */
  function DecodeTimestamp(s: ByteString): (t: Option<nat>)
    requires |s| == 5
    ensures t.Some? ==> t.value < PTS_MODULUS
  {
    if s[0] % 2 == 0 || s[2] % 2 == 0 || s[4] % 2 == 0 then None
    else Some(JoinTimestamp(s[0] / 2 % 8, s[1], s[2] / 2, s[3], s[4] / 2))
  }

  function JoinTimestamp(a: int, b: int, c: int, d: int, e: int): int {
    a * 0x4000_0000 + b * 0x40_0000 + c * 0x8000 + d * 0x80 + e
  }

  lemma SplitTimestamp(v: nat)
    requires v < PTS_MODULUS
    ensures JoinTimestamp(v / 0x4000_0000 % 8, v / 0x40_0000 % 256, v / 0x8000 % 128, v / 0x80 % 256, v % 128) == v
  {
    var a := v / 0x80;
    var b := a / 0x100;
    var c := b / 0x80;
    var d := c / 0x100;
    assert b == v / 0x8000 && c == v / 0x40_0000 && d == v / 0x4000_0000;
    assert v == 128 * a + v % 128 && a == 256 * b + a % 256 && b == 128 * c + b % 128 && c == 256 * d + c % 256;
  }

  /** What is encoded comes back reduced to 33 bits. */
  lemma TimestampRoundTrip(prefix: Byte, timestamp: U64)
    requires prefix < 16
    ensures DecodeTimestamp(EncodeTimestamp(prefix, timestamp)) == Some(timestamp % PTS_MODULUS)
  {
    var v := timestamp % PTS_MODULUS;
    SplitTimestamp(v);
    DecodeFields(prefix, v / 0x4000_0000 % 8, v / 0x40_0000 % 256, v / 0x8000 % 128, v / 0x80 % 256, v % 128);
  }

  lemma DecodeFields(prefix: nat, a: nat, b: Byte, c: nat, d: Byte, e: nat)
    requires prefix < 16 && a < 8 && c < 128 && e < 128
    ensures DecodeTimestamp(PrintTimestamp(prefix, a, b, c, d, e)) == Some(JoinTimestamp(a, b, c, d, e))
  {
    OddField(prefix * 8 + a);
    OddField(c);
    OddField(e);
    assert prefix * 16 + a * 2 + 1 == 2 * (prefix * 8 + a) + 1;
    assert (prefix * 8 + a) % 8 == a;
  }

  lemma OddField(x: int)
    ensures (2 * x + 1) % 2 == 1 && (2 * x + 1) / 2 == x
  {
  }

  /** The six-byte PCR of ISO/IEC 13818-1 section 2.4.3.4: base, six reserved ones, extension. */
  function EncodePcr(pcr: U64): (s: ByteString)
    ensures |s| == 6
  {
    var base := pcr / 300 % PTS_MODULUS;
    var extension := pcr % 300;
    PrintPcr(base / 0x200_0000 % 256, base / 0x2_0000 % 256, base / 0x200 % 256, base / 2 % 256, base % 2,
             extension / 256 % 2, extension % 256)
  }

  function PrintPcr(a: int, b: int, c: int, d: int, e: int, f: int, g: int): (s: ByteString)
    requires 0 <= a < 256 && 0 <= b < 256 && 0 <= c < 256 && 0 <= d < 256 && 0 <= e < 2 && 0 <= f < 2 && 0 <= g < 256
    ensures |s| == 6
  {
    [a, b, c, d, e * 0x80 + 0x7e + f, g]
  }

  function ParsePcr(s: ByteString): (pcr: nat)
    requires |s| == 6
  {
    JoinBase(s[0], s[1], s[2], s[3], s[4] / 128) * 300 + JoinU16(s[4] % 2, s[5])
  }

  function JoinBase(a: int, b: int, c: int, d: int, e: int): int {
    a * 0x200_0000 + b * 0x2_0000 + c * 0x200 + d * 2 + e
  }

  lemma SplitBase(v: nat)
    requires v < PTS_MODULUS
    ensures JoinBase(v / 0x200_0000 % 256, v / 0x2_0000 % 256, v / 0x200 % 256, v / 2 % 256, v % 2) == v
  {
    var a := v / 2;
    var b := a / 0x100;
    var c := b / 0x100;
    var d := c / 0x100;
    assert b == v / 0x200 && c == v / 0x2_0000 && d == v / 0x200_0000;
    assert v == 2 * a + v % 2 && a == 256 * b + a % 256 && b == 256 * c + b % 256 && c == 256 * d + c % 256;
  }

  /** The 27 MHz clock comes back reduced to its 33-bit base and its extension. */
  lemma PcrRoundTrip(pcr: U64)
    ensures ParsePcr(EncodePcr(pcr)) == pcr % PCR_MODULUS
  {
    var base, extension := pcr / 300 % PTS_MODULUS, pcr % 300;
    SplitBase(base);
    ParseFields(base / 0x200_0000 % 256, base / 0x2_0000 % 256, base / 0x200 % 256, base / 2 % 256, base % 2,
                extension / 256 % 2, extension % 256);
    SplitPcr(pcr);
  }

  lemma ParseFields(a: Byte, b: Byte, c: Byte, d: Byte, e: nat, f: nat, g: Byte)
    requires e < 2 && f < 2
    ensures ParsePcr(PrintPcr(a, b, c, d, e, f, g)) == JoinBase(a, b, c, d, e) * 300 + JoinU16(f, g)
  {
    var x := e * 0x80 + 0x7e + f;
    assert x / 128 == e && x % 2 == f;
  }

  lemma SplitPcr(pcr: U64)
    ensures pcr / 300 % PTS_MODULUS * 300 + pcr % 300 == pcr % PCR_MODULUS
    ensures JoinU16(pcr % 300 / 256 % 2, pcr % 300 % 256) == pcr % 300
  {
    var q := pcr / 300;
    assert pcr == 300 * q + pcr % 300 && q == PTS_MODULUS * (q / PTS_MODULUS) + q % PTS_MODULUS;
    assert pcr == PCR_MODULUS * (q / PTS_MODULUS) + (q % PTS_MODULUS * 300 + pcr % 300);
  }

  /** A clock truncated to 33 bits whose epoch advances when the raw value falls back by more than half
      the range. */
  datatype Unwrapper = Unwrapper(previous: Option<nat>, epoch: U64)

  const FRESH: Unwrapper := Unwrapper(None, 0)

  /** The epoch saturates with the 64-bit counter. */
  function Unwrap(u: Unwrapper, raw: nat): (r: (Unwrapper, U64))
    requires raw < PTS_MODULUS
  {
    var epoch :=
      if u.previous.Some? && raw + PTS_HALF_RANGE < u.previous.value
      then SaturatingAdd(u.epoch, PTS_MODULUS) else u.epoch;
    (Unwrapper(Some(raw), epoch), SaturatingAdd(epoch, raw))
  }

  /** The unwrapper has last returned the true time `t`. */
  ghost predicate Locked(u: Unwrapper, t: U64) {
    u.previous == Some(t % PTS_MODULUS) && u.epoch == t - t % PTS_MODULUS
  }

  /** From `t` to `next` the truncated clock can be followed: inside one epoch it steps back by at
      most half the range, and into the next epoch it lands more than half the range lower. */
  predicate Trackable(t: U64, next: U64) {
    var fall := t % PTS_MODULUS - next % PTS_MODULUS;
    next / PTS_MODULUS == t / PTS_MODULUS + (if fall > PTS_HALF_RANGE then 1 else 0)
  }

  lemma UnwrapFirst(t: U64)
    requires t < PTS_MODULUS
    ensures Unwrap(FRESH, t % PTS_MODULUS).1 == t
    ensures Locked(Unwrap(FRESH, t % PTS_MODULUS).0, t)
  {
  }

  /** The step returns the true time if and only if the step is trackable. */
  lemma UnwrapStep(u: Unwrapper, t: U64, next: U64)
    requires Locked(u, t)
    ensures Unwrap(u, next % PTS_MODULUS).1 == next <==> Trackable(t, next)
    ensures Trackable(t, next) ==> Locked(Unwrap(u, next % PTS_MODULUS).0, next)
  {
    var M := PTS_MODULUS;
    assert t == M * (t / M) + t % M && next == M * (next / M) + next % M;
    assert U64_MAX == M * 0x7fff_ffff + (M - 1);
  }

  /** A clock that never decreases and never jumps by half the range is trackable. */
  lemma ForwardTrackable(t: U64, next: U64)
    requires t <= next < t + PTS_HALF_RANGE
    ensures Trackable(t, next)
  {
    var M := PTS_MODULUS;
    assert t == M * (t / M) + t % M && next == M * (next / M) + next % M;
  }

  // ----- whole sequences -----

  /** The state after a clock last returned `last`; nothing yet means a fresh unwrapper. */
  ghost predicate Follows(u: Unwrapper, last: Option<U64>) {
    if last.None? then u == FRESH else Locked(u, last.value)
  }

  /** Times a truncated clock can be followed through: the first is below 2^33, every later one
      is trackable from the one before. */
  predicate Followable(last: Option<U64>, times: seq<U64>)
    decreases |times|
  {
    times == []
    || ((if last.None? then times[0] < PTS_MODULUS else Trackable(last.value, times[0]))
        && Followable(Some(times[0]), times[1..]))
  }

  /** What a sequence of true times unwraps to, each seen through 33 bits. */
  function UnwrapAll(u: Unwrapper, times: seq<U64>): seq<U64>
    decreases |times|
  {
    if times == [] then []
    else
      var (next, time) := Unwrap(u, times[0] % PTS_MODULUS);
      [time] + UnwrapAll(next, times[1..])
  }

  lemma FirstTime(t: U64)
    ensures Unwrap(FRESH, t % PTS_MODULUS).1 == t <==> t < PTS_MODULUS
  {
  }

  lemma {:induction false} UnwrapsFrom(u: Unwrapper, last: Option<U64>, times: seq<U64>)
    requires Follows(u, last)
    ensures UnwrapAll(u, times) == times <==> Followable(last, times)
    decreases |times|
  {
    hide Unwrap, Trackable, Locked;
    if times != [] {
      var (next, time) := Unwrap(u, times[0] % PTS_MODULUS);
      var rest := UnwrapAll(next, times[1..]);
      assert UnwrapAll(u, times)[0] == time && UnwrapAll(u, times)[1..] == rest;
      if last.None? {
        FirstTime(times[0]);
        if times[0] < PTS_MODULUS {
          UnwrapFirst(times[0]);
        }
      } else {
        UnwrapStep(u, last.value, times[0]);
      }
      if time == times[0] {
        UnwrapsFrom(next, Some(times[0]), times[1..]);
        assert times == [time] + times[1..];
      }
    }
  }

  /** Main result: a sequence of true times of any length comes back unchanged if and only if it begins
      below 2^33 and every step is trackable. */
  lemma UnwrapRecoversIff(times: seq<U64>)
    ensures UnwrapAll(FRESH, times) == times <==> Followable(None, times)
  {
    UnwrapsFrom(FRESH, None, times);
  }

  /** Clocks that start in range, never go back and never jump by half the range can be followed. */
  lemma {:induction false} ForwardFollowable(times: seq<U64>)
    requires times != [] ==> times[0] < PTS_MODULUS
    requires forall i :: 0 < i < |times| ==> times[i - 1] <= times[i] < times[i - 1] + PTS_HALF_RANGE
    ensures Followable(None, times)
  {
    if times != [] {
      ForwardFrom(times[0], times[1..]);
    }
  }

  lemma {:induction false} ForwardFrom(last: U64, times: seq<U64>)
    requires times != [] ==> last <= times[0] < last + PTS_HALF_RANGE
    requires forall i :: 0 < i < |times| ==> times[i - 1] <= times[i] < times[i - 1] + PTS_HALF_RANGE
    ensures Followable(Some(last), times)
    decreases |times|
  {
    hide Trackable;
    if times != [] {
      ForwardTrackable(last, times[0]);
      forall i | 0 < i < |times[1..]|
        ensures times[1..][i - 1] <= times[1..][i] < times[1..][i - 1] + PTS_HALF_RANGE
      {
        assert times[1..][i] == times[i + 1] && times[1..][i - 1] == times[(i + 1) - 1];
      }
      ForwardFrom(times[0], times[1..]);
    }
  }
}
