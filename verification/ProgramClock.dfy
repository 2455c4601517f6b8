/** The output clock (crates/runtime/src/lib.rs): a rational video tick and an exact audio sample count,
    both reported in units of 1/90000 s. */
module ProgramClocks {
  import opened Bytes

  const U128_MAX: nat := 0xffff_ffff_ffff_ffff_ffff_ffff_ffff_ffff

  /** `u128::saturating_mul`. */
  function SaturatingMul(a: nat, b: nat): nat {
    if a * b <= U128_MAX then a * b else U128_MAX
  }

  datatype Clock = Clock(numerator: U64, denominator: U64, videoIndex: U64, audioSamples: U64)

  predicate ClockInv(c: Clock) {
    c.numerator > 0 && c.denominator > 0
  }

  function ToTicks(n: nat): U64 {
    if n <= U64_MAX then n else U64_MAX
  }

  function VideoPts(c: Clock): U64
    requires ClockInv(c)
  {
    ToTicks(SaturatingMul(SaturatingMul(c.videoIndex, 90_000), c.denominator) / c.numerator)
  }

  function AfterVideo(c: Clock): Clock {
    c.(videoIndex := SaturatingAdd(c.videoIndex, 1))
  }

  function AudioPts(c: Clock, sampleRate: nat): U64
    requires sampleRate > 0
  {
    ToTicks(SaturatingMul(c.audioSamples, 90_000) / sampleRate)
  }

  function AfterAudio(c: Clock, samples: U32): Clock {
    c.(audioSamples := SaturatingAdd(c.audioSamples, samples))
  }

  /** Where frame `k` of a program belongs. */
  function ExactTick(k: nat, numerator: nat, denominator: nat): nat
    requires numerator > 0
  {
    k * 90_000 * denominator / numerator
  }

  /** No product or result of frame `k` leaves its integer type. */
  predicate Representable(k: nat, numerator: nat, denominator: nat) {
    numerator > 0 && k <= U64_MAX && k * 90_000 * denominator <= U128_MAX
      && ExactTick(k, numerator, denominator) <= U64_MAX
  }

  lemma FactorFits(a: nat, b: nat)
    requires b > 0
    ensures a <= a * b
  {
  }

  /** While nothing saturates, the clock reports the exact floor. */
  lemma VideoPtsExact(c: Clock)
    requires ClockInv(c) && Representable(c.videoIndex, c.numerator, c.denominator)
    ensures VideoPts(c) == ExactTick(c.videoIndex, c.numerator, c.denominator)
  {
    FactorFits(c.videoIndex * 90_000, c.denominator);
  }

  lemma DivisionGap(a: nat, b: nat, d: nat)
    requires d > 0
    ensures b >= d ==> a / d < (a + b) / d
  {
    if b >= d {
      assert (a + d) / d == a / d + 1 by { PlusOne(a, d); }
      Monotone(a + d, a + b, d);
    }
  }

  lemma PlusOne(a: nat, d: nat)
    requires d > 0
    ensures (a + d) / d == a / d + 1
  {
    var q := a / d;
    assert a == q * d + a % d;
    QuotientIs(a + d, d, q + 1, a % d);
  }

  lemma QuotientIs(n: nat, d: nat, q: nat, r: nat)
    requires d > 0 && r < d && n == q * d + r
    ensures n / d == q
  {
    var p := n / d;
    assert n == p * d + n % d;
    if p < q {
      NextMultiple(p, q, d);
    } else if q < p {
      NextMultiple(q, p, d);
    }
  }

  lemma NextMultiple(p: nat, q: nat, d: nat)
    requires p < q
    ensures p * d + d <= q * d
  {
    assert (q - p - 1) * d >= 0;
    assert q * d == p * d + d + (q - p - 1) * d;
  }

  lemma Monotone(a: nat, b: nat, d: nat)
    requires d > 0 && a <= b
    ensures a / d <= b / d
  {
    var p, q := a / d, b / d;
    assert a == p * d + a % d && b == q * d + b % d;
    if q < p {
      NextMultiple(q, p, d);
    }
  }

  lemma TickStep(k: nat, numerator: nat, denominator: nat)
    requires numerator > 0
    ensures (k + 1) * 90_000 * denominator == k * 90_000 * denominator + 90_000 * denominator
  {
  }

  /** Video times strictly increase, frame by frame, if and only if the frame rate is at most 90000. */
  lemma TicksIncreaseIff(numerator: nat, denominator: nat)
    requires numerator > 0
    ensures (forall k: nat :: ExactTick(k, numerator, denominator) < ExactTick(k + 1, numerator, denominator))
            <==> numerator <= 90_000 * denominator
  {
    if numerator <= 90_000 * denominator {
      forall k: nat ensures ExactTick(k, numerator, denominator) < ExactTick(k + 1, numerator, denominator) {
        TickStep(k, numerator, denominator);
        DivisionGap(k * 90_000 * denominator, 90_000 * denominator, numerator);
      }
    } else {
      QuotientIs(90_000 * denominator, numerator, 0, 90_000 * denominator);
      assert ExactTick(0, numerator, denominator) == 0 by { QuotientIs(0, numerator, 0, 0); }
      assert ExactTick(0 + 1, numerator, denominator) == 0;
    }
  }

  class ProgramClock {
    const fpsNumerator: U64
    const fpsDenominator: U64
    var videoIndex: U64
    var audioSamples: U64

    ghost function View(): Clock
      reads this
    {
      Clock(fpsNumerator, fpsDenominator, videoIndex, audioSamples)
    }

    constructor (numerator: U64, denominator: U64)
      requires numerator > 0 && denominator > 0
      ensures View() == Clock(numerator, denominator, 0, 0) && ClockInv(View())
    {
      fpsNumerator, fpsDenominator, videoIndex, audioSamples := numerator, denominator, 0, 0;
    }

    method NextVideoPts() returns (pts: U64)
      requires ClockInv(View())
      modifies `videoIndex
      ensures View() == AfterVideo(old(View())) && pts == VideoPts(old(View()))
      ensures Representable(old(videoIndex), fpsNumerator, fpsDenominator) ==>
                pts == ExactTick(old(videoIndex), fpsNumerator, fpsDenominator)
    {
      if Representable(videoIndex, fpsNumerator, fpsDenominator) {
        VideoPtsExact(View());
      }
      pts := ToTicks(SaturatingMul(SaturatingMul(videoIndex, 90_000), fpsDenominator) / fpsNumerator);
      videoIndex := SaturatingAdd(videoIndex, 1);
    }

    method NextAudioPts(samples: U32, sampleRate: nat) returns (pts: U64)
      requires sampleRate > 0
      modifies `audioSamples
      ensures View() == AfterAudio(old(View()), samples) && pts == AudioPts(old(View()), sampleRate)
    {
      pts := ToTicks(SaturatingMul(audioSamples, 90_000) / sampleRate);
      audioSamples := SaturatingAdd(audioSamples, samples);
    }
  }
}
