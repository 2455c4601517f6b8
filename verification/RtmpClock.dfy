/** The 32-bit RTMP message clock (crates/rtmp/src/source.rs:43-60). */
module RtmpClock {
  import opened Bytes

  const CLOCK_MODULUS: nat := 0x1_0000_0000
  const I32_MAX: nat := 0x7fff_ffff
  const I64_MAX: nat := 0x7fff_ffff_ffff_ffff

  datatype Unwrapper = Unwrapper(epoch: U64, last: Option<U32>)

  const FRESH_CLOCK: Unwrapper := Unwrapper(0, None)

  function Unwrap(u: Unwrapper, timestamp: U32): (Unwrapper, nat) {
    var epoch :=
      if u.last.Some? && u.last.value > timestamp && u.last.value - timestamp > I32_MAX
      then SaturatingAdd(u.epoch, CLOCK_MODULUS) else u.epoch;
    (Unwrapper(epoch, Some(timestamp)), Min(SaturatingAdd(epoch, timestamp), I64_MAX))
  }

  /** The unwrapper has last returned the true time `t`. */
  predicate Locked(u: Unwrapper, t: nat) {
    t <= I64_MAX && u.last == Some(t % CLOCK_MODULUS) && u.epoch == t - t % CLOCK_MODULUS
  }

  /** From `t` to `next` the truncated clock can be followed: inside one epoch it steps back by less
      than half the range, and into the next epoch it lands at least half the range lower. */
  predicate Trackable(t: nat, next: nat) {
    var fall := t % CLOCK_MODULUS - next % CLOCK_MODULUS;
    next / CLOCK_MODULUS == t / CLOCK_MODULUS + (if fall > I32_MAX then 1 else 0)
  }

  lemma SplitTime(t: nat)
    requires t <= I64_MAX
    ensures t == CLOCK_MODULUS * (t / CLOCK_MODULUS) + t % CLOCK_MODULUS && t / CLOCK_MODULUS <= 0x7fff_ffff
  {
  }

  /** The step returns the true time if and only if the step is trackable. */
  lemma UnwrapStep(u: Unwrapper, t: nat, next: nat)
    requires Locked(u, t) && next <= I64_MAX
    ensures Unwrap(u, next % CLOCK_MODULUS).1 == next <==> Trackable(t, next)
    ensures Trackable(t, next) ==> Locked(Unwrap(u, next % CLOCK_MODULUS).0, next)
  {
    SplitTime(t);
    SplitTime(next);
  }

  /** A forward step of up to half the range, across a wrap or not, is trackable. */
  lemma ForwardTrackable(t: nat, next: nat)
    requires t <= next <= t + I32_MAX + 1
    ensures Trackable(t, next)
  {
    assert t == CLOCK_MODULUS * (t / CLOCK_MODULUS) + t % CLOCK_MODULUS;
    assert next == CLOCK_MODULUS * (next / CLOCK_MODULUS) + next % CLOCK_MODULUS;
  }

  /** What a whole sequence of true times unwraps to. */
  function UnwrapAll(u: Unwrapper, times: seq<nat>): seq<nat>
    decreases |times|
  {
    if times == [] then []
    else
      var (next, time) := Unwrap(u, times[0] % CLOCK_MODULUS);
      [time] + UnwrapAll(next, times[1..])
  }

  /** Every time is trackable from the one before, and fits the result. */
  predicate AllTrackable(t: nat, times: seq<nat>)
    decreases |times|
  {
    times == [] || (times[0] <= I64_MAX && Trackable(t, times[0]) && AllTrackable(times[0], times[1..]))
  }

  lemma UnwrapFits(u: Unwrapper, timestamp: U32)
    ensures Unwrap(u, timestamp).1 <= I64_MAX
  {
  }

  lemma {:induction false} UnwrapsFrom(u: Unwrapper, t: nat, times: seq<nat>)
    requires Locked(u, t)
    ensures UnwrapAll(u, times) == times <==> AllTrackable(t, times)
    decreases |times|
  {
    hide Unwrap, Trackable, Locked;
    if times != [] {
      var (next, time) := Unwrap(u, times[0] % CLOCK_MODULUS);
      var rest := UnwrapAll(next, times[1..]);
      assert UnwrapAll(u, times)[0] == time && UnwrapAll(u, times)[1..] == rest;
      UnwrapFits(u, times[0] % CLOCK_MODULUS);
      if times[0] <= I64_MAX {
        UnwrapStep(u, t, times[0]);
        if time == times[0] {
          UnwrapsFrom(next, times[0], times[1..]);
          assert times == [time] + times[1..];
        }
      }
    }
  }

  lemma FirstTime(t: nat)
    ensures var (next, time) := Unwrap(FRESH_CLOCK, t % CLOCK_MODULUS);
            (time == t <==> t < CLOCK_MODULUS) && (t < CLOCK_MODULUS ==> Locked(next, t))
  {
  }

  /** Main result: a sequence of true times of any length comes back unchanged if and only if it starts
      within 32 bits and every step is trackable. */
  lemma UnwrapRecoversIff(times: seq<nat>)
    ensures UnwrapAll(FRESH_CLOCK, times) == times <==>
            times == [] || (times[0] < CLOCK_MODULUS && AllTrackable(times[0], times[1..]))
  {
    hide Unwrap, Trackable, Locked;
    if times != [] {
      var (next, time) := Unwrap(FRESH_CLOCK, times[0] % CLOCK_MODULUS);
      var rest := UnwrapAll(next, times[1..]);
      assert UnwrapAll(FRESH_CLOCK, times)[0] == time && UnwrapAll(FRESH_CLOCK, times)[1..] == rest;
      FirstTime(times[0]);
      if time == times[0] {
        UnwrapsFrom(next, times[0], times[1..]);
        assert times == [time] + times[1..];
      }
    }
  }

  class TimestampUnwrapper {
    var epochMs: U64
    var lastMs: Option<U32>

    ghost function View(): Unwrapper
      reads this
    {
      Unwrapper(epochMs, lastMs)
    }

    constructor ()
      ensures View() == FRESH_CLOCK
    {
      epochMs, lastMs := 0, None;
    }

    method Next(timestamp: U32) returns (time: nat)
      modifies this
      ensures (View(), time) == Unwrap(old(View()), timestamp)
    {
      if lastMs.Some? && lastMs.value > timestamp && lastMs.value - timestamp > I32_MAX {
        epochMs := SaturatingAdd(epochMs, CLOCK_MODULUS);
      }
      lastMs := Some(timestamp);
      time := Min(SaturatingAdd(epochMs, timestamp), I64_MAX);
    }
  }
}
