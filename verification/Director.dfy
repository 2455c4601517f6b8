/** The two-camera director (crates/core/src/director.rs). Scores are reals in [0, 1]. */
module Directors {
  import opened Bytes

  type Input = x: int | 0 <= x < 2

  datatype Pair<T> = Pair(first: T, second: T) {
    function At(i: Input): T {
      if i == 0 then first else second
    }
  }

  datatype FastSignals =
    FastSignals(vad: real, mouthMotion: real, composition: real, quality: real, transportHealth: real)

  datatype Camera = Camera(name: string, fast: FastSignals, healthy: bool, synchronized: bool, frozen: bool)

  datatype Advice = Advice(observedAt: U64, expiresAt: U64, scores: Pair<real>, reason: string)

  datatype Policy = Policy(minShot: U64, cooldown: U64, candidateHold: U64, margin: real, vlmWeight: real)

  datatype SwitchReason =
    | Initial
    | NoChange
    | Manual
    | Failover
    | Automatic
    | BothInputsUnavailable
    | AutoPaused
    | CandidateBuilding
    | MinimumShot
    | Cooldown

  datatype Decision = Decision(at: U64, active: Input, name: string, scores: Pair<real>, switched: bool,
                               requestIdr: bool,
                               reason: SwitchReason, advisorReason: Option<string>, candidate: Option<Input>, held: nat)

  datatype Hold = Hold(input: Input, until: Option<U64>)

  datatype Candidate = Candidate(input: Input, since: U64)

  datatype State = State(active: Input, lastSwitch: U64, candidate: Option<Candidate>, hold: Option<Hold>, auto: bool,
                         initialized: bool)

  function Other(i: Input): Input {
    1 - i
  }

  // ----- scores -----

  function Clamp(x: real, low: real, high: real): real {
    if x < low then low else if x > high then high else x
  }

  function FastScore(s: FastSignals): real {
    Clamp(0.30 * Clamp(s.vad, 0.0, 1.0) + 0.25 * Clamp(s.mouthMotion, 0.0, 1.0) + 0.20 * Clamp(s.composition, 0.0, 1.0)
          + 0.15 * Clamp(s.quality, 0.0, 1.0) + 0.10 * Clamp(s.transportHealth, 0.0, 1.0), 0.0, 1.0)
  }

  predicate ValidAt(a: Advice, now: U64) {
    a.observedAt <= now <= a.expiresAt
  }

  function Mix(fast: real, target: real, weight: real): real {
    fast * (1.0 - weight) + target * weight
  }

  function Blend(fast: real, advised: real, weight: real): real {
    Mix(fast, Clamp(advised, 0.0, 1.0), weight)
  }

  function Scores(p: Policy, now: U64, cameras: Pair<Camera>, advice: Option<Advice>): Pair<real> {
    var fast := Pair(FastScore(cameras.first.fast), FastScore(cameras.second.fast));
    if advice.None? || !ValidAt(advice.value, now) then fast
    else Pair(Blend(fast.first, advice.value.scores.first, p.vlmWeight),
              Blend(fast.second, advice.value.scores.second, p.vlmWeight))
  }

  function AdvisorReason(now: U64, advice: Option<Advice>): Option<string> {
    if advice.None? || !ValidAt(advice.value, now) then None else Some(advice.value.reason)
  }

  // ----- the operations -----

  /** The weight of the advisor is clamped when the director is made. */
  function WithWeight(p: Policy): Policy {
    p.(vlmWeight := Clamp(p.vlmWeight, 0.0, 0.25))
  }

  function NewDirector(initial: nat, now: U64): State {
    State(Min(initial, 1), now, None, None, true, false)
  }

  predicate Eligible(c: Camera) {
    c.healthy && c.synchronized && !c.frozen
  }

  /** A hold without an end lasts until it is lifted. */
  predicate InForce(h: Hold, now: U64) {
    h.until.None? || now < h.until.value
  }

  function Describe(s: State, now: U64, cameras: Pair<Camera>, scores: Pair<real>, switched: bool, reason: SwitchReason,
                    advisor: Option<string>): Decision {
    Decision(now, s.active, cameras.At(s.active).name, scores, switched, switched, reason, advisor,
             if s.candidate.Some? then Some(s.candidate.value.input) else None,
             if s.candidate.Some? then SaturatingSub(now, s.candidate.value.since) else 0)
  }

  function SwitchTo(s: State, input: Input, now: U64): State {
    (if input != s.active then s.(active := input, lastSwitch := now) else s).(candidate := None)
  }

  datatype Outcome = Outcome(state: State, switched: bool, reason: SwitchReason)

  function SwitchOrHold(s: State, input: Input, now: U64, reason: SwitchReason): Outcome {
    var switched := input != s.active;
    Outcome(SwitchTo(s, input, now), switched, if switched then reason else NoChange)
  }

  function FailOver(s: State, now: U64, cameras: Pair<Camera>): Outcome {
    if Eligible(cameras.At(Other(s.active))) then SwitchOrHold(s, Other(s.active), now, Failover)
    else Outcome(s, false, BothInputsUnavailable)
  }

  function Initialize(s: State, cameras: Pair<Camera>): Outcome {
    var swap := !Eligible(cameras.At(s.active)) && Eligible(cameras.At(Other(s.active)));
    Outcome(s.(initialized := true, active := if swap then Other(s.active) else s.active), false, Initial)
  }

  function FollowHold(s: State, held: Input, now: U64, cameras: Pair<Camera>): Outcome {
    if Eligible(cameras.At(held)) then SwitchOrHold(s, held, now, Manual)
    else if Eligible(cameras.At(s.active)) then Outcome(s, false, AutoPaused)
    else FailOver(s, now, cameras)
  }

  /** Automatic operation, with both the hold and the pause out of the way. */
  function Compete(p: Policy, s: State, now: U64, cameras: Pair<Camera>, scores: Pair<real>): Outcome {
    var rival := Other(s.active);
    var cleared := s.(candidate := None);
    var activeFor := SaturatingSub(now, s.lastSwitch);
    if !Eligible(cameras.At(rival)) || scores.At(rival) < scores.At(s.active) + p.margin
      then Outcome(cleared, false, NoChange)
    else if activeFor < p.minShot then Outcome(cleared, false, MinimumShot)
    else if activeFor < p.cooldown then Outcome(cleared, false, Cooldown)
    else
      var candidate :=
        if s.candidate.Some? && s.candidate.value.input == rival then s.candidate.value else Candidate(rival, now);
      var building := s.(candidate := Some(candidate));
      if SaturatingSub(now, candidate.since) < p.candidateHold then Outcome(building, false, CandidateBuilding)
      else SwitchOrHold(building, rival, now, Automatic)
  }

  function Judge(p: Policy, s: State, now: U64, cameras: Pair<Camera>, scores: Pair<real>): Outcome {
    if !s.initialized then Initialize(s, cameras)
    else if s.hold.Some? && InForce(s.hold.value, now) then FollowHold(s, s.hold.value.input, now, cameras)
    else
      var free := s.(hold := None);
      if !Eligible(cameras.At(s.active)) then FailOver(free, now, cameras)
      else if !s.auto then Outcome(free, false, AutoPaused)
      else Compete(p, free, now, cameras, scores)
  }

  datatype Event =
    | Evaluate(now: U64, cameras: Pair<Camera>, advice: Option<Advice>)
    | Take(input: nat, holdMs: U64, at: U64)
    | Pause
    | Resume

  /** `take` refuses an input other than 0 or 1 and changes nothing. */
  predicate Refused(e: Event) {
    e.Take? && e.input > 1
  }

  function Step(p: Policy, s: State, e: Event): State {
    match e
    case Evaluate(now, cameras, advice) => Judge(p, s, now, cameras, Scores(p, now, cameras, advice)).state
    case Take(input, holdMs, at) =>
      if input > 1 then s
      else s.(hold := Some(Hold(input, if holdMs != 0 then Some(SaturatingAdd(at, holdMs)) else None)),
              candidate := None)
    case Pause => s.(auto := false, candidate := None)
    case Resume => s.(auto := true, hold := None, candidate := None)
  }

  // ----- scores stay in range and the advisor is bounded -----

  lemma FastScoreInRange(s: FastSignals)
    ensures 0.0 <= FastScore(s) <= 1.0
  {
  }

  lemma Product(a: real, b: real)
    requires a >= 0.0 && b >= 0.0
    ensures a * b >= 0.0
  {
  }

  function Pull(distance: real, weight: real): real {
    distance * weight
  }

  lemma MixMoves(fast: real, target: real, weight: real)
    ensures Mix(fast, target, weight) == fast + Pull(target - fast, weight)
    ensures Mix(fast, target, weight) == fast - Pull(fast - target, weight)
  {
  }

  lemma PullBounded(distance: real, weight: real)
    requires 0.0 <= distance <= 1.0 && 0.0 <= weight <= 0.25
    ensures 0.0 <= Pull(distance, weight) <= 0.25 && Pull(distance, weight) <= distance
  {
    Product(distance, weight);
    Product(distance, 0.25 - weight);
    assert distance * (0.25 - weight) == distance * 0.25 - distance * weight;
  }

  lemma MixBounded(fast: real, target: real, weight: real)
    requires 0.0 <= fast <= 1.0 && 0.0 <= target <= 1.0 && 0.0 <= weight <= 0.25
    ensures 0.0 <= Mix(fast, target, weight) <= 1.0 && fast - 0.25 <= Mix(fast, target, weight) <= fast + 0.25
  {
    hide Mix, Pull;
    MixMoves(fast, target, weight);
    if target >= fast {
      PullBounded(target - fast, weight);
    } else {
      PullBounded(fast - target, weight);
    }
  }

  /** Every score lies in [0, 1], and advice moves it by at most the bounded weight, whatever it says. */
  lemma ScoresBounded(p: Policy, now: U64, cameras: Pair<Camera>, advice: Option<Advice>, i: Input)
    ensures var score := Scores(WithWeight(p), now, cameras, advice).At(i);
            var fast := FastScore(cameras.At(i).fast);
            0.0 <= score <= 1.0 && fast - 0.25 <= score <= fast + 0.25
  {
    hide FastScore, Mix;
    FastScoreInRange(cameras.At(i).fast);
    if advice.Some? {
      MixBounded(FastScore(cameras.At(i).fast), Clamp(advice.value.scores.At(i), 0.0, 1.0), WithWeight(p).vlmWeight);
    }
  }

  /** How much each signal weighs: of five signals in range, speech 30, mouth motion 25, composition 20, quality 15
      and transport 10 percent; a signal out of range counts as the nearer bound. */
  lemma SignalsWeigh(s: FastSignals)
    ensures var c := FastSignals(Clamp(s.vad, 0.0, 1.0), Clamp(s.mouthMotion, 0.0, 1.0), Clamp(s.composition, 0.0, 1.0),
                                 Clamp(s.quality, 0.0, 1.0), Clamp(s.transportHealth, 0.0, 1.0));
            && FastScore(s) == FastScore(c)
            && 100.0 * FastScore(s) == 30.0 * c.vad + 25.0 * c.mouthMotion + 20.0 * c.composition + 15.0 * c.quality
                                       + 10.0 * c.transportHealth
  {
  }

  /** Advice counts from when it was observed until it expires, and then moves each score the policy's weight of
      the way to what it advises; at any other time the scores are those without it. */
  lemma AdviceCountsWhileValid(p: Policy, now: U64, cameras: Pair<Camera>, a: Advice, i: Input)
    ensures var fast := FastScore(cameras.At(i).fast);
            Scores(p, now, cameras, Some(a)).At(i) ==
            if a.observedAt <= now && now <= a.expiresAt
            then fast + p.vlmWeight * (Clamp(a.scores.At(i), 0.0, 1.0) - fast) else fast
    ensures AdvisorReason(now, Some(a)) == if a.observedAt <= now && now <= a.expiresAt then Some(a.reason) else None
  {
    hide FastScore;
    var fast, target := FastScore(cameras.At(i).fast), Clamp(a.scores.At(i), 0.0, 1.0);
    MixToward(fast, target, p.vlmWeight);
  }

  lemma MixToward(fast: real, target: real, weight: real)
    ensures Mix(fast, target, weight) == fast + weight * (target - fast)
  {
  }

  // ----- the active input is eligible whenever one can be -----

  /** Held, paused or automatic: after an evaluation the active input is eligible if and only if any
      input is. */
  lemma ActiveIsEligible(p: Policy, s: State, e: Event)
    requires e.Evaluate?
    ensures Eligible(e.cameras.At(Step(p, s, e).active)) <==> Eligible(e.cameras.first) || Eligible(e.cameras.second)
  {
    hide Scores, Eligible;
  }

  /** A hold in force is obeyed whenever its input is eligible, and otherwise left only for a failover. */
  lemma HoldIsObeyed(p: Policy, s: State, e: Event)
    requires e.Evaluate? && s.initialized && s.hold.Some? && InForce(s.hold.value, e.now)
    ensures var held := s.hold.value.input;
            var next := Step(p, s, e);
            && next.hold == s.hold
            && (Eligible(e.cameras.At(held)) ==> next.active == held)
            && (!Eligible(e.cameras.At(held)) && Eligible(e.cameras.At(s.active)) ==> next.active == s.active)
  {
    hide Scores, Eligible;
  }

  // ----- whole runs -----

  function StateAt(p: Policy, start: State, events: seq<Event>, k: nat): State
    requires k <= |events|
  {
    if k == 0 then start else Step(p, StateAt(p, start, events, k - 1), events[k - 1])
  }

  /** Evaluations come in order of time, none before the director was made. */
  predicate Timed(made: U64, events: seq<Event>) {
    && (forall i :: 0 <= i < |events| && events[i].Evaluate? ==> made <= events[i].now)
    && (forall i, j :: 0 <= i < j < |events| && events[i].Evaluate? && events[j].Evaluate? ==>
        events[i].now <= events[j].now)
  }

  function ReasonAt(p: Policy, start: State, events: seq<Event>, k: nat): SwitchReason
    requires k < |events| && events[k].Evaluate?
  {
    var e := events[k];
    Judge(p, StateAt(p, start, events, k), e.now, e.cameras, Scores(p, e.now, e.cameras, e.advice)).reason
  }

  /** The other input beats the active one by the margin, both being eligible. */
  predicate Ahead(p: Policy, active: Input, e: Event)
    requires e.Evaluate?
  {
    var scores := Scores(p, e.now, e.cameras, e.advice);
    Eligible(e.cameras.first) && Eligible(e.cameras.second) && scores.At(Other(active)) >= scores.At(active) + p.margin
  }

  predicate Dark(e: Event)
    requires e.Evaluate?
  {
    !Eligible(e.cameras.first) && !Eligible(e.cameras.second)
  }

  /** Neither held nor paused. */
  predicate Free(s: State, now: U64) {
    s.initialized && s.auto && (s.hold.None? || !InForce(s.hold.value, now))
  }

  /** The shot has lasted its minimum and its cooldown. */
  predicate Settled(p: Policy, s: State, now: U64) {
    now >= s.lastSwitch + Max(p.minShot, p.cooldown)
  }

  /** What an evaluation may be without ending a streak. */
  predicate Continues(p: Policy, active: Input, e: Event) {
    Refused(e) || (e.Evaluate? && (Ahead(p, active, e) || Dark(e)))
  }

  predicate SameShot(s: State, t: State) {
    t.active == s.active && t.lastSwitch == s.lastSwitch
  }

  /** A challenge that begins with event `c` and still stands before event `k`: it begins in a settled
      shot free for automatic switching, and since then the rival was ahead at every evaluation, or
      nothing was available at all; no operator command intervened and nothing was switched. */
  ghost predicate Streak(p: Policy, start: State, events: seq<Event>, c: nat, k: nat)
    requires c < k <= |events|
  {
    var s := StateAt(p, start, events, c);
    && events[c].Evaluate? && Ahead(p, s.active, events[c]) && Free(s, events[c].now) && Settled(p, s, events[c].now)
    && (forall i :: c < i < k ==> Continues(p, s.active, events[i]))
    && (forall i :: c < i <= k ==> SameShot(s, StateAt(p, start, events, i)))
  }

  /** A standing candidate is free to win and began in a settled shot. */
  predicate CandidateInv(p: Policy, s: State) {
    s.candidate.Some? ==>
      && s.candidate.value.input == Other(s.active)
      && s.initialized && s.auto && s.hold.None?
      && Settled(p, s, s.candidate.value.since)
  }

  predicate Later(s: State, now: U64) {
    s.lastSwitch <= now && (s.candidate.Some? ==> s.candidate.value.since <= now)
  }

  lemma StepKeepsInv(p: Policy, s: State, e: Event)
    requires CandidateInv(p, s) && (e.Evaluate? ==> Later(s, e.now))
    ensures CandidateInv(p, Step(p, s, e))
  {
    hide Scores, Eligible;
  }

  /** All that an evaluation does to the candidate and to the active input. */
  lemma Challenge(p: Policy, s: State, e: Event)
    requires CandidateInv(p, s) && e.Evaluate? && Later(s, e.now)
    ensures var next := Step(p, s, e);
            var scores := Scores(p, e.now, e.cameras, e.advice);
            var automatic := Judge(p, s, e.now, e.cameras, scores).reason == Automatic;
            if s.candidate.Some? then
              && (Dark(e) ==> next == s && !automatic)
              && (Ahead(p, s.active, e) ==>
                    (automatic <==> e.now - s.candidate.value.since >= p.candidateHold)
                    && (!automatic ==> next == s))
              && (!Ahead(p, s.active, e) && !Dark(e) ==> next.candidate.None? && !automatic)
              && (automatic ==> next.candidate.None? && next.active == Other(s.active) && next.lastSwitch == e.now)
            else if Ahead(p, s.active, e) && Free(s, e.now) && Settled(p, s, e.now) then
              && (automatic <==> p.candidateHold == 0)
              && (automatic ==> next.candidate.None? && next.active == Other(s.active) && next.lastSwitch == e.now)
              && (!automatic ==>
                    next.candidate == Some(Candidate(Other(s.active), e.now)) && next.active == s.active
                    && next.lastSwitch == s.lastSwitch)
            else !automatic && next.candidate.None?
  {
    hide Scores, Eligible;
  }

  lemma {:induction false} NeverAhead(p: Policy, made: U64, initial: nat, events: seq<Event>, k: nat, j: nat)
    requires Timed(made, events) && k <= j < |events| && events[j].Evaluate?
    ensures Later(StateAt(p, NewDirector(initial, made), events, k), events[j].now)
    decreases k
  {
    hide Scores, Eligible, Judge;
    if k > 0 {
      NeverAhead(p, made, initial, events, k - 1, j);
      if events[k - 1].Evaluate? {
        NeverAhead(p, made, initial, events, k - 1, k - 1);
        StepTimes(p, StateAt(p, NewDirector(initial, made), events, k - 1), events[k - 1]);
      }
    }
  }

  lemma StepTimes(p: Policy, s: State, e: Event)
    requires e.Evaluate? && Later(s, e.now)
    ensures Later(Step(p, s, e), e.now)
    ensures Step(p, s, e).lastSwitch >= s.lastSwitch
  {
    hide Scores, Eligible;
  }

  /** One more event keeps the invariant between the candidate and the streaks. */
  ghost predicate Tracks(p: Policy, start: State, events: seq<Event>, k: nat)
    requires k <= |events|
  {
    var s := StateAt(p, start, events, k);
    && CandidateInv(p, s)
    && (s.candidate.Some? ==>
          exists c :: 0 <= c < k && Streak(p, start, events, c, k) && events[c].now == s.candidate.value.since)
    && (forall c :: 0 <= c < k && Streak(p, start, events, c, k) ==>
        s.candidate.Some? && s.candidate.value.since <= events[c].now)
  }

  lemma StreakGrows(p: Policy, start: State, events: seq<Event>, c: nat, k: nat)
    requires c < k < |events|
    ensures Streak(p, start, events, c, k + 1) <==>
              && Streak(p, start, events, c, k)
              && Continues(p, StateAt(p, start, events, c).active, events[k])
              && SameShot(StateAt(p, start, events, k), StateAt(p, start, events, k + 1))
  {
    hide StateAt, Continues, Ahead, Free, Settled;
    var s := StateAt(p, start, events, c);
    if Streak(p, start, events, c, k + 1) {
      assert SameShot(s, StateAt(p, start, events, k));
      assert SameShot(s, StateAt(p, start, events, k + 1));
    }
    if Streak(p, start, events, c, k) {
      assert SameShot(s, StateAt(p, start, events, k));
    }
  }

  lemma StreakBegins(p: Policy, start: State, events: seq<Event>, k: nat)
    requires k < |events|
    ensures var s := StateAt(p, start, events, k);
            Streak(p, start, events, k, k + 1) <==>
              && events[k].Evaluate? && Ahead(p, s.active, events[k]) && Free(s, events[k].now)
              && Settled(p, s, events[k].now) && SameShot(s, StateAt(p, start, events, k + 1))
  {
    hide StateAt, Ahead, Free, Settled;
  }

  lemma TracksAtNow(p: Policy, start: State, events: seq<Event>, k: nat)
    requires k < |events| && events[k].Evaluate? && CandidateInv(p, StateAt(p, start, events, k))
    requires Later(StateAt(p, start, events, k), events[k].now)
    ensures var s := StateAt(p, start, events, k);
            var next := StateAt(p, start, events, k + 1);
            && (next.candidate.Some? ==>
                  if s.candidate.Some? then next == s && Continues(p, s.active, events[k])
                  else next.candidate.value.since == events[k].now && Streak(p, start, events, k, k + 1))
            && (s.candidate.Some? && Continues(p, s.active, events[k]) && SameShot(s, next) ==> next == s)
            && (Streak(p, start, events, k, k + 1) ==>
                next.candidate.Some? && next.candidate.value.since <= events[k].now)
  {
    hide Ahead, Dark, Free, Settled, Judge, Streak, Scores;
    Challenge(p, StateAt(p, start, events, k), events[k]);
    StreakBegins(p, start, events, k);
  }

  lemma TracksAtCommand(p: Policy, start: State, events: seq<Event>, k: nat)
    requires k < |events| && !events[k].Evaluate?
    ensures var s := StateAt(p, start, events, k);
            var next := StateAt(p, start, events, k + 1);
            if Refused(events[k]) then next == s else next.candidate.None?
  {
  }

  lemma TrackOne(p: Policy, start: State, events: seq<Event>, k: nat)
    requires k < |events| && Tracks(p, start, events, k)
    requires events[k].Evaluate? ==> Later(StateAt(p, start, events, k), events[k].now)
    ensures Tracks(p, start, events, k + 1)
  {
    hide Streak, StateAt, Continues, CandidateInv, Ahead, Free, Settled;
    var s, next := StateAt(p, start, events, k), StateAt(p, start, events, k + 1);
    StepIs(p, start, events, k);
    StepKeepsInv(p, s, events[k]);
    if events[k].Evaluate? {
      TracksAtNow(p, start, events, k);
    } else {
      TracksAtCommand(p, start, events, k);
      CommandContinues(p, s.active, events[k]);
      StreakBegins(p, start, events, k);
    }
    forall c | 0 <= c < k
      ensures Streak(p, start, events, c, k + 1) <==>
                Streak(p, start, events, c, k) && Continues(p, StateAt(p, start, events, c).active, events[k])
                  && SameShot(s, next)
      ensures Streak(p, start, events, c, k) ==> StateAt(p, start, events, c).active == s.active && events[c].Evaluate?
    {
      StreakGrows(p, start, events, c, k);
      StreakActive(p, start, events, c, k);
    }
    StreakActive(p, start, events, k, k + 1);
    if next.candidate.Some? && s.candidate.Some? {
      var c :| 0 <= c < k && Streak(p, start, events, c, k) && events[c].Evaluate?
        && events[c].now == s.candidate.value.since;
      assert SameShot(s, next);
      assert Streak(p, start, events, c, k + 1);
    }
  }

  lemma StepIs(p: Policy, start: State, events: seq<Event>, k: nat)
    requires k < |events|
    ensures StateAt(p, start, events, k + 1) == Step(p, StateAt(p, start, events, k), events[k])
  {
  }

  lemma CommandContinues(p: Policy, active: Input, e: Event)
    requires !e.Evaluate?
    ensures Continues(p, active, e) <==> Refused(e)
  {
  }

  lemma StreakActive(p: Policy, start: State, events: seq<Event>, c: nat, k: nat)
    requires c < k <= |events|
    ensures Streak(p, start, events, c, k) ==>
              events[c].Evaluate? && StateAt(p, start, events, c).active == StateAt(p, start, events, k).active
  {
    hide StateAt, Continues;
    if Streak(p, start, events, c, k) {
      assert SameShot(StateAt(p, start, events, c), StateAt(p, start, events, k));
    }
  }

  lemma {:induction false} TracksAlways(p: Policy, made: U64, initial: nat, events: seq<Event>, k: nat)
    requires Timed(made, events) && k <= |events|
    ensures Tracks(p, NewDirector(initial, made), events, k)
    decreases k
  {
    hide Streak, Step, Timed;
    if k > 0 {
      TracksAlways(p, made, initial, events, k - 1);
      if events[k - 1].Evaluate? {
        NeverAhead(p, made, initial, events, k - 1, k - 1);
      }
      TrackOne(p, NewDirector(initial, made), events, k - 1);
    }
  }

  /** Main result, over every run with time in order: an evaluation switches automatically if and only
      if the rival is ahead now and a streak has stood for the configured hold (or none is asked for
      and the director is free in a settled shot). */
  lemma AutomaticIff(p: Policy, made: U64, initial: nat, events: seq<Event>, k: nat)
    requires Timed(made, events) && k < |events| && events[k].Evaluate?
    ensures var start := NewDirector(initial, made);
            var s := StateAt(p, start, events, k);
            ReasonAt(p, start, events, k) == Automatic <==>
              && Ahead(p, s.active, events[k])
              && ((exists c :: 0 <= c < k && Streak(p, start, events, c, k)
                               && events[k].now >= events[c].now + p.candidateHold)
                  || (p.candidateHold == 0 && Free(s, events[k].now) && Settled(p, s, events[k].now)))
  {
    hide Streak, Step, Timed, Ahead, Free, Settled, Judge, StateAt, Dark, CandidateInv;
    var start := NewDirector(initial, made);
    var s := StateAt(p, start, events, k);
    TracksAlways(p, made, initial, events, k);
    NeverAhead(p, made, initial, events, k, k);
    AheadIsNotDark(p, s.active, events[k]);
    Challenge(p, s, events[k]);
  }

  lemma AheadIsNotDark(p: Policy, active: Input, e: Event)
    requires e.Evaluate?
    ensures !(Ahead(p, active, e) && Dark(e))
  {
  }

  function SwitchedAt(p: Policy, start: State, events: seq<Event>, j: nat): bool
    requires j < |events|
  {
    var e := events[j];
    e.Evaluate? && Judge(p, StateAt(p, start, events, j), e.now, e.cameras,
                         Scores(p, e.now, e.cameras, e.advice)).switched
  }

  lemma {:induction false} LastSwitchIsLast(p: Policy, made: U64, initial: nat, events: seq<Event>, j: nat, k: nat)
    requires Timed(made, events) && j < k <= |events|
    ensures var start := NewDirector(initial, made);
            SwitchedAt(p, start, events, j) ==> events[j].now <= StateAt(p, start, events, k).lastSwitch
    decreases k
  {
    hide Scores, Eligible, Judge, Timed;
    var start := NewDirector(initial, made);
    if j < k - 1 {
      LastSwitchIsLast(p, made, initial, events, j, k - 1);
      if events[k - 1].Evaluate? {
        NeverAhead(p, made, initial, events, k - 1, k - 1);
        StepTimes(p, StateAt(p, start, events, k - 1), events[k - 1]);
      }
    } else if events[j].Evaluate? {
      SwitchSetsTime(p, StateAt(p, start, events, j), events[j].now, events[j].cameras,
                     Scores(p, events[j].now, events[j].cameras, events[j].advice));
    }
  }

  lemma SwitchSetsTime(p: Policy, s: State, now: U64, cameras: Pair<Camera>, scores: Pair<real>)
    ensures var r := Judge(p, s, now, cameras, scores); r.switched ==> r.state.lastSwitch == now
  {
    hide Eligible;
  }

  lemma {:induction false} LastSwitchAfterStart(p: Policy, made: U64, initial: nat, events: seq<Event>, k: nat)
    requires Timed(made, events) && k <= |events|
    ensures made <= StateAt(p, NewDirector(initial, made), events, k).lastSwitch
    decreases k
  {
    hide Scores, Eligible, Judge, Timed;
    if k > 0 {
      LastSwitchAfterStart(p, made, initial, events, k - 1);
      if events[k - 1].Evaluate? {
        NeverAhead(p, made, initial, events, k - 1, k - 1);
        StepTimes(p, StateAt(p, NewDirector(initial, made), events, k - 1), events[k - 1]);
      }
    }
  }

  lemma SwitchIsEvaluation(p: Policy, start: State, events: seq<Event>, j: nat)
    requires j < |events| && SwitchedAt(p, start, events, j)
    ensures events[j].Evaluate?
  {
  }

  /** Main result, over every run: an automatic switch comes at least the longer of the minimum shot and
      the cooldown, plus the candidate hold, after the director was made and after every switch before. */
  lemma AutomaticTiming(p: Policy, made: U64, initial: nat, events: seq<Event>, k: nat)
    requires Timed(made, events) && k < |events| && events[k].Evaluate?
    requires ReasonAt(p, NewDirector(initial, made), events, k) == Automatic
    ensures var wait := Max(p.minShot, p.cooldown) + p.candidateHold;
            && events[k].now >= made + wait
            && forall j :: 0 <= j < k && SwitchedAt(p, NewDirector(initial, made), events, j) ==>
               events[k].now >= events[j].now + wait
  {
    hide Step, Timed, Ahead, Free, Judge, StateAt, ReasonAt, SwitchedAt, Continues;
    var start := NewDirector(initial, made);
    var s := StateAt(p, start, events, k);
    AutomaticIff(p, made, initial, events, k);
    LastSwitchAfterStart(p, made, initial, events, k);
    if c :| 0 <= c < k && Streak(p, start, events, c, k) && events[k].now >= events[c].now + p.candidateHold {
      assert SameShot(StateAt(p, start, events, c), s);
    }
    forall j | 0 <= j < k && SwitchedAt(p, start, events, j)
      ensures events[j].Evaluate? && events[j].now <= s.lastSwitch
    {
      LastSwitchIsLast(p, made, initial, events, j, k);
      SwitchIsEvaluation(p, start, events, j);
    }
  }

  // ----- operator commands over whole runs -----

  predicate TakesEffect(e: Event) {
    e.Take? && e.input <= 1
  }

  /** The time at which a take no longer holds; `None` for a hold without an end. */
  function HoldEnd(e: Event): Option<U64>
    requires e.Take?
  {
    if e.holdMs == 0 then None else Some(SaturatingAdd(e.at, e.holdMs))
  }

  /** No command after event `t` and before event `k` ends the hold, and every evaluation in between comes
      before its end. */
  predicate HoldLasts(events: seq<Event>, t: nat, k: nat)
    requires t < k <= |events| && events[t].Take?
  {
    forall i :: t < i < k ==>
      && !TakesEffect(events[i]) && !events[i].Resume?
      && (events[i].Evaluate? && HoldEnd(events[t]).Some? ==> events[i].now < HoldEnd(events[t]).value)
  }

  lemma {:induction false} TakeHolds(p: Policy, start: State, events: seq<Event>, t: nat, k: nat)
    requires t < k <= |events| && TakesEffect(events[t]) && HoldLasts(events, t, k)
    ensures StateAt(p, start, events, k).hold == Some(Hold(events[t].input, HoldEnd(events[t])))
    decreases k
  {
    hide Scores, Eligible;
    if k > t + 1 {
      assert HoldLasts(events, t, k - 1);
      TakeHolds(p, start, events, t, k - 1);
      assert !TakesEffect(events[k - 1]) && !events[k - 1].Resume?;
    }
  }

  /** Main result, over every run: while the hold of a take lasts, every evaluation of an initialised
      director on which the input taken is eligible ends on that input, manually if it had to switch; and
      when it is not, the active input is left only if it has failed. */
  lemma TakeIsObeyed(p: Policy, start: State, events: seq<Event>, t: nat, k: nat)
    requires t < k < |events| && TakesEffect(events[t]) && HoldLasts(events, t, k + 1)
    requires events[k].Evaluate? && StateAt(p, start, events, k).initialized
    ensures var s, next := StateAt(p, start, events, k), StateAt(p, start, events, k + 1);
            var taken, cameras := events[t].input, events[k].cameras;
            if Eligible(cameras.At(taken)) then
              && next.active == taken
              && ReasonAt(p, start, events, k) == (if s.active == taken then NoChange else Manual)
            else
              && (Eligible(cameras.At(s.active)) ==> next.active == s.active)
              && (next.active != s.active ==> ReasonAt(p, start, events, k) == Failover)
  {
    hide Scores, Eligible;
    assert HoldLasts(events, t, k);
    TakeHolds(p, start, events, t, k);
    assert HoldEnd(events[t]).Some? ==> events[k].now < HoldEnd(events[t]).value;
  }

  lemma {:induction false} StaysInitialized(p: Policy, start: State, events: seq<Event>, i: nat, k: nat)
    requires i < k <= |events| && events[i].Evaluate?
    ensures StateAt(p, start, events, k).initialized
    decreases k
  {
    hide Scores, Eligible;
    if k > i + 1 {
      StaysInitialized(p, start, events, i, k - 1);
    }
  }

  lemma {:induction false} PauseLasts(p: Policy, start: State, events: seq<Event>, q: nat, k: nat)
    requires q < k <= |events| && events[q].Pause? && forall i :: q < i < k ==> !events[i].Resume?
    ensures !StateAt(p, start, events, k).auto
    decreases k
  {
    hide Scores, Eligible;
    if k > q + 1 {
      PauseLasts(p, start, events, q, k - 1);
    }
  }

  /** Main result, over every run: from a pause to the next resume no evaluation switches automatically or
      builds a candidate; the active input changes only by a take, a failover or the initialisation. */
  lemma NothingAutomaticWhilePaused(p: Policy, start: State, events: seq<Event>, q: nat, k: nat)
    requires q < k < |events| && events[q].Pause? && forall i :: q < i <= k ==> !events[i].Resume?
    requires events[k].Evaluate?
    ensures ReasonAt(p, start, events, k) !in {Automatic, CandidateBuilding, MinimumShot, Cooldown}
    ensures StateAt(p, start, events, k + 1).active != StateAt(p, start, events, k).active ==>
              ReasonAt(p, start, events, k) in {Initial, Manual, Failover}
  {
    hide Scores, Eligible;
    PauseLasts(p, start, events, q, k);
  }

  /** After a resume, and until the next pause or take, an initialised director is free to switch, whatever
      was paused or held before. */
  lemma {:induction false} ResumeFrees(p: Policy, start: State, events: seq<Event>, r: nat, k: nat)
    requires r < k <= |events| && events[r].Resume?
    requires forall i :: r < i < k ==> !events[i].Pause? && !TakesEffect(events[i])
    ensures var s := StateAt(p, start, events, k);
            s.hold.None? && s.auto && forall now: U64 :: Free(s, now) <==> s.initialized
    decreases k
  {
    hide Scores, Eligible;
    if k > r + 1 {
      ResumeFrees(p, start, events, r, k - 1);
      assert !events[k - 1].Pause? && !TakesEffect(events[k - 1]);
    }
  }

  // ----- what a decision reports -----

  /** The input reported is the one now active, under its camera's name; a switch is reported exactly if an
      initialised director changed its input, and exactly then a keyframe is requested. */
  lemma DecisionReports(p: Policy, s: State, e: Event, advisor: Option<string>)
    requires e.Evaluate?
    ensures var next := Step(p, s, e);
            var scores := Scores(p, e.now, e.cameras, e.advice);
            var r := Judge(p, s, e.now, e.cameras, scores);
            var decision := Describe(next, e.now, e.cameras, scores, r.switched, r.reason, advisor);
            && decision.active == next.active && decision.name == e.cameras.At(next.active).name
            && (decision.switched <==> s.initialized && next.active != s.active)
            && (decision.requestIdr <==> decision.switched)
            && (decision.switched <==> decision.reason in {Manual, Failover, Automatic})
            && (decision.candidate.Some? <==> next.candidate.Some?)
            && (decision.candidate.Some? && CandidateInv(p, next) ==> decision.candidate.value != decision.active)
  {
    hide Scores, Eligible;
  }

  // ----- a switch on a candidate that both inputs lost -----

  const BRIEF := Policy(0, 0, 10, 0.1, 0.0)

  function Speaker(vad: real, healthy: bool): Camera {
    Camera("camera", FastSignals(vad, 0.0, 0.0, 0.0, 0.0), healthy, true, false)
  }

  function Look(now: U64, healthy: bool): Event {
    Evaluate(now, Pair(Speaker(0.0, healthy), Speaker(1.0, healthy)), None)
  }

  /** The second input speaks throughout; at 6 ms neither camera is healthy. */
  function DarkRun(): seq<Event> {
    [Look(0, true), Look(1, true), Look(6, false), Look(11, true)]
  }

  lemma LookScores(now: U64, healthy: bool)
    ensures var e := Look(now, healthy);
            var scores := Scores(BRIEF, now, e.cameras, None);
            scores == Pair(0.0, 0.3) && (Ahead(BRIEF, 0, e) <==> healthy) && (Dark(e) <==> !healthy)
  {
  }

  /** From a new director: the rival becomes a candidate, both inputs fail, and when they return the
      director switches at once, as if the rival had been ahead all along. */
  lemma SwitchAfterDarkness()
    ensures Timed(0, DarkRun()) && Dark(DarkRun()[2])
    ensures ReasonAt(BRIEF, NewDirector(0, 0), DarkRun(), 1) == CandidateBuilding
    ensures ReasonAt(BRIEF, NewDirector(0, 0), DarkRun(), 2) == BothInputsUnavailable
    ensures ReasonAt(BRIEF, NewDirector(0, 0), DarkRun(), 3) == Automatic
  {
    hide Scores, Ahead;
    var start, events := NewDirector(0, 0), DarkRun();
    LookScores(0, true);
    LookScores(1, true);
    LookScores(6, false);
    LookScores(11, true);
    assert StateAt(BRIEF, start, events, 1) == start.(initialized := true);
    var building := start.(initialized := true, candidate := Some(Candidate(1, 1)));
    assert StateAt(BRIEF, start, events, 2) == building;
    assert StateAt(BRIEF, start, events, 3) == building;
  }

  // ----- the director object -----

  class Director {
    const policy: Policy
    var activeInput: Input
    var lastSwitchMs: U64
    var candidate: Option<Candidate>
    var manualHold: Option<Hold>
    var autoEnabled: bool
    var initialized: bool

    ghost function View(): State
      reads this
    {
      State(activeInput, lastSwitchMs, candidate, manualHold, autoEnabled, initialized)
    }

    constructor (policy: Policy, initial: nat, now: U64)
      ensures this.policy == WithWeight(policy) && View() == NewDirector(initial, now)
    {
      this.policy := WithWeight(policy);
      activeInput, lastSwitchMs, candidate, manualHold := Min(initial, 1), now, None, None;
      autoEnabled, initialized := true, false;
    }

    method TakeInput(input: nat, holdMs: U64, now: U64) returns (ok: bool)
      modifies `manualHold, `candidate
      ensures View() == Step(policy, old(View()), Take(input, holdMs, now)) && ok == !Refused(Take(input, holdMs, now))
    {
      if input > 1 {
        return false;
      }
      manualHold := Some(Hold(input, if holdMs != 0 then Some(SaturatingAdd(now, holdMs)) else None));
      candidate := None;
      return true;
    }

    method PauseAuto()
      modifies `autoEnabled, `candidate
      ensures View() == Step(policy, old(View()), Pause)
    {
      autoEnabled := false;
      candidate := None;
    }

    method ResumeAuto()
      modifies `autoEnabled, `manualHold, `candidate
      ensures View() == Step(policy, old(View()), Resume)
    {
      autoEnabled := true;
      manualHold := None;
      candidate := None;
    }

    method EvaluateInputs(now: U64, cameras: Pair<Camera>, advice: Option<Advice>) returns (decision: Decision)
      modifies this
      ensures var scores := Scores(policy, now, cameras, advice);
              var outcome := Judge(policy, old(View()), now, cameras, scores);
              && View() == outcome.state == Step(policy, old(View()), Evaluate(now, cameras, advice))
              && decision == Describe(View(), now, cameras, scores, outcome.switched, outcome.reason,
                                      AdvisorReason(now, advice))
      ensures decision.active == activeInput && decision.requestIdr == decision.switched
      ensures decision.switched <==> old(initialized) && activeInput != old(activeInput)
    {
      DecisionReports(policy, View(), Evaluate(now, cameras, advice), AdvisorReason(now, advice));
      hide Scores, Eligible;
      var scores := Scores(policy, now, cameras, advice);
      var advisor := AdvisorReason(now, advice);
      if !initialized {
        initialized := true;
        if !Eligible(cameras.At(activeInput)) && Eligible(cameras.At(1 - activeInput)) {
          activeInput := 1 - activeInput;
        }
        return Decide(now, cameras, scores, false, Initial, advisor);
      }
      if manualHold.Some? {
        var hold := manualHold.value;
        if InForce(hold, now) {
          if Eligible(cameras.At(hold.input)) {
            decision := Switch(hold.input, now, cameras, scores, Manual, advisor);
          } else if Eligible(cameras.At(activeInput)) {
            decision := Decide(now, cameras, scores, false, AutoPaused, advisor);
          } else {
            decision := TakeOver(now, cameras, scores, advisor);
          }
          return;
        }
        manualHold := None;
      }
      if !Eligible(cameras.At(activeInput)) {
        decision := TakeOver(now, cameras, scores, advisor);
      } else if !autoEnabled {
        decision := Decide(now, cameras, scores, false, AutoPaused, advisor);
      } else {
        decision := Challenged(now, cameras, scores, advisor);
      }
    }

    method Challenged(now: U64, cameras: Pair<Camera>, scores: Pair<real>, advisor: Option<string>)
      returns (decision: Decision)
      modifies `activeInput, `lastSwitchMs, `candidate
      ensures var outcome := Compete(policy, old(View()), now, cameras, scores);
              && View() == outcome.state
              && decision == Describe(View(), now, cameras, scores, outcome.switched, outcome.reason, advisor)
    {
      hide Eligible;
      var rival := 1 - activeInput;
      if !Eligible(cameras.At(rival)) || scores.At(rival) < scores.At(activeInput) + policy.margin {
        candidate := None;
        return Decide(now, cameras, scores, false, NoChange, advisor);
      }
      var activeFor := SaturatingSub(now, lastSwitchMs);
      if activeFor < policy.minShot {
        candidate := None;
        return Decide(now, cameras, scores, false, MinimumShot, advisor);
      }
      if activeFor < policy.cooldown {
        candidate := None;
        return Decide(now, cameras, scores, false, Cooldown, advisor);
      }
      if candidate.None? || candidate.value.input != rival {
        candidate := Some(Candidate(rival, now));
      }
      if SaturatingSub(now, candidate.value.since) < policy.candidateHold {
        return Decide(now, cameras, scores, false, CandidateBuilding, advisor);
      }
      decision := Switch(rival, now, cameras, scores, Automatic, advisor);
    }

    method TakeOver(now: U64, cameras: Pair<Camera>, scores: Pair<real>, advisor: Option<string>)
      returns (decision: Decision)
      modifies `activeInput, `lastSwitchMs, `candidate
      ensures var outcome := FailOver(old(View()), now, cameras);
              && View() == outcome.state
              && decision == Describe(View(), now, cameras, scores, outcome.switched, outcome.reason, advisor)
    {
      var alternate := 1 - activeInput;
      if Eligible(cameras.At(alternate)) {
        decision := Switch(alternate, now, cameras, scores, Failover, advisor);
      } else {
        decision := Decide(now, cameras, scores, false, BothInputsUnavailable, advisor);
      }
    }

    method Switch(input: Input, now: U64, cameras: Pair<Camera>, scores: Pair<real>, reason: SwitchReason,
                  advisor: Option<string>) returns (decision: Decision)
      modifies `activeInput, `lastSwitchMs, `candidate
      ensures var outcome := SwitchOrHold(old(View()), input, now, reason);
              && View() == outcome.state
              && decision == Describe(View(), now, cameras, scores, outcome.switched, outcome.reason, advisor)
    {
      var switched := input != activeInput;
      if switched {
        activeInput := input;
        lastSwitchMs := now;
      }
      candidate := None;
      return Decide(now, cameras, scores, switched, if switched then reason else NoChange, advisor);
    }

    function Decide(now: U64, cameras: Pair<Camera>, scores: Pair<real>, switched: bool, reason: SwitchReason,
                    advisor: Option<string>): Decision
      reads this
    {
      Decision(now, activeInput, cameras.At(activeInput).name, scores, switched, switched, reason, advisor,
               if candidate.Some? then Some(candidate.value.input) else None,
               if candidate.Some? then SaturatingSub(now, candidate.value.since) else 0)
    }
  }
}
