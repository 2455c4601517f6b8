/** The keyframe gate in front of the NVDEC worker (crates/nvidia/src/decoder.rs). */
module DecodeGate {

  /** An access unit as the gate sees it; `usable` means the right codec with a start code. */
  datatype AccessUnit = AccessUnit(usable: bool, discontinuity: bool, keyframe: bool)

  datatype Gate = Gate(waitingForIdr: bool, resetPending: bool)

  const OPENING: Gate := Gate(true, false)

  /** What the worker receives, and whether its call succeeded. */
  datatype Forwarded = Forwarded(discontinuity: bool, keyframe: bool, ok: bool)

  datatype Decision = Rejected | Skipped | Sent(forwarded: Forwarded)

  function Decide(g: Gate, unit: AccessUnit, ok: bool): (Gate, Decision) {
    if !unit.usable then (g, Rejected)
    else
      var marked := if unit.discontinuity then Gate(true, true) else g;
      if marked.waitingForIdr && !unit.keyframe then (marked, Skipped)
      else
        var sent := Forwarded(unit.discontinuity || marked.resetPending, unit.keyframe, ok);
        (if ok then Gate(marked.waitingForIdr && !unit.keyframe, false) else Gate(true, true), Sent(sent))
  }

  /** The access units forwarded by a run. */
  function Trace(g: Gate, units: seq<AccessUnit>, answers: seq<bool>): seq<Forwarded>
    requires |units| == |answers|
    decreases |units|
  {
    if units == [] then []
    else
      var (next, decision) := Decide(g, units[0], answers[0]);
      (if decision.Sent? then [decision.forwarded] else []) + Trace(next, units[1..], answers[1..])
  }

  function EndGate(g: Gate, units: seq<AccessUnit>, answers: seq<bool>): Gate
    requires |units| == |answers|
    decreases |units|
  {
    if units == [] then g else EndGate(Decide(g, units[0], answers[0]).0, units[1..], answers[1..])
  }

  predicate Consistent(g: Gate) {
    g.resetPending ==> g.waitingForIdr
  }

  /** Every generation is opened by a keyframe, and nothing follows a failure inside one. */
  ghost predicate WellGated(trace: seq<Forwarded>) {
    && (forall i :: 0 <= i < |trace| && trace[i].discontinuity ==> trace[i].keyframe)
    && (forall i, j :: 0 <= i && j == i + 1 && j < |trace| && !trace[i].ok ==> trace[j].discontinuity)
  }

  lemma {:induction false} GateFrom(g: Gate, units: seq<AccessUnit>, answers: seq<bool>)
    requires |units| == |answers| && Consistent(g)
    ensures var trace := Trace(g, units, answers);
            && WellGated(trace) && Consistent(EndGate(g, units, answers))
            && (trace != [] && g.waitingForIdr ==> trace[0].keyframe)
            && (trace != [] && g.resetPending ==> trace[0].discontinuity)
    decreases |units|
  {
    if units != [] {
      var (next, decision) := Decide(g, units[0], answers[0]);
      GateFrom(next, units[1..], answers[1..]);
      var rest := Trace(next, units[1..], answers[1..]);
      if decision.Sent? {
        var trace := [decision.forwarded] + rest;
        forall i, j | 0 <= i && j == i + 1 && j < |trace| && !trace[i].ok
          ensures trace[j].discontinuity
        {
          if i > 0 {
            assert trace[i] == rest[i - 1] && trace[j] == rest[j - 1];
          }
        }
      } else {
        assert [] + rest == rest;
      }
    }
  }

  /** Over every sequence of access units and worker answers: the first unit forwarded is a keyframe,
      a discontinuity is only ever forwarded on a keyframe, after a failed call the next unit
      forwarded opens a fresh generation, and a pending reset keeps the gate waiting. */
  lemma GenerationsStartAtKeyframes(units: seq<AccessUnit>, answers: seq<bool>)
    requires |units| == |answers|
    ensures var trace := Trace(OPENING, units, answers);
            && (trace != [] ==> trace[0].keyframe) && WellGated(trace) && Consistent(EndGate(OPENING, units, answers))
  {
    GateFrom(OPENING, units, answers);
  }

  // ----- which access units get through -----

  /** The gate before the k-th access unit of a run. */
  function GateAt(units: seq<AccessUnit>, answers: seq<bool>, k: nat): Gate
    requires k <= |units| == |answers|
    decreases k
  {
    if k == 0 then OPENING else Decide(GateAt(units, answers, k - 1), units[k - 1], answers[k - 1]).0
  }

  function DecisionAt(units: seq<AccessUnit>, answers: seq<bool>, k: nat): Decision
    requires k < |units| == |answers|
  {
    Decide(GateAt(units, answers, k), units[k], answers[k]).1
  }

  /** A usable keyframe, whose call succeeds. */
  predicate Opens(unit: AccessUnit, ok: bool) {
    unit.usable && unit.keyframe && ok
  }

  /** An access unit that leaves an open gate open: one the gate rejects, or one without a mark whose call
      succeeds. */
  predicate Passes(unit: AccessUnit, ok: bool) {
    !unit.usable || (!unit.discontinuity && ok)
  }

  /** Unit `i` was a keyframe decoded with success, and nothing from then to unit `k` closed the gate. */
  predicate OpenSince(units: seq<AccessUnit>, answers: seq<bool>, i: nat, k: nat)
    requires i < k <= |units| == |answers|
  {
    Opens(units[i], answers[i]) && forall j :: i < j < k ==> Passes(units[j], answers[j])
  }

  lemma {:induction false} GateOpenIff(units: seq<AccessUnit>, answers: seq<bool>, k: nat)
    requires k <= |units| == |answers|
    ensures !GateAt(units, answers, k).waitingForIdr <==> exists i :: 0 <= i < k && OpenSince(units, answers, i, k)
    decreases k
  {
    hide Opens, Passes;
    if k > 0 {
      var last := k - 1;
      GateOpenIff(units, answers, last);
      GateStep(GateAt(units, answers, last), units[last], answers[last]);
      if Opens(units[last], answers[last]) {
        assert OpenSince(units, answers, last, k);
      }
      if i :| 0 <= i < last && OpenSince(units, answers, i, last) {
        assert Passes(units[last], answers[last]) ==> OpenSince(units, answers, i, k);
      }
      forall i | 0 <= i < last && OpenSince(units, answers, i, k)
        ensures OpenSince(units, answers, i, last) && Passes(units[last], answers[last])
      {
      }
    }
  }

  lemma GateStep(g: Gate, unit: AccessUnit, ok: bool)
    ensures !Decide(g, unit, ok).0.waitingForIdr <==> Opens(unit, ok) || (!g.waitingForIdr && Passes(unit, ok))
  {
  }

  /** Main result, over every sequence of access units and worker answers: a usable unit is forwarded if and
      only if it is a keyframe, or it carries no mark and the last keyframe decoded with success was followed
      by no mark and no failure; a unit that is not usable is rejected. */
  lemma ForwardedIff(units: seq<AccessUnit>, answers: seq<bool>, k: nat)
    requires k < |units| == |answers|
    ensures DecisionAt(units, answers, k).Rejected? <==> !units[k].usable
    ensures DecisionAt(units, answers, k).Sent? <==>
            units[k].usable && (units[k].keyframe
                                || (!units[k].discontinuity
                                    && exists i :: 0 <= i < k && OpenSince(units, answers, i, k)))
  {
    hide OpenSince, GateAt;
    GateOpenIff(units, answers, k);
  }

  /** Unit `j` asked for a fresh decoder, by its mark or by failing, and none was started since. */
  predicate ResetSince(units: seq<AccessUnit>, answers: seq<bool>, j: nat, k: nat)
    requires j < k <= |units| == |answers|
  {
    var decision := DecisionAt(units, answers, j);
    && (units[j].usable && (if decision.Sent? then !answers[j] else units[j].discontinuity))
    && forall i :: j < i < k ==> !(DecisionAt(units, answers, i).Sent? && answers[i])
  }

  /** A fresh decoder is pending exactly if one was asked for and no call has succeeded since. */
  lemma {:induction false} ResetPendingIff(units: seq<AccessUnit>, answers: seq<bool>, k: nat)
    requires k <= |units| == |answers|
    ensures GateAt(units, answers, k).resetPending <==> exists j :: 0 <= j < k && ResetSince(units, answers, j, k)
    decreases k
  {
    hide GateAt;
    if k > 0 {
      var last := k - 1;
      ResetPendingIff(units, answers, last);
      OneGate(units, answers, k);
      if GateAt(units, answers, k).resetPending {
        if j :| 0 <= j < last && ResetSince(units, answers, j, last) {
          assert ResetSince(units, answers, j, k);
        } else {
          assert ResetSince(units, answers, last, k);
        }
      }
      if j :| 0 <= j < k && ResetSince(units, answers, j, k) {
        assert j < last ==> ResetSince(units, answers, j, last);
      }
    } else {
      NothingPending(units, answers);
    }
  }

  lemma OneGate(units: seq<AccessUnit>, answers: seq<bool>, k: nat)
    requires 0 < k <= |units| == |answers|
    ensures GateAt(units, answers, k) == Decide(GateAt(units, answers, k - 1), units[k - 1], answers[k - 1]).0
  {
  }

  lemma NothingPending(units: seq<AccessUnit>, answers: seq<bool>)
    requires |units| == |answers|
    ensures GateAt(units, answers, 0) == OPENING
  {
  }

  class NvdecDecoder {
    var waitingForIdr: bool
    var resetPending: bool

    ghost function View(): Gate
      reads this
    {
      Gate(waitingForIdr, resetPending)
    }

    constructor ()
      ensures View() == OPENING
    {
      waitingForIdr, resetPending := true, false;
    }

    /** `answer` is the worker's reply, should the unit be forwarded. */
    method Decode(unit: AccessUnit, answer: bool) returns (decision: Decision)
      modifies this
      ensures (View(), decision) == Decide(old(View()), unit, answer)
      ensures old(Consistent(View())) ==> Consistent(View())
    {
      if !unit.usable {
        return Rejected;
      }
      if unit.discontinuity {
        waitingForIdr, resetPending := true, true;
      }
      if waitingForIdr && !unit.keyframe {
        return Skipped;
      }
      if unit.keyframe {
        waitingForIdr := false;
      }
      decision := Sent(Forwarded(unit.discontinuity || resetPending, unit.keyframe, answer));
      if answer {
        resetPending := false;
      } else {
        waitingForIdr, resetPending := true, true;
      }
    }
  }
}
