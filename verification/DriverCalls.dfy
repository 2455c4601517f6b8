/** The NVDEC driver as the surface protocol sees it (crates/nvidia/src/decoder.rs): the calls it receives,
    any of which may fail, what it really holds, and a monitor of the calls it is owed. */
module DriverCalls {
  import opened Bytes

  /** One call. A failed unmap or destroy is only logged by its caller; failed creations and mappings
      return nothing and are not recorded. Handles and pointers are non-zero numbers. */
  datatype Call =
    | Create(decoder: nat)
    | Map(decoder: nat, surface: nat)
    | Unmap(decoder: nat, surface: nat, ok: bool)
    | Destroy(decoder: nat, ok: bool)

  // ----- the monitor -----

  /** `live` are the decoders not yet passed to destroy, `mapped` the surfaces not yet passed to unmap.
      `violated` is set for good by a call that breaks the discipline: mapping on a decoder passed to
      destroy, mapping a surface twice, passing to unmap a surface that is not owed on that decoder, and
      passing to destroy a decoder that is not owed or that still owes a surface. */
  datatype Driver = Driver(live: set<nat>, mapped: map<nat, nat>, violated: bool, calls: seq<Call>)

  const IDLE_DRIVER: Driver := Driver({}, map[], false, [])

  function Issue(d: Driver, c: Call): Driver {
    var noted := d.(calls := d.calls + [c]);
    match c
    case Create(x) => noted.(live := d.live + {x})
    case Map(x, s) => noted.(mapped := d.mapped[s := x], violated := d.violated || x !in d.live || s in d.mapped)
    case Unmap(x, s, _) =>
      noted.(mapped := d.mapped - {s}, violated := d.violated || s !in d.mapped || d.mapped[s] != x)
    case Destroy(x, _) =>
      noted.(live := d.live - {x},
             violated := d.violated || x !in d.live || exists s :: s in d.mapped && d.mapped[s] == x)
  }

  function CreateDecoder(d: Driver, decoder: nat): Driver {
    Issue(d, Create(decoder))
  }

  function MapSurface(d: Driver, decoder: nat, surface: nat): Driver {
    Issue(d, Map(decoder, surface))
  }

  function UnmapSurface(d: Driver, decoder: nat, surface: nat, ok: bool): Driver {
    Issue(d, Unmap(decoder, surface, ok))
  }

  function DestroyDecoder(d: Driver, decoder: nat, ok: bool): Driver {
    Issue(d, Destroy(decoder, ok))
  }

  function Replay(calls: seq<Call>): Driver
    decreases |calls|
  {
    if calls == [] then IDLE_DRIVER else Issue(Replay(calls[..|calls| - 1]), calls[|calls| - 1])
  }

  // ----- what the driver really holds -----

  /** The decoders that exist: created and not successfully destroyed. */
  function Alive(calls: seq<Call>): set<nat>
    decreases |calls|
  {
    if calls == [] then {}
    else
      var before := Alive(calls[..|calls| - 1]);
      match calls[|calls| - 1]
      case Create(x) => before + {x}
      case Destroy(x, ok) => if ok then before - {x} else before
      case _ => before
  }

  /** The mapped surfaces and their decoders; a successful destroy takes its surfaces with it. */
  function Held(calls: seq<Call>): map<nat, nat>
    decreases |calls|
  {
    if calls == [] then map[]
    else
      var before := Held(calls[..|calls| - 1]);
      match calls[|calls| - 1]
      case Create(_) => before
      case Map(x, s) => before[s := x]
      case Unmap(_, s, ok) => if ok then before - {s} else before
      case Destroy(x, ok) => if ok then (map s | s in before && before[s] != x :: before[s]) else before
  }

  function HeldOn(calls: seq<Call>, decoder: nat): set<nat> {
    set s | s in Held(calls) && Held(calls)[s] == decoder
  }

  /** The surfaces whose unmap on this decoder failed since it was created. */
  function FailedUnmaps(calls: seq<Call>, decoder: nat): set<nat>
    decreases |calls|
  {
    if calls == [] then {}
    else
      var before := FailedUnmaps(calls[..|calls| - 1], decoder);
      match calls[|calls| - 1]
      case Create(x) => if x == decoder then {} else before
      case Unmap(x, s, ok) => if x == decoder && !ok then before + {s} else before
      case _ => before
  }

  /** The decoders whose destroy failed. */
  function FailedDestroys(calls: seq<Call>): set<nat>
    decreases |calls|
  {
    if calls == [] then {}
    else
      var before := FailedDestroys(calls[..|calls| - 1]);
      match calls[|calls| - 1]
      case Create(x) => before - {x}
      case Destroy(x, ok) => if ok then before - {x} else before + {x}
      case _ => before
  }

  /** The driver's side of the contract: it hands out neither a decoder that exists nor a surface that
      is mapped. */
  predicate HonestCall(calls: seq<Call>, c: Call) {
    match c
    case Create(x) => x !in Alive(calls)
    case Map(_, s) => s !in Held(calls)
    case _ => true
  }

  /** The owed is really there; what exists besides is what failed to go. */
  ghost predicate DeviceInv(d: Driver) {
    && d == Replay(d.calls)
    && Alive(d.calls) == d.live + FailedDestroys(d.calls) && d.live !! FailedDestroys(d.calls)
    && (forall s :: s in Held(d.calls) ==> Held(d.calls)[s] in Alive(d.calls))
    && (forall s :: s in d.mapped ==> s in Held(d.calls) && Held(d.calls)[s] == d.mapped[s])
    && (forall s :: s in Held(d.calls) ==> (s !in d.mapped <==> s in FailedUnmaps(d.calls, Held(d.calls)[s])))
    && (forall x, s :: x in Alive(d.calls) && s in FailedUnmaps(d.calls, x) ==>
        s in Held(d.calls) && Held(d.calls)[s] == x)
    && DestroyedWithFailures(d.calls)
  }

  /** At every destroy, the surfaces still mapped on the decoder are exactly those whose unmap failed. */
  ghost predicate DestroyedWithFailures(calls: seq<Call>) {
    forall i :: 0 <= i < |calls| && calls[i].Destroy? ==>
      HeldOn(calls[..i], calls[i].decoder) == FailedUnmaps(calls[..i], calls[i].decoder)
  }

  lemma Unfold(calls: seq<Call>, c: Call)
    ensures (calls + [c])[..|calls + [c]| - 1] == calls && (calls + [c])[|calls + [c]| - 1] == c
  {
  }

  lemma OneMoreCall(calls: seq<Call>, c: Call)
    requires DestroyedWithFailures(calls)
    requires c.Destroy? ==> HeldOn(calls, c.decoder) == FailedUnmaps(calls, c.decoder)
    ensures DestroyedWithFailures(calls + [c])
  {
    hide HeldOn, FailedUnmaps;
    var all := calls + [c];
    forall i | 0 <= i < |all| && all[i].Destroy?
      ensures HeldOn(all[..i], all[i].decoder) == FailedUnmaps(all[..i], all[i].decoder)
    {
      assert all[..i] == calls[..i];
      if i == |calls| {
        assert calls[..i] == calls;
      }
    }
  }

  /** Every disciplined call of an honest driver keeps the invariant, whether it fails or not. */
  lemma IssueKeeps(d: Driver, c: Call)
    requires DeviceInv(d) && HonestCall(d.calls, c) && !Issue(d, c).violated
    ensures DeviceInv(Issue(d, c))
  {
    hide DestroyedWithFailures, Replay;
    Unfold(d.calls, c);
    ReplayStep(d.calls, c);
    match c
    case Create(x) => CreateKeeps(d, x);
    case Map(x, s) => MapKeeps(d, x, s);
    case Unmap(x, s, ok) => UnmapKeeps(d, x, s, ok);
    case Destroy(x, ok) => DestroyKeeps(d, x, ok);
  }

  lemma ReplayStep(calls: seq<Call>, c: Call)
    ensures Replay(calls + [c]) == Issue(Replay(calls), c)
  {
    Unfold(calls, c);
  }

  lemma CreateKeeps(d: Driver, x: nat)
    requires DeviceInv(d) && x !in Alive(d.calls)
    ensures DeviceInv(Issue(d, Create(x)))
  {
    hide Replay, DestroyedWithFailures;
    var c := Create(x);
    Unfold(d.calls, c);
    ReplayStep(d.calls, c);
    OneMoreCall(d.calls, c);
  }

  lemma MapKeeps(d: Driver, x: nat, s: nat)
    requires DeviceInv(d) && s !in Held(d.calls) && x in d.live
    ensures DeviceInv(Issue(d, Map(x, s)))
  {
    hide Replay, DestroyedWithFailures;
    var c := Map(x, s);
    Unfold(d.calls, c);
    ReplayStep(d.calls, c);
    OneMoreCall(d.calls, c);
  }

  lemma UnmapKeeps(d: Driver, x: nat, s: nat, ok: bool)
    requires DeviceInv(d) && s in d.mapped && d.mapped[s] == x
    ensures DeviceInv(Issue(d, Unmap(x, s, ok)))
  {
    hide Replay, DestroyedWithFailures;
    var c := Unmap(x, s, ok);
    Unfold(d.calls, c);
    ReplayStep(d.calls, c);
    OneMoreCall(d.calls, c);
  }

  lemma DestroyKeeps(d: Driver, x: nat, ok: bool)
    requires DeviceInv(d) && x in d.live && forall s :: s in d.mapped ==> d.mapped[s] != x
    ensures DeviceInv(Issue(d, Destroy(x, ok)))
  {
    hide Replay, DestroyedWithFailures;
    var c := Destroy(x, ok);
    Unfold(d.calls, c);
    ReplayStep(d.calls, c);
    assert HeldOn(d.calls, x) == FailedUnmaps(d.calls, x);
    OneMoreCall(d.calls, c);
  }

  // ----- what a run without violation means for the list of calls -----

  predicate OfSurface(c: Call, surface: nat) {
    (c.Map? || c.Unmap?) && c.surface == surface
  }

  predicate DestroysDecoder(c: Call, decoder: nat) {
    c.Destroy? && c.decoder == decoder
  }

  /** Between the two calls nothing else happens to the surface, and its decoder is not destroyed. */
  predicate Quiet(calls: seq<Call>, i: nat, j: nat, decoder: nat, surface: nat)
    requires j <= |calls|
  {
    forall k :: i < k < j ==> !OfSurface(calls[k], surface) && !DestroysDecoder(calls[k], decoder)
  }

  predicate Undestroyed(calls: seq<Call>, i: nat, j: nat, decoder: nat)
    requires j <= |calls|
  {
    forall k :: i < k < j ==> !DestroysDecoder(calls[k], decoder)
  }

  /** The unmap at `j` answers the mapping at `i`. */
  predicate Returns(calls: seq<Call>, i: nat, j: nat) {
    && i < j < |calls| && calls[i].Map? && calls[j].Unmap?
    && calls[j].decoder == calls[i].decoder && calls[j].surface == calls[i].surface
    && Quiet(calls, i, j, calls[i].decoder, calls[i].surface)
  }

  /** The destroy at `j` answers the creation at `i`. */
  predicate Ends(calls: seq<Call>, i: nat, j: nat) {
    && i < j < |calls| && calls[i].Create? && calls[j].Destroy? && calls[j].decoder == calls[i].decoder
    && Undestroyed(calls, i, j, calls[i].decoder)
  }

  /** Every unmap answers a mapping and every destroy a creation. */
  ghost predicate Answering(calls: seq<Call>) {
    && (forall j :: 0 <= j < |calls| && calls[j].Unmap? ==> exists i :: Returns(calls, i, j))
    && (forall j :: 0 <= j < |calls| && calls[j].Destroy? ==> exists i :: Ends(calls, i, j))
  }

  /** And every mapping and every creation has been answered. */
  ghost predicate Answered(calls: seq<Call>) {
    && (forall i :: 0 <= i < |calls| && calls[i].Map? ==> exists j :: Returns(calls, i, j))
    && (forall i :: 0 <= i < |calls| && calls[i].Create? ==> exists j :: Ends(calls, i, j))
  }

  /** What is owed has been owed since its mapping or creation. */
  ghost predicate OwedSince(d: Driver) {
    && (forall s :: s in d.mapped ==>
          exists i :: 0 <= i < |d.calls| && d.calls[i] == Map(d.mapped[s], s)
                      && Quiet(d.calls, i, |d.calls|, d.mapped[s], s))
    && (forall x :: x in d.live ==>
          exists i :: 0 <= i < |d.calls| && d.calls[i] == Create(x) && Undestroyed(d.calls, i, |d.calls|, x))
  }

  /** Every mapping and creation is answered, or still owed. */
  ghost predicate AnsweredOrOwed(d: Driver) {
    && (forall i :: 0 <= i < |d.calls| && d.calls[i].Map? ==>
          (exists j :: Returns(d.calls, i, j))
          || (d.calls[i].surface in d.mapped && d.mapped[d.calls[i].surface] == d.calls[i].decoder
              && Quiet(d.calls, i, |d.calls|, d.calls[i].decoder, d.calls[i].surface)))
    && (forall i :: 0 <= i < |d.calls| && d.calls[i].Create? ==>
          (exists j :: Ends(d.calls, i, j))
          || (d.calls[i].decoder in d.live && Undestroyed(d.calls, i, |d.calls|, d.calls[i].decoder)))
  }

  lemma ReturnsExtends(calls: seq<Call>, c: Call, i: nat, j: nat)
    ensures Returns(calls, i, j) ==> Returns(calls + [c], i, j)
    ensures Ends(calls, i, j) ==> Ends(calls + [c], i, j)
  {
  }

  lemma OwedSinceStep(d: Driver, c: Call)
    requires OwedSince(d) && !Issue(d, c).violated
    ensures OwedSince(Issue(d, c))
  {
    var e := Issue(d, c);
    var n := |d.calls|;
    assert e.calls[n] == c;
    forall s | s in e.mapped
      ensures exists i :: 0 <= i < |e.calls| && e.calls[i] == Map(e.mapped[s], s)
                          && Quiet(e.calls, i, |e.calls|, e.mapped[s], s)
    {
      if c.Map? && c.surface == s {
        assert Quiet(e.calls, n, |e.calls|, e.mapped[s], s);
      } else {
        var i :| 0 <= i < n && d.calls[i] == Map(d.mapped[s], s) && Quiet(d.calls, i, n, d.mapped[s], s);
        assert e.calls[i] == d.calls[i] && Quiet(e.calls, i, |e.calls|, e.mapped[s], s);
      }
    }
    forall x | x in e.live
      ensures exists i :: 0 <= i < |e.calls| && e.calls[i] == Create(x) && Undestroyed(e.calls, i, |e.calls|, x)
    {
      if c == Create(x) {
        assert Undestroyed(e.calls, n, |e.calls|, x);
      } else {
        var i :| 0 <= i < n && d.calls[i] == Create(x) && Undestroyed(d.calls, i, n, x);
        assert e.calls[i] == d.calls[i] && Undestroyed(e.calls, i, |e.calls|, x);
      }
    }
  }

  lemma AnsweringStep(d: Driver, c: Call)
    requires OwedSince(d) && Answering(d.calls) && !Issue(d, c).violated
    ensures Answering(d.calls + [c])
  {
    var all, n := d.calls + [c], |d.calls|;
    forall j | 0 <= j < |all| && all[j].Unmap? ensures exists i :: Returns(all, i, j) {
      if j < n {
        var i :| Returns(d.calls, i, j);
        ReturnsExtends(d.calls, c, i, j);
      } else {
        var i :| 0 <= i < n && d.calls[i] == Map(d.mapped[c.surface], c.surface)
                 && Quiet(d.calls, i, n, d.mapped[c.surface], c.surface);
        assert all[i] == d.calls[i] && Returns(all, i, n);
      }
    }
    forall j | 0 <= j < |all| && all[j].Destroy? ensures exists i :: Ends(all, i, j) {
      if j < n {
        var i :| Ends(d.calls, i, j);
        ReturnsExtends(d.calls, c, i, j);
      } else {
        var i :| 0 <= i < n && d.calls[i] == Create(c.decoder) && Undestroyed(d.calls, i, n, c.decoder);
        assert all[i] == d.calls[i] && Ends(all, i, n);
      }
    }
  }

  lemma AnsweredStep(d: Driver, c: Call)
    requires AnsweredOrOwed(d) && !Issue(d, c).violated
    ensures AnsweredOrOwed(Issue(d, c))
  {
    var e, n := Issue(d, c), |d.calls|;
    forall i | 0 <= i < |e.calls| && e.calls[i].Map?
      ensures (exists j :: Returns(e.calls, i, j))
              || (e.calls[i].surface in e.mapped && e.mapped[e.calls[i].surface] == e.calls[i].decoder
                  && Quiet(e.calls, i, |e.calls|, e.calls[i].decoder, e.calls[i].surface))
    {
      if i < n {
        assert e.calls[i] == d.calls[i];
        if j :| Returns(d.calls, i, j) {
          ReturnsExtends(d.calls, c, i, j);
        } else if c.Unmap? && c.surface == e.calls[i].surface {
          assert Returns(e.calls, i, n);
        }
      }
    }
    forall i | 0 <= i < |e.calls| && e.calls[i].Create?
      ensures (exists j :: Ends(e.calls, i, j))
              || (e.calls[i].decoder in e.live && Undestroyed(e.calls, i, |e.calls|, e.calls[i].decoder))
    {
      if i < n {
        assert e.calls[i] == d.calls[i];
        if j :| Ends(d.calls, i, j) {
          ReturnsExtends(d.calls, c, i, j);
        } else if DestroysDecoder(c, e.calls[i].decoder) {
          assert Ends(e.calls, i, n);
        }
      }
    }
  }

  lemma {:induction false} Discipline(calls: seq<Call>)
    requires !Replay(calls).violated
    ensures Replay(calls).calls == calls && OwedSince(Replay(calls)) && Answering(calls)
            && AnsweredOrOwed(Replay(calls))
    decreases |calls|
  {
    hide OwedSince, Answering, AnsweredOrOwed;
    if calls == [] {
      NothingCalled();
    } else {
      var before, c := calls[..|calls| - 1], calls[|calls| - 1];
      assert calls == before + [c];
      Discipline(before);
      OwedSinceStep(Replay(before), c);
      AnsweringStep(Replay(before), c);
      AnsweredStep(Replay(before), c);
    }
  }

  lemma NothingCalled()
    ensures OwedSince(IDLE_DRIVER) && Answering([]) && AnsweredOrOwed(IDLE_DRIVER)
  {
  }

  /** Without a violation every unmap and destroy answers one mapping or creation, and when nothing is
      owed any more every mapping and creation has been answered. */
  lemma DisciplineMeans(d: Driver)
    requires DeviceInv(d) && !d.violated
    ensures Answering(d.calls)
    ensures d.live == {} && d.mapped == map[] ==> Answered(d.calls)
  {
    hide Replay, OwedSince, Answering, Returns, Ends, Quiet, Undestroyed, DestroyedWithFailures;
    Discipline(d.calls);
  }
}
