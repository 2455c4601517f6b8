/** Ownership of NVDEC surfaces (crates/nvidia/src/decoder.rs): the worker, the leases its consumers
    hold, the release channel, and a monitor beside the driver that records every misuse. */
module Surfaces {
  import opened Bytes
  import opened DriverCalls

  // ----- the worker -----

  /** `decoder` is `None` until the parser has announced a format. */
  datatype Generation = Generation(id: nat, decoder: Option<nat>, mapped: nat)

  datatype Retired = Retired(decoder: nat, mapped: nat)

  datatype Release = Release(generation: nat, surface: nat)

  datatype WorkerState = WorkerState(
    current: Option<Generation>, retired: map<nat, Retired>, nextGeneration: nat, inUse: nat, driver: Driver)

  datatype MapAnswer = MapError | Mapped(surface: nat, pitch: nat)

  /** What the driver and the parser answer during one command: `destroyed` for the decoder that a
      discontinuity may destroy first, `unmapped` for the surface that may come back without a pitch. */
  datatype Answers =
    Answers(destroyed: bool, parserCreated: bool, created: Option<nat>, parsed: bool, maps: seq<MapAnswer>,
            unmapped: bool)

  datatype Mapping = Mapping(state: WorkerState, leases: seq<Release>, ok: bool)

  function Acquired(w: WorkerState, g: Generation, surface: nat): WorkerState {
    w.(current := Some(g.(mapped := g.mapped + 1)), inUse := w.inUse + 1)
  }

  /** The display queue: every mapped surface becomes a lease; the first failure ends the loop. */
  function MapDisplays(w: WorkerState, maps: seq<MapAnswer>, unmapped: bool): Mapping
    requires w.current.Some? && w.current.value.decoder.Some?
    decreases |maps|
  {
    if maps == [] then Mapping(w, [], true)
    else
      var g := w.current.value;
      match maps[0]
      case MapError => Mapping(w, [], false)
      case Mapped(surface, pitch) =>
        if surface == 0 then Mapping(w, [], false)
        else
          var mapped := w.(driver := MapSurface(w.driver, g.decoder.value, surface));
          if pitch == 0 then
            Mapping(mapped.(driver := UnmapSurface(mapped.driver, g.decoder.value, surface, unmapped)), [], false)
          else
            var rest := MapDisplays(Acquired(mapped, g, surface), maps[1..], unmapped);
            Mapping(rest.state, [Release(g.id, surface)] + rest.leases, rest.ok)
  }

  function StartGeneration(w: WorkerState, parserCreated: bool): WorkerState {
    var numbered := w.(nextGeneration := w.nextGeneration + 1);
    if parserCreated then numbered.(current := Some(Generation(w.nextGeneration, None, 0))) else numbered
  }

  function RetireCurrent(w: WorkerState, destroyed: bool): WorkerState {
    if w.current.None? then w
    else
      var g := w.current.value;
      var without := w.(current := None);
      if g.decoder.None? then without
      else if g.mapped == 0 then without.(driver := DestroyDecoder(w.driver, g.decoder.value, destroyed))
      else without.(retired := w.retired[g.id := Retired(g.decoder.value, g.mapped)])
  }

  /** The parser call: its callback may create the decoder of the generation. */
  function ParseData(w: WorkerState, created: Option<nat>): WorkerState
    requires w.current.Some?
  {
    var g := w.current.value;
    if g.decoder.None? && created.Some?
    then w.(current := Some(g.(decoder := created)), driver := CreateDecoder(w.driver, created.value))
    else w
  }

  function ParseAndMap(w: WorkerState, answers: Answers): Mapping
    requires w.current.Some?
  {
    var parsed := ParseData(w, answers.created);
    if !answers.parsed then Mapping(parsed, [], false)
    else if answers.maps == [] then Mapping(parsed, [], true)
    else if parsed.current.value.decoder.None? then Mapping(parsed, [], false)
    else MapDisplays(parsed, answers.maps, answers.unmapped)
  }

  function Decode(w: WorkerState, discontinuity: bool, answers: Answers): Mapping {
    var ready := if discontinuity then StartGeneration(RetireCurrent(w, answers.destroyed), answers.parserCreated)
      else w;
    if discontinuity && !answers.parserCreated then Mapping(ready, [], false)
    else if ready.current.None? then Mapping(ready, [], false)
    else ParseAndMap(ready, answers)
  }

  function Flush(w: WorkerState, answers: Answers): Mapping {
    if w.current.None? then Mapping(w, [], true) else ParseAndMap(w, answers)
  }

  /** `None` stands for the release of an unknown generation, which the source only logs. */
  function ReleaseSurface(w: WorkerState, r: Release, unmapped: bool, destroyed: bool): Option<WorkerState> {
    if w.current.Some? && w.current.value.id == r.generation then
      var g := w.current.value;
      var driver := if g.decoder.Some? then UnmapSurface(w.driver, g.decoder.value, r.surface, unmapped)
                    else w.driver.(violated := true);
      Some(w.(current := Some(g.(mapped := SaturatingSub(g.mapped, 1))), inUse := SaturatingSub(w.inUse, 1),
              driver := driver))
    else if r.generation in w.retired then
      var retired := w.retired[r.generation];
      var left := SaturatingSub(retired.mapped, 1);
      var driver := UnmapSurface(w.driver, retired.decoder, r.surface, unmapped);
      var released := w.(inUse := SaturatingSub(w.inUse, 1));
      if left == 0
      then Some(released.(retired := w.retired - {r.generation},
                          driver := DestroyDecoder(driver, retired.decoder, destroyed)))
      else Some(released.(retired := w.retired[r.generation := retired.(mapped := left)], driver := driver))
    else None
  }

  // ----- the whole system -----

  /** Where the worker loop stands. */
  datatype Phase = Draining | Receiving | Exited

  /** `leases` maps every surface a consumer still holds to its generation. */
  datatype System = System(worker: WorkerState, phase: Phase, shuttingDown: bool,
                           leases: map<nat, nat>, channel: seq<Release>)

  datatype Action =
    | DropLease(surface: nat)
    | ReleaseNext(unmapped: bool, destroyed: bool)
    | DrainDone
    | DecodeCommand(discontinuity: bool, answers: Answers)
    | FlushCommand(answers: Answers)
    | ShutdownCommand(destroyed: bool)
    | Timeout

  /** The worker as started: one generation, no decoder yet. */
  const STARTED: System :=
    System(WorkerState(Some(Generation(1, None, 0)), map[], 2, 0, IDLE_DRIVER), Draining, false, map[], [])

  /** A mapped pointer is never handed out a second time. */
  predicate FreshMaps(mapped: set<nat>, maps: seq<MapAnswer>)
    decreases |maps|
  {
    maps == [] ||
    match maps[0]
    case MapError => true
    case Mapped(surface, pitch) =>
      surface == 0 || (surface !in mapped && (pitch == 0 || FreshMaps(mapped + {surface}, maps[1..])))
  }

  /** The driver's side of the contract, by what it really holds: neither a decoder that exists nor a
      surface that is mapped is handed out, whether or not the worker has tried to give it back. */
  predicate Honest(d: Driver, answers: Answers) {
    (answers.created.Some? ==> answers.created.value !in Alive(d.calls)) && FreshMaps(Held(d.calls).Keys, answers.maps)
  }

  /** A decoder that a discontinuity destroys first may be handed out again. */
  function DriverAtParse(w: WorkerState, discontinuity: bool, destroyed: bool): Driver {
    if discontinuity then RetireCurrent(w, destroyed).driver else w.driver
  }

  predicate Enabled(s: System, a: Action) {
    match a
    case DropLease(surface) => surface in s.leases
    case ReleaseNext(_, _) => s.phase.Draining? && s.channel != []
    case DrainDone => s.phase.Draining? && s.channel == []
    case DecodeCommand(discontinuity, answers) =>
      s.phase.Receiving? && (!s.shuttingDown ==>
                             Honest(DriverAtParse(s.worker, discontinuity, answers.destroyed), answers))
    case FlushCommand(answers) => s.phase.Receiving? && Honest(s.worker.driver, answers)
    case ShutdownCommand(_) => s.phase.Receiving?
    case Timeout => s.phase.Receiving?
  }

  function Lend(leases: map<nat, nat>, added: seq<Release>): map<nat, nat>
    decreases |added|
  {
    if added == [] then leases else Lend(leases[added[0].surface := added[0].generation], added[1..])
  }

  function Absorb(s: System, m: Mapping): System {
    s.(worker := m.state, phase := Draining, leases := Lend(s.leases, m.leases))
  }

  function Take(s: System, a: Action): System
    requires Enabled(s, a)
  {
    match a
    case DropLease(surface) =>
      var release := Release(s.leases[surface], surface);
      s.(leases := s.leases - {surface}, channel := if s.phase.Exited? then s.channel else s.channel + [release])
    case ReleaseNext(unmapped, destroyed) =>
      var released := ReleaseSurface(s.worker, s.channel[0], unmapped, destroyed);
      s.(worker := if released.Some? then released.value else s.worker, channel := s.channel[1..])
    case DrainDone =>
      if s.shuttingDown && s.worker.retired == map[] then s.(phase := Exited) else s.(phase := Receiving)
    case DecodeCommand(discontinuity, answers) =>
      if s.shuttingDown then s.(phase := Draining) else Absorb(s, Decode(s.worker, discontinuity, answers))
    case FlushCommand(answers) => Absorb(s, Flush(s.worker, answers))
    case ShutdownCommand(destroyed) =>
      if s.shuttingDown then s.(phase := Draining)
      else s.(worker := RetireCurrent(s.worker, destroyed), shuttingDown := true, phase := Draining)
    case Timeout => s.(phase := Draining)
  }

  predicate Run(s: System, actions: seq<Action>)
    decreases |actions|
  {
    actions == [] || (Enabled(s, actions[0]) && Run(Take(s, actions[0]), actions[1..]))
  }

  function After(s: System, actions: seq<Action>): System
    requires Run(s, actions)
    decreases |actions|
  {
    if actions == [] then s else After(Take(s, actions[0]), actions[1..])
  }

  // ----- the invariant -----

  /** The decoder that owns a generation's surfaces. */
  function DecoderOf(w: WorkerState, generation: nat): Option<nat> {
    if w.current.Some? && w.current.value.id == generation then w.current.value.decoder
    else if generation in w.retired then Some(w.retired[generation].decoder)
    else None
  }

  function MappedBy(w: WorkerState, generation: nat): nat {
    if w.current.Some? && w.current.value.id == generation then w.current.value.mapped
    else if generation in w.retired then w.retired[generation].mapped
    else 0
  }

  /** The surfaces mapped on one decoder. */
  function SurfacesOn(d: Driver, decoder: nat): set<nat> {
    set s | s in d.mapped && d.mapped[s] == decoder
  }

  ghost function SumRetired(retired: map<nat, Retired>): nat
    decreases |retired|
  {
    if retired == map[] then 0
    else
      var g :| g in retired;
      retired[g].mapped + SumRetired(retired - {g})
  }

  /** All surfaces the worker believes to be mapped. */
  ghost function TotalMapped(w: WorkerState): nat {
    (if w.current.Some? then w.current.value.mapped else 0) + SumRetired(w.retired)
  }

  /** Generations in use own distinct live decoders and no other decoder is alive. */
  ghost predicate OwnersInv(w: WorkerState) {
    && (w.current.Some? ==> w.current.value.id < w.nextGeneration && w.current.value.id !in w.retired)
    && (forall g :: g in w.retired ==> g < w.nextGeneration && w.retired[g].mapped > 0)
    && (forall g :: DecoderOf(w, g).Some? ==> DecoderOf(w, g).value in w.driver.live)
    && (forall g, h :: DecoderOf(w, g).Some? && DecoderOf(w, g) == DecoderOf(w, h) ==> g == h)
    && (forall d :: d in w.driver.live ==> exists g :: DecoderOf(w, g) == Some(d))
  }

  /** Every mapped surface lies on a live decoder, and the counters are exact. */
  ghost predicate CountsInv(w: WorkerState) {
    && (forall s :: s in w.driver.mapped ==> w.driver.mapped[s] in w.driver.live)
    && (forall g :: DecoderOf(w, g).Some? ==> |SurfacesOn(w.driver, DecoderOf(w, g).value)| == MappedBy(w, g))
    && (w.current.Some? && w.current.value.decoder.None? ==> w.current.value.mapped == 0)
    && w.inUse == TotalMapped(w)
  }

  ghost predicate WorkerInv(w: WorkerState) {
    !w.driver.violated && OwnersInv(w) && CountsInv(w)
  }

  predicate OnChannel(channel: seq<Release>, surface: nat) {
    exists i :: 0 <= i < |channel| && channel[i].surface == surface
  }

  /** Every mapped surface is owed exactly one release: by a lease or by the channel. */
  ghost predicate OwedInv(w: WorkerState, leases: map<nat, nat>, channel: seq<Release>) {
    && (forall s :: s in leases ==> s in w.driver.mapped && DecoderOf(w, leases[s]) == Some(w.driver.mapped[s])
                                    && !OnChannel(channel, s))
    && (forall i :: 0 <= i < |channel| ==> channel[i].surface in w.driver.mapped
                                           && DecoderOf(w, channel[i].generation) ==
                                              Some(w.driver.mapped[channel[i].surface]))
    && (forall i, j :: 0 <= i < j < |channel| ==> channel[i].surface != channel[j].surface)
    && (forall s :: s in w.driver.mapped ==> s in leases || OnChannel(channel, s))
  }

  ghost predicate SystemInv(s: System) {
    && WorkerInv(s.worker) && DeviceInv(s.worker.driver)
    && OwedInv(s.worker, s.leases, s.channel)
    && (s.shuttingDown ==> s.worker.current.None?)
    && (s.phase.Exited? ==> s.shuttingDown && s.worker.retired == map[])
  }

  // ----- counting -----

  lemma {:induction false} SumRemove(retired: map<nat, Retired>, g: nat)
    requires g in retired
    ensures SumRetired(retired) == retired[g].mapped + SumRetired(retired - {g})
    decreases |retired|
  {
    var h :| h in retired && SumRetired(retired) == retired[h].mapped + SumRetired(retired - {h});
    if h != g {
      SumRemove(retired - {h}, g);
      SumRemove(retired - {g}, h);
      assert retired - {h} - {g} == retired - {g} - {h};
    }
  }

  lemma SumAdd(retired: map<nat, Retired>, g: nat, r: Retired)
    requires g !in retired
    ensures SumRetired(retired[g := r]) == SumRetired(retired) + r.mapped
  {
    SumRemove(retired[g := r], g);
    assert retired[g := r] - {g} == retired;
  }

  lemma SumReplace(retired: map<nat, Retired>, g: nat, r: Retired)
    requires g in retired
    ensures SumRetired(retired[g := r]) + retired[g].mapped == SumRetired(retired) + r.mapped
  {
    SumRemove(retired, g);
    SumAdd(retired - {g}, g, r);
    assert (retired - {g})[g := r] == retired[g := r];
  }

  lemma MapOn(d: Driver, decoder: nat, surface: nat, other: nat)
    requires surface !in d.mapped
    ensures var after := MapSurface(d, decoder, surface);
            && SurfacesOn(after, decoder) == SurfacesOn(d, decoder) + {surface} && surface !in SurfacesOn(d, decoder)
            && (other != decoder ==> SurfacesOn(after, other) == SurfacesOn(d, other))
  {
  }

  lemma UnmapOn(d: Driver, decoder: nat, surface: nat, ok: bool, other: nat)
    requires surface in d.mapped && d.mapped[surface] == decoder
    ensures var after := UnmapSurface(d, decoder, surface, ok);
            && SurfacesOn(after, decoder) == SurfacesOn(d, decoder) - {surface} && surface in SurfacesOn(d, decoder)
            && (other != decoder ==> SurfacesOn(after, other) == SurfacesOn(d, other))
  {
  }

  // ----- the worker's operations -----

  lemma StartKeeps(w: WorkerState, parserCreated: bool)
    requires WorkerInv(w) && w.current.None?
    ensures WorkerInv(StartGeneration(w, parserCreated))
  {
    var after := StartGeneration(w, parserCreated);
    assert forall g :: DecoderOf(after, g) == DecoderOf(w, g);
  }

  lemma RetireKeeps(w: WorkerState, destroyed: bool)
    requires WorkerInv(w)
    ensures WorkerInv(RetireCurrent(w, destroyed)) && RetireCurrent(w, destroyed).current.None?
    ensures RetireCurrent(w, destroyed).driver.mapped == w.driver.mapped
    ensures forall g :: MappedBy(w, g) > 0 ==> DecoderOf(RetireCurrent(w, destroyed), g) == DecoderOf(w, g)
  {
    var after := RetireCurrent(w, destroyed);
    if w.current.Some? {
      var g := w.current.value;
      if g.decoder.None? {
        assert forall h :: DecoderOf(after, h) == DecoderOf(w, h);
      } else if g.mapped == 0 {
        RetireEmpty(w, destroyed);
      } else {
        SumAdd(w.retired, g.id, Retired(g.decoder.value, g.mapped));
        assert forall h :: DecoderOf(after, h) == DecoderOf(w, h) && MappedBy(after, h) == MappedBy(w, h);
      }
    }
  }

  /** A decoder that owes no surface is passed to destroy at once. */
  lemma RetireEmpty(w: WorkerState, destroyed: bool)
    requires WorkerInv(w) && w.current.Some? && w.current.value.decoder.Some? && w.current.value.mapped == 0
    ensures WorkerInv(RetireCurrent(w, destroyed))
    ensures forall g :: MappedBy(w, g) > 0 ==> DecoderOf(RetireCurrent(w, destroyed), g) == DecoderOf(w, g)
  {
    var after, g := RetireCurrent(w, destroyed), w.current.value;
    assert DecoderOf(w, g.id) == g.decoder;
    assert SurfacesOn(w.driver, g.decoder.value) == {};
    forall s | s in w.driver.mapped ensures w.driver.mapped[s] != g.decoder.value {
      assert s in SurfacesOn(w.driver, w.driver.mapped[s]);
    }
    assert forall h :: h != g.id ==> DecoderOf(after, h) == DecoderOf(w, h);
    forall d | d in w.driver.live ensures SurfacesOn(after.driver, d) == SurfacesOn(w.driver, d) {}
  }

  lemma ParseKeeps(w: WorkerState, created: Option<nat>)
    requires WorkerInv(w) && w.current.Some? && (created.Some? ==> created.value !in w.driver.live)
    ensures WorkerInv(ParseData(w, created))
    ensures ParseData(w, created).driver.mapped == w.driver.mapped
    ensures forall g :: DecoderOf(w, g).Some? ==> DecoderOf(ParseData(w, created), g) == DecoderOf(w, g)
  {
    var g := w.current.value;
    if g.decoder.None? && created.Some? {
      var after := ParseData(w, created);
      assert DecoderOf(after, g.id) == created;
      assert forall h :: h != g.id ==> DecoderOf(after, h) == DecoderOf(w, h) && MappedBy(after, h) == MappedBy(w, h);
      assert SurfacesOn(after.driver, created.value) == {};
      forall d ensures SurfacesOn(after.driver, d) == SurfacesOn(w.driver, d) {}
    }
  }

  /** One more surface on the current decoder. */
  lemma AcquireKeeps(w: WorkerState, surface: nat)
    requires WorkerInv(w) && w.current.Some? && w.current.value.decoder.Some? && surface !in w.driver.mapped
    ensures var g := w.current.value;
            var after := Acquired(w.(driver := MapSurface(w.driver, g.decoder.value, surface)), g, surface);
            WorkerInv(after) && forall h :: DecoderOf(after, h) == DecoderOf(w, h)
  {
    var g := w.current.value;
    var after := Acquired(w.(driver := MapSurface(w.driver, g.decoder.value, surface)), g, surface);
    assert DecoderOf(w, g.id) == g.decoder;
    assert forall h :: DecoderOf(after, h) == DecoderOf(w, h);
    forall h | DecoderOf(after, h).Some?
      ensures |SurfacesOn(after.driver, DecoderOf(after, h).value)| == MappedBy(after, h)
    {
      MapOn(w.driver, g.decoder.value, surface, DecoderOf(w, h).value);
    }
  }

  /** A surface that comes back without a pitch is given back at once, and nothing more is owed. */
  lemma BounceKeeps(w: WorkerState, decoder: nat, surface: nat, ok: bool)
    requires decoder in w.driver.live && surface !in w.driver.mapped
    ensures var bounced := UnmapSurface(MapSurface(w.driver, decoder, surface), decoder, surface, ok);
            && bounced.live == w.driver.live && bounced.mapped == w.driver.mapped
               && bounced.violated == w.driver.violated
  {
    assert w.driver.mapped[surface := decoder] - {surface} == w.driver.mapped;
  }

  /** The invariants read what is owed, not the calls. */
  lemma SameOwed(w: WorkerState, driver: Driver, leases: map<nat, nat>, channel: seq<Release>)
    requires WorkerInv(w) && OwedInv(w, leases, channel)
    requires driver.live == w.driver.live && driver.mapped == w.driver.mapped && driver.violated == w.driver.violated
    ensures WorkerInv(w.(driver := driver)) && OwedInv(w.(driver := driver), leases, channel)
  {
    var after := w.(driver := driver);
    assert forall g :: DecoderOf(after, g) == DecoderOf(w, g) && MappedBy(after, g) == MappedBy(w, g);
    assert forall d :: SurfacesOn(driver, d) == SurfacesOn(w.driver, d);
  }

  lemma LeaseSurfaces(w: WorkerState, decoder: nat, surface: nat)
    ensures MapSurface(w.driver, decoder, surface).mapped.Keys == w.driver.mapped.Keys + {surface}
  {
  }

  /** Mapping the display queue: the new surfaces are exactly the leases handed out. */
  lemma {:induction false} MapDisplaysKeeps(w: WorkerState, maps: seq<MapAnswer>, unmapped: bool, leases: map<nat, nat>,
                                            channel: seq<Release>)
    requires WorkerInv(w) && w.current.Some? && w.current.value.decoder.Some? && FreshMaps(w.driver.mapped.Keys, maps)
    requires OwedInv(w, leases, channel)
    ensures var m := MapDisplays(w, maps, unmapped);
            WorkerInv(m.state) && OwedInv(m.state, Lend(leases, m.leases), channel)
    decreases |maps|
  {
    if maps != [] && maps[0].Mapped? && maps[0].surface != 0 {
      var g, surface := w.current.value, maps[0].surface;
      if maps[0].pitch == 0 {
        assert DecoderOf(w, g.id) == g.decoder;
        BounceKeeps(w, g.decoder.value, surface, unmapped);
        SameOwed(w, UnmapSurface(MapSurface(w.driver, g.decoder.value, surface), g.decoder.value, surface, unmapped),
                 leases, channel);
      } else {
        var after := Acquired(w.(driver := MapSurface(w.driver, g.decoder.value, surface)), g, surface);
        AcquireKeeps(w, surface);
        LeaseSurfaces(w, g.decoder.value, surface);
        LendOne(w, after, surface, leases, channel);
        MapDisplaysKeeps(after, maps[1..], unmapped, leases[surface := g.id], channel);
        var m, rest := MapDisplays(w, maps, unmapped), MapDisplays(after, maps[1..], unmapped);
        assert m.leases[0] == Release(g.id, surface) && m.leases[1..] == rest.leases;
      }
    }
  }

  lemma LendOne(w: WorkerState, after: WorkerState, surface: nat, leases: map<nat, nat>, channel: seq<Release>)
    requires w.current.Some? && w.current.value.decoder.Some? && surface !in w.driver.mapped
    requires OwedInv(w, leases, channel)
    requires after.driver.mapped == w.driver.mapped[surface := w.current.value.decoder.value]
    requires forall h :: DecoderOf(after, h) == DecoderOf(w, h)
    ensures OwedInv(after, leases[surface := w.current.value.id], channel)
  {
    assert !OnChannel(channel, surface);
  }

  lemma {:induction false} OwedCarries(w: WorkerState, after: WorkerState, leases: map<nat, nat>, channel: seq<Release>)
    requires OwedInv(w, leases, channel)
    requires after.driver.mapped == w.driver.mapped
    requires forall g :: DecoderOf(w, g).Some? && MappedBy(w, g) > 0 ==> DecoderOf(after, g) == DecoderOf(w, g)
    requires WorkerInv(w)
    ensures OwedInv(after, leases, channel)
  {
    forall g, s | s in w.driver.mapped && DecoderOf(w, g) == Some(w.driver.mapped[s])
      ensures DecoderOf(after, g) == DecoderOf(w, g)
    {
      assert s in SurfacesOn(w.driver, w.driver.mapped[s]);
    }
  }

  lemma {:induction false} FreshAmongFewer(fewer: set<nat>, all: set<nat>, maps: seq<MapAnswer>)
    requires fewer <= all && FreshMaps(all, maps)
    ensures FreshMaps(fewer, maps)
    decreases |maps|
  {
    if maps != [] && maps[0].Mapped? && maps[0].surface != 0 && maps[0].pitch != 0 {
      FreshAmongFewer(fewer + {maps[0].surface}, all + {maps[0].surface}, maps[1..]);
    }
  }

  /** What an honest driver hands out is new to the worker too. */
  lemma HonestIsNew(d: Driver, answers: Answers)
    requires DeviceInv(d) && Honest(d, answers)
    ensures (answers.created.Some? ==> answers.created.value !in d.live) && FreshMaps(d.mapped.Keys, answers.maps)
  {
    hide FreshMaps;
    FreshAmongFewer(d.mapped.Keys, Held(d.calls).Keys, answers.maps);
  }

  lemma ParseAndMapKeeps(w: WorkerState, answers: Answers, leases: map<nat, nat>, channel: seq<Release>)
    requires WorkerInv(w) && w.current.Some? && OwedInv(w, leases, channel)
    requires DeviceInv(w.driver) && Honest(w.driver, answers)
    ensures var m := ParseAndMap(w, answers);
            WorkerInv(m.state) && DeviceInv(m.state.driver) && OwedInv(m.state, Lend(leases, m.leases), channel)
  {
    hide WorkerInv, OwedInv, FreshMaps, DeviceInv, Honest;
    HonestIsNew(w.driver, answers);
    ParseKeeps(w, answers.created);
    ParseDevice(w, answers);
    var parsed := ParseData(w, answers.created);
    OwedCarries(w, parsed, leases, channel);
    if answers.parsed && answers.maps != [] && parsed.current.value.decoder.Some? {
      MapDisplaysKeeps(parsed, answers.maps, answers.unmapped, leases, channel);
      MapDisplaysDevice(parsed, answers.maps, answers.unmapped);
    }
  }

  lemma ParseDevice(w: WorkerState, answers: Answers)
    requires WorkerInv(w) && w.current.Some? && DeviceInv(w.driver) && Honest(w.driver, answers)
    ensures var parsed := ParseData(w, answers.created);
            DeviceInv(parsed.driver) && FreshMaps(Held(parsed.driver.calls).Keys, answers.maps)
  {
    hide DeviceInv, FreshMaps, OwnersInv, CountsInv;
    if w.current.value.decoder.None? && answers.created.Some? {
      IssueKeeps(w.driver, Create(answers.created.value));
      Unfold(w.driver.calls, Create(answers.created.value));
    }
  }

  /** Mapping keeps the account of what the driver holds, a failed bounce included. */
  lemma {:induction false} MapDisplaysDevice(w: WorkerState, maps: seq<MapAnswer>, unmapped: bool)
    requires WorkerInv(w) && w.current.Some? && w.current.value.decoder.Some?
    requires DeviceInv(w.driver) && FreshMaps(Held(w.driver.calls).Keys, maps)
    ensures DeviceInv(MapDisplays(w, maps, unmapped).state.driver)
    decreases |maps|
  {
    hide WorkerInv, DeviceInv;
    if maps != [] && maps[0].Mapped? && maps[0].surface != 0 {
      var decoder, surface := w.current.value.decoder.value, maps[0].surface;
      SurfaceIsNew(w, surface);
      var mapped := MapSurface(w.driver, decoder, surface);
      IssueKeeps(w.driver, Map(decoder, surface));
      Unfold(w.driver.calls, Map(decoder, surface));
      if maps[0].pitch == 0 {
        IssueKeeps(mapped, Unmap(decoder, surface, unmapped));
      } else {
        AcquireKeeps(w, surface);
        assert Held(mapped.calls).Keys == Held(w.driver.calls).Keys + {surface};
        MapDisplaysDevice(Acquired(w.(driver := mapped), w.current.value, surface), maps[1..], unmapped);
      }
    }
  }

  lemma SurfaceIsNew(w: WorkerState, surface: nat)
    requires WorkerInv(w) && w.current.Some? && w.current.value.decoder.Some? && DeviceInv(w.driver)
    requires surface !in Held(w.driver.calls)
    ensures surface !in w.driver.mapped && w.current.value.decoder.value in w.driver.live && !w.driver.violated
  {
    assert DecoderOf(w, w.current.value.id) == w.current.value.decoder;
  }

  lemma RetireDevice(w: WorkerState, destroyed: bool)
    requires WorkerInv(w) && DeviceInv(w.driver)
    ensures DeviceInv(RetireCurrent(w, destroyed).driver)
  {
    RetireKeeps(w, destroyed);
    RetireIssues(w, destroyed);
  }

  lemma RetireIssues(w: WorkerState, destroyed: bool)
    requires DeviceInv(w.driver) && !RetireCurrent(w, destroyed).driver.violated
    ensures DeviceInv(RetireCurrent(w, destroyed).driver)
  {
    hide DeviceInv;
    if w.current.Some? && w.current.value.decoder.Some? && w.current.value.mapped == 0 {
      IssueKeeps(w.driver, Destroy(w.current.value.decoder.value, destroyed));
    }
  }

  lemma ReleaseDevice(w: WorkerState, r: Release, unmapped: bool, destroyed: bool)
    requires DeviceInv(w.driver) && !w.driver.violated && ReleaseSurface(w, r, unmapped, destroyed).Some?
    requires !ReleaseSurface(w, r, unmapped, destroyed).value.driver.violated
    ensures DeviceInv(ReleaseSurface(w, r, unmapped, destroyed).value.driver)
  {
    hide DeviceInv;
    var decoder :=
      if w.current.Some? && w.current.value.id == r.generation then w.current.value.decoder
      else Some(w.retired[r.generation].decoder);
    if decoder.Some? {
      var driver := UnmapSurface(w.driver, decoder.value, r.surface, unmapped);
      IssueKeeps(w.driver, Unmap(decoder.value, r.surface, unmapped));
      if ReleaseSurface(w, r, unmapped, destroyed).value.driver != driver {
        IssueKeeps(driver, Destroy(decoder.value, destroyed));
      }
    }
  }

  lemma DecodeKeeps(w: WorkerState, discontinuity: bool, answers: Answers, leases: map<nat, nat>, channel: seq<Release>)
    requires WorkerInv(w) && DeviceInv(w.driver) && OwedInv(w, leases, channel)
    requires Honest(DriverAtParse(w, discontinuity, answers.destroyed), answers)
    ensures var m := Decode(w, discontinuity, answers);
            WorkerInv(m.state) && DeviceInv(m.state.driver) && OwedInv(m.state, Lend(leases, m.leases), channel)
  {
    hide WorkerInv, OwedInv, Honest, RetireCurrent, ParseAndMap, DeviceInv;
    var ready := w;
    if discontinuity {
      var retired := RetireCurrent(w, answers.destroyed);
      RetireKeeps(w, answers.destroyed);
      RetireDevice(w, answers.destroyed);
      OwedCarries(w, retired, leases, channel);
      ready := StartGeneration(retired, answers.parserCreated);
      StartKeeps(retired, answers.parserCreated);
      StartDecoders(retired, answers.parserCreated);
      OwedCarries(retired, ready, leases, channel);
    }
    if (discontinuity ==> answers.parserCreated) && ready.current.Some? {
      ParseAndMapKeeps(ready, answers, leases, channel);
    }
  }

  lemma StartDecoders(w: WorkerState, parserCreated: bool)
    requires w.current.None? && WorkerInv(w)
    ensures forall g :: DecoderOf(StartGeneration(w, parserCreated), g) == DecoderOf(w, g)
  {
  }

  /** A release that is owed is known, and unmaps its surface on the decoder that mapped it. */
  lemma ReleaseKeeps(w: WorkerState, r: Release, ok: bool, destroyed: bool)
    requires WorkerInv(w) && r.surface in w.driver.mapped
    requires DecoderOf(w, r.generation) == Some(w.driver.mapped[r.surface])
    ensures ReleaseSurface(w, r, ok, destroyed).Some?
    ensures var after := ReleaseSurface(w, r, ok, destroyed).value;
            && WorkerInv(after) && after.driver.mapped == w.driver.mapped - {r.surface}
            && (after.current.None? <==> w.current.None?)
            && forall g :: g != r.generation ==> DecoderOf(after, g) == DecoderOf(w, g)
    ensures var after := ReleaseSurface(w, r, ok, destroyed).value;
            DecoderOf(after, r.generation) == DecoderOf(w, r.generation)
            || SurfacesOn(after.driver, w.driver.mapped[r.surface]) == {}
  {
    var decoder := w.driver.mapped[r.surface];
    var after := ReleaseSurface(w, r, ok, destroyed).value;
    var unmapped := UnmapSurface(w.driver, decoder, r.surface, ok);
    UnmapOn(w.driver, decoder, r.surface, ok, decoder);
    assert r.surface in SurfacesOn(w.driver, decoder);
    assert MappedBy(w, r.generation) > 0;
    assert |SurfacesOn(unmapped, decoder)| == MappedBy(w, r.generation) - 1;
    if w.current.Some? && w.current.value.id == r.generation {
      ReleaseCurrent(w, r, ok, destroyed, after);
    } else {
      ReleaseRetired(w, r, ok, destroyed, after);
    }
  }

  lemma ReleaseCurrent(w: WorkerState, r: Release, ok: bool, destroyed: bool, after: WorkerState)
    requires WorkerInv(w) && r.surface in w.driver.mapped
    requires w.current.Some? && w.current.value.id == r.generation && w.current.value.mapped > 0
    requires w.current.value.decoder == Some(w.driver.mapped[r.surface])
    requires ReleaseSurface(w, r, ok, destroyed) == Some(after)
    ensures WorkerInv(after) && forall g :: DecoderOf(after, g) == DecoderOf(w, g)
  {
    assert forall g :: DecoderOf(after, g) == DecoderOf(w, g);
    assert DecoderOf(w, r.generation) == w.current.value.decoder;
    forall h | DecoderOf(after, h).Some?
      ensures |SurfacesOn(after.driver, DecoderOf(after, h).value)| == MappedBy(after, h)
    {
      UnmapOn(w.driver, w.driver.mapped[r.surface], r.surface, ok, DecoderOf(w, h).value);
    }
  }

  lemma ReleaseRetired(w: WorkerState, r: Release, ok: bool, destroyed: bool, after: WorkerState)
    requires WorkerInv(w) && r.surface in w.driver.mapped
    requires !(w.current.Some? && w.current.value.id == r.generation)
    requires r.generation in w.retired && w.retired[r.generation].decoder == w.driver.mapped[r.surface]
    requires ReleaseSurface(w, r, ok, destroyed) == Some(after)
    ensures WorkerInv(after)
    ensures forall g :: g != r.generation ==> DecoderOf(after, g) == DecoderOf(w, g)
    ensures DecoderOf(after, r.generation) == DecoderOf(w, r.generation)
            || SurfacesOn(after.driver, w.driver.mapped[r.surface]) == {}
  {
    var decoder, retired := w.driver.mapped[r.surface], w.retired[r.generation];
    var unmapped := UnmapSurface(w.driver, decoder, r.surface, ok);
    assert DecoderOf(w, r.generation) == Some(decoder);
    UnmapOn(w.driver, decoder, r.surface, ok, decoder);
    assert |SurfacesOn(unmapped, decoder)| == retired.mapped - 1;
    assert forall g :: g != r.generation ==>
           DecoderOf(after, g) == DecoderOf(w, g) && MappedBy(after, g) == MappedBy(w, g);
    forall h | h != r.generation && DecoderOf(w, h).Some?
      ensures |SurfacesOn(unmapped, DecoderOf(w, h).value)| == MappedBy(w, h)
    {
      UnmapOn(w.driver, decoder, r.surface, ok, DecoderOf(w, h).value);
    }
    if retired.mapped == 1 {
      LastReleased(w, r, unmapped, destroyed, after);
    } else {
      OneReleased(w, r, unmapped, after);
    }
  }

  /** The counts of the other generations after an unmap, carried to the new state. */
  ghost predicate OthersCounted(w: WorkerState, generation: nat, unmapped: Driver) {
    forall h :: h != generation && DecoderOf(w, h).Some? ==>
      |SurfacesOn(unmapped, DecoderOf(w, h).value)| == MappedBy(w, h)
  }

  lemma OneReleased(w: WorkerState, r: Release, unmapped: Driver, after: WorkerState)
    requires WorkerInv(w) && !(w.current.Some? && w.current.value.id == r.generation) && r.generation in w.retired
    requires var retired := w.retired[r.generation];
             && retired.mapped > 1 && |SurfacesOn(unmapped, retired.decoder)| == retired.mapped - 1
             && after == w.(inUse := w.inUse - 1,
                            retired := w.retired[r.generation := retired.(mapped := retired.mapped - 1)],
                            driver := unmapped)
    requires r.surface in w.driver.mapped
    requires unmapped == w.driver.(mapped := w.driver.mapped - {r.surface}, calls := unmapped.calls)
    requires OthersCounted(w, r.generation, unmapped)
    ensures WorkerInv(after) && DecoderOf(after, r.generation) == DecoderOf(w, r.generation)
  {
    hide SurfacesOn;
    var retired := w.retired[r.generation];
    SumReplace(w.retired, r.generation, retired.(mapped := retired.mapped - 1));
    assert forall g :: DecoderOf(after, g) == DecoderOf(w, g);
    assert forall g :: g != r.generation ==> MappedBy(after, g) == MappedBy(w, g);
  }

  lemma LastReleased(w: WorkerState, r: Release, unmapped: Driver, destroyed: bool, after: WorkerState)
    requires WorkerInv(w) && !(w.current.Some? && w.current.value.id == r.generation) && r.generation in w.retired
    requires var retired := w.retired[r.generation];
             && retired.mapped == 1 && |SurfacesOn(unmapped, retired.decoder)| == 0
             && after == w.(inUse := w.inUse - 1, retired := w.retired - {r.generation},
                            driver := DestroyDecoder(unmapped, retired.decoder, destroyed))
    requires r.surface in w.driver.mapped
    requires unmapped == w.driver.(mapped := w.driver.mapped - {r.surface}, calls := unmapped.calls)
    requires OthersCounted(w, r.generation, unmapped)
    ensures WorkerInv(after) && SurfacesOn(after.driver, w.retired[r.generation].decoder) == {}
  {
    var decoder := w.retired[r.generation].decoder;
    assert DecoderOf(w, r.generation) == Some(decoder);
    assert forall g :: g != r.generation ==> DecoderOf(after, g) == DecoderOf(w, g);
    assert decoder in w.driver.live;
    forall s | s in unmapped.mapped ensures unmapped.mapped[s] != decoder {
      assert s in SurfacesOn(unmapped, unmapped.mapped[s]);
    }
    LastOwners(w, r.generation, after);
    LastCounts(w, r, unmapped, after);
  }

  lemma LastOwners(w: WorkerState, generation: nat, after: WorkerState)
    requires OwnersInv(w) && !(w.current.Some? && w.current.value.id == generation) && generation in w.retired
    requires after == w.(inUse := after.inUse, retired := w.retired - {generation}, driver := after.driver)
    requires after.driver.live == w.driver.live - {w.retired[generation].decoder}
    ensures OwnersInv(after)
  {
    var decoder := w.retired[generation].decoder;
    assert DecoderOf(w, generation) == Some(decoder);
    assert forall g :: g != generation ==> DecoderOf(after, g) == DecoderOf(w, g);
    forall d | d in after.driver.live ensures exists g :: DecoderOf(after, g) == Some(d) {
      var g :| DecoderOf(w, g) == Some(d);
      assert DecoderOf(after, g) == Some(d);
    }
  }

  lemma LastCounts(w: WorkerState, r: Release, unmapped: Driver, after: WorkerState)
    requires CountsInv(w) && !(w.current.Some? && w.current.value.id == r.generation) && r.generation in w.retired
    requires w.retired[r.generation].mapped == 1
    requires after == w.(inUse := after.inUse, retired := w.retired - {r.generation}, driver := after.driver)
    requires after.inUse + 1 == w.inUse
    requires after.driver.mapped == unmapped.mapped
    requires after.driver.live == w.driver.live - {w.retired[r.generation].decoder}
    requires forall s :: s in unmapped.mapped ==> s in w.driver.mapped && unmapped.mapped[s] == w.driver.mapped[s]
                                                  && unmapped.mapped[s] != w.retired[r.generation].decoder
    requires OthersCounted(w, r.generation, unmapped)
    ensures CountsInv(after) && SurfacesOn(after.driver, w.retired[r.generation].decoder) == {}
  {
    SumRemove(w.retired, r.generation);
    assert forall g :: g != r.generation ==>
           DecoderOf(after, g) == DecoderOf(w, g) && MappedBy(after, g) == MappedBy(w, g);
    forall d ensures SurfacesOn(after.driver, d) == SurfacesOn(unmapped, d) {}
  }

  /** Taking the head of the channel leaves everything else owed. */
  lemma ReleaseOwed(w: WorkerState, leases: map<nat, nat>, channel: seq<Release>, ok: bool, destroyed: bool)
    requires WorkerInv(w) && OwedInv(w, leases, channel) && channel != []
    ensures ReleaseSurface(w, channel[0], ok, destroyed).Some?
    ensures var after := ReleaseSurface(w, channel[0], ok, destroyed).value;
            WorkerInv(after) && OwedInv(after, leases, channel[1..]) && (after.current.None? <==> w.current.None?)
  {
    hide WorkerInv, ReleaseSurface;
    var r := channel[0];
    ReleaseKeeps(w, r, ok, destroyed);
    var after := ReleaseSurface(w, r, ok, destroyed).value;
    forall g, s | s in after.driver.mapped && DecoderOf(w, g) == Some(w.driver.mapped[s])
      ensures DecoderOf(after, g) == DecoderOf(w, g)
    {
      assert s in SurfacesOn(after.driver, after.driver.mapped[s]);
    }
    HeadOwed(w, after, leases, channel);
  }

  lemma HeadOwed(w: WorkerState, after: WorkerState, leases: map<nat, nat>, channel: seq<Release>)
    requires OwedInv(w, leases, channel) && channel != []
    requires after.driver.mapped == w.driver.mapped - {channel[0].surface}
    requires forall g, s :: s in after.driver.mapped && DecoderOf(w, g) == Some(w.driver.mapped[s]) ==>
               DecoderOf(after, g) == DecoderOf(w, g)
    ensures OwedInv(after, leases, channel[1..])
  {
    hide DecoderOf;
    var rest := channel[1..];
    assert OnChannel(channel, channel[0].surface);
    forall s | s in leases ensures !OnChannel(rest, s) {
      forall i | 0 <= i < |rest| ensures rest[i].surface != s {
        assert rest[i] == channel[i + 1] && !OnChannel(channel, s);
      }
    }
    forall s | s in after.driver.mapped ensures s in leases || OnChannel(rest, s) {
      if s !in leases {
        var i :| 0 <= i < |channel| && channel[i].surface == s;
        assert rest[i - 1].surface == s;
      }
    }
  }

  /** Dropping a lease moves its debt to the channel. */
  lemma DropOwed(w: WorkerState, leases: map<nat, nat>, channel: seq<Release>, surface: nat)
    requires OwedInv(w, leases, channel) && surface in leases
    ensures OwedInv(w, leases - {surface}, channel + [Release(leases[surface], surface)])
  {
    var after := channel + [Release(leases[surface], surface)];
    assert after[|channel|].surface == surface;
    forall s | s in w.driver.mapped ensures s in leases - {surface} || OnChannel(after, s) {
      if s != surface && s !in leases {
        var i :| 0 <= i < |channel| && channel[i].surface == s;
        assert after[i].surface == s;
      }
    }
    forall i | 0 <= i < |channel| ensures channel[i].surface != surface {
      assert !OnChannel(channel, surface);
    }
  }

  // ----- every run -----

  lemma TakeKeeps(s: System, a: Action)
    requires SystemInv(s) && Enabled(s, a)
    ensures SystemInv(Take(s, a))
  {
    hide WorkerInv, OwedInv, ReleaseSurface, RetireCurrent, Decode, Flush, Honest, DeviceInv;
    match a
    case DropLease(surface) =>
      DropOwed(s.worker, s.leases, s.channel, surface);
      if s.phase.Exited? {
        NothingOwedAtExit(s);
      }
    case ReleaseNext(unmapped, destroyed) =>
      ReleaseOwed(s.worker, s.leases, s.channel, unmapped, destroyed);
      Undisturbed(s.worker, ReleaseSurface(s.worker, s.channel[0], unmapped, destroyed).value);
      ReleaseDevice(s.worker, s.channel[0], unmapped, destroyed);
    case DrainDone =>
    case DecodeCommand(discontinuity, answers) =>
      if !s.shuttingDown {
        DecodeKeeps(s.worker, discontinuity, answers, s.leases, s.channel);
      }
    case FlushCommand(answers) =>
      FlushKeeps(s, answers);
    case ShutdownCommand(destroyed) =>
      if !s.shuttingDown {
        RetireKeeps(s.worker, destroyed);
        RetireDevice(s.worker, destroyed);
        OwedCarries(s.worker, RetireCurrent(s.worker, destroyed), s.leases, s.channel);
      }
    case Timeout =>
  }

  lemma Undisturbed(w: WorkerState, after: WorkerState)
    requires WorkerInv(w) && WorkerInv(after)
    ensures !w.driver.violated && !after.driver.violated
  {
  }

  lemma FlushKeeps(s: System, answers: Answers)
    requires SystemInv(s) && Honest(s.worker.driver, answers)
    ensures var m := Flush(s.worker, answers);
            && WorkerInv(m.state) && DeviceInv(m.state.driver) && OwedInv(m.state, Lend(s.leases, m.leases), s.channel)
            && (s.worker.current.None? ==> m == Mapping(s.worker, [], true))
            && (s.shuttingDown ==> m.state.current.None?)
  {
    hide WorkerInv, OwedInv, Honest, ParseAndMap, DeviceInv;
    if s.worker.current.Some? {
      ParseAndMapKeeps(s.worker, answers, s.leases, s.channel);
    }
  }

  /** The worker exits only when nothing is owed, leased or queued. */
  lemma NothingOwedAtExit(s: System)
    requires SystemInv(s) && s.phase.Exited?
    ensures s.worker.driver.live == {} && s.worker.driver.mapped == map[]
    ensures s.leases == map[] && s.channel == [] && s.worker.inUse == 0
  {
    QueuedMapped(s.worker, s.leases, s.channel);
    NoOwners(s.worker);
  }

  lemma QueuedMapped(w: WorkerState, leases: map<nat, nat>, channel: seq<Release>)
    requires OwedInv(w, leases, channel)
    ensures channel != [] ==> w.driver.mapped != map[]
    ensures leases.Keys <= w.driver.mapped.Keys
  {
    if channel != [] {
      assert channel[0].surface in w.driver.mapped;
    }
  }

  lemma NoOwners(w: WorkerState)
    requires WorkerInv(w) && w.current.None? && w.retired == map[]
    ensures w.driver.live == {} && w.driver.mapped == map[] && w.inUse == 0
  {
    assert forall g :: DecoderOf(w, g).None?;
    assert w.driver.live == {};
  }

  /** A draining worker that is shutting down leaves its loop if and only if every lease has come
      back. */
  lemma ExitsIffAllReturned(actions: seq<Action>)
    requires Run(STARTED, actions)
    ensures var s := After(STARTED, actions);
            s.phase.Draining? && s.channel == [] && s.shuttingDown ==>
              (Take(s, DrainDone).phase.Exited? <==> s.leases == map[])
  {
    StartedInv();
    RunKeeps(STARTED, actions);
    var s := After(STARTED, actions);
    if s.phase.Draining? && s.channel == [] && s.shuttingDown {
      OnlyLeases(s.worker, s.leases);
      if s.leases == map[] {
        NothingMapped(s.worker);
      } else if s.worker.retired == map[] {
        NoOwners(s.worker);
      }
    }
  }

  lemma NothingMapped(w: WorkerState)
    requires WorkerInv(w)
    ensures w.driver.mapped == map[] ==> w.retired == map[]
  {
    if w.retired != map[] {
      var g :| g in w.retired;
      RetiredHolds(w, g);
    }
  }

  lemma RetiredHolds(w: WorkerState, g: nat)
    requires WorkerInv(w) && g in w.retired
    ensures w.driver.mapped != map[]
  {
    var decoder := w.retired[g].decoder;
    assert DecoderOf(w, g) == Some(decoder);
    assert |SurfacesOn(w.driver, decoder)| == MappedBy(w, g) > 0;
    var s :| s in SurfacesOn(w.driver, decoder);
    assert s in w.driver.mapped;
  }

  lemma StartedInv()
    ensures SystemInv(STARTED)
  {
    assert forall g :: DecoderOf(STARTED.worker, g).None?;
  }

  lemma {:induction false} RunKeeps(s: System, actions: seq<Action>)
    requires SystemInv(s) && Run(s, actions)
    ensures SystemInv(After(s, actions))
    decreases |actions|
  {
    hide SystemInv, Enabled, Take;
    if actions != [] {
      TakeKeeps(s, actions[0]);
      RunKeeps(Take(s, actions[0]), actions[1..]);
    }
  }

  /** Main result, over every run, every order of lease drops and every pattern of driver failures. The
      call discipline is kept: each unmap answers one mapping, on the decoder that mapped it and before
      that decoder's destroy, and each destroy answers one creation. The in-use counter is the number of
      surfaces not yet given back, in all and per decoder, every queued release is known, and after the
      exit every mapping and every creation has been answered. */
  lemma SurfaceOwnership(actions: seq<Action>)
    requires Run(STARTED, actions)
    ensures var s := After(STARTED, actions);
            && !s.worker.driver.violated && Answering(s.worker.driver.calls)
            && s.worker.inUse == |s.worker.driver.mapped|
            && (forall g :: DecoderOf(s.worker, g).Some? ==>
                  |SurfacesOn(s.worker.driver, DecoderOf(s.worker, g).value)| == MappedBy(s.worker, g))
            && (s.channel != [] ==>
                  forall unmapped, destroyed :: ReleaseSurface(s.worker, s.channel[0], unmapped, destroyed).Some?)
            && (s.phase.Exited? ==> Answered(s.worker.driver.calls) && s.leases == map[] && s.worker.inUse == 0)
  {
    hide Answering, Answered, DeviceInv, OwedInv, OwnersInv, CountsInv;
    StartedInv();
    RunKeeps(STARTED, actions);
    var s := After(STARTED, actions);
    DisciplineMeans(s.worker.driver);
    CountsExact(s.worker);
    forall unmapped, destroyed | s.channel != []
      ensures ReleaseSurface(s.worker, s.channel[0], unmapped, destroyed).Some?
    {
      ReleaseOwed(s.worker, s.leases, s.channel, unmapped, destroyed);
    }
    if s.phase.Exited? {
      NothingOwedAtExit(s);
    }
  }

  lemma CountsExact(w: WorkerState)
    requires WorkerInv(w)
    ensures w.inUse == |w.driver.mapped|
    ensures forall g :: DecoderOf(w, g).Some? ==> |SurfacesOn(w.driver, DecoderOf(w, g).value)| == MappedBy(w, g)
  {
    hide OwnersInv, SumRetired, SurfacesOn, SurfacesOf, Decoders, DecoderOf;
    RetiredOwned(w);
    CurrentOwned(w);
    RetiredCount(w.driver, w.retired);
    EverySurfaceOwned(w);
  }

  lemma RetiredOwned(w: WorkerState)
    requires WorkerInv(w)
    ensures forall g :: g in w.retired ==> |SurfacesOn(w.driver, w.retired[g].decoder)| == w.retired[g].mapped
    ensures forall g, h :: g in w.retired && h in w.retired && w.retired[g].decoder == w.retired[h].decoder ==> g == h
  {
    hide SumRetired, SurfacesOn;
    assert forall g :: g in w.retired ==> DecoderOf(w, g) == Some(w.retired[g].decoder);
  }

  /** The surfaces of the current generation. */
  function CurrentSurfaces(w: WorkerState): set<nat> {
    if w.current.Some? && w.current.value.decoder.Some? then SurfacesOn(w.driver, w.current.value.decoder.value) else {}
  }

  lemma CurrentOwned(w: WorkerState)
    requires WorkerInv(w)
    ensures |CurrentSurfaces(w)| == if w.current.Some? then w.current.value.mapped else 0
    ensures CurrentSurfaces(w) !! SurfacesOf(w.driver, Decoders(w.retired))
  {
    hide SumRetired;
    if w.current.Some? && w.current.value.decoder.Some? {
      var g := w.current.value;
      assert DecoderOf(w, g.id) == g.decoder;
      forall h | h in w.retired ensures w.retired[h].decoder != g.decoder.value {
        assert DecoderOf(w, h) == Some(w.retired[h].decoder);
      }
    }
  }

  lemma EverySurfaceOwned(w: WorkerState)
    requires WorkerInv(w) && CurrentSurfaces(w) !! SurfacesOf(w.driver, Decoders(w.retired))
    ensures |w.driver.mapped| == |CurrentSurfaces(w)| + |SurfacesOf(w.driver, Decoders(w.retired))|
  {
    hide SumRetired;
    var owned := CurrentSurfaces(w) + SurfacesOf(w.driver, Decoders(w.retired));
    forall s | s in w.driver.mapped ensures s in owned {
      var g :| DecoderOf(w, g) == Some(w.driver.mapped[s]);
    }
    assert owned == w.driver.mapped.Keys;
  }

  function Decoders(retired: map<nat, Retired>): set<nat> {
    set g | g in retired :: retired[g].decoder
  }

  function SurfacesOf(d: Driver, decoders: set<nat>): set<nat> {
    set s | s in d.mapped && d.mapped[s] in decoders
  }

  /** The retired generations own distinct decoders, so their counts add up to their surfaces. */
  lemma {:induction false} RetiredCount(d: Driver, retired: map<nat, Retired>)
    requires forall g :: g in retired ==> |SurfacesOn(d, retired[g].decoder)| == retired[g].mapped
    requires forall g, h :: g in retired && h in retired && retired[g].decoder == retired[h].decoder ==> g == h
    ensures |SurfacesOf(d, Decoders(retired))| == SumRetired(retired)
    decreases retired
  {
    if retired == map[] {
      assert SurfacesOf(d, Decoders(retired)) == {};
    } else {
      var g :| g in retired;
      var rest := retired - {g};
      RetiredCount(d, rest);
      SumRemove(retired, g);
      var mine, others := SurfacesOn(d, retired[g].decoder), SurfacesOf(d, Decoders(rest));
      forall x | x in Decoders(retired) ensures x == retired[g].decoder || x in Decoders(rest) {
        var h :| h in retired && retired[h].decoder == x;
        assert h != g ==> h in rest;
      }
      assert SurfacesOf(d, Decoders(retired)) == mine + others;
    }
  }

  /** Main result, the exact effect of failures over every run: whenever a decoder is passed to destroy,
      the surfaces still mapped on it are exactly those whose unmap on it failed, so there is one if and
      only if some unmap failed; after the exit exactly the decoders whose destroy failed exist, and what
      is still mapped lies on them and failed to be unmapped. */
  lemma DestroyedWhileMappedIff(actions: seq<Action>)
    requires Run(STARTED, actions)
    ensures var s := After(STARTED, actions);
            var calls := s.worker.driver.calls;
            && (forall i :: 0 <= i < |calls| && calls[i].Destroy? ==>
                  && HeldOn(calls[..i], calls[i].decoder) == FailedUnmaps(calls[..i], calls[i].decoder)
                  && (HeldOn(calls[..i], calls[i].decoder) != {} <==> FailedUnmaps(calls[..i], calls[i].decoder) != {}))
            && (s.phase.Exited? ==>
                  && Alive(calls) == FailedDestroys(calls)
                  && forall surface :: surface in Held(calls) ==>
                       Held(calls)[surface] in FailedDestroys(calls)
                         && surface in FailedUnmaps(calls, Held(calls)[surface]))
  {
    hide WorkerInv, OwedInv, HeldOn, FailedUnmaps, FailedDestroys, Held, Alive, Replay;
    StartedInv();
    RunKeeps(STARTED, actions);
    var s := After(STARTED, actions);
    if s.phase.Exited? {
      NothingOwedAtExit(s);
    }
  }

  // ----- what a failed unmap leads to -----

  /** One decoder, one surface, a discontinuity while it is leased, and an unmap that fails. */
  function FailingRun(): seq<Action> {
    [DrainDone,
     DecodeCommand(false, Answers(true, true, Some(1), true, [Mapped(5, 64)], true)),
     DrainDone,
     DecodeCommand(true, Answers(true, true, None, true, [], true)),
     DropLease(5),
     ReleaseNext(false, true)]
  }

  lemma OneAction(s: System, actions: seq<Action>)
    requires actions != [] && Enabled(s, actions[0]) && Run(Take(s, actions[0]), actions[1..])
    ensures Run(s, actions) && After(s, actions) == After(Take(s, actions[0]), actions[1..])
  {
  }

  function Leased(driver: Driver): WorkerState {
    WorkerState(Some(Generation(1, Some(1), 1)), map[], 2, 1, driver)
  }

  lemma FirstSurface(s: System, a: Action)
    requires s == STARTED.(phase := Receiving) && a == FailingRun()[1]
    ensures Enabled(s, a)
    ensures Take(s, a) == System(Leased(Driver({1}, map[5 := 1], false, [Create(1), Map(1, 5)])), Draining, false,
                                 map[5 := 1], [])
  {
    var answers := a.answers;
    assert FreshMaps({}, answers.maps);
    var created := CreateDecoder(IDLE_DRIVER, 1);
    assert created == Driver({1}, map[], false, [Create(1)]);
    var g := Generation(1, Some(1), 0);
    var w := WorkerState(Some(g), map[], 2, 0, created);
    var mapped := Acquired(w.(driver := MapSurface(created, 1, 5)), g, 5);
    assert answers.maps[1..] == [];
    assert MapDisplays(mapped, [], true) == Mapping(mapped, [], true);
    assert MapDisplays(w, answers.maps, true) == Mapping(mapped, [Release(1, 5)] + [], true);
    assert [Release(1, 5)] + [] == [Release(1, 5)] && [Release(1, 5)][1..] == [];
    assert [Create(1)] + [Map(1, 5)] == [Create(1), Map(1, 5)];
    assert Lend(map[5 := 1], []) == map[5 := 1];
    assert Lend(map[], [Release(1, 5)]) == map[5 := 1];
  }

  lemma DestroyedTooSoon(s: System)
    requires s.worker == WorkerState(Some(Generation(2, None, 0)), map[1 := Retired(1, 1)], 3, 1,
                                     Driver({1}, map[5 := 1], false, [Create(1), Map(1, 5)]))
    ensures ReleaseSurface(s.worker, Release(1, 5), false, true).Some?
    ensures ReleaseSurface(s.worker, Release(1, 5), false, true).value.driver.calls ==
            [Create(1), Map(1, 5), Unmap(1, 5, false), Destroy(1, true)]
  {
  }

  /** The concrete input: the decoder is destroyed while its surface is mapped. */
  lemma DestroyedWhileMapped()
    ensures Run(STARTED, FailingRun())
    ensures var calls := After(STARTED, FailingRun()).worker.driver.calls;
            && calls == [Create(1), Map(1, 5), Unmap(1, 5, false), Destroy(1, true)]
            && HeldOn(calls[..3], 1) == {5} == FailedUnmaps(calls[..3], 1)
  {
    hide Decode, ReleaseSurface;
    var run := FailingRun();
    var driver := Driver({1}, map[5 := 1], false, [Create(1), Map(1, 5)]);
    var s1 := Take(STARTED, run[0]);
    FirstSurface(s1, run[1]);
    var s2 := Take(s1, run[1]);
    var s3 := Take(s2, run[2]);
    SecondGeneration(s3, run[3]);
    var s4 := Take(s3, run[3]);
    var s5 := Take(s4, run[4]);
    assert s5.channel == [Release(1, 5)];
    DestroyedTooSoon(s5);
    var s6 := Take(s5, run[5]);
    assert run[5..][1..] == [] && Run(s6, []);
    OneAction(s5, run[5..]);
    assert run[4..][1..] == run[5..] && run[3..][1..] == run[4..] && run[2..][1..] == run[3..];
    assert run[1..][1..] == run[2..] && run[0..] == run;
    OneAction(s4, run[4..]);
    OneAction(s3, run[3..]);
    OneAction(s2, run[2..]);
    OneAction(s1, run[1..]);
    OneAction(STARTED, run);
    StuckSurface();
    var calls := [Create(1), Map(1, 5), Unmap(1, 5, false), Destroy(1, true)];
    assert calls[..3] == [Create(1), Map(1, 5), Unmap(1, 5, false)];
  }

  lemma SecondGeneration(s: System, a: Action)
    requires s.worker == Leased(Driver({1}, map[5 := 1], false, [Create(1), Map(1, 5)]))
    requires s.phase.Receiving? && !s.shuttingDown && s.leases == map[5 := 1] && s.channel == [] && a == FailingRun()[3]
    ensures Enabled(s, a)
    ensures Take(s, a) == s.(phase := Draining,
                             worker := WorkerState(Some(Generation(2, None, 0)), map[1 := Retired(1, 1)], 3, 1,
                                                   s.worker.driver))
  {
    assert FreshMaps(Held(s.worker.driver.calls).Keys, []);
    assert Lend(s.leases, []) == s.leases;
  }

  lemma StuckSurface()
    ensures var calls := [Create(1), Map(1, 5), Unmap(1, 5, false)];
            HeldOn(calls, 1) == {5} == FailedUnmaps(calls, 1)
  {
    Unfold([], Create(1));
    assert [] + [Create(1)] == [Create(1)];
    Unfold([Create(1)], Map(1, 5));
    assert [Create(1)] + [Map(1, 5)] == [Create(1), Map(1, 5)];
    Unfold([Create(1), Map(1, 5)], Unmap(1, 5, false));
    assert [Create(1), Map(1, 5)] + [Unmap(1, 5, false)] == [Create(1), Map(1, 5), Unmap(1, 5, false)];
    assert FailedUnmaps([], 1) == FailedUnmaps([Create(1)], 1) == FailedUnmaps([Create(1), Map(1, 5)], 1) == {};
    assert Held([]) == Held([Create(1)]) == map[] && Held([Create(1), Map(1, 5)]) == map[5 := 1];
  }

  // ----- the worker object -----

  class Worker {
    var current: Option<Generation>
    var retired: map<nat, Retired>
    var nextGeneration: nat
    var inUse: nat
    var releases: seq<Release>
    var driver: Driver

    ghost function View(): WorkerState
      reads this
    {
      WorkerState(current, retired, nextGeneration, inUse, driver)
    }

    constructor ()
      ensures View() == STARTED.worker && releases == []
    {
      current, retired, nextGeneration := Some(Generation(1, None, 0)), map[], 2;
      inUse, releases, driver := 0, [], IDLE_DRIVER;
    }

    /** Everything queued when the loop looks is released, in order, and nothing is unknown, whatever the
        driver answers to the two calls of each release. */
    method DrainReleases(ghost leases: map<nat, nat>, answers: seq<(bool, bool)>)
      requires WorkerInv(View()) && DeviceInv(driver) && OwedInv(View(), leases, releases)
      requires |answers| == |releases|
      modifies this
      ensures WorkerInv(View()) && DeviceInv(driver) && OwedInv(View(), leases, releases) && releases == []
      ensures driver.mapped.Keys == leases.Keys
      ensures current.None? <==> old(current).None?
    {
      hide WorkerInv, OwedInv, ReleaseSurface, DeviceInv;
      var i := 0;
      while releases != []
        invariant WorkerInv(View()) && DeviceInv(driver) && OwedInv(View(), leases, releases)
        invariant current.None? <==> old(current).None?
        invariant i + |releases| == |answers|
        decreases |releases|
      {
        var (unmapped, destroyed) := answers[i];
        ReleaseOwed(View(), leases, releases, unmapped, destroyed);
        ghost var after := ReleaseSurface(View(), releases[0], unmapped, destroyed).value;
        Undisturbed(View(), after);
        ReleaseDevice(View(), releases[0], unmapped, destroyed);
        var release := releases[0];
        releases := releases[1..];
        var known := TakeBack(release, unmapped, destroyed);
        i := i + 1;
      }
      OnlyLeases(View(), leases);
    }

    method TakeBack(r: Release, unmapped: bool, destroyed: bool) returns (known: bool)
      modifies `current, `retired, `inUse, `driver
      ensures known == ReleaseSurface(old(View()), r, unmapped, destroyed).Some?
      ensures View() == if known then ReleaseSurface(old(View()), r, unmapped, destroyed).value else old(View())
    {
      if current.Some? && current.value.id == r.generation {
        var g := current.value;
        driver :=
          if g.decoder.Some? then UnmapSurface(driver, g.decoder.value, r.surface, unmapped)
            else driver.(violated := true);
        current := Some(g.(mapped := SaturatingSub(g.mapped, 1)));
        inUse := SaturatingSub(inUse, 1);
        return true;
      }
      if r.generation !in retired {
        return false;
      }
      var owner := retired[r.generation];
      driver := UnmapSurface(driver, owner.decoder, r.surface, unmapped);
      owner := owner.(mapped := SaturatingSub(owner.mapped, 1));
      retired := retired[r.generation := owner];
      inUse := SaturatingSub(inUse, 1);
      if owner.mapped == 0 {
        assert retired - {r.generation} == old(retired) - {r.generation};
        retired := retired - {r.generation};
        driver := DestroyDecoder(driver, owner.decoder, destroyed);
      }
      return true;
    }

    method Retire(destroyed: bool)
      modifies `current, `retired, `driver
      ensures View() == RetireCurrent(old(View()), destroyed)
    {
      if current.None? {
        return;
      }
      var g := current.value;
      current := None;
      if g.decoder.None? {
        return;
      }
      if g.mapped == 0 {
        driver := DestroyDecoder(driver, g.decoder.value, destroyed);
      } else {
        retired := retired[g.id := Retired(g.decoder.value, g.mapped)];
      }
    }

    method DecodePacket(discontinuity: bool, answers: Answers) returns (leases: seq<Release>, ok: bool)
      modifies this
      ensures Mapping(View(), leases, ok) == Decode(old(View()), discontinuity, answers) && releases == old(releases)
    {
      if discontinuity {
        Retire(answers.destroyed);
        var id := nextGeneration;
        nextGeneration := nextGeneration + 1;
        if !answers.parserCreated {
          return [], false;
        }
        current := Some(Generation(id, None, 0));
      }
      if current.None? {
        return [], false;
      }
      leases, ok := ParseAndMapQueue(answers);
    }

    method FlushParser(answers: Answers) returns (leases: seq<Release>, ok: bool)
      modifies this
      ensures Mapping(View(), leases, ok) == Flush(old(View()), answers) && releases == old(releases)
    {
      if current.None? {
        return [], true;
      }
      leases, ok := ParseAndMapQueue(answers);
    }

    method ParseAndMapQueue(answers: Answers) returns (leases: seq<Release>, ok: bool)
      requires current.Some?
      modifies this
      ensures Mapping(View(), leases, ok) == ParseAndMap(old(View()), answers) && releases == old(releases)
    {
      if current.value.decoder.None? && answers.created.Some? {
        current := Some(current.value.(decoder := answers.created));
        driver := CreateDecoder(driver, answers.created.value);
      }
      if !answers.parsed {
        return [], false;
      }
      if answers.maps == [] {
        return [], true;
      }
      if current.value.decoder.None? {
        return [], false;
      }
      leases, ok := MapDisplayQueue(answers.maps, answers.unmapped);
    }

    method MapDisplayQueue(maps: seq<MapAnswer>, unmapped: bool) returns (leases: seq<Release>, ok: bool)
      requires current.Some? && current.value.decoder.Some?
      modifies `current, `inUse, `driver
      ensures Mapping(View(), leases, ok) == MapDisplays(old(View()), maps, unmapped)
    {
      hide MapDisplays;
      leases := [];
      ghost var all := MapDisplays(View(), maps, unmapped);
      assert maps[0..] == maps && [] + all.leases == all.leases;
      for i := 0 to |maps|
        invariant current.Some? && current.value.decoder.Some?
        invariant all == WithLeases(leases, MapDisplays(View(), maps[i..], unmapped))
      {
        MapDisplaysAt(View(), leases, maps, i, unmapped);
        if maps[i].MapError? || maps[i].surface == 0 {
          return leases, false;
        }
        var g, surface := current.value, maps[i].surface;
        driver := MapSurface(driver, g.decoder.value, surface);
        if maps[i].pitch == 0 {
          driver := UnmapSurface(driver, g.decoder.value, surface, unmapped);
          return leases, false;
        }
        current := Some(g.(mapped := g.mapped + 1));
        inUse := inUse + 1;
        leases := leases + [Release(g.id, surface)];
      }
      MapDisplaysDone(View(), leases, maps, unmapped);
      return leases, true;
    }
  }

  function WithLeases(leases: seq<Release>, m: Mapping): Mapping {
    m.(leases := leases + m.leases)
  }

  lemma MapDisplaysDone(w: WorkerState, leases: seq<Release>, maps: seq<MapAnswer>, unmapped: bool)
    requires w.current.Some? && w.current.value.decoder.Some?
    ensures WithLeases(leases, MapDisplays(w, maps[|maps|..], unmapped)) == Mapping(w, leases, true)
  {
    assert leases + [] == leases;
  }

  /** One turn of the display loop, with the leases already handed out. */
  lemma MapDisplaysAt(w: WorkerState, leases: seq<Release>, maps: seq<MapAnswer>, i: nat, unmapped: bool)
    requires i < |maps| && w.current.Some? && w.current.value.decoder.Some?
    ensures var g := w.current.value;
            WithLeases(leases, MapDisplays(w, maps[i..], unmapped)) ==
            (if maps[i].MapError? || maps[i].surface == 0 then Mapping(w, leases, false)
             else
               var mapped := w.(driver := MapSurface(w.driver, g.decoder.value, maps[i].surface));
               if maps[i].pitch == 0
               then Mapping(mapped.(driver := UnmapSurface(mapped.driver, g.decoder.value, maps[i].surface, unmapped)),
                            leases, false)
               else WithLeases(leases + [Release(g.id, maps[i].surface)],
                               MapDisplays(Acquired(mapped, g, maps[i].surface), maps[i + 1..], unmapped)))
  {
    hide MapSurface, UnmapSurface;
    assert maps[i..][0] == maps[i] && maps[i..][1..] == maps[i + 1..];
    assert leases + [] == leases;
    var g := w.current.value;
    if maps[i].Mapped? {
      var mapped := w.(driver := MapSurface(w.driver, g.decoder.value, maps[i].surface));
      var rest := MapDisplays(Acquired(mapped, g, maps[i].surface), maps[i + 1..], unmapped);
      assert leases + ([Release(g.id, maps[i].surface)] + rest.leases) ==
             leases + [Release(g.id, maps[i].surface)] + rest.leases;
    }
  }

  lemma OnlyLeases(w: WorkerState, leases: map<nat, nat>)
    requires OwedInv(w, leases, [])
    ensures w.driver.mapped.Keys == leases.Keys
  {
    assert forall s :: !OnChannel([], s);
  }
}
