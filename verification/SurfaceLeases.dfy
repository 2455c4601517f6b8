/** What a decode or a flush hands out: one lease per frame that could be mapped, up to the first that could
    not (crates/nvidia/src/decoder.rs:615-726). */
module SurfaceLeases {
  import opened Bytes
  import opened DriverCalls
  import opened Surfaces

  /** The driver mapped a surface and gave it a pitch. */
  predicate Usable(answer: MapAnswer) {
    answer.Mapped? && answer.surface != 0 && answer.pitch != 0
  }

  /** How many displays are mapped before the first failure. */
  function UsableFrames(maps: seq<MapAnswer>): (k: nat)
    ensures k <= |maps|
    ensures forall i :: 0 <= i < k ==> Usable(maps[i])
    ensures k < |maps| ==> !Usable(maps[k])
    decreases |maps|
  {
    if maps == [] || !Usable(maps[0]) then 0 else 1 + UsableFrames(maps[1..])
  }

  /** One lease of generation `id` for each of the first `k` answers, in order. */
  predicate LeasesFor(leases: seq<Release>, id: nat, maps: seq<MapAnswer>, k: nat)
    requires k <= |maps|
  {
    |leases| == k && forall i :: 0 <= i < k ==> Usable(maps[i]) && leases[i] == Release(id, maps[i].surface)
  }

  lemma {:induction false} MapDisplaysLends(w: WorkerState, maps: seq<MapAnswer>, unmapped: bool)
    requires w.current.Some? && w.current.value.decoder.Some?
    ensures var g, k := w.current.value, UsableFrames(maps);
            var m := MapDisplays(w, maps, unmapped);
            && LeasesFor(m.leases, g.id, maps, k)
            && (m.ok <==> k == |maps|)
            && m.state.current == Some(g.(mapped := g.mapped + k)) && m.state.inUse == w.inUse + k
            && m.state.retired == w.retired && m.state.nextGeneration == w.nextGeneration
    decreases |maps|
  {
    if maps != [] && Usable(maps[0]) {
      var g := w.current.value;
      var mapped := w.(driver := MapSurface(w.driver, g.decoder.value, maps[0].surface));
      MapDisplaysLends(Acquired(mapped, g, maps[0].surface), maps[1..], unmapped);
      var rest := MapDisplays(Acquired(mapped, g, maps[0].surface), maps[1..], unmapped).leases;
      forall i | 0 < i < UsableFrames(maps)
        ensures ([Release(g.id, maps[0].surface)] + rest)[i] == Release(g.id, maps[i].surface)
      {
        assert maps[1..][i - 1] == maps[i];
      }
    }
  }

  /** The generation that a decode works on, if it gets one. */
  function GenerationFor(w: WorkerState, discontinuity: bool, answers: Answers): Option<nat> {
    if discontinuity then (if answers.parserCreated then Some(w.nextGeneration) else None)
    else if w.current.Some? then Some(w.current.value.id) else None
  }

  predicate HasDecoder(w: WorkerState, discontinuity: bool, answers: Answers) {
    answers.created.Some? || (!discontinuity && w.current.Some? && w.current.value.decoder.Some?)
  }

  /** The parser took the data, and there is a decoder if there is anything to display. */
  predicate Displays(w: WorkerState, discontinuity: bool, answers: Answers) {
    answers.parsed && (answers.maps == [] || HasDecoder(w, discontinuity, answers))
  }

  lemma ParseAndMapLends(w: WorkerState, answers: Answers)
    requires w.current.Some?
    ensures var k := if Displays(w, false, answers) then UsableFrames(answers.maps) else 0;
            var m := ParseAndMap(w, answers);
            && LeasesFor(m.leases, w.current.value.id, answers.maps, k)
            && (m.ok <==> Displays(w, false, answers) && k == |answers.maps|)
            && m.state.inUse == w.inUse + k
            && m.state.current.Some? && m.state.current.value.id == w.current.value.id
            && m.state.current.value.mapped == w.current.value.mapped + k
  {
    hide MapDisplays;
    var parsed := ParseData(w, answers.created);
    if parsed.current.value.decoder.Some? {
      MapDisplaysLends(parsed, answers.maps, answers.unmapped);
    }
  }

  /** Main result, for every state of the worker and every answer of the driver: a decode lends exactly the
      frames mapped before the first failure, in order, each as a lease of the generation it decodes with,
      and succeeds exactly if there is a generation, the parser took the data, and every frame was mapped. */
  lemma DecodeLends(w: WorkerState, discontinuity: bool, answers: Answers)
    ensures var id := GenerationFor(w, discontinuity, answers);
            var reached := id.Some? && Displays(w, discontinuity, answers);
            var k := if reached then UsableFrames(answers.maps) else 0;
            var m := Decode(w, discontinuity, answers);
            && (if id.Some? then LeasesFor(m.leases, id.value, answers.maps, k) else m.leases == [])
            && (m.ok <==> reached && k == |answers.maps|)
            && m.state.inUse == w.inUse + k
  {
    hide ParseAndMap, DestroyDecoder;
    var ready := if discontinuity then StartGeneration(RetireCurrent(w, answers.destroyed), answers.parserCreated)
                 else w;
    if ready.current.Some? {
      ParseAndMapLends(ready, answers);
    }
  }

  /** A flush does the same on the current generation, and nothing at all without one. */
  lemma FlushLends(w: WorkerState, answers: Answers)
    ensures var m := Flush(w, answers);
            if w.current.None? then m == Mapping(w, [], true)
            else
              var k := if Displays(w, false, answers) then UsableFrames(answers.maps) else 0;
              && LeasesFor(m.leases, w.current.value.id, answers.maps, k)
              && (m.ok <==> Displays(w, false, answers) && k == |answers.maps|)
              && m.state.inUse == w.inUse + k
  {
    hide ParseAndMap;
    if w.current.Some? {
      ParseAndMapLends(w, answers);
    }
  }

  lemma {:induction false} LendHolds(leases: map<nat, nat>, added: seq<Release>, id: nat)
    requires forall i :: 0 <= i < |added| ==> added[i].generation == id
    ensures var all := Lend(leases, added);
            && all.Keys == leases.Keys + (set i | 0 <= i < |added| :: added[i].surface)
            && (forall i :: 0 <= i < |added| ==> all[added[i].surface] == id)
            && forall s :: s in leases && (forall i :: 0 <= i < |added| ==> added[i].surface != s) ==>
                 all[s] == leases[s]
    decreases |added|
  {
    if added != [] {
      var first := leases[added[0].surface := added[0].generation];
      LendHolds(first, added[1..], id);
      var rest := added[1..];
      forall i | 0 <= i < |added|
        ensures added[i].surface in Lend(leases, added) && Lend(leases, added)[added[i].surface] == id
      {
        if i > 0 {
          assert rest[i - 1] == added[i];
        } else if j :| 0 <= j < |rest| && rest[j].surface == added[0].surface {
        }
      }
    }
  }

  /** In the running system: the frames of a decode command are leased when it returns, whatever is still
      leased or queued from before, and everything leased before stays leased. */
  lemma CommandLends(actions: seq<Action>, a: Action)
    requires Run(STARTED, actions) && a.DecodeCommand? && Enabled(After(STARTED, actions), a)
    requires !After(STARTED, actions).shuttingDown
    ensures var s := After(STARTED, actions);
            var id := GenerationFor(s.worker, a.discontinuity, a.answers);
            var next := Take(s, a);
            && s.leases.Keys <= next.leases.Keys
            && (id.Some? && Displays(s.worker, a.discontinuity, a.answers) ==>
                  forall i :: 0 <= i < UsableFrames(a.answers.maps) ==>
                    && a.answers.maps[i].surface in next.leases
                    && next.leases[a.answers.maps[i].surface] == id.value)
  {
    hide Decode, Run, After, Enabled;
    var s := After(STARTED, actions);
    var m := Decode(s.worker, a.discontinuity, a.answers);
    var id := GenerationFor(s.worker, a.discontinuity, a.answers);
    DecodeLends(s.worker, a.discontinuity, a.answers);
    LendHolds(s.leases, m.leases, if id.Some? then id.value else 0);
    if id.Some? && Displays(s.worker, a.discontinuity, a.answers) {
      forall i | 0 <= i < UsableFrames(a.answers.maps)
        ensures a.answers.maps[i].surface in Take(s, a).leases
        ensures Take(s, a).leases[a.answers.maps[i].surface] == id.value
      {
        assert m.leases[i].surface == a.answers.maps[i].surface;
      }
    }
  }
}
