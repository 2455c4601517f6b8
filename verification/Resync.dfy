/** When the cut of a byte stream into pushes matters to the demultiplexer, and when it does not
    (crates/mpegts/src/stream.rs:252-316, 484-491). */
module Resync {
  import opened Bytes
  import opened TsPackets
  import opened Demuxer

  function FirstSync(data: ByteString, from: nat): (p: Option<nat>)
    ensures p.Some? ==> from <= p.value < |data| && data[p.value] == SYNC_BYTE
    ensures forall i :: from <= i < (if p.Some? then p.value else |data|) ==> data[i] != SYNC_BYTE
    decreases |data| - from
  {
    if from >= |data| then None
    else if data[from] == SYNC_BYTE then Some(from)
    else FirstSync(data, from + 1)
  }

  /** Packets stand where they are expected. Where they do not and more than one packet's bytes remain,
      the first sync byte ahead lies within the next packet's length, its successor, if there is one,
      is a sync byte too, and the same holds from there on. */
  predicate CutSafe(b: ByteString)
    decreases |b|
  {
    if |b| <= PACKET_SIZE then true
    else if b[0] == SYNC_BYTE then CutSafe(b[PACKET_SIZE..])
    else
      var p := FirstSync(b, 1);
      && p.Some? && p.value < PACKET_SIZE
      && (p.value + PACKET_SIZE < |b| ==> b[p.value + PACKET_SIZE] == SYNC_BYTE)
      && CutSafe(b[p.value..])
  }

  /** A sync byte at every packet boundary. */
  ghost predicate Aligned(bytes: ByteString)
    decreases |bytes|
  {
    bytes == [] || (bytes[0] == SYNC_BYTE && (PACKET_SIZE <= |bytes| ==> Aligned(bytes[PACKET_SIZE..])))
  }

  lemma {:induction false} AlignedIsSafe(b: ByteString)
    requires Aligned(b)
    ensures CutSafe(b)
    decreases |b|
  {
    if |b| > PACKET_SIZE {
      AlignedIsSafe(b[PACKET_SIZE..]);
    }
  }

  // ----- the scan and its first sync byte -----

  lemma {:induction false} ScanFrom(data: ByteString, from: nat)
    ensures var p, found := FirstSync(data, from), FindNextSync(data, from);
            if p.None? then found.None?
            else if SyncCandidate(data, p.value) then found == p
            else found.None? || found.value > p.value
    decreases |data| - from
  {
    if from < |data| && data[from] != SYNC_BYTE {
      ScanFrom(data, from + 1);
    }
  }

  lemma {:induction false} FirstSyncOfPrefix(a: ByteString, b: ByteString, from: nat)
    ensures var p := FirstSync(a + b, from);
            if p.Some? && p.value < |a| then FirstSync(a, from) == p else FirstSync(a, from).None?
    decreases |a| - from
  {
    if from < |a| {
      assert (a + b)[from] == a[from];
      if a[from] != SYNC_BYTE {
        FirstSyncOfPrefix(a, b, from + 1);
      }
    }
  }

  // ----- safe bytes can be cut anywhere -----

  lemma DrainShort(d: DemuxState, b: ByteString)
    requires |b| < PACKET_SIZE
    ensures Drain(d, b) == Drained(d, b, [])
  {
  }

  lemma DrainFound(d: DemuxState, b: ByteString, p: nat)
    requires PACKET_SIZE <= |b| && b[0] != SYNC_BYTE && FindNextSync(b, 1) == Some(p)
    ensures Drain(d, b) == Prepend([SyncRecovered(p)], Drain(d, b[p..]))
  {
    hide Step;
  }

  /** Draining a prefix first changes nothing, and what it leaves is safe with the rest. */
  lemma {:induction false} SafeSplit(d: DemuxState, a: ByteString, b: ByteString)
    requires CutSafe(a + b)
    ensures var first := Drain(d, a);
            Drain(d, a + b) == Prepend(first.events, Drain(first.state, first.buffer + b)) && CutSafe(first.buffer + b)
    decreases |a|
  {
    hide Drain, Step, FindNextSync, FirstSync;
    if |a| < PACKET_SIZE {
      DrainShort(d, a);
      assert Prepend([], Drain(d, a + b)) == Drain(d, a + b);
    } else if |a + b| == PACKET_SIZE {
      assert a + b == a;
      var first := Drain(d, a);
      assert first.buffer + b == first.buffer;
      DrainShort(first.state, first.buffer);
      assert first.events + [] == first.events;
    } else {
      assert (a + b)[0] == a[0];
      if a[0] == SYNC_BYTE {
        assert (a + b)[..PACKET_SIZE] == a[..PACKET_SIZE];
        assert (a + b)[PACKET_SIZE..] == a[PACKET_SIZE..] + b;
        var (next, events) := Step(d, a[..PACKET_SIZE]);
        var inner := Drain(next, a[PACKET_SIZE..]);
        DrainAt(d, a);
        DrainAt(d, a + b);
        SafeSplit(next, a[PACKET_SIZE..], b);
        PrependTwice(events, inner.events, Drain(inner.state, inner.buffer + b));
      } else {
        var p := FirstSync(a + b, 1).value;
        FoundInBoth(a, b, p);
        assert (a + b)[p..] == a[p..] + b;
        DrainFound(d, a, p);
        DrainFound(d, a + b, p);
        var inner := Drain(d, a[p..]);
        SafeSplit(d, a[p..], b);
        PrependTwice([SyncRecovered(p)], inner.events, Drain(inner.state, inner.buffer + b));
      }
    }
  }

  /** A sync byte within the first packet's length that is confirmed in the whole is found in every
      prefix long enough to be drained. */
  lemma FoundInBoth(a: ByteString, b: ByteString, p: nat)
    requires PACKET_SIZE <= |a| && FirstSync(a + b, 1) == Some(p) && p < PACKET_SIZE
    requires p + PACKET_SIZE < |a + b| ==> (a + b)[p + PACKET_SIZE] == SYNC_BYTE
    ensures FindNextSync(a, 1) == Some(p) && FindNextSync(a + b, 1) == Some(p)
  {
    hide FindNextSync, FirstSync;
    FirstSyncOfPrefix(a, b, 1);
    ScanFrom(a, 1);
    ScanFrom(a + b, 1);
    assert (a + b)[p] == a[p];
    assert p + PACKET_SIZE < |a| ==> (a + b)[p + PACKET_SIZE] == a[p + PACKET_SIZE];
  }

  lemma {:induction false} SafeCuts(d: DemuxState, buffer: ByteString, cuts: seq<ByteString>)
    requires |buffer| < PACKET_SIZE && CutSafe(buffer + Concat(cuts))
    ensures DrainCuts(d, buffer, cuts) == Drain(d, buffer + Concat(cuts))
    decreases |cuts|
  {
    hide Drain, Step, CutSafe;
    if cuts == [] {
      assert buffer + Concat(cuts) == buffer;
      DrainShort(d, buffer);
    } else {
      var a, b := buffer + cuts[0], Concat(cuts[1..]);
      assert buffer + Concat(cuts) == a + b;
      SafeSplit(d, a, b);
      var first := Drain(d, a);
      SafeCuts(first.state, first.buffer, cuts[1..]);
    }
  }

  // ----- other bytes can be cut so that it matters -----

  /** The outcome of pushing `b` in two pieces. */
  function TwoPushes(d: DemuxState, b: ByteString, n: nat): Drained
    requires n <= |b|
  {
    var first := Drain(d, b[..n]);
    Prepend(first.events, Drain(first.state, first.buffer + b[n..]))
  }

  lemma TwoPushesAreCuts(d: DemuxState, b: ByteString, n: nat)
    requires n <= |b|
    ensures DrainCuts(d, [], [b[..n], b[n..]]) == TwoPushes(d, b, n)
  {
    hide Drain;
    var first := Drain(d, b[..n]);
    var second := Drain(first.state, first.buffer + b[n..]);
    assert [] + b[..n] == b[..n];
    assert [b[..n], b[n..]][1..] == [b[n..]] && [b[n..]][1..] == [];
    assert DrainCuts(second.state, second.buffer, []) == Drained(second.state, second.buffer, []);
    assert second.events + [] == second.events;
    assert DrainCuts(first.state, first.buffer, [b[n..]]) == second;
  }

  lemma PrependInjective(events: seq<DemuxEvent>, x: Drained, y: Drained)
    ensures Prepend(events, x) == Prepend(events, y) ==> x == y
  {
    if Prepend(events, x) == Prepend(events, y) {
      assert x.events == (events + x.events)[|events|..];
      assert y.events == (events + y.events)[|events|..];
    }
  }

  /** The first event of a drain that has to search. */
  lemma FirstEvent(d: DemuxState, b: ByteString)
    requires PACKET_SIZE <= |b| && b[0] != SYNC_BYTE
    ensures var found := FindNextSync(b, 1);
            Drain(d, b).events != [] &&
            Drain(d, b).events[0] == SyncRecovered(if found.Some? then found.value else |b| - (PACKET_SIZE - 1))
  {
    hide Step;
  }

  /** A first sync byte that is missing, too far or unconfirmed: the first 188 bytes alone are searched
      with another outcome than the whole. */
  lemma SearchDiffers(d: DemuxState, b: ByteString)
    requires PACKET_SIZE < |b| && b[0] != SYNC_BYTE
    requires var p := FirstSync(b, 1);
             p.None? || p.value >= PACKET_SIZE || (p.value + PACKET_SIZE < |b| && b[p.value + PACKET_SIZE] != SYNC_BYTE)
    ensures TwoPushes(d, b, PACKET_SIZE) != Drain(d, b)
  {
    hide Drain, FindNextSync, FirstSync;
    var head, p := b[..PACKET_SIZE], FirstSync(b, 1);
    assert b == head + b[PACKET_SIZE..];
    FirstSyncOfPrefix(head, b[PACKET_SIZE..], 1);
    ScanFrom(head, 1);
    ScanFrom(b, 1);
    FirstEvent(d, head);
    FirstEvent(d, b);
    var first := Drain(d, head);
    assert TwoPushes(d, b, PACKET_SIZE).events[0] == first.events[0];
  }

  /** Where the whole first resynchronises at a confirmed sync byte, a cut that matters behind it
      matters in front of it as well. */
  lemma CutBehindSync(d: DemuxState, b: ByteString, p: nat, n: nat)
    requires PACKET_SIZE < |b| && b[0] != SYNC_BYTE && FirstSync(b, 1) == Some(p) && p < PACKET_SIZE
    requires p + PACKET_SIZE < |b| ==> b[p + PACKET_SIZE] == SYNC_BYTE
    requires n <= |b| - p && TwoPushes(d, b[p..], n) != Drain(d, b[p..])
    ensures p + n <= |b| && TwoPushes(d, b, p + n) != Drain(d, b)
  {
    hide Drain, FindNextSync, FirstSync;
    var rest := b[p..];
    assert rest[..n] + rest[n..] == rest;
    if n < PACKET_SIZE {
      ShortFirstPush(d, rest, n);
    }
    var a := b[..p + n];
    assert b == a + b[p + n..] && a[p..] == rest[..n] && b[p + n..] == rest[n..];
    FoundInBoth(a, b[p + n..], p);
    DrainFound(d, a, p);
    DrainFound(d, b, p);
    var first := Drain(d, rest[..n]);
    var second := Drain(first.state, first.buffer + rest[n..]);
    PrependTwice([SyncRecovered(p)], first.events, second);
    PrependInjective([SyncRecovered(p)], TwoPushes(d, rest, n), Drain(d, rest));
  }

  lemma ShortFirstPush(d: DemuxState, b: ByteString, n: nat)
    requires n <= |b| && n < PACKET_SIZE
    ensures TwoPushes(d, b, n) == Drain(d, b)
  {
    DrainShort(d, b[..n]);
    assert b[..n] + b[n..] == b;
    hide Drain;
    assert Prepend([], Drain(d, b)) == Drain(d, b);
  }

  lemma CutBehindPacket(d: DemuxState, b: ByteString, n: nat)
    requires PACKET_SIZE <= |b| && b[0] == SYNC_BYTE && n <= |b| - PACKET_SIZE
    requires var next := Step(d, b[..PACKET_SIZE]).0;
             TwoPushes(next, b[PACKET_SIZE..], n) != Drain(next, b[PACKET_SIZE..])
    ensures TwoPushes(d, b, PACKET_SIZE + n) != Drain(d, b)
  {
    hide Drain, Step;
    var rest, a := b[PACKET_SIZE..], b[..PACKET_SIZE + n];
    var (next, events) := Step(d, b[..PACKET_SIZE]);
    assert a[..PACKET_SIZE] == b[..PACKET_SIZE] && a[PACKET_SIZE..] == rest[..n] && b[PACKET_SIZE + n..] == rest[n..];
    DrainAt(d, a);
    DrainAt(d, b);
    var first := Drain(next, rest[..n]);
    var second := Drain(first.state, first.buffer + rest[n..]);
    PrependTwice(events, first.events, second);
    PrependInjective(events, TwoPushes(next, rest, n), Drain(next, rest));
  }

  /** Bytes that are not safe have a cut into two pushes that matters. */
  lemma {:induction false} UnsafeCut(d: DemuxState, b: ByteString) returns (n: nat)
    requires !CutSafe(b)
    ensures n <= |b| && TwoPushes(d, b, n) != Drain(d, b)
    decreases |b|
  {
    hide Drain, Step, FindNextSync, FirstSync, TwoPushes;
    if b[0] == SYNC_BYTE {
      var m := UnsafeCut(Step(d, b[..PACKET_SIZE]).0, b[PACKET_SIZE..]);
      CutBehindPacket(d, b, m);
      n := PACKET_SIZE + m;
    } else {
      var p := FirstSync(b, 1);
      if p.None? || p.value >= PACKET_SIZE || (p.value + PACKET_SIZE < |b| && b[p.value + PACKET_SIZE] != SYNC_BYTE) {
        SearchDiffers(d, b);
        n := PACKET_SIZE;
      } else {
        var m := UnsafeCut(d, b[p.value..]);
        CutBehindSync(d, b, p.value, m);
        n := p.value + m;
      }
    }
  }

  // ----- bytes that belong to no packet -----

  predicate NoSync(g: ByteString) {
    forall i :: 0 <= i < |g| ==> g[i] != SYNC_BYTE
  }

  function Skips(lost: seq<nat>): seq<DemuxEvent> {
    seq(|lost|, i requires 0 <= i < |lost| => SyncRecovered(lost[i]))
  }

  function Total(lost: seq<nat>): nat
    decreases |lost|
  {
    if lost == [] then 0 else lost[0] + Total(lost[1..])
  }

  lemma SkipsFirst(n: nat, lost: seq<nat>, r: Drained)
    ensures Prepend([SyncRecovered(n)], Prepend(Skips(lost), r)) == Prepend(Skips([n] + lost), r)
    ensures Total([n] + lost) == n + Total(lost)
  {
    assert Skips([n] + lost) == [SyncRecovered(n)] + Skips(lost);
    assert ([n] + lost)[1..] == lost;
    PrependTwice([SyncRecovered(n)], Skips(lost), r);
  }

  /** The sync byte that ends the garbage is found in everything long enough that contains it. */
  lemma GarbageEnds(d: DemuxState, g: ByteString, b: ByteString)
    requires NoSync(g) && g != [] && Aligned(b) && b != [] && PACKET_SIZE <= |g + b|
    ensures Drain(d, g + b) == Prepend([SyncRecovered(|g|)], Drain(d, b))
  {
    hide Drain, FindNextSync;
    var data := g + b;
    assert data[0] == g[0];
    FirstIs(data, 1, |g|);
    ScanFrom(data, 1);
    if |g| + PACKET_SIZE < |data| {
      assert data[|g| + PACKET_SIZE] == b[PACKET_SIZE] == b[PACKET_SIZE..][0];
    }
    DrainFound(d, data, |g|);
    assert data[|g|..] == b;
  }

  lemma {:induction false} FirstIs(data: ByteString, from: nat, p: nat)
    requires from <= p < |data| && data[p] == SYNC_BYTE && forall i :: from <= i < p ==> data[i] != SYNC_BYTE
    ensures FirstSync(data, from) == Some(p)
    decreases p - from
  {
    if from < p {
      FirstIs(data, from + 1, p);
    }
  }

  /** Garbage alone is thrown away but for its last 187 bytes. */
  lemma GarbageDropped(d: DemuxState, g: ByteString)
    requires NoSync(g) && PACKET_SIZE <= |g|
    ensures var n := |g| - (PACKET_SIZE - 1); Drain(d, g) == Drained(d, g[n..], [SyncRecovered(n)])
  {
    hide FirstSync;
    ScanFrom(g, 1);
    assert FirstSync(g, 1).None?;
  }

  lemma {:induction false} AlignedPrefix(a: ByteString, b: ByteString)
    requires Aligned(a + b) && a != []
    ensures Aligned(a)
    decreases |a|
  {
    assert (a + b)[0] == a[0];
    if |a| > PACKET_SIZE {
      assert (a + b)[PACKET_SIZE..] == a[PACKET_SIZE..] + b;
      AlignedPrefix(a[PACKET_SIZE..], b);
    } else if |a| == PACKET_SIZE {
      assert a[PACKET_SIZE..] == [];
    }
  }

  lemma {:induction false} GarbageCuts(d: DemuxState, buffer: ByteString, cuts: seq<ByteString>, g: ByteString,
                                       b: ByteString)
    returns (lost: seq<nat>)
    requires |buffer| < PACKET_SIZE && buffer + Concat(cuts) == g + b
    requires NoSync(g) && Aligned(b) && b != [] && PACKET_SIZE <= |g + b|
    ensures DrainCuts(d, buffer, cuts) == Prepend(Skips(lost), Drain(d, b)) && Total(lost) == |g|
    decreases |cuts|
  {
    hide Drain, Aligned, CutSafe, NoSync;
    if g == [] {
      lost := [];
      assert g + b == b;
      AlignedIsSafe(b);
      SafeCuts(d, buffer, cuts);
      assert Skips([]) == [] && Prepend([], Drain(d, b)) == Drain(d, b);
    } else {
      assert cuts == [] ==> buffer + Concat(cuts) == buffer;
      var a, rest := buffer + cuts[0], Concat(cuts[1..]);
      assert a + rest == g + b;
      if |a| < PACKET_SIZE {
        DrainShort(d, a);
        lost := GarbageCuts(d, a, cuts[1..], g, b);
        assert DrainCuts(d, buffer, cuts) == Prepend([], DrainCuts(d, a, cuts[1..]));
      } else if |a| <= |g| {
        var n := |a| - (PACKET_SIZE - 1);
        WithinFirst(a, rest, g, b, n);
        PartOfGarbage(g, 0, |a|);
        PartOfGarbage(g, n, |g|);
        GarbageDropped(d, a);
        var more := GarbageCuts(d, a[n..], cuts[1..], g[n..], b);
        lost := [n] + more;
        SkipsFirst(n, more, Drain(d, b));
      } else {
        var head := a[|g|..];
        BeyondFirst(a, rest, g, b);
        AlignedPrefix(head, rest);
        GarbageEnds(d, g, head);
        lost := [|g|];
        RestAligned(d, head, cuts[1..], b);
        SkipsFirst(|g|, [], Drain(d, b));
        var first := Drain(d, head);
        PrependTwice([SyncRecovered(|g|)], first.events, DrainCuts(first.state, first.buffer, cuts[1..]));
        assert [|g|] + [] == lost && Skips([]) == [] && Prepend([], Drain(d, b)) == Drain(d, b);
      }
    }
  }

  lemma WithinFirst(a: ByteString, rest: ByteString, g: ByteString, b: ByteString, n: nat)
    requires a + rest == g + b && n <= |a| <= |g|
    ensures a == g[..|a|] == g[0..|a|] && g[n..] == g[n..|g|] && a[n..] + rest == g[n..] + b
  {
    assert a == (a + rest)[..|a|] == (g + b)[..|a|] == g[..|a|];
    assert (a + rest)[n..] == a[n..] + rest;
    assert (g + b)[n..] == g[n..] + b;
  }

  lemma BeyondFirst(a: ByteString, rest: ByteString, g: ByteString, b: ByteString)
    requires a + rest == g + b && |g| < |a|
    ensures a == g + a[|g|..] && a[|g|..] + rest == b
  {
    assert g == (g + b)[..|g|] == (a + rest)[..|g|] == a[..|g|];
    assert (a + rest)[|g|..] == a[|g|..] + rest;
    assert (g + b)[|g|..] == b;
  }

  lemma PartOfGarbage(g: ByteString, i: nat, j: nat)
    requires NoSync(g) && i <= j <= |g|
    ensures NoSync(g[i..j])
  {
  }

  lemma RestAligned(d: DemuxState, head: ByteString, cuts: seq<ByteString>, b: ByteString)
    requires Aligned(b) && head + Concat(cuts) == b
    ensures var first := Drain(d, head);
            Prepend(first.events, DrainCuts(first.state, first.buffer, cuts)) == Drain(d, b)
  {
    hide Drain, Aligned, CutSafe;
    AlignedIsSafe(b);
    assert ([head] + cuts)[1..] == cuts && [] + head == head;
    assert Concat([head] + cuts) == b && [] + b == b;
    SafeCuts(d, [], [head] + cuts);
  }

  // ----- main results -----

  /** Main result, the exact condition: from any state, every cut of the bytes into pushes ends in the
      same events, state and left-over bytes as one push if and only if the bytes are safe. */
  lemma CutsAgreeIff(d: DemuxState, b: ByteString)
    ensures (forall cuts: seq<ByteString> :: Concat(cuts) == b ==> DrainCuts(d, [], cuts) == Drain(d, b)) <==>
            CutSafe(b)
  {
    hide Drain, DrainCuts, CutSafe;
    if CutSafe(b) {
      forall cuts: seq<ByteString> | Concat(cuts) == b ensures DrainCuts(d, [], cuts) == Drain(d, b) {
        assert [] + b == b;
        SafeCuts(d, [], cuts);
      }
    } else {
      var n := UnsafeCut(d, b);
      TwoPushesAreCuts(d, b, n);
      TwoParts(b, n);
    }
  }

  lemma TwoParts(b: ByteString, n: nat)
    requires n <= |b|
    ensures Concat([b[..n], b[n..]]) == b
  {
    assert [b[..n], b[n..]][1..] == [b[n..]] && [b[n..]][1..] == [];
    assert Concat([b[n..]]) == b[n..] + Concat([]) == b[n..];
  }

  /** On bytes with a sync byte at every packet boundary no cut matters. */
  lemma CutIndependence(d: DemuxState, b: ByteString, cuts: seq<ByteString>)
    requires Aligned(b) && Concat(cuts) == b
    ensures DrainCuts(d, [], cuts) == Drain(d, b)
  {
    hide Drain, DrainCuts, CutSafe, Aligned;
    AlignedIsSafe(b);
    CutsAgreeIff(d, b);
  }

  /** A concrete case: of 377 bytes that hold one false sync byte, a single push discards 190; when the
      same bytes come in two pushes, the first of them resynchronises after one byte. */
  lemma ResyncDependsOnTheCut(d: DemuxState)
    ensures var whole := [0, SYNC_BYTE] + Fill(375, 0);
            && Drain(d, whole).events == [SyncRecovered(190)]
            && TwoPushes(d, whole, 188).events != [] && TwoPushes(d, whole, 188).events[0] == SyncRecovered(1)
  {
    hide Step, Drain, FindNextSync;
    var whole := [0, SYNC_BYTE] + Fill(375, 0);
    var head := whole[..188];
    assert whole[189] == 0 && FirstSync(whole, 1) == Some(1);
    ScanFrom(whole, 1);
    NoOtherSync(whole);
    assert head[1] == SYNC_BYTE && FirstSync(head, 1) == Some(1);
    ScanFrom(head, 1);
    DrainLost(d, whole, []);
    assert [] + [SyncRecovered(190)] == [SyncRecovered(190)];
    assert Prepend([], Drain(d, whole)) == Drain(d, whole);
    FirstEvent(d, head);
  }

  lemma NoOtherSync(whole: ByteString)
    requires whole == [0, SYNC_BYTE] + Fill(375, 0)
    ensures FindNextSync(whole, 1).None?
  {
    hide FirstSync;
    assert whole[189] == 0;
    assert FirstSync(whole, 2).None?;
    ScanFrom(whole, 2);
  }

  /** A receiver that joins in the middle recovers: bytes without a sync byte in front of aligned ones are
      skipped in every cut, all counted, and everything else is as if they had not been there. */
  lemma GarbageIsSkipped(d: DemuxState, cuts: seq<ByteString>, g: ByteString, b: ByteString)
    requires NoSync(g) && Aligned(b) && b != [] && PACKET_SIZE <= |g + b| && Concat(cuts) == g + b
    ensures exists lost: seq<nat> ::
              Total(lost) == |g| && DrainCuts(d, [], cuts) == Prepend(Skips(lost), Drain(d, b))
  {
    hide Drain, DrainCuts, Aligned, NoSync;
    assert [] + Concat(cuts) == g + b;
    var lost := GarbageCuts(d, [], cuts, g, b);
  }
}
