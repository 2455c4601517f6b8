/** The exact limit of section reassembly: a layout that sends everything is returned exactly if and only if
    no continuation payload begins with 0xff (crates/mpegts/src/stream.rs:73-140). */
module SectionLoss {
  import opened Bytes
  import opened Psi
  import opened Reassembly

  // ----- what becomes of the bytes -----

  /** The bytes other than 0xff: stuffing weighs nothing. */
  function Weight(bytes: ByteString): nat
    decreases |bytes|
  {
    if bytes == [] then 0 else (if bytes[0] == 0xff then 0 else 1) + Weight(bytes[1..])
  }

  lemma NothingWeighsNothing()
    ensures Weight([]) == 0 && Weight(Concat([])) == 0
  {
  }

  lemma {:induction false} WeightAppend(a: ByteString, b: ByteString)
    ensures Weight(a + b) == Weight(a) + Weight(b)
    decreases |a|
  {
    if a == [] {
      assert a + b == b;
    } else {
      assert (a + b)[1..] == a[1..] + b;
      WeightAppend(a[1..], b);
    }
  }

  lemma WeightSplit(bytes: ByteString, n: nat)
    requires n <= |bytes|
    ensures Weight(bytes) == Weight(bytes[..n]) + Weight(bytes[n..])
  {
    WeightAppend(bytes[..n], bytes[n..]);
    assert bytes[..n] + bytes[n..] == bytes;
  }

  lemma {:induction false} StuffingWeighsNothing(n: nat)
    ensures Weight(Fill(n, 0xff)) == 0
    decreases n
  {
    if n > 0 {
      assert Fill(n, 0xff)[1..] == Fill(n - 1, 0xff);
      StuffingWeighsNothing(n - 1);
    }
  }

  lemma ConcatWeight(a: seq<ByteString>, b: seq<ByteString>)
    ensures Weight(Concat(a + b)) == Weight(Concat(a)) + Weight(Concat(b))
  {
    ConcatAppend(a, b);
    WeightAppend(Concat(a), Concat(b));
  }

  /** One append loses no byte it consumes. */
  lemma AppendConserves(a: SectionAssembler, input: ByteString)
    ensures var r := Append(a, input);
            if r.completed == [] then r.assembler.data == a.data + input[..r.consumed]
            else r.completed == [a.data + input[..r.consumed]] && r.assembler == EMPTY_SECTION
  {
    var header := Min(SaturatingSub(3, |a.data|), |input|);
    var r := Append(a, input);
    if input != [] && r.consumed >= header {
      assert a.data + input[..header] + input[header..r.consumed] == a.data + input[..r.consumed];
    }
  }

  /** What a payload is appended to is the beginning of the first section completed, or of what is held;
      what comes out weighs no more than what went in. */
  lemma {:induction false} AppendAllConserves(a: SectionAssembler, input: ByteString)
    ensures var (b, completed) := AppendAll(a, input);
            && a.data <= (if completed == [] then b.data else completed[0])
            && Weight(Concat(completed)) + Weight(b.data) <= Weight(a.data) + Weight(input)
    decreases |input|
  {
    hide Append, Weight;
    NothingWeighsNothing();
    if input != [] && input[0] != 0xff {
      var r := Append(a, input);
      AppendConserves(a, input);
      WeightAppend(a.data, input[..r.consumed]);
      WeightSplit(input, r.consumed);
      if r.completed != [] {
        assert r.completed[1..] == [] && Concat(r.completed) == r.completed[0] + [] == r.completed[0];
      }
      if r.consumed > 0 {
        AppendAllConserves(r.assembler, input[r.consumed..]);
        ConcatWeight(r.completed, AppendAll(r.assembler, input[r.consumed..]).1);
      }
    }
  }

  lemma PushContinuation(a: SectionAssembler, payload: ByteString)
    ensures var (b, completed) := SectionPush(a, payload, false);
            && a.data <= (if completed == [] then b.data else completed[0])
            && Weight(Concat(completed)) + Weight(b.data) <= Weight(a.data) + Weight(payload)
  {
    hide AppendAll;
    if a.data != [] {
      AppendAllConserves(a, payload);
    }
  }

  /** A payload with the start flag, cut behind the bytes its pointer field claims for the open section. */
  lemma PushStart(a: SectionAssembler, pointer: Byte, tail: ByteString, body: ByteString)
    requires pointer == |tail|
    ensures var (b, completed) := SectionPush(a, [pointer] + tail + body, true);
            && Weight(Concat(completed)) + Weight(b.data) <= Weight(a.data) + Weight(tail + body)
            && (a.data != [] && a.data[0] != 0xff ==>
                  || (completed != [] && a.data <= completed[0] && |completed[0]| <= |a.data| + |tail|)
                  || Weight(Concat(completed)) + Weight(b.data) < Weight(a.data) + Weight(tail + body))
  {
    hide AppendAll, Append;
    var payload := [pointer] + tail + body;
    assert payload[1..1 + |tail|] == tail && payload[1 + |tail|..] == body;
    var r := if a.data == [] then Appended(a, 0, []) else Append(a, tail);
    var b := if r.assembler.data == [] then r.assembler else EMPTY_SECTION;
    assert SectionPush(a, payload, true) == (AppendAll(b, body).0, r.completed + AppendAll(b, body).1);
    WeightAppend(tail, body);
    AppendAllConserves(b, body);
    ConcatWeight(r.completed, AppendAll(b, body).1);
    if a.data != [] {
      AppendConserves(a, tail);
      WeightAppend(a.data, tail[..r.consumed]);
      WeightSplit(tail, r.consumed);
      if r.completed != [] {
        assert r.completed[1..] == [] && Concat(r.completed) == r.completed[0] + [] == r.completed[0];
      }
    }
  }

  // ----- what a plan still carries -----

  /** The bytes of the sections that are not sent yet. */
  function Unsent(s: Sender): ByteString
    requires Sending(s)
  {
    Tail(s) + Concat(Behind(s))
  }

  lemma ContinuationCarries(s: Sender, piece: Piece)
    requires Sending(s) && Fits(s, piece) && piece.Continuation?
    ensures Weight(Render(s, piece)) + Weight(Unsent(Next(s, piece))) == Weight(Unsent(s))
  {
    var section := s.queue[0];
    var part, rest := section[s.done..s.done + piece.take], section[s.done + piece.take..];
    assert Tail(s) == part + rest;
    WeightAppend(part, rest);
    WeightAppend(Tail(s), Concat(Behind(s)));
    WeightAppend(part, Fill(piece.stuffing, 0xff));
    StuffingWeighsNothing(piece.stuffing);
    WeightAppend(Tail(Next(s, piece)), Concat(Behind(Next(s, piece))));
  }

  function BodyOf(s: Sender, piece: Piece): ByteString
    requires Sending(s) && Fits(s, piece) && piece.Start?
  {
    Concat(Behind(s)[..piece.whole])
    + (Opening(Behind(s)[piece.whole..], piece.partial) + Fill(piece.stuffing, 0xff))
  }

  lemma StartCarries(s: Sender, piece: Piece)
    requires Sending(s) && Fits(s, piece) && piece.Start?
    ensures Render(s, piece) == [|Tail(s)|] + Tail(s) + BodyOf(s, piece)
    ensures Weight(Tail(s) + BodyOf(s, piece)) + Weight(Unsent(Next(s, piece))) == Weight(Unsent(s))
  {
    var whole, behind, next := Behind(s)[..piece.whole], Behind(s)[piece.whole..], Next(s, piece);
    assert whole + behind == Behind(s);
    ConcatWeight(whole, behind);
    StuffingWeighsNothing(piece.stuffing);
    WeightAppend(Concat(whole), Opening(behind, piece.partial) + Fill(piece.stuffing, 0xff));
    WeightAppend(Opening(behind, piece.partial), Fill(piece.stuffing, 0xff));
    WeightAppend(Tail(s), BodyOf(s, piece));
    WeightAppend(Tail(s), Concat(Behind(s)));
    WeightAppend(Tail(next), Concat(Behind(next)));
    if piece.partial > 0 {
      WeightSplit(behind[0], piece.partial);
      WeightAppend(behind[0], Concat(behind[1..]));
    }
  }

  lemma PieceCarries(a: SectionAssembler, s: Sender, piece: Piece)
    requires Sending(s) && Fits(s, piece)
    ensures var (b, completed) := SectionPush(a, Render(s, piece), piece.Start?);
            && Weight(Concat(completed)) + Weight(b.data) + Weight(Unsent(Next(s, piece)))
               <= Weight(a.data) + Weight(Unsent(s))
            && (a.data != [] && a.data[0] != 0xff ==>
                  || a.data <= (if completed == [] then b.data else completed[0])
                  || Weight(Concat(completed)) + Weight(b.data) + Weight(Unsent(Next(s, piece)))
                     < Weight(a.data) + Weight(Unsent(s)))
  {
    hide SectionPush, Weight, Concat, Render, Unsent, Next, BodyOf;
    if piece.Continuation? {
      PushContinuation(a, Render(s, piece));
      ContinuationCarries(s, piece);
    } else {
      StartCarries(s, piece);
      PushStart(a, |Tail(s)|, Tail(s), BodyOf(s, piece));
    }
  }

  /** From any assembler, a plan returns and leaves held no more than it held and still had to send. */
  lemma {:induction false} RunCarries(a: SectionAssembler, s: Sender, pieces: seq<Piece>)
    requires Sending(s) && Plan(s, pieces)
    ensures var (b, completed) := Receive(a, s, pieces);
            Weight(Concat(completed)) + Weight(b.data) + Weight(Unsent(End(s, pieces)))
            <= Weight(a.data) + Weight(Unsent(s))
    decreases |pieces|
  {
    hide SectionPush, Weight, Concat, Render, Unsent, Next, Fits, Sending;
    if pieces == [] {
      assert Weight(Concat([])) == 0 by { NothingWeighsNothing(); }
    } else {
      var piece := pieces[0];
      PieceCarries(a, s, piece);
      var (b, first) := SectionPush(a, Render(s, piece), piece.Start?);
      RunCarries(b, Next(s, piece), pieces[1..]);
      ConcatWeight(first, Receive(b, Next(s, piece), pieces[1..]).1);
    }
  }

  // ----- a receiver that has lost bytes -----

  /** Weight was lost, so the sections cannot all be returned. */
  lemma LostWeight(b: SectionAssembler, first: seq<ByteString>, s: Sender, pieces: seq<Piece>, target: seq<ByteString>)
    requires Sending(s) && Plan(s, pieces)
    requires Weight(Concat(first)) + Weight(b.data) + Weight(Unsent(s)) < Weight(Concat(target))
    ensures first + Receive(b, s, pieces).1 != target
  {
    hide SectionPush, Weight, Concat, Unsent, Next, Fits, Sending, Receive;
    RunCarries(b, s, pieces);
    ConcatWeight(first, Receive(b, s, pieces).1);
  }

  /** A receiver that holds what is not the beginning of the next section never returns them all. */
  lemma {:induction false} Poisoned(a: SectionAssembler, s: Sender, pieces: seq<Piece>, target: seq<ByteString>)
    requires Sending(s) && Plan(s, pieces)
    requires a.data != [] && a.data[0] != 0xff && target != [] && !(a.data <= target[0])
    requires Weight(a.data) + Weight(Unsent(s)) <= Weight(Concat(target))
    ensures Receive(a, s, pieces) != (EMPTY_SECTION, target)
    decreases |pieces|
  {
    hide SectionPush, Weight, Concat, Render, Unsent, Next, Fits, Sending;
    if pieces != [] {
      var piece, next := pieces[0], Next(s, pieces[0]);
      PieceCarries(a, s, piece);
      var (b, first) := SectionPush(a, Render(s, piece), piece.Start?);
      var rest := Receive(b, next, pieces[1..]);
      if first == [] {
        assert Weight(Concat([])) == 0 by { NothingWeighsNothing(); }
        assert first + rest.1 == rest.1;
        if a.data <= b.data {
          Poisoned(b, next, pieces[1..], target);
        } else {
          LostWeight(b, first, next, pieces[1..], target);
        }
      } else if a.data <= first[0] {
        assert (first + rest.1)[0] == first[0];
      } else {
        LostWeight(b, first, next, pieces[1..], target);
      }
    }
  }

  /** A continuation behind a gap is taken into the wrong place. */
  lemma GapFilled(section: ByteString, done: nat, payload: ByteString)
    requires WholeSectionBytes(section) && 0 < done < |section| && section[done] == 0xff
    requires payload != [] && payload[0] != 0xff
    ensures var (b, completed) := SectionPush(Holding(section, done), payload, false);
            var data := if completed == [] then b.data else completed[0];
            data != [] && data[0] == section[0] && !(data <= section)
  {
    hide Append, WholeSectionBytes;
    var a := Holding(section, done);
    var r := Append(a, payload);
    assert |a.data| == done && r.consumed > 0 by { RoomForOne(section, done, payload); }
    AppendConserves(a, payload);
    assert (a.data + payload[..r.consumed])[done] == payload[0];
    AppendAllConserves(r.assembler, payload[r.consumed..]);
    var (b, completed) := SectionPush(a, payload, false);
    var data := if completed == [] then b.data else completed[0];
    assert a.data + payload[..r.consumed] <= data;
    assert data[done] == payload[0] && data[0] == a.data[0];
  }

  lemma RoomForOne(section: ByteString, done: nat, payload: ByteString)
    requires 0 < done < |section| && payload != []
    ensures Append(Holding(section, done), payload).consumed > 0
  {
  }

  /** The sender is past the first 0xff that the receiver did not take: inside the same section or behind
      it. What it still sends cannot make up for the bytes that are lost. */
  lemma {:induction false} Behindhand(section: ByteString, done: nat, s: Sender, pieces: seq<Piece>,
                                      target: seq<ByteString>)
    requires Sending(s) && Plan(s, pieces)
    requires WholeSectionBytes(section) && 0 < done < |section| && section[done] == 0xff
    requires target != [] && target[0] == section
    requires s.done > 0 ==> s.done > done && s.queue[0] == section
    requires Weight(Holding(section, done).data) + Weight(Unsent(s)) <= Weight(Concat(target))
    ensures Receive(Holding(section, done), s, pieces) != (EMPTY_SECTION, target)
    decreases |pieces|
  {
    hide SectionPush, Weight, Concat, Render, Unsent, WholeSectionBytes;
    var a := Holding(section, done);
    assert a.data != [] && a.data[0] == section[0];
    if pieces != [] {
      var piece, next := pieces[0], Next(s, pieces[0]);
      var (b, first) := SectionPush(a, Render(s, piece), piece.Start?);
      var rest := Receive(b, next, pieces[1..]);
      assert WholeSectionBytes(section) && section[0] != 0xff by { FirstByte(section); }
      PieceCarries(a, s, piece);
      if piece.Start? {
        StartBehindhand(section, done, s, piece, target);
        if first != [] && |first[0]| < |section| {
          assert (first + rest.1)[0] == first[0];
        } else {
          LostWeight(b, first, next, pieces[1..], target);
        }
      } else if section[s.done] == 0xff {
        Ignored(s, piece, a);
        assert [] + rest.1 == rest.1;
        assert Weight(Concat([])) == 0 by { NothingWeighsNothing(); }
        Behindhand(section, done, next, pieces[1..], target);
      } else {
        TakenFirst(s, piece);
        GapFilled(section, done, Render(s, piece));
        if first == [] {
          assert [] + rest.1 == rest.1;
          assert Weight(Concat([])) == 0 by { NothingWeighsNothing(); }
          Poisoned(b, next, pieces[1..], target);
        } else {
          assert (first + rest.1)[0] == first[0];
        }
      }
    }
  }

  lemma FirstByte(section: ByteString)
    requires WholeSectionBytes(section)
    ensures section != [] && section[0] != 0xff
  {
  }

  lemma TakenFirst(s: Sender, piece: Piece)
    requires Sending(s) && Fits(s, piece) && piece.Continuation?
    ensures Render(s, piece) != [] && Render(s, piece)[0] == s.queue[0][s.done]
  {
  }

  lemma Ignored(s: Sender, piece: Piece, a: SectionAssembler)
    requires Sending(s) && Fits(s, piece) && piece.Continuation? && s.queue[0][s.done] == 0xff
    ensures SectionPush(a, Render(s, piece), false) == (a, [])
  {
    TakenFirst(s, piece);
    hide Render, Append;
  }

  /** The next start flag drops what is held, unless a shorter section came of it. */
  lemma StartBehindhand(section: ByteString, done: nat, s: Sender, piece: Piece, target: seq<ByteString>)
    requires Sending(s) && Fits(s, piece) && piece.Start?
    requires WholeSectionBytes(section) && 0 < done < |section|
    requires s.done > 0 ==> s.done > done && s.queue[0] == section
    ensures var a := Holding(section, done);
            var (b, completed) := SectionPush(a, Render(s, piece), true);
            || (completed != [] && |completed[0]| < |section|)
            || Weight(Concat(completed)) + Weight(b.data) + Weight(Unsent(Next(s, piece)))
               < Weight(a.data) + Weight(Unsent(s))
  {
    hide SectionPush, Weight, Concat, Render, Unsent, BodyOf, Next;
    var a := Holding(section, done);
    assert a.data[0] == section[0];
    StartCarries(s, piece);
    PushStart(a, |Tail(s)|, Tail(s), BodyOf(s, piece));
  }

  // ----- the exact limit -----

  lemma AllUnsent(s: Sender)
    requires Sending(s)
    ensures Weight(HeldBy(s).data) + Weight(Unsent(s)) == Weight(Concat(s.queue))
  {
    hide WholeSectionBytes, Weight;
    if s.done > 0 {
      var section := s.queue[0];
      WeightSplit(section, s.done);
      WeightAppend(section, Concat(s.queue[1..]));
      WeightAppend(Tail(s), Concat(Behind(s)));
    } else {
      assert Unsent(s) == [] + Concat(s.queue) == Concat(s.queue);
      assert Weight([]) == 0 by { NothingWeighsNothing(); }
    }
  }

  lemma {:induction false} UnreadableLoses(s: Sender, pieces: seq<Piece>)
    requires Sending(s) && Plan(s, pieces) && !AllReadable(s, pieces)
    ensures Receive(HeldBy(s), s, pieces) != (EMPTY_SECTION, s.queue)
    decreases |pieces|
  {
    hide SectionPush, Render, Weight, Concat, Unsent, WholeSectionBytes, Append;
    var piece, next := pieces[0], Next(s, pieces[0]);
    var (b, first) := SectionPush(HeldBy(s), Render(s, piece), piece.Start?);
    var rest := Receive(b, next, pieces[1..]);
    if Readable(s, piece) {
      PiecePushed(s, piece);
      UnreadableLoses(next, pieces[1..]);
      if first + rest.1 == s.queue {
        assert rest.1 == (first + rest.1)[|first|..] == (first + next.queue)[|first|..] == next.queue;
      }
    } else {
      Ignored(s, piece, HeldBy(s));
      assert [] + rest.1 == rest.1;
      AllUnsent(s);
      PieceCarries(HeldBy(s), s, piece);
      assert Weight(Concat([])) == 0 by { NothingWeighsNothing(); }
      Behindhand(s.queue[0], s.done, next, pieces[1..], s.queue);
    }
  }

  /** Main result: a plan that sends everything is returned exactly and in order if and only if none of its
      continuation payloads begins with 0xff. */
  lemma ReassembledIff(sections: seq<ByteString>, pieces: seq<Piece>)
    requires Sections(sections) && Plan(Sender(sections, 0), pieces)
    requires End(Sender(sections, 0), pieces).queue == []
    ensures Receive(EMPTY_SECTION, Sender(sections, 0), pieces) == (EMPTY_SECTION, sections)
            <==> AllReadable(Sender(sections, 0), pieces)
  {
    hide Receive, AllReadable, End, Plan;
    var s := Sender(sections, 0);
    if AllReadable(s, pieces) {
      SectionsReassembled(sections, pieces);
    } else {
      assert HeldBy(s) == EMPTY_SECTION;
      UnreadableLoses(s, pieces);
    }
  }

  /** A section of four bytes, the last of which comes alone and is 0xff. */
  const SPLIT_SECTION: ByteString := [2, 0, 1, 0xff]

  /** The concrete case: the section is never returned. */
  lemma SplitSectionLost()
    ensures var s := Sender([SPLIT_SECTION], 0);
            var pieces := [Start(0, 3, 0), Continuation(1, 0)];
            && Sending(s) && Plan(s, pieces) && End(s, pieces).queue == []
            && Receive(EMPTY_SECTION, s, pieces).1 == []
  {
    var s := Sender([SPLIT_SECTION], 0);
    var pieces := [Start(0, 3, 0), Continuation(1, 0)];
    assert Sections([SPLIT_SECTION]);
    var open := Next(s, pieces[0]);
    assert pieces[1..] == [Continuation(1, 0)] && pieces[1..][1..] == [];
    assert open == Sender([SPLIT_SECTION], 3);
    assert Readable(s, pieces[0]);
    PiecePushed(s, pieces[0]);
    Ignored(open, pieces[1], HeldBy(open));
    var first := SectionPush(EMPTY_SECTION, Render(s, pieces[0]), true).1;
    assert first == [] by { assert |first + open.queue| == |first| + 1; }
    assert Plan(Next(open, pieces[1]), []);
    assert Plan(open, pieces[1..]);
    var end := Receive(HeldBy(open), open, pieces[1..]);
    assert Receive(HeldBy(open), Next(open, pieces[1]), []) == (HeldBy(open), []);
    assert [] + [] == end.1;
    assert first + end.1 == [];
  }
}
