/** Sections laid out over transport payloads are reassembled exactly and in order. */
module Reassembly {
  import opened Bytes
  import opened Psi

  /** What a sender puts into one payload, given the sections still to send and how many bytes of
      the first one are out already. */
  datatype Piece =
    | Continuation(take: nat, stuffing: nat)
    | Start(whole: nat, partial: nat, stuffing: nat)

  datatype Sender = Sender(queue: seq<ByteString>, done: nat)

  predicate Sections(queue: seq<ByteString>) {
    forall i :: 0 <= i < |queue| ==> WholeSectionBytes(queue[i])
  }

  predicate Sending(s: Sender) {
    Sections(s.queue) && (s.done > 0 ==> s.queue != [] && s.done < |s.queue[0]|)
  }

  /** The rest of the open section, and the sections behind it. */
  function Tail(s: Sender): ByteString
    requires Sending(s)
  {
    if s.done > 0 then s.queue[0][s.done..] else []
  }

  function Behind(s: Sender): seq<ByteString>
    requires Sending(s)
  {
    if s.done > 0 then s.queue[1..] else s.queue
  }

  /** A payload without the start flag continues the open section and may be stuffed once it ends. A
      payload with the start flag ends the open section, then holds whole sections and the beginning of
      one more, or stuffing. */
  predicate Fits(s: Sender, piece: Piece)
    requires Sending(s)
  {
    match piece
    case Continuation(take, stuffing) =>
      && s.done > 0 && 1 <= take && s.done + take <= |s.queue[0]|
      && (stuffing > 0 ==> s.done + take == |s.queue[0]|)
    case Start(whole, partial, stuffing) =>
      && |Tail(s)| <= 0xff && whole <= |Behind(s)|
      && (partial > 0 ==> whole < |Behind(s)| && partial < |Behind(s)[whole]| && stuffing == 0)
  }

  /** Not a continuation that begins with 0xff, the value of a stuffing byte. */
  predicate Readable(s: Sender, piece: Piece)
    requires Sending(s) && Fits(s, piece)
  {
    piece.Continuation? ==> s.queue[0][s.done] != 0xff
  }

  function Opening(queue: seq<ByteString>, partial: nat): ByteString
    requires partial > 0 ==> queue != [] && partial < |queue[0]|
  {
    if partial > 0 then queue[0][..partial] else []
  }

  function Render(s: Sender, piece: Piece): ByteString
    requires Sending(s) && Fits(s, piece)
  {
    match piece
    case Continuation(take, stuffing) => s.queue[0][s.done..s.done + take] + Fill(stuffing, 0xff)
    case Start(whole, partial, stuffing) =>
      [|Tail(s)|] + Tail(s)
      + (Concat(Behind(s)[..whole]) + (Opening(Behind(s)[whole..], partial) + Fill(stuffing, 0xff)))
  }

  function Next(s: Sender, piece: Piece): (n: Sender)
    requires Sending(s) && Fits(s, piece)
    ensures Sending(n)
  {
    match piece
    case Continuation(take, stuffing) =>
      if s.done + take == |s.queue[0]| then Sender(s.queue[1..], 0) else Sender(s.queue, s.done + take)
    case Start(whole, partial, stuffing) => Sender(Behind(s)[whole..], partial)
  }

  /** A plan that fits at every step. */
  predicate Plan(s: Sender, pieces: seq<Piece>)
    requires Sending(s)
    decreases |pieces|
  {
    pieces == [] || (Fits(s, pieces[0]) && Plan(Next(s, pieces[0]), pieces[1..]))
  }

  predicate AllReadable(s: Sender, pieces: seq<Piece>)
    requires Sending(s) && Plan(s, pieces)
    decreases |pieces|
  {
    pieces == [] || (Readable(s, pieces[0]) && AllReadable(Next(s, pieces[0]), pieces[1..]))
  }

  function End(s: Sender, pieces: seq<Piece>): (e: Sender)
    requires Sending(s) && Plan(s, pieces)
    ensures Sending(e)
    decreases |pieces|
  {
    if pieces == [] then s else End(Next(s, pieces[0]), pieces[1..])
  }

  /** The assembler fed with the payloads of a plan. */
  function Receive(a: SectionAssembler, s: Sender, pieces: seq<Piece>): (SectionAssembler, seq<ByteString>)
    requires Sending(s) && Plan(s, pieces)
    decreases |pieces|
  {
    if pieces == [] then (a, [])
    else
      var (next, first) := SectionPush(a, Render(s, pieces[0]), pieces[0].Start?);
      var (end, rest) := Receive(next, Next(s, pieces[0]), pieces[1..]);
      (end, first + rest)
  }

  /** The assembler that holds the first `done` bytes of a section; below three bytes the length is
      still unknown. */
  function Holding(section: ByteString, done: nat): SectionAssembler
    requires done <= |section|
  {
    SectionAssembler(section[..done], if done < 3 then None else Some(|section|))
  }

  function HeldBy(s: Sender): SectionAssembler
    requires Sending(s)
  {
    if s.done > 0 then Holding(s.queue[0], s.done) else EMPTY_SECTION
  }

  /** `k` more bytes of a section, with `more` after them only when they complete it. */
  lemma AppendPart(section: ByteString, done: nat, k: nat, more: ByteString)
    requires WholeSectionBytes(section) && done < |section| && 1 <= k && done + k <= |section|
    requires done + k < |section| ==> more == []
    ensures Append(Holding(section, done), section[done..done + k] + more)
            == if done + k == |section| then Appended(EMPTY_SECTION, k, [section])
               else Appended(Holding(section, done + k), k, [])
  {
    var input := section[done..done + k] + more;
    var header := Min(SaturatingSub(3, done), |input|);
    assert header <= k;
    assert input[..header] == section[done..done + header];
    HeaderPart(section, done, header, input);
    hide KnowLength, WholeSectionBytes;
    if 3 <= done + header {
      BodyPart(section, done, header, k, input);
    }
  }

  lemma BodyPart(section: ByteString, done: nat, header: nat, k: nat, input: ByteString)
    requires 3 <= done + header && done + header <= done + k <= |section| && k <= |input|
    requires input[..k] == section[done..done + k] && (done + k < |section| ==> |input| == k)
    ensures var take := Min(SaturatingSub(|section|, done + header), |input| - header);
            take == k - header && section[..done + header] + input[header..header + take] == section[..done + k]
    ensures done + k == |section| ==> section[..done + k] == section
  {
    assert input[header..k] == input[..k][header..] == section[done + header..done + k];
  }

  lemma HeaderPart(section: ByteString, done: nat, header: nat, input: ByteString)
    requires WholeSectionBytes(section) && header <= |input| && done + header <= |section|
    requires input[..header] == section[done..done + header]
    requires (done < 3 && done + header <= 3) || header == 0
    ensures KnowLength(SectionAssembler(section[..done] + input[..header], Holding(section, done).expected))
            == Holding(section, done + header)
  {
    assert section[..done] + section[done..done + header] == section[..done + header];
  }

  lemma AppendOne(section: ByteString, tail: ByteString)
    requires WholeSectionBytes(section)
    ensures var (b, more) := AppendAll(EMPTY_SECTION, tail);
            AppendAll(EMPTY_SECTION, section + tail) == (b, [section] + more)
  {
    hide Append;
    AppendPart(section, 0, |section|, tail);
    assert Holding(section, 0) == EMPTY_SECTION;
    assert section[0..0 + |section|] == section;
    assert (section + tail)[|section|..] == tail;
  }

  lemma AppendLast(queue: seq<ByteString>, partial: nat, stuffing: nat)
    requires Sections(queue)
    requires partial > 0 ==> queue != [] && partial < |queue[0]| && stuffing == 0
    ensures AppendAll(EMPTY_SECTION, Opening(queue, partial) + Fill(stuffing, 0xff)) ==
            (HeldBy(Sender(queue, partial)), [])
  {
    hide Append;
    var last := Opening(queue, partial) + Fill(stuffing, 0xff);
    if partial > 0 {
      AppendPart(queue[0], 0, partial, []);
      assert Holding(queue[0], 0) == EMPTY_SECTION;
      assert queue[0][0..0 + partial] + [] == last;
      assert last[partial..] == [];
    } else {
      assert last == Fill(stuffing, 0xff);
    }
  }

  /** Whole sections, then the beginning of one more or stuffing. */
  lemma {:induction false} AppendWholes(queue: seq<ByteString>, whole: nat, partial: nat, stuffing: nat)
    requires Sections(queue) && whole <= |queue|
    requires partial > 0 ==> whole < |queue| && partial < |queue[whole]| && stuffing == 0
    ensures AppendAll(EMPTY_SECTION, Concat(queue[..whole]) + (Opening(queue[whole..], partial) + Fill(stuffing, 0xff)))
            == (HeldBy(Sender(queue[whole..], partial)), queue[..whole])
    decreases whole
  {
    hide AppendAll, WholeSectionBytes, Opening;
    var last := Opening(queue[whole..], partial) + Fill(stuffing, 0xff);
    if whole == 0 {
      assert Concat(queue[..0]) + last == last;
      AppendLast(queue[0..], partial, stuffing);
    } else {
      var section, rest := queue[0], queue[1..];
      assert queue[..whole][1..] == rest[..whole - 1] && queue[whole..] == rest[whole - 1..];
      assert Concat(queue[..whole]) + last == section + (Concat(rest[..whole - 1]) + last);
      AppendOne(section, Concat(rest[..whole - 1]) + last);
      AppendWholes(rest, whole - 1, partial, stuffing);
      assert queue[..whole] == [section] + rest[..whole - 1];
    }
  }

  lemma StuffingIgnored(stuffing: nat)
    ensures AppendAll(EMPTY_SECTION, Fill(stuffing, 0xff)) == (EMPTY_SECTION, [])
  {
  }

  lemma ContinuationPushed(s: Sender, piece: Piece)
    requires Sending(s) && Fits(s, piece) && Readable(s, piece) && piece.Continuation?
    ensures var (a, completed) := SectionPush(HeldBy(s), Render(s, piece), false);
            a == HeldBy(Next(s, piece)) && completed + Next(s, piece).queue == s.queue
  {
    hide Append;
    var section, payload := s.queue[0], Render(s, piece);
    AppendPart(section, s.done, piece.take, Fill(piece.stuffing, 0xff));
    assert payload[0] == section[s.done];
    assert payload[piece.take..] == Fill(piece.stuffing, 0xff);
    StuffingIgnored(piece.stuffing);
    if s.done + piece.take == |section| {
      assert AppendAll(HeldBy(s), payload) == (EMPTY_SECTION, [section] + []);
      assert [section] + [] + s.queue[1..] == s.queue;
    } else {
      assert Fill(piece.stuffing, 0xff) == [];
      assert AppendAll(HeldBy(s), payload) == (Holding(section, s.done + piece.take), [] + []);
      assert [] + [] + s.queue == s.queue;
    }
  }

  lemma StartPushed(s: Sender, piece: Piece)
    requires Sending(s) && Fits(s, piece) && piece.Start?
    ensures var (a, completed) := SectionPush(HeldBy(s), Render(s, piece), true);
            a == HeldBy(Next(s, piece)) && completed + Next(s, piece).queue == s.queue
  {
    hide Append, AppendAll;
    var tail, payload := Tail(s), Render(s, piece);
    var whole := Behind(s)[..piece.whole];
    var body := Concat(whole) + (Opening(Behind(s)[piece.whole..], piece.partial) + Fill(piece.stuffing, 0xff));
    assert payload[0] == |tail|;
    assert payload[1..1 + |tail|] == tail && payload[1 + |tail|..] == body;
    AppendWholes(Behind(s), piece.whole, piece.partial, piece.stuffing);
    assert whole + Behind(s)[piece.whole..] == Behind(s);
    if s.done > 0 {
      var section := s.queue[0];
      AppendPart(section, s.done, |tail|, []);
      assert section[s.done..s.done + |tail|] + [] == tail;
      assert [section] + whole + Behind(s)[piece.whole..] == s.queue;
    } else {
      assert [] + whole == whole;
    }
  }

  lemma PiecePushed(s: Sender, piece: Piece)
    requires Sending(s) && Fits(s, piece) && Readable(s, piece)
    ensures var (a, completed) := SectionPush(HeldBy(s), Render(s, piece), piece.Start?);
            a == HeldBy(Next(s, piece)) && completed + Next(s, piece).queue == s.queue
  {
    hide SectionPush, Render, HeldBy, Fits, Next, Sending, Readable;
    if piece.Continuation? {
      ContinuationPushed(s, piece);
    } else {
      StartPushed(s, piece);
    }
  }

  /** At every point of every readable plan: the sections returned, followed by those still to send, are the
      sections given, and the assembler holds exactly the bytes of the open one. */
  lemma {:induction false} ReceiveFollowsSender(s: Sender, pieces: seq<Piece>)
    requires Sending(s) && Plan(s, pieces) && AllReadable(s, pieces)
    ensures var (a, completed) := Receive(HeldBy(s), s, pieces);
            a == HeldBy(End(s, pieces)) && completed + End(s, pieces).queue == s.queue
    decreases |pieces|
  {
    hide SectionPush, Render, HeldBy, Fits, Next, Sending, Readable;
    if pieces == [] {
      assert [] + s.queue == s.queue;
    } else {
      var piece := pieces[0];
      PiecePushed(s, piece);
      var first := SectionPush(HeldBy(s), Render(s, piece), piece.Start?).1;
      ReceiveFollowsSender(Next(s, piece), pieces[1..]);
      var rest := Receive(HeldBy(Next(s, piece)), Next(s, piece), pieces[1..]).1;
      assert first + rest + End(s, pieces).queue == first + (rest + End(s, pieces).queue);
    }
  }

  /** A plan that sends everything returns every section, in order. */
  lemma SectionsReassembled(sections: seq<ByteString>, pieces: seq<Piece>)
    requires Sections(sections) && Plan(Sender(sections, 0), pieces) && AllReadable(Sender(sections, 0), pieces)
    requires End(Sender(sections, 0), pieces).queue == []
    ensures Receive(EMPTY_SECTION, Sender(sections, 0), pieces) == (EMPTY_SECTION, sections)
  {
    ReceiveFollowsSender(Sender(sections, 0), pieces);
    var completed := Receive(EMPTY_SECTION, Sender(sections, 0), pieces).1;
    assert completed + [] == completed;
  }

  /** The limit: a payload without the start flag extends the open section if and only if its first
      byte is not 0xff, whatever the standard says about that byte. */
  lemma ContinuationTakenIff(section: ByteString, done: nat, payload: ByteString)
    requires WholeSectionBytes(section) && 0 < done < |section| && payload != []
    requires payload <= section[done..]
    ensures SectionPush(Holding(section, done), payload, false) != (Holding(section, done), []) <==> payload[0] != 0xff
  {
    hide Append;
    if payload[0] != 0xff {
      assert payload == section[done..done + |payload|] + [];
      AppendPart(section, done, |payload|, []);
      assert payload[|payload|..] == [];
      var k := |payload|;
      assert |Holding(section, done).data| == done;
      if done + k < |section| {
        assert AppendAll(Holding(section, done), payload) == (Holding(section, done + k), [] + []);
        assert |Holding(section, done + k).data| == done + k;
      } else {
        assert AppendAll(Holding(section, done), payload) == (EMPTY_SECTION, [section] + []);
      }
    }
  }
}
