/**
 What a well-formed event stream delivers, from its text to the events: blocks of data lines and other lines, cut
 anywhere, the last of them with or without its blank line.
 */
module SseDelivery {
  import opened Wrappers
  import opened Splitting
  import opened Sse
  import opened SseChunks
  import opened SseEvents
  import opened SseFraming

  /** A line of an event: data after any number of spaces, or anything else. */
  datatype Field = Data(spaces: nat, text: Bytes) | Other(line: Bytes)

  predicate WellFormedField(f: Field) {
    match f
    case Data(_, text) => LF !in text && CleanLine(text)
    case Other(line) => line != [] && LF !in line && CR !in line && !(DATA <= line)
  }

  type Event = fields: seq<Field> | fields != [] && forall f <- fields :: WellFormedField(f)
    witness [Data(0, [])]

  function LineOf(f: Field): Bytes {
    match f
    case Data(spaces, text) => DATA + seq(spaces, _ => SP) + text
    case Other(line) => line
  }

  function LinesOf(fields: seq<Field>): (lines: seq<Bytes>)
    ensures |lines| == |fields|
  {
    if fields == [] then [] else [LineOf(fields[0])] + LinesOf(fields[1..])
  }

  function BlockOf(e: seq<Field>): Bytes
    requires e != []
  {
    Join(LinesOf(e), LF)
  }

  /** The stream of the events, each with a blank line after it; the last one's may be missing. */
  function StreamOf(events: seq<Event>, closed: bool): Bytes {
    if events == [] then []
    else if |events| == 1 && !closed then BlockOf(events[0])
    else BlockOf(events[0]) + [LF, LF] + StreamOf(events[1..], closed)
  }

  function BlocksOf(events: seq<Event>): (blocks: seq<Bytes>)
    ensures |blocks| == |events|
  {
    if events == [] then [] else [BlockOf(events[0])] + BlocksOf(events[1..])
  }

  /** The data of an event, line by line. */
  function Texts(fields: seq<Field>): seq<Bytes> {
    if fields == [] then []
    else (if fields[0].Data? then [fields[0].text] else []) + Texts(fields[1..])
  }

  // ---------------------------------------------------------------- streams into blocks

  lemma LineIsInner(f: Field)
    requires WellFormedField(f)
    ensures LineOf(f) != [] && LF !in LineOf(f) && Inner(LineOf(f)[0])
  {
    if f.Data? {
      assert forall i :: 0 <= i < |DATA| ==> DATA[i] != LF;
      assert LineOf(f)[0] == DATA[0];
    }
  }

  lemma {:induction false} BlockIsWellLined(e: Event)
    ensures WellLined(BlockOf(e))
    decreases |e|
  {
    LineIsInner(e[0]);
    if |e| > 1 {
      BlockIsWellLined(e[1..]);
      assert LinesOf(e)[1..] == LinesOf(e[1..]);
      WellLinedCons(LineOf(e[0]), BlockOf(e[1..]));
    }
  }

  lemma {:induction false} StreamSplits(events: seq<Event>, closed: bool)
    ensures Framed(StreamOf(events, closed)) && AllBlocks(Split(StreamOf(events, closed))) == BlocksOf(events)
    decreases |events|
  {
    if events == [] {
      SeparatorFound([]);
    } else {
      var block := BlockOf(events[0]);
      BlockIsWellLined(events[0]);
      if |events| == 1 && !closed {
        LastBlockStays(block);
        assert BlocksOf(events) == [block] + [];
      } else {
        var later := StreamOf(events[1..], closed);
        StreamSplits(events[1..], closed);
        FrameStep(block, later);
        var s := block + BLANK_LF + later;
        assert s == StreamOf(events, closed) && s[..|block|] == block && s[|block| + 2..] == later;
        assert AllBlocks(Split(s)) == [block] + AllBlocks(Split(later));
      }
    }
  }

  lemma LastBlockStays(block: Bytes)
    requires WellLined(block)
    ensures Framed(block) && AllBlocks(Split(block)) == [block]
  {
    SeparatorFound(block);
    assert NoBlankLf(block) && NoBlankCrlf(block);
    assert FindEventSeparator(block) == None;
  }

  // --------------------------------------------------------------- blocks into payloads

  lemma {:induction false} SpacesAreTrimmed(n: nat, text: Bytes)
    requires CleanLine(text)
    ensures TrimSpaces(seq(n, _ => SP) + text) == text
  {
    var s := seq(n, _ => SP) + text;
    if n == 0 {
      assert s == text;
    } else {
      assert s[0] == SP && s[1..] == seq(n - 1, _ => SP) + text;
      SpacesAreTrimmed(n - 1, text);
    }
  }

  /** What a line brings, with or without its line feed. */
  lemma LineBrings(f: Field)
    requires WellFormedField(f)
    ensures LinePayload(LineOf(f)) == LinePayload(LineOf(f) + [LF]) == if f.Data? then Some(f.text) else None
  {
    var line := LineOf(f);
    LineIsInner(f);
    assert (line + [LF])[..|line|] == line;
    match f
    case Data(spaces, text) =>
      var front := DATA + seq(spaces, _ => SP);
      assert front[|front| - 1] == (if spaces == 0 then DATA[4] else SP);
      TrimKeepsFront(front, text);
      CleanEnds(text);
      assert line == front + text && line[..|DATA|] == DATA && line[|DATA|..] == seq(spaces, _ => SP) + text;
      SpacesAreTrimmed(spaces, text);
    case Other(_) =>
      assert line[|line| - 1] in line;
  }

  lemma CleanEnds(text: Bytes)
    requires LF !in text && CleanLine(text)
    ensures TrimLineEnd(text) == text
  {
    if text != [] { assert text[|text| - 1] in text; }
  }

  lemma {:induction false} BlockBrings(e: Event)
    ensures Payloads(InclusiveLines(BlockOf(e))) == Texts(e)
    decreases |e|
  {
    var line := LineOf(e[0]);
    LineIsInner(e[0]);
    LineBrings(e[0]);
    if |e| == 1 {
      NoLineFeed(line);
      var rest: seq<Bytes> := [line][1..];
      assert Texts(e[1..]) == [] && rest == [] && Payloads(rest) == [];
    } else {
      assert LinesOf(e)[1..] == LinesOf(e[1..]);
      var later := BlockOf(e[1..]);
      var s := line + [LF] + later;
      FindLineFeed(line, later);
      assert s[..|line| + 1] == line + [LF] && s[|line| + 1..] == later;
      assert InclusiveLines(s)[1..] == InclusiveLines(later);
      BlockBrings(e[1..]);
    }
  }

  // ------------------------------------------------------------------ payloads into events

  /** The block is text, and its data, if it has any, is accepted as this event. */
  ghost predicate Tells<E(!new)>(c: Codec<E>, e: Event, told: Option<E>) {
    && c.utf8(BlockOf(e))
    && match told
       case None => Texts(e) == []
       case Some(event) => Texts(e) != [] && c.classify(Join(Texts(e), LF)) == Ok(event)
  }

  /** The block is not text, or its data is refused. */
  ghost predicate Fails<E(!new)>(c: Codec<E>, e: Event, error: string) {
    if c.utf8(BlockOf(e)) then Texts(e) != [] && c.classify(Join(Texts(e), LF)) == Err(error)
    else error == "invalid UTF-8 in SSE"
  }

  function Shown<E>(told: Option<E>): seq<E> { if told.Some? then [told.value] else [] }

  function Present<E>(told: seq<Option<E>>): seq<E> {
    if told == [] then [] else Shown(told[0]) + Present(told[1..])
  }

  lemma OneEvent<E(!new)>(c: Codec<E>, e: Event)
    ensures forall told :: Tells(c, e, told) ==> Decode(c, BlockOf(e)) == Ok(Shown(told))
    ensures forall error :: Fails(c, e, error) ==> Decode(c, BlockOf(e)) == Err(error)
  {
    BlockBrings(e);
  }

  lemma {:induction false} EventsAreDecoded<E(!new)>(c: Codec<E>, events: seq<Event>, told: seq<Option<E>>)
    requires |told| == |events| && forall i :: 0 <= i < |events| ==> Tells(c, events[i], told[i])
    ensures DecodeAll(c, BlocksOf(events)) == Ok(Present(told))
  {
    hide Tells, Decode, BlockOf;
    if events != [] {
      OneEvent(c, events[0]);
      assert forall i :: 0 <= i < |events| - 1 ==> Tells(c, events[1..][i], told[1..][i]);
      EventsAreDecoded(c, events[1..], told[1..]);
      assert BlocksOf(events)[1..] == BlocksOf(events[1..]);
    }
  }

  lemma {:induction false} FaultIsFound<E(!new)>(c: Codec<E>, events: seq<Event>, told: seq<Option<E>>, error: string)
    requires |told| < |events| && forall i :: 0 <= i < |told| ==> Tells(c, events[i], told[i])
    requires Fails(c, events[|told|], error)
    ensures DecodeAll(c, BlocksOf(events)) == Err(error)
    decreases |events|
  {
    hide Tells, Fails, Decode, BlockOf;
    OneEvent(c, events[0]);
    assert BlocksOf(events)[1..] == BlocksOf(events[1..]);
    if told != [] {
      assert forall i :: 0 <= i < |told| - 1 ==> Tells(c, events[1..][i], told[1..][i]);
      FaultIsFound(c, events[1..], told[1..], error);
    }
  }

  lemma StreamIsCut<E>(c: Codec<E>, events: seq<Event>, closed: bool, chunks: seq<Bytes>)
    requires Flatten(chunks) == StreamOf(events, closed)
    ensures ParseChunks(c, [], chunks) == DecodeAll(c, BlocksOf(events))
  {
    var stream := StreamOf(events, closed);
    StreamSplits(events, closed);
    assert NoBlankCrlf(stream);
    OneSeparatorIsTidy(stream);
    EventsDoNotDependOnCuts(c, stream, chunks);
  }

  /**
   A stream whose blocks are text and whose data is accepted delivers exactly those events, in order, however it is
   cut: other lines do not matter, and a block without data delivers nothing.
   */
  lemma StreamsDeliverTheirEvents<E(!new)>(c: Codec<E>, events: seq<Event>, closed: bool, told: seq<Option<E>>,
                                           chunks: seq<Bytes>)
    requires Flatten(chunks) == StreamOf(events, closed)
    requires |told| == |events| && forall i :: 0 <= i < |events| ==> Tells(c, events[i], told[i])
    ensures ParseChunks(c, [], chunks) == Ok(Present(told))
  {
    StreamIsCut(c, events, closed, chunks);
    EventsAreDecoded(c, events, told);
  }

  /** ... and one with a block that is not text, or whose data is refused, gives the first such error. */
  lemma StreamsFailAtTheirFirstFault<E(!new)>(c: Codec<E>, events: seq<Event>, closed: bool, told: seq<Option<E>>,
                                              error: string, chunks: seq<Bytes>)
    requires Flatten(chunks) == StreamOf(events, closed)
    requires |told| < |events| && forall i :: 0 <= i < |told| ==> Tells(c, events[i], told[i])
    requires Fails(c, events[|told|], error)
    ensures ParseChunks(c, [], chunks) == Err(error)
  {
    StreamIsCut(c, events, closed, chunks);
    FaultIsFound(c, events, told, error);
  }

  // ------------------------------------------------------------------- framed payloads

  /** A payload as an event: a data line for each of its lines. */
  function DataLines(pieces: seq<Bytes>): (fields: seq<Field>)
    ensures |fields| == |pieces| && forall k :: 0 <= k < |pieces| ==> fields[k] == Data(1, pieces[k])
  {
    if pieces == [] then [] else [Data(1, pieces[0])] + DataLines(pieces[1..])
  }

  lemma {:induction false} DataLinesAre(pieces: seq<Bytes>)
    ensures LinesOf(DataLines(pieces)) == Labelled(pieces) && Texts(DataLines(pieces)) == pieces
  {
    if pieces != [] {
      DataLinesAre(pieces[1..]);
      assert DataLines(pieces)[1..] == DataLines(pieces[1..]);
      assert DATA + seq(1, _ => SP) + pieces[0] == LABEL + pieces[0];
      assert pieces == [pieces[0]] + pieces[1..];
    }
  }

  function EventsOf(payloads: seq<Bytes>): (events: seq<Event>)
    requires forall p <- payloads :: Clean(p)
    ensures |events| == |payloads|
  {
    if payloads == [] then []
    else
      PayloadIsEvent(payloads[0]);
      [DataLines(Pieces(payloads[0], LF))] + EventsOf(payloads[1..])
  }

  lemma PayloadIsEvent(p: Bytes)
    requires Clean(p)
    ensures var e := DataLines(Pieces(p, LF));
      e != [] && (forall f <- e :: WellFormedField(f)) && BlockOf(e) == Block(p) && Texts(e) != []
      && Join(Texts(e), LF) == p
  {
    var pieces := Pieces(p, LF);
    PiecesJoin(p, LF);
    DataLinesAre(pieces);
    forall f | f in DataLines(pieces) ensures WellFormedField(f) {
      var k :| 0 <= k < |pieces| && DataLines(pieces)[k] == f;
      assert pieces[k] in pieces;
    }
  }

  lemma {:induction false} FramesAreStreams(payloads: seq<Bytes>)
    requires forall p <- payloads :: Clean(p)
    ensures StreamOf(EventsOf(payloads), true) == Frame(payloads)
    ensures forall i :: 0 <= i < |payloads| ==>
              EventsOf(payloads)[i] == DataLines(Pieces(payloads[i], LF))
  {
    if payloads != [] {
      PayloadIsEvent(payloads[0]);
      FramesAreStreams(payloads[1..]);
      assert EventsOf(payloads)[1..] == EventsOf(payloads[1..]);
    }
  }

  /**
   Clean payloads, framed and cut anywhere: as many events as payloads, each what its payload is accepted as; or the
   error of the first payload that is refused, or whose block is not text.
   */
  lemma FramedPayloadsAreDelivered<E(!new)>(c: Codec<E>, payloads: seq<Bytes>, events: seq<E>, chunks: seq<Bytes>)
    requires Flatten(chunks) == Frame(payloads) && (forall p <- payloads :: Clean(p)) && |events| <= |payloads|
    requires forall i :: 0 <= i < |events| ==> c.utf8(Block(payloads[i])) && c.classify(payloads[i]) == Ok(events[i])
    ensures |events| == |payloads| ==> ParseChunks(c, [], chunks) == Ok(events)
    ensures |events| < |payloads| && !c.utf8(Block(payloads[|events|])) ==>
              ParseChunks(c, [], chunks) == Err("invalid UTF-8 in SSE")
    ensures |events| < |payloads| && c.utf8(Block(payloads[|events|])) && c.classify(payloads[|events|]).Err? ==>
              ParseChunks(c, [], chunks) == Err(c.classify(payloads[|events|]).error)
  {
    FramesAreStreams(payloads);
    var all := EventsOf(payloads);
    forall i | 0 <= i < |payloads|
      ensures BlockOf(all[i]) == Block(payloads[i]) && Texts(all[i]) != [] && Join(Texts(all[i]), LF) == payloads[i]
    {
      PayloadIsEvent(payloads[i]);
    }
    var told := seq(|events|, i requires 0 <= i < |events| => Some(events[i]));
    PresentIsAll(events, told);
    forall i | 0 <= i < |events| ensures Tells(c, all[i], told[i]) {}
    if |events| == |payloads| {
      StreamsDeliverTheirEvents(c, all, true, told, chunks);
    } else {
      var e := all[|events|];
      if !c.utf8(BlockOf(e)) {
        StreamsFailAtTheirFirstFault(c, all, true, told, "invalid UTF-8 in SSE", chunks);
      } else if c.classify(payloads[|events|]).Err? {
        StreamsFailAtTheirFirstFault(c, all, true, told, c.classify(payloads[|events|]).error, chunks);
      }
    }
  }

  lemma {:induction false} PresentIsAll<E>(events: seq<E>, told: seq<Option<E>>)
    requires |told| == |events| && forall i :: 0 <= i < |events| ==> told[i] == Some(events[i])
    ensures Present(told) == events
  {
    if events != [] {
      PresentIsAll(events[1..], told[1..]);
      assert events == [events[0]] + events[1..];
    }
  }
}
