/**
 Framing payloads as event blocks, one `data: ` line per payload line and a blank line, and reading them back
 under any chunking (compare section 9.2.6 of the WHATWG HTML standard).
 */
module SseFraming {
  import opened Wrappers
  import opened Splitting
  import opened Sse
  import opened SseChunks

  const LABEL: Bytes := DATA + [SP]

  function Labelled(pieces: seq<Bytes>): (lines: seq<Bytes>)
    ensures |lines| == |pieces|
  {
    if pieces == [] then [] else [LABEL + pieces[0]] + Labelled(pieces[1..])
  }

  /** The block of a payload, without its terminating blank line. */
  function Block(p: Bytes): Bytes { Join(Labelled(Pieces(p, LF)), LF) }

  function Frame(payloads: seq<Bytes>): Bytes {
    if payloads == [] then [] else Block(payloads[0]) + BLANK_LF + Frame(payloads[1..])
  }

  function Blocks(payloads: seq<Bytes>): (blocks: seq<Bytes>)
    ensures |blocks| == |payloads| && forall i :: 0 <= i < |payloads| ==> blocks[i] == Block(payloads[i])
  {
    if payloads == [] then [] else [Block(payloads[0])] + Blocks(payloads[1..])
  }

  // ------------------------------------------------------- framed streams split

  /** A byte that neither ends a line nor stands before such an end. */
  predicate Inner(b: Byte) { b != LF && b != CR }

  /** No two line feeds meet, none stands at either end, and no carriage return begins a line. */
  ghost predicate WellLined(s: Bytes) {
    && s != [] && Inner(s[0]) && s[|s| - 1] != LF
    && forall i :: 0 <= i < |s| - 1 && s[i] == LF ==> Inner(s[i + 1])
  }

  lemma {:induction false} LabelledIsWellLined(pieces: seq<Bytes>)
    requires pieces != [] && forall x <- pieces :: LF !in x
    ensures WellLined(Join(Labelled(pieces), LF))
  {
    var line := LABEL + pieces[0];
    assert LF !in line by { assert forall i :: 0 <= i < |LABEL| ==> LABEL[i] != LF; }
    if |pieces| == 1 {
      assert Labelled(pieces)[0] == line;
    } else {
      LabelledIsWellLined(pieces[1..]);
      var later := Join(Labelled(pieces[1..]), LF);
      assert Labelled(pieces)[1..] == Labelled(pieces[1..]);
      assert Join(Labelled(pieces), LF) == line + [LF] + later;
      WellLinedCons(line, later);
    }
  }

  lemma WellLinedCons(line: Bytes, later: Bytes)
    requires LF !in line && line != [] && Inner(line[0]) && WellLined(later)
    ensures WellLined(line + [LF] + later)
  {
    var s := line + [LF] + later;
    assert forall k :: 0 <= k < |line| ==> s[k] == line[k] != LF;
    forall i | 0 <= i < |s| - 1 && s[i] == LF
      ensures Inner(s[i + 1])
    {
      if i > |line| {
        assert s[i] == later[i - |line| - 1] && s[i + 1] == later[i - |line|];
      }
    }
  }

  /** In a framed stream no carriage return begins a line. */
  ghost predicate Framed(s: Bytes) {
    (s == [] || Inner(s[0])) && forall i :: 0 <= i < |s| - 1 && s[i] == LF ==> s[i + 1] != CR
  }

  lemma FrameStep(block: Bytes, later: Bytes)
    requires WellLined(block) && Framed(later)
    ensures Framed(block + BLANK_LF + later)
    ensures FindEventSeparator(block + BLANK_LF + later) == Some((|block|, |block| + 2))
  {
    var s := block + BLANK_LF + later;
    assert forall i :: 0 <= i < |block| ==> s[i] == block[i];
    assert forall i :: 0 <= i < |later| ==> s[|block| + 2 + i] == later[i];
    assert s[|block|] == LF && s[|block| + 1] == LF;
    forall i | i < |block|
      ensures !BlankLf(s, i)
    {
      if 0 <= i < |block| - 1 && block[i] == LF {
        assert s[i + 1] == block[i + 1];
      }
    }
    SeparatorIs(s, |block|, |block| + 2);
    forall i | 0 <= i < |s| - 1 && s[i] == LF
      ensures s[i + 1] != CR
    {
      if i < |block| - 1 {
        assert s[i] == block[i] && s[i + 1] == block[i + 1];
      } else if i >= |block| + 2 {
        assert s[i] == later[i - |block| - 2] && s[i + 1] == later[i - |block| - 1];
      }
    }
  }

  lemma {:induction false} FrameSplits(payloads: seq<Bytes>)
    ensures Framed(Frame(payloads)) && Split(Frame(payloads)) == Parsed(Blocks(payloads), [])
  {
    if payloads == [] {
      SeparatorFound([]);
    } else {
      FrameSplits(payloads[1..]);
      PiecesJoin(payloads[0], LF);
      LabelledIsWellLined(Pieces(payloads[0], LF));
      var block, later := Block(payloads[0]), Frame(payloads[1..]);
      FrameStep(block, later);
      var s := block + BLANK_LF + later;
      assert s[..|block|] == block && s[|block| + 2..] == later;
    }
  }

  // -------------------------------------------------------- reading a block back

  /** What reading leaves of a payload line. */
  function Strip(piece: Bytes): Bytes { TrimSpaces(TrimLineEnd(piece)) }

  function StripAll(pieces: seq<Bytes>): (out: seq<Bytes>)
    ensures |out| == |pieces|
  {
    if pieces == [] then [] else [Strip(pieces[0])] + StripAll(pieces[1..])
  }

  lemma {:induction false} TrimKeepsFront(front: Bytes, s: Bytes)
    requires front != [] && front[|front| - 1] != CR && front[|front| - 1] != LF
    ensures TrimLineEnd(front + s) == front + TrimLineEnd(s)
    decreases |s|
  {
    if s == [] {
      assert front + s == front;
    } else {
      assert (front + s)[..|front + s| - 1] == front + s[..|s| - 1];
      if s[|s| - 1] == CR || s[|s| - 1] == LF {
        TrimKeepsFront(front, s[..|s| - 1]);
      }
    }
  }

  lemma LabelledPayload(piece: Bytes)
    ensures LinePayload(LABEL + piece) == Some(Strip(piece))
    ensures LinePayload(LABEL + piece + [LF]) == Some(Strip(piece))
  {
    TrimKeepsFront(LABEL, piece);
    var line := LABEL + TrimLineEnd(piece);
    assert (LABEL + piece + [LF])[..|LABEL + piece|] == LABEL + piece;
    assert line[..|DATA|] == DATA;
    assert line[|DATA|..] == [SP] + TrimLineEnd(piece);
    assert ([SP] + TrimLineEnd(piece))[1..] == TrimLineEnd(piece);
  }

  lemma FindLineFeed(part: Bytes, later: Bytes)
    requires LF !in part
    ensures FindFrom(part + [LF] + later, [LF], 0) == Some(|part|)
  {
    var s := part + [LF] + later;
    FindFromIsFirst(s, [LF], 0);
    assert At(s, [LF], |part|);
    forall i: nat | i < |part|
      ensures !At(s, [LF], i)
    {
      assert s[i..i + 1][0] == part[i];
    }
  }

  lemma NoLineFeed(part: Bytes)
    requires LF !in part && part != []
    ensures InclusiveLines(part) == [part]
  {
    forall i: nat
      ensures !At(part, [LF], i)
    {
      assert i + 1 <= |part| ==> part[i..i + 1][0] == part[i];
    }
    assert FindFrom(part, [LF], 0) == None;
  }

  lemma FirstLineFeed(s: Bytes)
    ensures match FindFrom(s, [LF], 0)
      case Some(i) => i < |s| && s[i] == LF && LF !in s[..i]
      case None => LF !in s
  {
    FindFromIsFirst(s, [LF], 0);
    forall i | 0 <= i < |s| ensures At(s, [LF], i) <==> s[i] == LF { assert s[i..i + 1] == [s[i]]; }
  }

  /** Each line but the last ends with a line feed, and none holds one before its end. */
  predicate WellCut(lines: seq<Bytes>) {
    && (forall k :: 0 <= k < |lines| ==> lines[k] != [] && LF !in lines[k][..|lines[k]| - 1])
    && (forall k :: 0 <= k < |lines| - 1 ==> lines[k][|lines[k]| - 1] == LF)
  }

  lemma WellCutCons(line: Bytes, lines: seq<Bytes>)
    requires line != [] && LF !in line[..|line| - 1] && (lines != [] ==> line[|line| - 1] == LF) && WellCut(lines)
    ensures WellCut([line] + lines)
  {
    var all := [line] + lines;
    assert forall k :: 0 < k < |all| ==> all[k] == lines[k - 1];
  }

  /** The lines of a block, put together, are the block; each but the last ends with its only line feed. */
  lemma {:induction false} InclusiveLinesAre(block: Bytes)
    ensures Flatten(InclusiveLines(block)) == block && WellCut(InclusiveLines(block))
    decreases |block|
  {
    if block != [] {
      hide FindFrom, WellCut;
      FirstLineFeed(block);
      match FindFrom(block, [LF], 0)
      case Some(i) =>
        var line, rest := block[..i + 1], block[i + 1..];
        InclusiveLinesAre(rest);
        OneMoreLine(line, rest, InclusiveLines(rest));
        assert line[..|line| - 1] == block[..i] && line + rest == block;
        WellCutCons(line, InclusiveLines(rest));
      case None =>
        OneMoreLine(block, [], []);
        assert [block] + [] == [block] && block + [] == block;
        NothingIsWellCut();
        WellCutCons(block, []);
    }
  }

  lemma NothingIsWellCut()
    ensures WellCut([])
  {
  }

  lemma OneMoreLine(line: Bytes, rest: Bytes, lines: seq<Bytes>)
    requires Flatten(lines) == rest
    ensures Flatten([line] + lines) == line + rest
  {
    assert ([line] + lines)[1..] == lines;
  }

  lemma {:induction false} BlockPayloads(pieces: seq<Bytes>)
    requires pieces != [] && forall x <- pieces :: LF !in x
    ensures Payloads(InclusiveLines(Join(Labelled(pieces), LF))) == StripAll(pieces)
  {
    var line := LABEL + pieces[0];
    assert LF !in line by { assert forall i :: 0 <= i < |LABEL| ==> LABEL[i] != LF; }
    LabelledPayload(pieces[0]);
    if |pieces| == 1 {
      assert Labelled(pieces)[0] == line && pieces[1..] == [];
      NoLineFeed(line);
      assert Payloads([line]) == StripAll(pieces) by { var rest: seq<Bytes> := [line][1..]; assert rest == []; }
    } else {
      assert Labelled(pieces)[1..] == Labelled(pieces[1..]);
      var later := Join(Labelled(pieces[1..]), LF);
      var s := line + [LF] + later;
      FindLineFeed(line, later);
      assert s[..|line| + 1] == line + [LF] && s[|line| + 1..] == later;
      assert InclusiveLines(s)[1..] == InclusiveLines(later);
      BlockPayloads(pieces[1..]);
    }
  }

  /** Reading a payload's block gives its lines, stripped, joined again. */
  lemma BlockReads(p: Bytes)
    ensures EventPayload(Block(p)) == Some(Join(StripAll(Pieces(p, LF)), LF))
  {
    PiecesJoin(p, LF);
    BlockPayloads(Pieces(p, LF));
  }

  // ------------------------------------------------------ which payloads survive

  /** The line neither starts with a space nor ends with a carriage return. */
  predicate CleanLine(x: Bytes) { x == [] || (x[0] != SP && x[|x| - 1] != CR) }

  predicate Clean(p: Bytes) { forall x <- Pieces(p, LF) :: CleanLine(x) }

  lemma TrimShortens(s: Bytes)
    ensures |TrimLineEnd(s)| <= |s|
    ensures s != [] && (s[|s| - 1] == CR || s[|s| - 1] == LF) ==> |TrimLineEnd(s)| < |s|
  {
    if s != [] { TrimShortens(s[..|s| - 1]); }
  }

  lemma SpacesShorten(s: Bytes)
    ensures |TrimSpaces(s)| <= |s|
    ensures s != [] && s[0] == SP ==> |TrimSpaces(s)| < |s|
  {
    if s != [] { SpacesShorten(s[1..]); }
  }

  lemma StripIsIdentityOnClean(x: Bytes)
    requires LF !in x
    ensures |Strip(x)| <= |x|
    ensures |Strip(x)| == |x| <==> CleanLine(x)
    ensures CleanLine(x) ==> Strip(x) == x
  {
    TrimShortens(x);
    SpacesShorten(TrimLineEnd(x));
    if x != [] {
      assert x[|x| - 1] != LF;
    }
  }

  lemma {:induction false} StrippedJoin(pieces: seq<Bytes>)
    requires pieces != [] && forall x <- pieces :: LF !in x
    ensures |Join(StripAll(pieces), LF)| <= |Join(pieces, LF)|
    ensures |Join(StripAll(pieces), LF)| == |Join(pieces, LF)| <==> forall x <- pieces :: CleanLine(x)
    ensures (forall x <- pieces :: CleanLine(x)) ==> Join(StripAll(pieces), LF) == Join(pieces, LF)
  {
    StripIsIdentityOnClean(pieces[0]);
    assert forall x :: x in pieces <==> x == pieces[0] || x in pieces[1..];
    if |pieces| > 1 {
      StrippedJoin(pieces[1..]);
      assert StripAll(pieces)[1..] == StripAll(pieces[1..]);
    }
  }

  /** One payload survives exactly when each of its lines is clean. */
  lemma PayloadSurvivesExactlyWhenClean(p: Bytes)
    ensures EventPayload(Block(p)) == Some(p) <==> Clean(p)
  {
    BlockReads(p);
    PiecesJoin(p, LF);
    StrippedJoin(Pieces(p, LF));
  }

  /**
   Any list of payloads, framed and cut anywhere, comes back as one block each with nothing left over; a payload
   is read back as it was exactly when none of its lines starts with a space or ends with a carriage return.
   */
  lemma FramedPayloadsComeBack(payloads: seq<Bytes>, chunks: seq<Bytes>)
    requires Flatten(chunks) == Frame(payloads)
    ensures var p := Feed([], chunks);
      && p.rest == [] && |p.blocks| == |payloads|
      && forall i :: 0 <= i < |payloads| ==>
           (EventPayload(p.blocks[i]) == Some(payloads[i]) <==> Clean(payloads[i]))
  {
    FrameSplits(payloads);
    var stream := Frame(payloads);
    assert NoBlankCrlf(stream);
    OneSeparatorIsTidy(stream);
    CutsDoNotMatterExactlyWhenTidy(stream);
    forall i | 0 <= i < |payloads|
      ensures EventPayload(Block(payloads[i])) == Some(payloads[i]) <==> Clean(payloads[i])
    {
      PayloadSurvivesExactlyWhenClean(payloads[i]);
    }
  }
}
