/** The backwards scan of a rollout file for its last user message. */
module RolloutScan {
  import opened Wrappers
  import opened Splitting

  type Bytes = seq<Byte>

  const NEWLINE: Byte := 10

  /** `r` is what the last decodable line decodes to, or none if no line decodes. */
  ghost predicate IsLastDecoding<M>(lines: seq<Bytes>, decode: Bytes -> Option<M>, r: Option<M>) {
    if r.None? then forall line <- lines :: decode(line).None?
    else exists k :: 0 <= k < |lines| && decode(lines[k]) == r && forall j :: k < j < |lines| ==> decode(lines[j]).None?
  }

  /** Undecodable lines at the end do not matter. */
  lemma SkipTail<M>(lines: seq<Bytes>, tail: seq<Bytes>, decode: Bytes -> Option<M>, r: Option<M>)
    requires IsLastDecoding(lines, decode, r) && forall line <- tail :: decode(line).None?
    ensures IsLastDecoding(lines + tail, decode, r)
  {
    if r.Some? {
      var k :| 0 <= k < |lines| && decode(lines[k]) == r && forall j :: k < j < |lines| ==> decode(lines[j]).None?;
      assert (lines + tail)[k] == lines[k];
      forall j | k < j < |lines + tail|
        ensures decode((lines + tail)[j]).None?
      {
        if j >= |lines| { assert tail[j - |lines|] in tail; }
      }
    }
  }

  /** Lines before a decodable one do not matter. */
  lemma SkipFront<M>(front: seq<Bytes>, lines: seq<Bytes>, decode: Bytes -> Option<M>, r: Option<M>)
    requires IsLastDecoding(lines, decode, r) && r.Some?
    ensures IsLastDecoding(front + lines, decode, r)
  {
    var k :| 0 <= k < |lines| && decode(lines[k]) == r && forall j :: k < j < |lines| ==> decode(lines[j]).None?;
    assert (front + lines)[|front| + k] == lines[k];
    forall j | |front| + k < j < |front + lines|
      ensures decode((front + lines)[j]).None?
    {
      assert (front + lines)[j] == lines[j - |front|];
    }
  }

  /** The lines of one chunk, from the last to the first. */
  method LastOf<M>(lines: seq<Bytes>, decode: Bytes -> Option<M>) returns (r: Option<M>)
    ensures IsLastDecoding(lines, decode, r)
  {
    for k := |lines| downto 0
      invariant forall j :: k <= j < |lines| ==> decode(lines[j]).None?
    {
      var message := decode(lines[k]);
      if message.Some? {
        return message;
      }
    }
    return None;
  }

  /** The lines seen so far when the newline at `first` starts the chunk's complete lines. */
  lemma LinesSplit(front: Bytes, data: Bytes, first: nat, tail: seq<Bytes>)
    requires first < |data| && data[first] == NEWLINE
    ensures Pieces(front + data, NEWLINE) + tail
         == Pieces(front + data[..first], NEWLINE) + (Pieces(data[first + 1..], NEWLINE) + tail)
  {
    assert front + data == (front + data[..first]) + [NEWLINE] + data[first + 1..];
    PiecesAppend(front + data[..first], data[first + 1..], NEWLINE);
  }

  lemma ChunkJoins(file: Bytes, position: nat, size: nat, pending: Bytes)
    requires position + size <= |file|
    ensures file[..position + size] + pending == file[..position] + (file[position..position + size] + pending)
  {
  }

  /** `read_last_user_message`, for any content, any chunk size and any line decoder. */
  method ReadLastUserMessage<M>(file: Bytes, chunkSize: nat, decode: Bytes -> Option<M>) returns (r: Option<M>)
    requires chunkSize >= 1
    ensures IsLastDecoding(Pieces(file, NEWLINE), decode, r)
  {
    var position := |file|;
    var pending: Bytes := [];
    ghost var tail: seq<Bytes> := [];
    assert file[..position] + pending == file && Pieces(file, NEWLINE) + tail == Pieces(file, NEWLINE);
    while position > 0
      invariant 0 <= position <= |file| && NEWLINE !in pending
      invariant Pieces(file, NEWLINE) == Pieces(file[..position] + pending, NEWLINE) + tail
      invariant forall line <- tail :: decode(line).None?
      decreases position
    {
      var size := if position < chunkSize then position else chunkSize;
      position := position - size;
      ChunkJoins(file, position, size, pending);
      var data := file[position..position + size] + pending;
      ghost var front := file[..position];
      match IndexOf(data, NEWLINE) {
        case Some(first) =>
          var lines := Pieces(data[first + 1..], NEWLINE);
          LinesSplit(front, data, first, tail);
          var message := LastOf(lines, decode);
          if message.Some? {
            SkipTail(lines, tail, decode, message);
            SkipFront(Pieces(front + data[..first], NEWLINE), lines + tail, decode, message);
            return message;
          }
          tail := lines + tail;
          pending := data[..first];
        case None =>
          pending := data;
      }
    }
    assert file[..0] + pending == pending;
    OnePiece(pending, NEWLINE);
    r := decode(pending);
    assert IsLastDecoding([pending], decode, r) by {
      if r.Some? { assert [pending][0] == pending; }
    }
    SkipTail([pending], tail, decode, r);
  }

  /** What the last decoding is, is unique: the chunk size does not matter. */
  lemma LastDecodingIsUnique<M>(lines: seq<Bytes>, decode: Bytes -> Option<M>, r: Option<M>, q: Option<M>)
    requires IsLastDecoding(lines, decode, r) && IsLastDecoding(lines, decode, q)
    ensures r == q
  {
    if r.Some? && q.Some? {
      var k :| 0 <= k < |lines| && decode(lines[k]) == r && forall j :: k < j < |lines| ==> decode(lines[j]).None?;
      var i :| 0 <= i < |lines| && decode(lines[i]) == q && forall j :: i < j < |lines| ==> decode(lines[j]).None?;
      assert i == k;
    }
  }
}
