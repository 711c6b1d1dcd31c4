/** From blocks to events, whatever the chunks. */
module SseEvents {
  import opened Wrappers
  import opened Sse
  import opened SseChunks

  // --------------------------------------------------------- events of a stream

  function Chain<E>(first: Result<seq<E>, string>, later: Result<seq<E>, string>): Result<seq<E>, string> {
    if first.Err? then first else if later.Err? then later else Ok(first.value + later.value)
  }

  lemma ChainLaws<E>(a: Result<seq<E>, string>, b: Result<seq<E>, string>, d: Result<seq<E>, string>)
    ensures Chain(Chain(a, b), d) == Chain(a, Chain(b, d))
    ensures Chain(Ok([]), a) == a && Chain(a, Ok([])) == a
  {
    if a.Ok? {
      assert [] + a.value == a.value && a.value + [] == a.value;
      if b.Ok? && d.Ok? { assert a.value + (b.value + d.value) == a.value + b.value + d.value; }
    }
  }

  /** The events of a list of blocks, or the first error. */
  function DecodeAll<E>(c: Codec<E>, blocks: seq<Bytes>): Result<seq<E>, string> {
    if blocks == [] then Ok([]) else Chain(Decode(c, blocks[0]), DecodeAll(c, blocks[1..]))
  }

  /** Pushing the chunks one after the other and finishing; the first error ends it. */
  function ParseChunks<E>(c: Codec<E>, buf: Bytes, chunks: seq<Bytes>): Result<seq<E>, string>
    decreases |chunks|
  {
    if chunks == [] then Flush(c, buf).out
    else
      var d := Drain(c, buf + chunks[0]);
      if d.out.Err? then d.out else Chain(d.out, ParseChunks(c, d.rest, chunks[1..]))
  }

  /** The blocks of a parsed stream; a remainder is a block of its own. */
  function AllBlocks(p: Parsed): seq<Bytes> { p.blocks + if p.rest == [] then [] else [p.rest] }

  lemma {:induction false} DecodeAppend<E>(c: Codec<E>, first: seq<Bytes>, later: seq<Bytes>)
    ensures DecodeAll(c, first + later) == Chain(DecodeAll(c, first), DecodeAll(c, later))
  {
    if first == [] {
      assert first + later == later;
      ChainLaws(DecodeAll(c, later), Ok([]), Ok([]));
    } else {
      assert (first + later)[1..] == first[1..] + later;
      DecodeAppend(c, first[1..], later);
      ChainLaws(Decode(c, first[0]), DecodeAll(c, first[1..]), DecodeAll(c, later));
    }
  }

  /** A drain decodes the blocks it takes off, up to the first that fails. */
  lemma {:induction false} DrainDecodesBlocks<E>(c: Codec<E>, buf: Bytes)
    ensures Drain(c, buf).out == DecodeAll(c, Split(buf).blocks)
    ensures Drain(c, buf).out.Ok? ==> Drain(c, buf).rest == Split(buf).rest
    decreases |buf|
  {
    match FindEventSeparator(buf)
    case None =>
    case Some((end, next)) =>
      DrainDecodesBlocks(c, buf[next..]);
      assert Split(buf).blocks[1..] == Split(buf[next..]).blocks;
  }

  lemma {:induction false} ParsingDecodesBlocks<E>(c: Codec<E>, buf: Bytes, chunks: seq<Bytes>)
    ensures ParseChunks(c, buf, chunks) == DecodeAll(c, AllBlocks(Feed(buf, chunks)))
    decreases |chunks|
  {
    if chunks == [] {
      FlushDecodes(c, buf);
    } else {
      var now := Split(buf + chunks[0]);
      var later := Feed(now.rest, chunks[1..]);
      DrainDecodesBlocks(c, buf + chunks[0]);
      DecodeAppend(c, now.blocks, AllBlocks(later));
      assert AllBlocks(Feed(buf, chunks)) == now.blocks + AllBlocks(later);
      if Drain(c, buf + chunks[0]).out.Ok? {
        ParsingDecodesBlocks(c, now.rest, chunks[1..]);
      }
    }
  }

  lemma FlushDecodes<E>(c: Codec<E>, buf: Bytes)
    ensures Flush(c, buf).out == DecodeAll(c, AllBlocks(Parsed([], buf)))
  {
    if buf != [] {
      var one := [buf];
      assert AllBlocks(Parsed([], buf)) == one && one[1..] == [];
      ChainLaws(Decode(c, buf), Ok([]), Ok([]));
    }
  }

  /**
   On a tidy stream, and so on every stream with one kind of separator, the events (or the first error) do not
   depend on the cuts: they are those of the left-to-right blocks of the whole stream.
   */
  lemma EventsDoNotDependOnCuts<E>(c: Codec<E>, stream: Bytes, chunks: seq<Bytes>)
    requires Tidy(stream) && Flatten(chunks) == stream
    ensures ParseChunks(c, [], chunks) == DecodeAll(c, AllBlocks(Split(stream)))
    ensures ParseChunks(c, [], chunks) == ParseChunks(c, [], [stream])
  {
    CutsDoNotMatterExactlyWhenTidy(stream);
    ParsingDecodesBlocks(c, [], chunks);
    var one := [stream];
    assert one[1..] == [] && Flatten(one) == stream + [] && stream + [] == stream;
    ParsingDecodesBlocks(c, [], one);
  }

  /** The parser object driven over a list of chunks; `parse_sse_body` is the case of one chunk. */
  method Parse<E>(c: Codec<E>, chunks: seq<Bytes>) returns (r: Result<seq<E>, string>)
    ensures r == ParseChunks(c, [], chunks)
  {
    var parser := new SseParser(c);
    var out: seq<E> := [];
    ChainLaws(ParseChunks(c, [], chunks), Ok([]), Ok([]));
    assert chunks[0..] == chunks;
    for k := 0 to |chunks|
      invariant fresh(parser) && parser.codec == c
      invariant ParseChunks(c, [], chunks) == Chain(Ok(out), ParseChunks(c, parser.buf, chunks[k..]))
    {
      var events := parser.PushBytes(chunks[k]);
      assert chunks[k..][1..] == chunks[k + 1..] && chunks[k..][0] == chunks[k];
      if events.Err? {
        return events;
      }
      ChainLaws(Ok(out), events, ParseChunks(c, parser.buf, chunks[k + 1..]));
      out := out + events.value;
    }
    assert chunks[|chunks|..] == [];
    var last := parser.Finish();
    if last.Err? {
      return last;
    }
    return Ok(out + last.value);
  }
}
