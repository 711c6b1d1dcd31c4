/** The incremental Server-Sent Events parser: the byte buffer, the separator search and the block decoder. */
module Sse {
  import opened Wrappers
  import opened Splitting

  type Bytes = seq<Byte>

  const LF: Byte := 10
  const CR: Byte := 13
  const SP: Byte := 32
  const BLANK_LF: Bytes := [LF, LF]
  const BLANK_CRLF: Bytes := [CR, LF, CR, LF]

  // ------------------------------------------------------------------ searching

  predicate At(hay: Bytes, needle: Bytes, i: nat) {
    i + |needle| <= |hay| && hay[i..i + |needle|] == needle
  }

  /** `find_subsequence`: the first window equal to the needle, looking from `i` on. */
  function FindFrom(hay: Bytes, needle: Bytes, i: nat): (r: Option<nat>)
    ensures r.Some? ==> i <= r.value && At(hay, needle, r.value)
    decreases |hay| - i
  {
    if i + |needle| > |hay| then None
    else if At(hay, needle, i) then Some(i)
    else FindFrom(hay, needle, i + 1)
  }

  /** The window found is the first one; if none is found there is none. */
  lemma {:induction false} FindFromIsFirst(hay: Bytes, needle: Bytes, i: nat)
    ensures var r := FindFrom(hay, needle, i);
      forall j: nat :: i <= j && (r.Some? ==> j < r.value) ==> !At(hay, needle, j)
    decreases |hay| - i
  {
    if i + |needle| <= |hay| && !At(hay, needle, i) {
      FindFromIsFirst(hay, needle, i + 1);
    }
  }

  /** `find_event_separator`: the end of the first block and the start of what follows; LF LF is tried first. */
  function FindEventSeparator(buf: Bytes): (r: Option<(nat, nat)>)
    ensures r.Some? ==> r.value.0 < r.value.1 <= |buf|
  {
    match FindFrom(buf, BLANK_LF, 0)
    case Some(i) => Some((i, i + 2))
    case None =>
      match FindFrom(buf, BLANK_CRLF, 0)
      case Some(i) => Some((i, i + 4))
      case None => None
  }

  // ------------------------------------------------------------- one event block

  function TrimLineEnd(line: Bytes): Bytes {
    if line != [] && (line[|line| - 1] == CR || line[|line| - 1] == LF) then TrimLineEnd(line[..|line| - 1]) else line
  }

  function TrimSpaces(s: Bytes): Bytes {
    if s != [] && s[0] == SP then TrimSpaces(s[1..]) else s
  }

  const DATA: Bytes := [100, 97, 116, 97, 58]   // "data:"

  /** What one line contributes to the event, if it is a data line. */
  function LinePayload(raw: Bytes): Option<Bytes> {
    var line := TrimLineEnd(raw);
    if DATA <= line then Some(TrimSpaces(line[|DATA|..])) else None
  }

  /** `split_inclusive`: the lines of a block, each with its line feed. */
  function InclusiveLines(block: Bytes): (lines: seq<Bytes>)
    ensures block != [] ==> lines != []
    decreases |block|
  {
    if block == [] then []
    else
      match FindFrom(block, [LF], 0)
      case Some(i) => [block[..i + 1]] + InclusiveLines(block[i + 1..])
      case None => [block]
  }

  function Payloads(lines: seq<Bytes>): seq<Bytes> {
    if lines == [] then []
    else (match LinePayload(lines[0]) case Some(p) => [p] case None => []) + Payloads(lines[1..])
  }

  /** The payloads joined by line feeds, if there are any. */
  function Combined(payloads: seq<Bytes>): Option<Bytes> {
    if payloads == [] then None else Some(Join(payloads, LF))
  }

  /** `parse_event_block`: the data lines of a block joined by line feeds, if there are any. */
  function EventPayload(block: Bytes): Option<Bytes> { Combined(Payloads(InclusiveLines(block))) }

  lemma PayloadsAppend(lines: seq<Bytes>, line: Bytes)
    ensures Payloads(lines + [line])
         == Payloads(lines) + match LinePayload(line) case Some(p) => [p] case None => []
  {
    if lines != [] {
      assert (lines + [line])[1..] == lines[1..] + [line];
      PayloadsAppend(lines[1..], line);
    }
  }

  method ParseEventBlock(block: Bytes) returns (combined: Option<Bytes>)
    ensures combined == EventPayload(block)
  {
    combined := None;
    var lines := InclusiveLines(block);
    for k := 0 to |lines|
      invariant combined == Combined(Payloads(lines[..k]))
    {
      assert lines[..k + 1] == lines[..k] + [lines[k]];
      PayloadsAppend(lines[..k], lines[k]);
      assert Payloads(lines[..k]) + [] == Payloads(lines[..k]);
      var line := TrimLineEnd(lines[k]);
      if line == [] { continue; }
      if !(DATA <= line) { continue; }
      var payload := TrimSpaces(line[|DATA|..]);
      match combined {
        case None =>
          assert Payloads(lines[..k]) == [];
          combined := Some(payload);
        case Some(s) =>
          JoinAppend(Payloads(lines[..k]), payload, LF);
          combined := Some(s + [LF] + payload);
      }
    }
    assert lines[..|lines|] == lines;
  }

  // ------------------------------------------------------------------- decoding

  /** UTF-8 validation, and JSON parsing followed by `classify_stream_event`. */
  datatype Codec<!E> = Codec(utf8: Bytes -> bool, classify: Bytes -> Result<E, string>)

  /** A block's event, no event, or an error. */
  function Decode<E>(c: Codec<E>, block: Bytes): Result<seq<E>, string> {
    if !c.utf8(block) then Err("invalid UTF-8 in SSE")
    else
      match EventPayload(block)
      case None => Ok([])
      case Some(json) =>
        match c.classify(json)
        case Ok(event) => Ok([event])
        case Err(e) => Err(e)
  }

  /** What one drain returns and leaves in the buffer. */
  datatype Drained<E> = Drained(out: Result<seq<E>, string>, rest: Bytes)

  /** Events found earlier in the same drain; an error discards them. */
  function Prepend<E>(first: seq<E>, d: Drained<E>): Drained<E> {
    match d.out
    case Ok(events) => d.(out := Ok(first + events))
    case Err(_) => d
  }

  lemma PrependTwice<E>(a: seq<E>, b: seq<E>, d: Drained<E>)
    ensures Prepend(a, Prepend(b, d)) == Prepend(a + b, d)
  {
    if d.out.Ok? {
      assert a + (b + d.out.value) == a + b + d.out.value;
    }
  }

  function Drain<E>(c: Codec<E>, buf: Bytes): Drained<E>
    decreases |buf|
  {
    match FindEventSeparator(buf)
    case None => Drained(Ok([]), buf)
    case Some((end, next)) =>
      match Decode(c, buf[..end])
      case Err(e) => Drained(Err(e), buf)
      case Ok(first) => Prepend(first, Drain(c, buf[next..]))
  }

  function Flush<E>(c: Codec<E>, buf: Bytes): Drained<E> {
    if buf == [] then Drained(Ok([]), buf)
    else
      match Decode(c, buf)
      case Ok(events) => Drained(Ok(events), [])
      case Err(e) => Drained(Err(e), buf)
  }

  class SseParser<E> {
    const codec: Codec<E>
    var buf: Bytes

    constructor (codec: Codec<E>)
      ensures this.codec == codec && buf == []
    {
      this.codec := codec;
      buf := [];
    }

    method DecodeBlock(block: Bytes) returns (r: Result<seq<E>, string>)
      ensures r == Decode(codec, block)
    {
      if !codec.utf8(block) {
        return Err("invalid UTF-8 in SSE");
      }
      var payload := ParseEventBlock(block);
      match payload {
        case None => return Ok([]);
        case Some(json) =>
          match codec.classify(json) {
            case Ok(event) => return Ok([event]);
            case Err(e) => return Err(e);
          }
      }
    }

    method DrainCompleteEvents() returns (r: Result<seq<E>, string>)
      modifies this
      ensures Drained(r, buf) == Drain(codec, old(buf))
    {
      var out: seq<E> := [];
      assert Prepend([], Drain(codec, buf)) == Drain(codec, buf) by {
        if Drain(codec, buf).out.Ok? { assert [] + Drain(codec, buf).out.value == Drain(codec, buf).out.value; }
      }
      var sep := FindEventSeparator(buf);
      while sep.Some?
        invariant sep == FindEventSeparator(buf)
        invariant Drain(codec, old(buf)) == Prepend(out, Drain(codec, buf))
        decreases |buf|
      {
        var (end, next) := sep.value;
        var decoded := DecodeBlock(buf[..end]);
        match decoded {
          case Err(e) => return Err(e);
          case Ok(events) =>
            PrependTwice(out, events, Drain(codec, buf[next..]));
            out := out + events;
        }
        buf := buf[next..];
        sep := FindEventSeparator(buf);
      }
      assert out + [] == out;
      return Ok(out);
    }

    method PushBytes(chunk: Bytes) returns (r: Result<seq<E>, string>)
      modifies this
      ensures Drained(r, buf) == Drain(codec, old(buf) + chunk)
    {
      buf := buf + chunk;
      r := DrainCompleteEvents();
    }

    method Finish() returns (r: Result<seq<E>, string>)
      modifies this
      ensures Drained(r, buf) == Flush(codec, old(buf))
    {
      if buf == [] {
        return Ok([]);
      }
      r := DecodeBlock(buf);
      if r.Ok? { buf := []; }
    }
  }
}
