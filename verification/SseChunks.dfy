/** Cutting an event stream into chunks: when the blocks that come out do not depend on the cuts. */
module SseChunks {
  import opened Wrappers
  import opened Sse

  datatype Parsed = Parsed(blocks: seq<Bytes>, rest: Bytes)

  /** The blocks one drain takes off the buffer, and what it leaves. */
  function Split(buf: Bytes): Parsed
    decreases |buf|
  {
    match FindEventSeparator(buf)
    case None => Parsed([], buf)
    case Some((end, next)) => var later := Split(buf[next..]); Parsed([buf[..end]] + later.blocks, later.rest)
  }

  /** The blocks that come out when the chunks are pushed one after the other. */
  function Feed(buf: Bytes, chunks: seq<Bytes>): Parsed
    decreases |chunks|
  {
    if chunks == [] then Parsed([], buf)
    else
      var now := Split(buf + chunks[0]);
      var later := Feed(now.rest, chunks[1..]);
      Parsed(now.blocks + later.blocks, later.rest)
  }

  function Flatten(chunks: seq<Bytes>): Bytes {
    if chunks == [] then [] else chunks[0] + Flatten(chunks[1..])
  }

  predicate BlankLf(s: Bytes, i: int) { 0 <= i && i + 2 <= |s| && s[i] == LF && s[i + 1] == LF }

  predicate BlankCrlf(s: Bytes, i: int) {
    0 <= i && i + 4 <= |s| && s[i] == CR && s[i + 1] == LF && s[i + 2] == CR && s[i + 3] == LF
  }

  ghost predicate NoBlankLf(s: Bytes) { forall i :: !BlankLf(s, i) }

  ghost predicate NoBlankCrlf(s: Bytes) { forall i :: !BlankCrlf(s, i) }

  /** Every LF LF of the stream ends before every CR LF CR LF ends. */
  ghost predicate Tidy(stream: Bytes) {
    forall i, j :: BlankCrlf(stream, i) && BlankLf(stream, j) ==> j <= i + 2
  }

  // ------------------------------------------------------------ the first separator

  lemma AtChars(s: Bytes, i: nat)
    ensures At(s, BLANK_LF, i) <==> BlankLf(s, i)
    ensures At(s, BLANK_CRLF, i) <==> BlankCrlf(s, i)
  {
    if BlankLf(s, i) {
      assert s[i..i + 2] == BLANK_LF;
    }
    if At(s, BLANK_LF, i) {
      assert s[i..i + 2][0] == LF && s[i..i + 2][1] == LF;
    }
    if BlankCrlf(s, i) {
      assert s[i..i + 4] == BLANK_CRLF;
    }
    if At(s, BLANK_CRLF, i) {
      var w := s[i..i + 4];
      assert w[0] == CR && w[1] == LF && w[2] == CR && w[3] == LF;
    }
  }

  ghost predicate FirstLf(s: Bytes, e: int) { BlankLf(s, e) && forall i :: i < e ==> !BlankLf(s, i) }

  ghost predicate FirstCrlf(s: Bytes, e: int) { BlankCrlf(s, e) && forall i :: i < e ==> !BlankCrlf(s, i) }

  /** What `find_event_separator` finds, in terms of the bytes. */
  lemma SeparatorFound(s: Bytes)
    ensures match FindEventSeparator(s)
      case Some((e, n)) => (n == e + 2 && FirstLf(s, e)) || (n == e + 4 && FirstCrlf(s, e) && NoBlankLf(s))
      case None => NoBlankLf(s) && NoBlankCrlf(s)
  {
    FindFromIsFirst(s, BLANK_LF, 0);
    FindFromIsFirst(s, BLANK_CRLF, 0);
    forall i: nat
      ensures At(s, BLANK_LF, i) <==> BlankLf(s, i)
      ensures At(s, BLANK_CRLF, i) <==> BlankCrlf(s, i)
    {
      AtChars(s, i);
    }
  }

  /** ... and nothing else is what it finds. */
  lemma SeparatorIs(s: Bytes, e: nat, n: nat)
    requires (n == e + 2 && FirstLf(s, e)) || (n == e + 4 && FirstCrlf(s, e) && NoBlankLf(s))
    ensures FindEventSeparator(s) == Some((e, n))
  {
    SeparatorFound(s);
    var found := FindEventSeparator(s);
    if n == e + 2 {
      assert found.Some?;
    } else {
      assert found.Some?;
    }
  }

  lemma BlankSuffix(s: Bytes, n: nat)
    requires n <= |s|
    ensures forall i :: BlankLf(s[n..], i) <==> 0 <= i && BlankLf(s, n + i)
    ensures forall i :: BlankCrlf(s[n..], i) <==> 0 <= i && BlankCrlf(s, n + i)
  {
  }

  /** An occurrence that fits into the first part is an occurrence in the whole, and conversely. */
  lemma BlankPrefix(a: Bytes, b: Bytes)
    ensures forall i :: i + 2 <= |a| ==> (BlankLf(a, i) <==> BlankLf(a + b, i))
    ensures forall i :: i + 4 <= |a| ==> (BlankCrlf(a, i) <==> BlankCrlf(a + b, i))
  {
  }

  lemma TidySuffix(s: Bytes, n: nat)
    requires Tidy(s) && n <= |s|
    ensures Tidy(s[n..])
  {
    BlankSuffix(s, n);
    forall i, j | BlankCrlf(s[n..], i) && BlankLf(s[n..], j)
      ensures j <= i + 2
    {
      assert BlankCrlf(s, n + i) && BlankLf(s, n + j);
    }
  }

  // ------------------------------------------------------------ tidy streams

  /** On a tidy stream the first separator of a part is the first separator of the whole. */
  lemma FirstSeparatorStays(a: Bytes, b: Bytes)
    requires Tidy(a + b) && FindEventSeparator(a).Some?
    ensures FindEventSeparator(a + b) == FindEventSeparator(a)
  {
    SeparatorFound(a);
    BlankPrefix(a, b);
    var (e, n) := FindEventSeparator(a).value;
    if n == e + 4 {
      forall j ensures !BlankLf(a + b, j) {}
    }
    SeparatorIs(a + b, e, n);
  }

  lemma {:induction false} SplitLeaves(buf: Bytes)
    ensures var p := Split(buf);
      |p.rest| <= |buf| && p.rest == buf[|buf| - |p.rest|..] && FindEventSeparator(p.rest) == None
    decreases |buf|
  {
    match FindEventSeparator(buf)
    case None =>
    case Some((end, next)) =>
      SplitLeaves(buf[next..]);
      var rest := Split(buf[next..]).rest;
      assert buf[next..][|buf| - next - |rest|..] == buf[|buf| - |rest|..];
  }

  /** What is parsed when `more` arrives after `now` has been parsed. */
  function Then(now: Parsed, more: Bytes): Parsed {
    var later := Split(now.rest + more);
    Parsed(now.blocks + later.blocks, later.rest)
  }

  lemma ThenCons(block: Bytes, now: Parsed, more: Bytes)
    ensures Then(Parsed([block] + now.blocks, now.rest), more)
         == Parsed([block] + Then(now, more).blocks, Then(now, more).rest)
  {
    var later := Split(now.rest + more);
    assert [block] + now.blocks + later.blocks == [block] + (now.blocks + later.blocks);
  }

  lemma {:induction false} SplitAppend(a: Bytes, b: Bytes, whole: Bytes)
    requires whole == a + b && Tidy(whole)
    ensures Split(whole) == Then(Split(a), b)
    decreases |a|
  {
    match FindEventSeparator(a)
    case None =>
      assert [] + Split(whole).blocks == Split(whole).blocks;
    case Some((end, next)) =>
      FirstSeparatorStays(a, b);
      assert whole[..end] == a[..end] && whole[next..] == a[next..] + b;
      TidySuffix(whole, next);
      SplitAppend(a[next..], b, whole[next..]);
      ThenCons(a[..end], Split(a[next..]), b);
  }

  /** On a tidy stream every way of cutting it gives the blocks of one push. */
  lemma {:induction false} TidyStreamsCutAnywhere(buf: Bytes, chunks: seq<Bytes>)
    requires Tidy(buf + Flatten(chunks)) && FindEventSeparator(buf) == None
    ensures Feed(buf, chunks) == Split(buf + Flatten(chunks))
    decreases |chunks|
  {
    if chunks == [] {
      assert buf + [] == buf;
    } else {
      var first, others, whole := buf + chunks[0], Flatten(chunks[1..]), buf + Flatten(chunks);
      assert whole == first + others;
      SplitAppend(first, others, whole);
      var now := Split(first);
      RestTidy(first, others, whole);
      TidyStreamsCutAnywhere(now.rest, chunks[1..]);
    }
  }

  lemma RestTidy(first: Bytes, others: Bytes, whole: Bytes)
    requires whole == first + others && Tidy(whole)
    ensures Tidy(Split(first).rest + others) && FindEventSeparator(Split(first).rest) == None
  {
    SplitLeaves(first);
    var rest := Split(first).rest;
    assert rest + others == whole[|first| - |rest|..];
    TidySuffix(whole, |first| - |rest|);
  }

  // ------------------------------------------------------------ untidy streams

  /** The first part ends in the stream's first CR LF CR LF, and a LF LF ends later. */
  ghost predicate CutInside(a: Bytes, b: Bytes, j: int) {
    FirstCrlf(a, |a| - 4) && |a| - 2 < j && BlankLf(a + b, j)
  }

  /** Such a cut changes the blocks. */
  lemma {:induction false} CutShows(a: Bytes, b: Bytes, j: int)
    requires CutInside(a, b, j)
    ensures Split(a).blocks + Split(Split(a).rest + b).blocks != Split(a + b).blocks
    decreases |a|
  {
    SeparatorFound(a);
    BlankPrefix(a, b);
    var (e, n) := FindEventSeparator(a).value;
    if n == e + 2 {
      SeparatorIs(a + b, e, n);
      assert n <= |a| - 4 && (a + b)[n..] == a[n..] + b && (a + b)[..e] == a[..e];
      BlankSuffix(a, n);
      BlankSuffix(a + b, n);
      assert BlankLf(a[n..] + b, j - n) && BlankCrlf(a[n..], |a[n..]| - 4);
      CutShows(a[n..], b, j - n);
      ConsDiffers(a[..e], Split(a[n..]).blocks, Split(Split(a).rest + b).blocks, Split(a[n..] + b).blocks);
    } else {
      assert e == |a| - 4;
      SeparatorFound(a + b);
      var (q, m) := FindEventSeparator(a + b).value;
      assert BlankLf(a + b, q) && !BlankLf(a, q);
      assert |a| < q + 2;
      var later, whole := Split(Split(a).rest + b).blocks, Split((a + b)[m..]).blocks;
      HeadDiffers(a[..e], Split(a[n..]).blocks, later, (a + b)[..q], whole);
    }
  }

  lemma ConsDiffers(x: Bytes, cut: seq<Bytes>, later: seq<Bytes>, whole: seq<Bytes>)
    requires cut + later != whole
    ensures [x] + cut + later != [x] + whole
  {
    assert ([x] + cut + later)[1..] == cut + later && ([x] + whole)[1..] == whole;
  }

  lemma HeadDiffers(x: Bytes, cut: seq<Bytes>, later: seq<Bytes>, y: Bytes, whole: seq<Bytes>)
    requires |x| != |y|
    ensures [x] + cut + later != [y] + whole
  {
    assert ([x] + cut + later)[0] == x && ([y] + whole)[0] == y;
  }

  lemma FeedTwo(a: Bytes, b: Bytes)
    ensures Flatten([a, b]) == a + b
    ensures Feed([], [a, b]).blocks == Split(a).blocks + Split(Split(a).rest + b).blocks
  {
    var rest := [b];
    assert [a, b][1..] == rest && rest[1..] == [];
    assert [] + a == a && b + [] == b;
    assert Flatten(rest) == b;
    var later := Split(Split(a).rest + b);
    assert Feed(Split(a).rest, rest) == Parsed(later.blocks + [], later.rest);
    assert later.blocks + [] == later.blocks;
  }

  lemma FirstCrlfExists(s: Bytes, i: int) returns (first: nat)
    requires BlankCrlf(s, i)
    ensures first <= i && FirstCrlf(s, first)
    decreases i
  {
    if exists k :: k < i && BlankCrlf(s, k) {
      var k :| k < i && BlankCrlf(s, k);
      first := FirstCrlfExists(s, k);
    } else {
      first := i;
    }
  }

  /** An untidy stream has a cut that shows. */
  lemma UntidyStreamsShowACut(stream: Bytes) returns (chunks: seq<Bytes>)
    requires !Tidy(stream)
    ensures Flatten(chunks) == stream && Feed([], chunks) != Split(stream)
  {
    var i, j :| BlankCrlf(stream, i) && BlankLf(stream, j) && i + 2 < j;
    var first := FirstCrlfExists(stream, i);
    var a, b := stream[..first + 4], stream[first + 4..];
    assert stream == a + b;
    BlankPrefix(a, b);
    CutShows(a, b, j);
    FeedTwo(a, b);
    chunks := [a, b];
  }

  /**
   The blocks parsed from a stream are the same for every way of cutting it into chunks exactly when every
   LF LF in it ends before every CR LF CR LF.
   */
  lemma CutsDoNotMatterExactlyWhenTidy(stream: Bytes)
    ensures (forall chunks :: Flatten(chunks) == stream ==> Feed([], chunks) == Split(stream)) <==> Tidy(stream)
  {
    if Tidy(stream) {
      forall chunks | Flatten(chunks) == stream
        ensures Feed([], chunks) == Split(stream)
      {
        assert [] + stream == stream;
        TidyStreamsCutAnywhere([], chunks);
      }
    } else {
      var chunks := UntidyStreamsShowACut(stream);
    }
  }

  /** A stream with only one kind of separator is tidy. */
  lemma OneSeparatorIsTidy(stream: Bytes)
    requires NoBlankLf(stream) || NoBlankCrlf(stream)
    ensures Tidy(stream)
  {
  }

  // ------------------------------------------------- the left-to-right splitting

  /** The stream split, from the left, at the non-overlapping occurrences of one separator. */
  function SplitAt(stream: Bytes, sep: Bytes): Parsed
    requires sep != []
    decreases |stream|
  {
    match FindFrom(stream, sep, 0)
    case None => Parsed([], stream)
    case Some(i) =>
      var later := SplitAt(stream[i + |sep|..], sep);
      Parsed([stream[..i]] + later.blocks, later.rest)
  }

  /** With one kind of separator, one push is the left-to-right splitting at it. */
  lemma {:induction false} OneSeparatorSplitsLeftToRight(stream: Bytes)
    ensures NoBlankCrlf(stream) ==> Split(stream) == SplitAt(stream, BLANK_LF)
    ensures NoBlankLf(stream) ==> Split(stream) == SplitAt(stream, BLANK_CRLF)
    decreases |stream|
  {
    SeparatorFound(stream);
    match FindEventSeparator(stream)
    case None =>
    case Some((end, next)) =>
      AtChars(stream, end);
      BlankSuffix(stream, next);
      OneSeparatorSplitsLeftToRight(stream[next..]);
  }
}
