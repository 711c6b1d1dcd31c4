/** Operations on strings of Unicode scalars, as the Rust standard library defines them. */
module Text {
  import opened Wrappers
  import opened Splitting

  /** The White_Space property. */
  predicate IsWhitespace(c: char) {
    var n := c as int;
    (9 <= n <= 13) || n == 0x20 || n == 0x85 || n == 0xA0 || n == 0x1680 || (0x2000 <= n <= 0x200A)
    || n == 0x2028 || n == 0x2029 || n == 0x202F || n == 0x205F || n == 0x3000
  }

  /** The property, code point by code point. */
  lemma WhitespaceIs(c: char)
    ensures IsWhitespace(c) <==>
            c as int in {0x9, 0xA, 0xB, 0xC, 0xD, 0x20, 0x85, 0xA0, 0x1680, 0x2000, 0x2001, 0x2002, 0x2003, 0x2004,
                         0x2005, 0x2006, 0x2007, 0x2008, 0x2009, 0x200A, 0x2028, 0x2029, 0x202F, 0x205F, 0x3000}
  {
  }

  function TrimStart(s: string): string {
    if s != [] && IsWhitespace(s[0]) then TrimStart(s[1..]) else s
  }

  function TrimEnd(s: string): string {
    if s != [] && IsWhitespace(s[|s| - 1]) then TrimEnd(s[..|s| - 1]) else s
  }

  function Trim(s: string): string { TrimEnd(TrimStart(s)) }

  predicate EndsWith(s: string, suffix: string) { |suffix| <= |s| && s[|s| - |suffix|..] == suffix }

  /** `strip_prefix` followed by `strip_suffix`. */
  function Between(s: string, prefix: string, suffix: string): Option<string> {
    if prefix <= s && EndsWith(s[|prefix|..], suffix) then Some(s[|prefix|..|s| - |suffix|]) else None
  }

  /** `replace`: every non-overlapping occurrence, from the left. */
  function Replace(s: string, from: string, to: string): string
    requires from != []
  {
    if s == [] then []
    else if from <= s then to + Replace(s[|from|..], from, to)
    else [s[0]] + Replace(s[1..], from, to)
  }

  function Digits(n: nat): string {
    var last := ['0' + (n % 10) as char];
    if n < 10 then last else Digits(n / 10) + last
  }

  function StripReturn(line: string): string { if EndsWith(line, "\r") then line[..|line| - 1] else line }

  function StripReturns(lines: seq<string>): (r: seq<string>)
    ensures |r| == |lines|
  {
    if lines == [] then [] else [StripReturn(lines[0])] + StripReturns(lines[1..])
  }

  /** `str::lines`: a final newline ends the last line and does not begin another. */
  function Lines(text: string): seq<string> {
    var pieces := Pieces(text, '\n');
    var last := pieces[|pieces| - 1];
    StripReturns(pieces[..|pieces| - 1]) + if last == "" then [] else [last]
  }

  /** A line that `lines` gives back as it is when a newline follows. */
  predicate Whole(line: string) { '\n' !in line && !EndsWith(line, "\r") }

  function Written(lines: seq<string>): string {
    if lines == [] then "" else lines[0] + "\n" + Written(lines[1..])
  }

  lemma {:induction false} PiecesOfWritten(lines: seq<string>)
    requires forall k :: 0 <= k < |lines| ==> Whole(lines[k])
    ensures Pieces(Written(lines), '\n') == lines + [""] && StripReturns(lines) == lines
  {
    if lines != [] {
      PiecesOfWritten(lines[1..]);
      OnePiece(lines[0], '\n');
      PiecesAppend(lines[0], Written(lines[1..]), '\n');
      assert lines == [lines[0]] + lines[1..];
    }
  }

  /** Lines written one after the other, each with its newline, are read back. */
  lemma LinesOfWritten(lines: seq<string>)
    requires forall k :: 0 <= k < |lines| ==> Whole(lines[k])
    ensures Lines(Written(lines)) == lines
  {
    PiecesOfWritten(lines);
  }
}
