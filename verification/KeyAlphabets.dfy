/** The letters in which media keys are written, and where each bit of a key goes. */
module KeyAlphabets {
  import opened Wrappers
  import opened Text
  import opened KeyFormats

  const DIGITS := "0123456789abcdef"
  const CAPITALS := "0123456789ABCDEF"
  const LETTERS := "abcdefghijklmnopqrstuvwxyz"
  const CAPITAL_LETTERS := "ABCDEFGHIJKLMNOPQRSTUVWXYZ"

  /** The hexadecimal digits: read in either case, written in lower case. */
  lemma HexDigitsAre(c: char, v: nat)
    ensures v < 16 ==> (HexValue(c) == Some(v) <==> c == DIGITS[v] || c == CAPITALS[v]) && HexDigit(v) == DIGITS[v]
    ensures HexValue(c).None? <==> c !in DIGITS && c !in CAPITALS
  {
    if HexValue(c).Some? {
      var w := HexValue(c).value;
      assert c == DIGITS[w] || c == CAPITALS[w];
    }
    if c in DIGITS {
      var k :| 0 <= k < 16 && DIGITS[k] == c;
    }
    if c in CAPITALS {
      var k :| 0 <= k < 16 && CAPITALS[k] == c;
    }
  }

  /** Two digits for each byte, the higher half first. */
  lemma {:induction false} ByteDigits(bytes: Bytes, k: nat)
    requires k < |bytes|
    ensures |HexEncode(bytes)| == 2 * |bytes|
    ensures HexEncode(bytes)[2 * k] == DIGITS[bytes[k] / 16] && HexEncode(bytes)[2 * k + 1] == DIGITS[bytes[k] % 16]
  {
    HexDigitsAre(' ', bytes[0] / 16);
    HexDigitsAre(' ', bytes[0] % 16);
    var rest := HexEncode(bytes[1..]);
    if |bytes| > 1 {
      ByteDigits(bytes[1..], if k > 0 then k - 1 else 0);
    } else {
      assert rest == "";
    }
    if k > 0 {
      assert HexEncode(bytes)[2 * k] == rest[2 * (k - 1)] && HexEncode(bytes)[2 * k + 1] == rest[2 * (k - 1) + 1];
    }
  }

  /** The symbols of Base64: the capital letters, the small ones, the digits, plus and slash. */
  lemma SymbolsAre(v: nat)
    ensures v < 26 ==> Symbol(v) == CAPITAL_LETTERS[v]
    ensures 26 <= v < 52 ==> Symbol(v) == LETTERS[v - 26]
    ensures 52 <= v < 62 ==> Symbol(v) == DIGITS[v - 52]
    ensures Symbol(62) == '+' && Symbol(63) == '/'
  {
    hide Symbol;
    if v < 26 {
      CapitalSymbols(v);
    } else if v < 52 {
      SmallSymbols(v - 26);
    } else {
      OtherSymbols(v);
    }
    OtherSymbols(62);
  }

  lemma CapitalSymbols(k: nat)
    requires k < 26
    ensures Symbol(k) == CAPITAL_LETTERS[k]
  {
  }

  lemma SmallSymbols(k: nat)
    requires k < 26
    ensures Symbol(k + 26) == LETTERS[k]
  {
  }

  lemma OtherSymbols(v: nat)
    requires 52 <= v
    ensures v < 62 ==> Symbol(v) == DIGITS[v - 52]
    ensures Symbol(62) == '+' && Symbol(63) == '/'
  {
  }

  /** Four symbols and three bytes are the same twenty-four bits. */
  lemma GroupsAre(a: Byte, b: Byte, c: Byte)
    ensures var v := Sextets(a, b, c);
      0x40000 * v[0] + 0x1000 * v[1] + 0x40 * v[2] + v[3] == 0x10000 * a + 0x100 * b + c
  {
  }

  /** The symbols of four values. */
  function Written(v: seq<nat>): string
    requires |v| == 4 && forall k :: 0 <= k < 4 ==> v[k] < 64
  {
    [Symbol(v[0]), Symbol(v[1]), Symbol(v[2]), Symbol(v[3])]
  }

  /** Base64, group by group: one byte takes two symbols and two signs of padding, two take three and one. */
  lemma Base64IsWritten(bytes: Bytes)
    ensures |bytes| >= 3 ==>
              Base64(STANDARD, bytes) == Written(Sextets(bytes[0], bytes[1], bytes[2])) + Base64(STANDARD, bytes[3..])
    ensures |bytes| == 2 ==>
              Base64(STANDARD, bytes) == Written(Sextets(bytes[0], bytes[1], 0))[..3] + "="
    ensures |bytes| == 1 ==> Base64(STANDARD, bytes) == Written(Sextets(bytes[0], 0, 0))[..2] + "=="
    ensures |bytes| == 0 ==> Base64(STANDARD, bytes) == ""
  {
    hide Sextets, Symbols, Written;
    match |bytes|
    case 0 =>
    case 1 => SymbolsAreWritten(Sextets(bytes[0], 0, 0));
    case 2 => SymbolsAreWritten(Sextets(bytes[0], bytes[1], 0));
    case _ => SymbolsAreWritten(Sextets(bytes[0], bytes[1], bytes[2]));
  }

  lemma SymbolsAreWritten(v: seq<nat>)
    requires |v| == 4 && forall k :: 0 <= k < 4 ==> v[k] < 64
    ensures Symbols(STANDARD, v) == Written(v)
  {
  }
}
