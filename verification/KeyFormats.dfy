/** The encodings in which a media key arrives: hexadecimal, Base64 of the key, and Base64 of its hexadecimal form. */
module KeyFormats {
  import opened Wrappers
  import opened Text

  type Bytes = seq<Byte>

  // --------------------------------------------------- hexadecimal, section 8 of RFC 4648

  function HexValue(c: char): (v: Option<nat>)
    ensures v.Some? ==> v.value < 16 && c as int < 128
  {
    if '0' <= c <= '9' then Some(c as int - '0' as int)
    else if 'a' <= c <= 'f' then Some(c as int - 'a' as int + 10)
    else if 'A' <= c <= 'F' then Some(c as int - 'A' as int + 10)
    else None
  }

  predicate AllHex(s: string) { forall k :: 0 <= k < |s| ==> HexValue(s[k]).Some? }

  function HexDigit(v: nat): (c: char)
    requires v < 16
    ensures HexValue(c) == Some(v) && !IsWhitespace(c)
  {
    if v < 10 then ('0' as int + v) as char else ('a' as int + v - 10) as char
  }

  function HexEncode(bytes: Bytes): string {
    if bytes == [] then "" else [HexDigit(bytes[0] / 16), HexDigit(bytes[0] % 16)] + HexEncode(bytes[1..])
  }

  function HexDecode(s: string): Option<Bytes> {
    if s == "" then Some([])
    else if |s| == 1 || HexValue(s[0]).None? || HexValue(s[1]).None? then None
    else
      match HexDecode(s[2..])
      case None => None
      case Some(rest) => Some([HexValue(s[0]).value * 16 + HexValue(s[1]).value] + rest)
  }

  lemma AllHexSplits(s: string)
    requires |s| >= 2
    ensures AllHex(s) <==> HexValue(s[0]).Some? && HexValue(s[1]).Some? && AllHex(s[2..])
  {
    hide HexValue;
    var rest := s[2..];
    assert forall k :: 2 <= k < |s| ==> s[k] == rest[k - 2];
    assert forall k :: 0 <= k < |rest| ==> rest[k] == s[k + 2];
  }

  lemma {:induction false} HexDecodeIsTotalOnDigits(s: string)
    ensures HexDecode(s).Some? <==> |s| % 2 == 0 && AllHex(s)
    ensures HexDecode(s).Some? ==> |s| == 2 * |HexDecode(s).value|
  {
    hide HexValue, AllHex;
    if |s| >= 2 {
      AllHexSplits(s);
      HexDecodeIsTotalOnDigits(s[2..]);
    } else if |s| == 1 {
      assert HexDecode(s) == None;
    } else {
      NoDigits(s);
    }
  }

  lemma NoDigits(s: string)
    requires s == ""
    ensures AllHex(s)
  {
  }

  lemma {:induction false} HexRoundTrip(bytes: Bytes)
    ensures HexDecode(HexEncode(bytes)) == Some(bytes)
    ensures forall k :: 0 <= k < |HexEncode(bytes)| ==> !IsWhitespace(HexEncode(bytes)[k])
  {
    if bytes != [] {
      HexRoundTrip(bytes[1..]);
      assert HexEncode(bytes)[2..] == HexEncode(bytes[1..]);
      assert [bytes[0]] + bytes[1..] == bytes;
    }
  }

  // ---------------------------------------------------------- Base64, section 4 of RFC 4648

  /** The symbols for the values below 64. */
  datatype Alphabet = Alphabet(symbol: nat -> char, value: char -> Option<nat>)

  ghost predicate Lawful(al: Alphabet) {
    && (forall v: nat :: v < 64 ==> al.value(al.symbol(v)) == Some(v) && !IsWhitespace(al.symbol(v)))
    && (forall c: char :: al.value(c).Some? ==> al.value(c).value < 64 && al.symbol(al.value(c).value) == c)
    && al.value('=') == None
  }

  function Symbol(v: nat): char {
    if v < 26 then ('A' as int + v) as char
    else if v < 52 then ('a' as int + v - 26) as char
    else if v < 62 then ('0' as int + v - 52) as char
    else if v == 62 then '+'
    else '/'
  }

  function SymbolValue(c: char): Option<nat> {
    if 'A' <= c <= 'Z' then Some(c as int - 'A' as int)
    else if 'a' <= c <= 'z' then Some(c as int - 'a' as int + 26)
    else if '0' <= c <= '9' then Some(c as int - '0' as int + 52)
    else if c == '+' then Some(62)
    else if c == '/' then Some(63)
    else None
  }

  const STANDARD := Alphabet(Symbol, SymbolValue)

  lemma StandardIsLawful()
    ensures Lawful(STANDARD)
  {
  }

  /** Three bytes as four values below 64. */
  function Sextets(a: Byte, b: Byte, c: Byte): (v: seq<nat>)
    ensures |v| == 4 && forall k :: 0 <= k < 4 ==> v[k] < 64
  {
    [a / 4, a % 4 * 16 + b / 16, b % 16 * 4 + c / 64, c % 64]
  }

  function Octets(v: seq<nat>): Bytes
    requires |v| == 4 && forall k :: 0 <= k < 4 ==> v[k] < 64
  {
    [v[0] * 4 + v[1] / 16, v[1] % 16 * 16 + v[2] / 4, v[2] % 4 * 64 + v[3]]
  }

  lemma OctetsOfSextets(a: Byte, b: Byte, c: Byte)
    ensures Octets(Sextets(a, b, c)) == [a, b, c]
  {
  }

  lemma SextetsOfOctets(v: seq<nat>)
    requires |v| == 4 && forall k :: 0 <= k < 4 ==> v[k] < 64
    ensures var o := Octets(v); Sextets(o[0], o[1], o[2]) == v
  {
    SplitSextets(v[0], v[1], v[2], v[3]);
  }

  lemma SplitSextets(a: nat, b: nat, c: nat, d: nat)
    requires a < 64 && b < 64 && c < 64 && d < 64
    ensures (a * 4 + b / 16) / 4 == a && (a * 4 + b / 16) % 4 * 16 + (b % 16 * 16 + c / 4) / 16 == b
    ensures (b % 16 * 16 + c / 4) % 16 * 4 + (c % 4 * 64 + d) / 64 == c && (c % 4 * 64 + d) % 64 == d
  {
  }

  function Symbols(al: Alphabet, v: seq<nat>): (s: string)
    ensures |s| == |v| && forall k :: 0 <= k < |s| ==> s[k] == al.symbol(v[k])
  {
    seq(|v|, i requires 0 <= i < |v| => al.symbol(v[i]))
  }

  /** Every three bytes become four symbols; the last one or two become two or three, and padding. */
  function Base64(al: Alphabet, bytes: Bytes): string {
    match |bytes|
    case 0 => ""
    case 1 => Symbols(al, Sextets(bytes[0], 0, 0))[..2] + "=="
    case 2 => Symbols(al, Sextets(bytes[0], bytes[1], 0))[..3] + "="
    case _ => Symbols(al, Sextets(bytes[0], bytes[1], bytes[2])) + Base64(al, bytes[3..])
  }

  function ValueAt(al: Alphabet, s: string, padding: nat, k: nat): (v: Option<nat>)
    requires k < |s| == 4
    ensures v.Some? ==> v.value < 64
  {
    if k >= 4 - padding then Some(0)
    else if al.value(s[k]).Some? && al.value(s[k]).value < 64 then al.value(s[k])
    else None
  }

  /** The values of four characters, the last `padding` of them being padding. */
  function Values(al: Alphabet, s: string, padding: nat): (r: Option<seq<nat>>)
    requires |s| == 4
    ensures r.Some? ==> |r.value| == 4 && forall k :: 0 <= k < 4 ==> Some(r.value[k]) == ValueAt(al, s, padding, k)
    ensures r.None? ==> exists k :: 0 <= k < 4 && ValueAt(al, s, padding, k).None?
  {
    var a, b := ValueAt(al, s, padding, 0), ValueAt(al, s, padding, 1);
    var c, d := ValueAt(al, s, padding, 2), ValueAt(al, s, padding, 3);
    if a.Some? && b.Some? && c.Some? && d.Some? then Some([a.value, b.value, c.value, d.value]) else None
  }

  /** The padded end; its unused bits must be zero, which is what the missing bytes would be. */
  function DecodePadded(al: Alphabet, s: string): Option<Bytes>
    requires |s| == 4 && s[3] == '='
  {
    var padding := if s[2] == '=' then 2 else 1;
    match Values(al, s, padding)
    case None => None
    case Some(v) =>
      var o := Octets(v);
      if o[2] != 0 || (padding == 2 && o[1] != 0) then None else Some(o[..3 - padding])
  }

  /** The standard engine: canonical padding, nothing ignored. */
  function Base64Decode(al: Alphabet, s: string): Option<Bytes> {
    if s == "" then Some([])
    else if |s| < 4 then None
    else if |s| == 4 && s[3] == '=' then DecodePadded(al, s)
    else
      match Values(al, s[..4], 0)
      case None => None
      case Some(v) =>
        match Base64Decode(al, s[4..])
        case None => None
        case Some(rest) => Some(Octets(v) + rest)
  }

  lemma ValuesOfSymbols(al: Alphabet, v: seq<nat>, s: string, padding: nat)
    requires Lawful(al) && |v| == 4 == |s| && padding <= 2 && forall k :: 0 <= k < 4 ==> v[k] < 64
    requires forall k :: 0 <= k < 4 ==> if k < 4 - padding then s[k] == al.symbol(v[k]) else v[k] == 0
    ensures Values(al, s, padding) == Some(v)
  {
    forall k | 0 <= k < 4 ensures ValueAt(al, s, padding, k) == Some(v[k]) {
    }
    assert v == [v[0], v[1], v[2], v[3]];
  }

  lemma SymbolsOfValues(al: Alphabet, s: string, padding: nat)
    requires Lawful(al) && |s| == 4 && padding <= 2 && Values(al, s, padding).Some?
    ensures Symbols(al, Values(al, s, padding).value)[..4 - padding] == s[..4 - padding]
    ensures forall k :: 4 - padding <= k < 4 ==> Values(al, s, padding).value[k] == 0
  {
    var v := Values(al, s, padding).value;
    forall k | 0 <= k < 4 ensures Some(v[k]) == ValueAt(al, s, padding, k) {
    }
  }

  lemma OneByteRoundTrip(al: Alphabet, a: Byte)
    requires Lawful(al)
    ensures Base64Decode(al, Symbols(al, Sextets(a, 0, 0))[..2] + "==") == Some([a])
  {
    var v := Sextets(a, 0, 0);
    OctetsOfSextets(a, 0, 0);
    ValuesOfSymbols(al, v, Symbols(al, v)[..2] + "==", 2);
    assert Octets(v)[..1] == [a];
  }

  lemma TwoBytesRoundTrip(al: Alphabet, a: Byte, b: Byte)
    requires Lawful(al)
    ensures Base64Decode(al, Symbols(al, Sextets(a, b, 0))[..3] + "=") == Some([a, b])
  {
    var v := Sextets(a, b, 0);
    var s := Symbols(al, v)[..3] + "=";
    OctetsOfSextets(a, b, 0);
    assert al.value(s[2]) == Some(v[2]);
    ValuesOfSymbols(al, v, s, 1);
    assert Octets(v)[..2] == [a, b];
  }

  lemma ThreeBytesRoundTrip(al: Alphabet, a: Byte, b: Byte, c: Byte, later: string)
    requires Lawful(al) && Base64Decode(al, later).Some?
    ensures Base64Decode(al, Symbols(al, Sextets(a, b, c)) + later) == Some([a, b, c] + Base64Decode(al, later).value)
  {
    var v := Sextets(a, b, c);
    var s := Symbols(al, v) + later;
    OctetsOfSextets(a, b, c);
    assert s[..4] == Symbols(al, v) && s[4..] == later;
    ValuesOfSymbols(al, v, s[..4], 0);
    assert al.value(s[3]) == Some(v[3]);
  }

  lemma {:induction false} Base64RoundTrip(al: Alphabet, bytes: Bytes)
    requires Lawful(al)
    ensures Base64Decode(al, Base64(al, bytes)) == Some(bytes)
  {
    hide Lawful, Sextets, Symbols, DecodePadded, Values;
    match |bytes|
    case 0 =>
    case 1 =>
      OneByteRoundTrip(al, bytes[0]);
      assert bytes == [bytes[0]];
    case 2 =>
      TwoBytesRoundTrip(al, bytes[0], bytes[1]);
      assert bytes == [bytes[0], bytes[1]];
    case _ =>
      Base64RoundTrip(al, bytes[3..]);
      ThreeBytesRoundTrip(al, bytes[0], bytes[1], bytes[2], Base64(al, bytes[3..]));
      assert [bytes[0], bytes[1], bytes[2]] + bytes[3..] == bytes;
  }

  lemma {:induction false} Base64Length(al: Alphabet, bytes: Bytes)
    ensures |Base64(al, bytes)| == (|bytes| + 2) / 3 * 4
  {
    if |bytes| >= 3 {
      Base64Length(al, bytes[3..]);
    }
  }

  lemma PaddedIsCanonical(al: Alphabet, s: string)
    requires Lawful(al) && |s| == 4 && s[3] == '=' && DecodePadded(al, s).Some?
    ensures Base64(al, DecodePadded(al, s).value) == s
  {
    var padding := if s[2] == '=' then 2 else 1;
    var v := Values(al, s, padding).value;
    var o := Octets(v);
    SymbolsOfValues(al, s, padding);
    SextetsOfOctets(v);
    assert o[2] == 0 && (padding == 2 ==> o[1] == 0);
    if padding == 2 {
      assert Base64(al, [o[0]]) == Symbols(al, Sextets(o[0], 0, 0))[..2] + "==";
      assert s == s[..2] + "==" && o[..1] == [o[0]];
    } else {
      assert Base64(al, [o[0], o[1]]) == Symbols(al, Sextets(o[0], o[1], 0))[..3] + "=";
      assert s == s[..3] + "=" && o[..2] == [o[0], o[1]];
    }
  }

  /** Decoding accepts nothing but what encoding produces. */
  lemma {:induction false} Base64IsCanonical(al: Alphabet, s: string)
    requires Lawful(al) && Base64Decode(al, s).Some?
    ensures Base64(al, Base64Decode(al, s).value) == s
  {
    if s == "" {
    } else if |s| == 4 && s[3] == '=' {
      PaddedIsCanonical(al, s);
    } else {
      var v, rest := Values(al, s[..4], 0).value, Base64Decode(al, s[4..]).value;
      SymbolsOfValues(al, s[..4], 0);
      SextetsOfOctets(v);
      Base64IsCanonical(al, s[4..]);
      assert (Octets(v) + rest)[3..] == rest;
      assert s[..4] + s[4..] == s && s[..4][..4] == s[..4];
    }
  }

  lemma {:induction false} Base64HasNoWhitespace(al: Alphabet, bytes: Bytes, k: nat)
    requires Lawful(al) && k < |Base64(al, bytes)|
    ensures !IsWhitespace(Base64(al, bytes)[k])
  {
    if |bytes| >= 3 && k >= 4 {
      Base64HasNoWhitespace(al, bytes[3..], k - 4);
    }
  }

  // ------------------------------------------------------------------------- the key

  type Key = k: Bytes | |k| == 16 witness [0, 0, 0, 0, 0, 0, 0, 0, 0, 0, 0, 0, 0, 0, 0, 0]

  datatype ParseError = NotBase64 | UnexpectedFormat(decodedBytes: nat)

  function AsBytes(s: string): (r: Bytes)
    requires AllHex(s)
    ensures |r| == |s|
  {
    seq(|s|, i requires 0 <= i < |s| => s[i] as int)
  }

  function AsText(bytes: Bytes): (r: string)
    ensures |r| == |bytes| && forall k :: 0 <= k < |r| ==> r[k] as int == bytes[k]
  {
    seq(|bytes|, i requires 0 <= i < |bytes| => bytes[i] as char)
  }

  /** `parse_aes_key`. */
  function ParseKey(al: Alphabet, text: string): Result<Key, ParseError> {
    var t := Trim(text);
    HexDecodeIsTotalOnDigits(t);
    if |t| == 32 && AllHex(t) then Ok(HexDecode(t).value)
    else
      match Base64Decode(al, t)
      case None => Err(NotBase64)
      case Some(decoded) => KeyOf(decoded)
  }

  /** The key in what was decoded. */
  function KeyOf(decoded: Bytes): Result<Key, ParseError> {
    HexDecodeIsTotalOnDigits(AsText(decoded));
    if |decoded| == 16 then Ok(decoded)
    else if |decoded| == 32 && AllHex(AsText(decoded)) then Ok(HexDecode(AsText(decoded)).value)
    else Err(UnexpectedFormat(|decoded|))
  }

  /** `encode_aes_key_for_api`. */
  function EncodeForApi(al: Alphabet, key: Key): string {
    HexRoundTrip(key);
    HexDecodeIsTotalOnDigits(HexEncode(key));
    Base64(al, AsBytes(HexEncode(key)))
  }

  /** The digits of a key, in either case. */
  predicate IsHexOf(s: string, key: Key) { AllHex(s) && HexDecode(s) == Some(key) }

  ghost predicate IsWrappedHexOf(al: Alphabet, s: string, key: Key) {
    exists digits :: IsHexOf(digits, key) && s == Base64(al, AsBytes(digits))
  }

  lemma TextOfBytes(s: string)
    requires AllHex(s)
    ensures AsText(AsBytes(s)) == s
  {
    forall k | 0 <= k < |s| ensures AsText(AsBytes(s))[k] == s[k] {
      assert AsText(AsBytes(s))[k] as int == s[k] as int;
    }
  }

  lemma BytesOfText(bytes: Bytes)
    requires AllHex(AsText(bytes))
    ensures AsBytes(AsText(bytes)) == bytes
  {
  }

  lemma KeyOfExactly(decoded: Bytes, key: Key)
    ensures KeyOf(decoded) == Ok(key) <==>
            decoded == key || exists digits :: IsHexOf(digits, key) && decoded == AsBytes(digits)
  {
    HexDecodeIsTotalOnDigits(AsText(decoded));
    if AllHex(AsText(decoded)) { BytesOfText(decoded); }
    forall digits | IsHexOf(digits, key) && decoded == AsBytes(digits)
      ensures |decoded| == 32 && AsText(decoded) == digits
    {
      HexDecodeIsTotalOnDigits(digits);
      TextOfBytes(digits);
    }
  }

  lemma WrappedLength(al: Alphabet, digits: string, key: Key)
    requires IsHexOf(digits, key)
    ensures |digits| == 32 && |Base64(al, AsBytes(digits))| == 44
  {
    HexDecodeIsTotalOnDigits(digits);
    Base64Length(al, AsBytes(digits));
  }

  /** No text is two of the shapes: their lengths are 32, 24 and 44. */
  lemma ShapesAreDisjoint(al: Alphabet, s: string, key: Key)
    ensures IsHexOf(s, key) ==> |s| == 32
    ensures s == Base64(al, key) ==> |s| == 24
    ensures IsWrappedHexOf(al, s, key) ==> |s| == 44
  {
    if IsHexOf(s, key) { WrappedLength(al, s, key); }
    Base64Length(al, key);
    if IsWrappedHexOf(al, s, key) {
      var digits :| IsHexOf(digits, key) && s == Base64(al, AsBytes(digits));
      WrappedLength(al, digits, key);
    }
  }

  /** A key is found exactly in its three shapes; surrounding whitespace is ignored. */
  lemma KeysAreFoundInThreeShapes(al: Alphabet, text: string, key: Key)
    requires Lawful(al)
    ensures var t := Trim(text);
      ParseKey(al, text) == Ok(key) <==> IsHexOf(t, key) || t == Base64(al, key) || IsWrappedHexOf(al, t, key)
  {
    var t := Trim(text);
    HexDecodeIsTotalOnDigits(t);
    ShapesAreDisjoint(al, t, key);
    DecodesToExactly(al, t, key);
  }

  lemma DecodesToExactly(al: Alphabet, t: string, key: Key)
    requires Lawful(al)
    ensures Base64Decode(al, t).Some? && KeyOf(Base64Decode(al, t).value) == Ok(key) <==>
            t == Base64(al, key) || IsWrappedHexOf(al, t, key)
  {
    Base64RoundTrip(al, key);
    forall digits | IsHexOf(digits, key) && t == Base64(al, AsBytes(digits))
      ensures Base64Decode(al, t) == Some(AsBytes(digits))
    {
      Base64RoundTrip(al, AsBytes(digits));
    }
    if Base64Decode(al, t).Some? {
      Base64IsCanonical(al, t);
      KeyOfExactly(Base64Decode(al, t).value, key);
    }
  }

  lemma NothingToTrim(s: string)
    requires s != "" && !IsWhitespace(s[0]) && !IsWhitespace(s[|s| - 1])
    ensures Trim(s) == s
  {
  }

  lemma NothingToTrimInBase64(al: Alphabet, bytes: Bytes)
    requires Lawful(al) && bytes != []
    ensures Trim(Base64(al, bytes)) == Base64(al, bytes)
  {
    Base64Length(al, bytes);
    var s := Base64(al, bytes);
    Base64HasNoWhitespace(al, bytes, 0);
    Base64HasNoWhitespace(al, bytes, |s| - 1);
    NothingToTrim(s);
  }

  /** Every key comes back from its digits, from its Base64 and from the form made for the API. */
  lemma EveryKeyComesBack(key: Key)
    ensures ParseKey(STANDARD, HexEncode(key)) == Ok(key)
    ensures ParseKey(STANDARD, Base64(STANDARD, key)) == Ok(key)
    ensures ParseKey(STANDARD, EncodeForApi(STANDARD, key)) == Ok(key)
  {
    StandardIsLawful();
    KeyComesBack(STANDARD, key);
  }

  lemma KeyComesBack(al: Alphabet, key: Key)
    requires Lawful(al)
    ensures ParseKey(al, HexEncode(key)) == Ok(key)
    ensures ParseKey(al, Base64(al, key)) == Ok(key)
    ensures ParseKey(al, EncodeForApi(al, key)) == Ok(key)
  {
    var digits := HexEncode(key);
    HexRoundTrip(key);
    HexDecodeIsTotalOnDigits(digits);
    NothingToTrim(digits);
    KeysAreFoundInThreeShapes(al, digits, key);
    NothingToTrimInBase64(al, key);
    KeysAreFoundInThreeShapes(al, Base64(al, key), key);
    NothingToTrimInBase64(al, AsBytes(digits));
    assert IsWrappedHexOf(al, EncodeForApi(al, key), key);
    KeysAreFoundInThreeShapes(al, EncodeForApi(al, key), key);
  }
}
