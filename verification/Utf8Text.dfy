/** Cutting UTF-8 text at a byte budget without splitting a character. */
module Utf8Text {
  import opened Wrappers

  // ------------------------------------------------------- UTF-8, section 3 of RFC 3629

  function EncodeScalar(c: char): (bytes: seq<Byte>)
    ensures 1 <= |bytes| <= 4
  {
    var n := c as int;
    if n < 0x80 then [n]
    else if n < 0x800 then [0xC0 + n / 0x40, 0x80 + n % 0x40]
    else if n < 0x10000 then [0xE0 + n / 0x1000, 0x80 + n / 0x40 % 0x40, 0x80 + n % 0x40]
    else [0xF0 + n / 0x40000, 0x80 + n / 0x1000 % 0x40, 0x80 + n / 0x40 % 0x40, 0x80 + n % 0x40]
  }

  /** The bytes of a string; the valid byte sequences are those of this form. */
  function Encode(s: string): seq<Byte> {
    if s == "" then [] else EncodeScalar(s[0]) + Encode(s[1..])
  }

  /** The byte is 10xxxxxx. */
  predicate Continues(b: Byte) { 0x80 <= b <= 0xBF }

  /** The six bits it carries. */
  function Bits(b: Byte): int { b as int - 0x80 }

  /** The lengths and the bits of encoded characters (section 3 of RFC 3629). */
  lemma ScalarBits(c: char)
    ensures var n, bytes := c as int, EncodeScalar(c);
      && (n <= 0x7F ==> bytes == [n])
      && (0x80 <= n <= 0x7FF ==>
            && |bytes| == 2 && 0xC2 <= bytes[0] <= 0xDF && Continues(bytes[1])
            && (bytes[0] as int - 0xC0) * 0x40 + Bits(bytes[1]) == n)
  {
  }

  lemma LongScalarBits(c: char)
    ensures var n, bytes := c as int, EncodeScalar(c);
      && (0x800 <= n <= 0xFFFF ==>
            && |bytes| == 3 && 0xE0 <= bytes[0] <= 0xEF && Continues(bytes[1]) && Continues(bytes[2])
            && (bytes[0] as int - 0xE0) * 0x1000 + Bits(bytes[1]) * 0x40 + Bits(bytes[2]) == n)
  {
  }

  lemma LongestScalarBits(c: char)
    ensures var n, bytes := c as int, EncodeScalar(c);
      && (0x10000 <= n ==>
            && |bytes| == 4 && 0xF0 <= bytes[0] <= 0xF4
            && Continues(bytes[1]) && Continues(bytes[2]) && Continues(bytes[3])
            && (bytes[0] as int - 0xF0) * 0x40000 + Bits(bytes[1]) * 0x1000 + Bits(bytes[2]) * 0x40 + Bits(bytes[3])
               == n)
  {
    var n := c as int;
    assert n == n / 0x40 * 0x40 + n % 0x40;
    assert n / 0x40 == n / 0x1000 * 0x40 + n / 0x40 % 0x40;
    assert n / 0x1000 == n / 0x40000 * 0x40 + n / 0x1000 % 0x40;
  }

  predicate IsContinuation(b: Byte) { 0x80 <= b < 0xC0 }

  /** `is_char_boundary`: the ends, and before every byte that is not a continuation. */
  predicate IsBoundary(bytes: seq<Byte>, i: nat) {
    i == 0 || i == |bytes| || (i < |bytes| && !IsContinuation(bytes[i]))
  }

  // --------------------------------------------------------------------- the functions

  /** The greatest boundary within the budget. */
  ghost predicate IsFloor(bytes: seq<Byte>, max: nat, end: nat) {
    && end <= max && end <= |bytes| && IsBoundary(bytes, end)
    && forall i :: end < i <= max && i <= |bytes| ==> !IsBoundary(bytes, i)
  }

  method FloorCharBoundary(bytes: seq<Byte>, maxBytes: nat) returns (end: nat)
    ensures IsFloor(bytes, maxBytes, end)
  {
    if maxBytes >= |bytes| {
      return |bytes|;
    }
    end := maxBytes;
    while end > 0 && !IsBoundary(bytes, end)
      invariant end <= maxBytes
      invariant forall i :: end < i <= maxBytes ==> !IsBoundary(bytes, i)
    {
      end := end - 1;
    }
  }

  method SafePrefix(bytes: seq<Byte>, maxBytes: nat) returns (prefix: seq<Byte>)
    ensures IsFloor(bytes, maxBytes, |prefix|) && prefix == bytes[..|prefix|]
  {
    var end := FloorCharBoundary(bytes, maxBytes);
    prefix := bytes[..end];
  }

  method TruncateWithSuffix(bytes: seq<Byte>, maxBytes: nat, suffix: seq<Byte>) returns (r: seq<Byte>)
    ensures |bytes| <= maxBytes ==> r == bytes
    ensures |bytes| > maxBytes ==> IsTruncation(bytes, maxBytes, suffix, r)
  {
    if |bytes| <= maxBytes {
      return bytes;
    }
    var budget := if maxBytes >= |suffix| then maxBytes - |suffix| else 0;
    var prefix := SafePrefix(bytes, budget);
    r := prefix + suffix;
    assert r[..|prefix|] == prefix;
  }

  /** A longest whole prefix that leaves room for the suffix (nothing if there is no room), and then the suffix. */
  ghost predicate IsTruncation(bytes: seq<Byte>, maxBytes: nat, suffix: seq<Byte>, r: seq<Byte>) {
    && |suffix| <= |r|
    && (var end := |r| - |suffix|;
        && IsFloor(bytes, if maxBytes >= |suffix| then maxBytes - |suffix| else 0, end)
        && r == bytes[..end] + suffix)
  }

  // --------------------------------------------------------------------------- meaning

  lemma EncodeAppend(a: string, b: string)
    ensures Encode(a + b) == Encode(a) + Encode(b)
  {
    if a == "" {
      assert a + b == b;
    } else {
      EncodeAppend(a[1..], b);
      assert (a + b)[1..] == a[1..] + b;
    }
  }

  /** The first byte of a character is no continuation and the others are. */
  lemma ScalarShape(c: char)
    ensures !IsContinuation(EncodeScalar(c)[0])
    ensures forall i :: 1 <= i < |EncodeScalar(c)| ==> IsContinuation(EncodeScalar(c)[i])
  {
  }

  /** The boundaries of a string's bytes are the lengths of its encoded prefixes. */
  lemma {:induction false} BoundariesArePrefixes(s: string, i: nat)
    requires i <= |Encode(s)|
    ensures IsBoundary(Encode(s), i) <==> exists k :: 0 <= k <= |s| && |Encode(s[..k])| == i
  {
    if s == "" {
      assert s[..0] == "";
    } else {
      var first, bytes := EncodeScalar(s[0]), Encode(s);
      ScalarShape(s[0]);
      if i == 0 {
        assert s[..0] == "";
      } else if i < |first| {
        forall k | 0 <= k <= |s| ensures |Encode(s[..k])| != i {
          if k > 0 { assert s[..k][0] == s[0]; }
        }
      } else {
        BoundariesArePrefixes(s[1..], i - |first|);
        RestStartsAtBoundary(s[1..]);
        assert i < |bytes| ==> bytes[i] == Encode(s[1..])[i - |first|];
        if IsBoundary(bytes, i) {
          var k :| 0 <= k <= |s[1..]| && |Encode(s[1..][..k])| == i - |first|;
          assert s[..k + 1][1..] == s[1..][..k];
          assert |Encode(s[..k + 1])| == i;
        }
        forall k | 0 <= k <= |s| && |Encode(s[..k])| == i ensures IsBoundary(bytes, i) {
          if k > 0 {
            assert s[..k][1..] == s[1..][..k - 1];
            assert |Encode(s[1..][..k - 1])| == i - |first|;
          }
        }
      }
    }
  }

  lemma RestStartsAtBoundary(s: string)
    ensures s != "" ==> !IsContinuation(Encode(s)[0])
  {
    if s != "" { ScalarShape(s[0]); }
  }

  lemma {:induction false} PrefixBytes(s: string, k: nat)
    requires k <= |s|
    ensures |Encode(s[..k])| <= |Encode(s)| && Encode(s)[..|Encode(s[..k])|] == Encode(s[..k])
  {
    EncodeAppend(s[..k], s[k..]);
    assert s[..k] + s[k..] == s;
  }

  lemma PrefixesGrow(s: string, k: nat, j: nat)
    requires k < j <= |s|
    ensures |Encode(s[..k])| + 1 <= |Encode(s[..j])|
    ensures j == k + 1 ==> |Encode(s[..j])| <= |Encode(s[..k])| + 4
  {
    assert s[..j] == s[..k] + s[k..j];
    EncodeAppend(s[..k], s[k..j]);
    if j == k + 1 {
      assert Encode(s[k..j]) == EncodeScalar(s[k]) + Encode(s[k..j][1..]) && s[k..j][1..] == "";
    }
  }

  /**
   For every string and budget the cut keeps whole characters: as many as fit, so that at most three bytes of the
   budget are left when something was cut off.
   */
  lemma CutsKeepAsManyCharactersAsFit(s: string, max: nat, end: nat)
    requires IsFloor(Encode(s), max, end)
    ensures exists k :: 0 <= k <= |s| && Encode(s)[..end] == Encode(s[..k])
                        && forall j :: k < j <= |s| ==> |Encode(s[..j])| > max
    ensures end == |Encode(s)| || max - end <= 3
  {
    BoundariesArePrefixes(s, end);
    var k :| 0 <= k <= |s| && |Encode(s[..k])| == end;
    PrefixBytes(s, k);
    forall j | k < j <= |s| ensures |Encode(s[..j])| > max {
      PrefixesGrow(s, k, j);
      PrefixBytes(s, j);
      BoundariesArePrefixes(s, |Encode(s[..j])|);
    }
    if k < |s| {
      PrefixesGrow(s, k, k + 1);
    } else {
      assert s[..k] == s;
    }
  }

  /** A truncated string is within the budget exactly when its suffix is. */
  lemma TruncationFitsWhenItsSuffixDoes(bytes: seq<Byte>, maxBytes: nat, suffix: seq<Byte>, r: seq<Byte>)
    requires IsTruncation(bytes, maxBytes, suffix, r)
    ensures |r| <= maxBytes <==> |suffix| <= maxBytes
  {
  }

  /** Truncating valid text with a valid suffix gives valid text: a prefix of the characters, then the suffix. */
  lemma TruncationIsText(s: string, maxBytes: nat, suffix: string, r: seq<Byte>)
    requires IsTruncation(Encode(s), maxBytes, Encode(suffix), r)
    ensures exists k :: 0 <= k <= |s| && r == Encode(s[..k] + suffix)
  {
    var end := |r| - |Encode(suffix)|;
    BoundariesArePrefixes(s, end);
    var k :| 0 <= k <= |s| && |Encode(s[..k])| == end;
    PrefixBytes(s, k);
    EncodeAppend(s[..k], suffix);
  }
}
