/** Looking up sessions by identifier prefix: the escaping of the prefix and what SQLite's LIKE makes of it. */
module LikeEscape {
  import opened Text

  // --------------------------------------------------------------------- escaping

  /** Three replacements, the backslash first. */
  function Escaped(prefix: string): string {
    Replace(Replace(Replace(prefix, "\\", "\\\\"), "%", "\\%"), "_", "\\_")
  }

  /** The pattern bound to the query. */
  function Pattern(prefix: string): string { Escaped(prefix) + "%" }

  predicate IsSpecial(c: char) { c == '\\' || c == '%' || c == '_' }

  /** One pass: a backslash before every special character. */
  function EscapeOnce(s: string): string {
    if s == "" then "" else (if IsSpecial(s[0]) then ['\\', s[0]] else [s[0]]) + EscapeOnce(s[1..])
  }

  lemma {:induction false} ReplaceAppend(a: string, b: string, c: char, to: string)
    ensures Replace(a + b, [c], to) == Replace(a, [c], to) + Replace(b, [c], to)
  {
    if a == "" {
      assert a + b == b;
    } else {
      assert (a + b)[1..] == a[1..] + b;
      ReplaceAppend(a[1..], b, c, to);
      assert [c] <= a <==> a[0] == c;
      assert [c] <= a + b <==> a[0] == c;
    }
  }

  lemma ReplaceOne(x: char, c: char, to: string)
    ensures Replace([x], [c], to) == if x == c then to else [x]
  {
    var rest: string := [x][1..];
    assert rest == "" && Replace(rest, [c], to) == "";
    assert [c] <= [x] ==> [x][0] == [c][0];
  }

  lemma ReplaceTwo(x: char, y: char, c: char, to: string)
    ensures Replace([x, y], [c], to) == (if x == c then to else [x]) + (if y == c then to else [y])
  {
    ReplaceAppend([x], [y], c, to);
    ReplaceOne(x, c, to);
    ReplaceOne(y, c, to);
    assert [x] + [y] == [x, y];
  }

  lemma EscapedOne(x: char)
    ensures Escaped([x]) == if IsSpecial(x) then ['\\', x] else [x]
  {
    ReplaceOne(x, '\\', "\\\\");
    if x == '\\' {
      ReplaceTwo('\\', '\\', '%', "\\%");
      ReplaceTwo('\\', '\\', '_', "\\_");
    } else {
      ReplaceOne(x, '%', "\\%");
      if x == '%' {
        ReplaceTwo('\\', '%', '_', "\\_");
      } else {
        ReplaceOne(x, '_', "\\_");
      }
    }
  }

  /** The replacements, in that order, are one escaping pass: no replacement touches what another inserted. */
  lemma {:induction false} ReplacementsAreOnePass(s: string)
    ensures Escaped(s) == EscapeOnce(s)
  {
    if s != "" {
      ReplacementsAreOnePass(s[1..]);
      EscapedOne(s[0]);
      assert [s[0]] + s[1..] == s;
      ReplaceAppend([s[0]], s[1..], '\\', "\\\\");
      var a, b := Replace([s[0]], "\\", "\\\\"), Replace(s[1..], "\\", "\\\\");
      ReplaceAppend(a, b, '%', "\\%");
      ReplaceAppend(Replace(a, "%", "\\%"), Replace(b, "%", "\\%"), '_', "\\_");
    }
  }

  /** The same replacements with the backslash last. */
  function EscapedLast(s: string): string {
    Replace(Replace(Replace(s, "%", "\\%"), "_", "\\_"), "\\", "\\\\")
  }

  lemma EscapedLastOne(x: char)
    ensures EscapedLast([x]) == if x == '%' || x == '_' then ['\\', '\\', x] else EscapeOnce([x])
  {
    ReplaceOne(x, '%', "\\%");
    if x == '%' {
      ReplaceTwo('\\', '%', '_', "\\_");
      ReplaceTwo('\\', '%', '\\', "\\\\");
    } else {
      ReplaceOne(x, '_', "\\_");
      if x == '_' {
        ReplaceTwo('\\', '_', '\\', "\\\\");
      } else {
        ReplaceOne(x, '\\', "\\\\");
      }
    }
    var rest: string := [x][1..];
    assert rest == "" && EscapeOnce(rest) == "";
  }

  lemma EscapedLastSplits(s: string)
    requires s != ""
    ensures EscapedLast(s) == EscapedLast([s[0]]) + EscapedLast(s[1..])
  {
    assert [s[0]] + s[1..] == s;
    ReplaceAppend([s[0]], s[1..], '%', "\\%");
    var a, b := Replace([s[0]], "%", "\\%"), Replace(s[1..], "%", "\\%");
    ReplaceAppend(a, b, '_', "\\_");
    ReplaceAppend(Replace(a, "_", "\\_"), Replace(b, "_", "\\_"), '\\', "\\\\");
  }

  /**
   Escaping the backslash last escapes the backslashes inserted before: it gives the same pattern if and only if the
   string holds neither a percent sign nor an underscore.
   */
  lemma {:induction false} TheOrderMattersExactlyForWildcards(s: string)
    ensures EscapedLast(s) == EscapeOnce(s) <==> '%' !in s && '_' !in s
    ensures |EscapeOnce(s)| <= |EscapedLast(s)|
  {
    if s != "" {
      hide EscapedLast, EscapeOnce;
      TheOrderMattersExactlyForWildcards(s[1..]);
      EscapedLastSplits(s);
      EscapedLastOne(s[0]);
      var one, last, rest := EscapeOnce([s[0]]), EscapedLast([s[0]]), s[1..];
      HeadEscapes(s[0], rest);
      assert s == [s[0]] + rest;
      if s[0] != '%' && s[0] != '_' {
        assert last == one;
        assert (one + EscapedLast(rest))[|one|..] == EscapedLast(rest);
        assert (one + EscapeOnce(rest))[|one|..] == EscapeOnce(rest);
      }
    }
  }

  // --------------------------------------------------------------------- matching

  /** ASCII case folding. */
  function Fold(c: char): char { if 'A' <= c <= 'Z' then (c as int + 32) as char else c }

  predicate Alike(c: char, d: char) { Fold(c) == Fold(d) }

  /** Alike are equal characters, and the two cases of one ASCII letter. */
  lemma AlikeExactly(c: char, d: char)
    ensures Alike(c, d) <==>
            || c == d
            || (65 <= c as int <= 90 && d as int - c as int == 32)
            || (65 <= d as int <= 90 && c as int - d as int == 32)
  {
  }

  /** `LIKE ... ESCAPE '\'`; a pattern that ends in its escape character matches nothing. */
  predicate Like(pattern: string, s: string)
    decreases |pattern|, |s|
  {
    if pattern == "" then s == ""
    else if pattern[0] == '%' then Like(pattern[1..], s) || (s != "" && Like(pattern, s[1..]))
    else if pattern[0] == '\\' then
      |pattern| > 1 && s != "" && Alike(pattern[1], s[0]) && Like(pattern[2..], s[1..])
    else s != "" && (pattern[0] == '_' || Alike(pattern[0], s[0])) && Like(pattern[1..], s[1..])
  }

  predicate BeginsLike(s: string, prefix: string) {
    |prefix| <= |s| && forall i :: 0 <= i < |prefix| ==> Alike(prefix[i], s[i])
  }

  lemma {:induction false} AnythingMatches(s: string)
    ensures Like("%", s)
  {
    if s != "" {
      AnythingMatches(s[1..]);
    } else {
      assert Like("%"[1..], s);
    }
  }

  lemma BeginsLikeStep(s: string, prefix: string)
    requires prefix != ""
    ensures BeginsLike(s, prefix) <==> s != "" && Alike(prefix[0], s[0]) && BeginsLike(s[1..], prefix[1..])
  {
    if s != "" && Alike(prefix[0], s[0]) && BeginsLike(s[1..], prefix[1..]) {
      forall i | 0 <= i < |prefix| ensures Alike(prefix[i], s[i]) {
        if i > 0 { assert Alike(prefix[1..][i - 1], s[1..][i - 1]); }
      }
    }
  }

  lemma {:induction false} EscapedMatchesPrefixes(prefix: string, s: string)
    ensures Like(EscapeOnce(prefix) + "%", s) <==> BeginsLike(s, prefix)
  {
    var pattern := EscapeOnce(prefix) + "%";
    if prefix == "" {
      assert pattern == "%";
      AnythingMatches(s);
    } else {
      var later := EscapeOnce(prefix[1..]) + "%";
      assert if IsSpecial(prefix[0]) then pattern == ['\\', prefix[0]] + later else pattern == [prefix[0]] + later;
      assert pattern[if IsSpecial(prefix[0]) then 2 else 1..] == later;
      BeginsLikeStep(s, prefix);
      if s != "" {
        EscapedMatchesPrefixes(prefix[1..], s[1..]);
      }
    }
  }

  /** The identifier is the prefix, up to ASCII case. */
  predicate IsLike(s: string, prefix: string) { |s| == |prefix| && BeginsLike(s, prefix) }

  lemma {:induction false} EscapedMatchesItself(prefix: string, s: string)
    ensures Like(EscapeOnce(prefix), s) <==> IsLike(s, prefix)
  {
    if prefix != "" {
      var pattern, later := EscapeOnce(prefix), EscapeOnce(prefix[1..]);
      assert pattern[if IsSpecial(prefix[0]) then 2 else 1..] == later;
      BeginsLikeStep(s, prefix);
      if s != "" {
        EscapedMatchesItself(prefix[1..], s[1..]);
      }
    }
  }

  // ------------------------------------------------------- texts that hold a NUL

  /** SQLite reads a text up to its first NUL. */
  function UpToNul(s: string): string {
    if s == "" || s[0] == '\0' then "" else [s[0]] + UpToNul(s[1..])
  }

  predicate Selects(pattern: string, id: string) { Like(UpToNul(pattern), UpToNul(id)) }

  lemma {:induction false} EscapingStopsAtNul(s: string, tail: string)
    ensures UpToNul(EscapeOnce(s) + tail) ==
            if '\0' in s then EscapeOnce(UpToNul(s)) else EscapeOnce(s) + UpToNul(tail)
  {
    hide UpToNul, EscapeOnce;
    EscapingNothing(tail);
    if s != "" {
      var rest := s[1..];
      assert s == [s[0]] + rest;
      EscapingStepsPastHead(s[0], rest, tail);
      EscapingStopsAtNul(rest, tail);
      var head, later, end := EscapeOnce([s[0]]), EscapeOnce(rest), UpToNul(tail);
      assert (head + later) + end == head + (later + end);
    }
  }

  lemma EscapingNothing(tail: string)
    ensures EscapeOnce("") == "" && "" + tail == tail && "" + UpToNul(tail) == UpToNul(tail)
  {
  }

  lemma EscapingStepsPastHead(x: char, rest: string, tail: string)
    ensures x == '\0' ==> UpToNul([x] + rest) == "" == UpToNul(EscapeOnce([x] + rest) + tail)
    ensures x != '\0' ==> UpToNul([x] + rest) == [x] + UpToNul(rest)
    ensures x != '\0' ==>
              UpToNul(EscapeOnce([x] + rest) + tail) == EscapeOnce([x]) + UpToNul(EscapeOnce(rest) + tail)
    ensures EscapeOnce([x] + rest) == EscapeOnce([x]) + EscapeOnce(rest)
    ensures EscapeOnce([x] + UpToNul(rest)) == EscapeOnce([x]) + EscapeOnce(UpToNul(rest))
  {
    var later := EscapeOnce(rest) + tail;
    HeadEscapes(x, rest);
    HeadEscapes(x, UpToNul(rest));
    HeadEscapes(x, "");
    assert ([x] + rest)[1..] == rest;
    assert EscapeOnce([x] + rest) + tail == EscapeOnce([x]) + later;
    if x != '\0' {
      NulIsLater(EscapeOnce([x]), later);
    }
  }

  lemma HeadEscapes(x: char, rest: string)
    ensures EscapeOnce([x]) == if IsSpecial(x) then ['\\', x] else [x]
    ensures EscapeOnce([x] + rest) == EscapeOnce([x]) + EscapeOnce(rest)
  {
    assert [x] + "" == [x] && [x][1..] == "";
    assert ([x] + rest)[0] == x && ([x] + rest)[1..] == rest;
  }

  lemma NulIsLater(first: string, later: string)
    requires |first| <= 2 && '\0' !in first
    ensures UpToNul(first + later) == first + UpToNul(later)
  {
    var all := first + later;
    if |first| == 1 {
      assert all[1..] == later && all[0] == first[0];
    } else if |first| == 2 {
      assert all[1..] == [first[1]] + later && all[1..][1..] == later && all[0] == first[0];
    } else {
      assert all == later;
    }
  }

  lemma {:induction false} PrefixesStopBeforeNul(prefix: string, s: string)
    requires '\0' !in prefix
    ensures BeginsLike(UpToNul(s), prefix) <==> BeginsLike(s, prefix)
  {
    if prefix != "" {
      BeginsLikeStep(s, prefix);
      BeginsLikeStep(UpToNul(s), prefix);
      assert prefix == [prefix[0]] + prefix[1..];
      if s != "" && s[0] != '\0' {
        assert UpToNul(s)[1..] == UpToNul(s[1..]);
        PrefixesStopBeforeNul(prefix[1..], s[1..]);
      }
    }
  }

  /**
   For all strings: an identifier is selected if and only if the prefix begins it, up to ASCII case; a prefix that
   holds a NUL selects what it is itself up to there, and nothing longer.
   */
  lemma PatternMatchesPrefixes(prefix: string, id: string)
    ensures Selects(Pattern(prefix), id) <==>
            if '\0' in prefix then IsLike(UpToNul(id), UpToNul(prefix)) else BeginsLike(id, prefix)
  {
    ReplacementsAreOnePass(prefix);
    EscapingStopsAtNul(prefix, "%");
    if '\0' in prefix {
      EscapedMatchesItself(UpToNul(prefix), UpToNul(id));
    } else {
      var none: string := "%"[1..];
      assert none == "" && UpToNul("%") == "%";
      EscapedMatchesPrefixes(prefix, UpToNul(id));
      PrefixesStopBeforeNul(prefix, id);
    }
  }
}
