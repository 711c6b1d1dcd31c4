/** Splitting a sequence at a separator and joining the pieces again. */
module Splitting {
  import opened Wrappers

  /** The pieces between the separators; there is always at least one. */
  function Pieces<T(==)>(s: seq<T>, sep: T): (pieces: seq<seq<T>>)
    ensures pieces != []
  {
    if s == [] then [[]]
    else
      var later := Pieces(s[1..], sep);
      if s[0] == sep then [[]] + later else [[s[0]] + later[0]] + later[1..]
  }

  function Join<T>(parts: seq<seq<T>>, sep: T): seq<T>
    requires parts != []
  {
    if |parts| == 1 then parts[0] else parts[0] + [sep] + Join(parts[1..], sep)
  }

  lemma JoinHead<T>(x: T, parts: seq<seq<T>>, sep: T)
    requires parts != []
    ensures Join([[x] + parts[0]] + parts[1..], sep) == [x] + Join(parts, sep)
  {
    var longer := [[x] + parts[0]] + parts[1..];
    assert longer[1..] == parts[1..] && longer[0] == [x] + parts[0];
    if |parts| > 1 {
      var later := Join(parts[1..], sep);
      assert ([x] + parts[0]) + [sep] + later == [x] + (parts[0] + [sep] + later);
    }
  }

  lemma JoinAppend<T>(parts: seq<seq<T>>, p: seq<T>, sep: T)
    requires parts != []
    ensures Join(parts + [p], sep) == Join(parts, sep) + [sep] + p
  {
    if |parts| > 1 {
      assert (parts + [p])[1..] == parts[1..] + [p];
      JoinAppend(parts[1..], p, sep);
    } else {
      assert (parts + [p])[1..] == [p];
    }
  }

  /** The pieces hold no separator and join to the whole. */
  lemma {:induction false} PiecesJoin<T>(s: seq<T>, sep: T)
    ensures Join(Pieces(s, sep), sep) == s
    ensures forall p <- Pieces(s, sep) :: sep !in p
  {
    if s != [] {
      var later := Pieces(s[1..], sep);
      PiecesJoin(s[1..], sep);
      if s[0] == sep {
        assert ([[]] + later)[1..] == later;
      } else {
        JoinHead(s[0], later, sep);
      }
    }
  }

  lemma ConsAppend<T>(x: T, a: seq<T>, b: seq<T>)
    ensures ([x] + a) + b == [x] + (a + b)
  {
  }

  lemma PiecesStep<T>(s: seq<T>, sep: T)
    requires s != []
    ensures var later := Pieces(s[1..], sep);
      Pieces(s, sep) == if s[0] == sep then [[]] + later else [[s[0]] + later[0]] + later[1..]
  {
  }

  /** A separator in the middle separates the pieces of both sides. */
  lemma {:induction false} PiecesAppend<T>(a: seq<T>, b: seq<T>, sep: T)
    ensures Pieces(a + [sep] + b, sep) == Pieces(a, sep) + Pieces(b, sep)
  {
    var s := a + [sep] + b;
    PiecesStep(s, sep);
    if a == [] {
      assert s[1..] == b;
    } else {
      assert s[1..] == a[1..] + [sep] + b;
      PiecesAppend(a[1..], b, sep);
      PiecesStep(a, sep);
      var later, others := Pieces(a[1..], sep), Pieces(b, sep);
      if a[0] == sep {
        ConsAppend([], later, others);
      } else {
        assert (later + others)[0] == later[0] && (later + others)[1..] == later[1..] + others;
        ConsAppend([a[0]] + later[0], later[1..], others);
      }
    }
  }

  lemma {:induction false} OnePiece<T>(s: seq<T>, sep: T)
    requires sep !in s
    ensures Pieces(s, sep) == [s]
  {
    if s != [] {
      OnePiece(s[1..], sep);
      assert [s[0]] + s[1..] == s;
    }
  }

  /** Parts without separators are the pieces of what they join to. */
  lemma {:induction false} JoinPieces<T>(parts: seq<seq<T>>, sep: T)
    requires parts != [] && forall p <- parts :: sep !in p
    ensures Pieces(Join(parts, sep), sep) == parts
  {
    OnePiece(parts[0], sep);
    if |parts| > 1 {
      JoinPieces(parts[1..], sep);
      PiecesAppend(parts[0], Join(parts[1..], sep), sep);
    }
  }

  /** The first index of an element. */
  function IndexOf<T(==)>(s: seq<T>, x: T): (r: Option<nat>)
    ensures r.Some? ==> r.value < |s| && s[r.value] == x && x !in s[..r.value]
    ensures r.None? ==> x !in s
  {
    if s == [] then None
    else if s[0] == x then Some(0)
    else
      match IndexOf(s[1..], x)
      case None => None
      case Some(i) =>
        assert s[..i + 1] == [s[0]] + s[1..][..i];
        Some(i + 1)
  }
}
