/**
 Substrings and replacement of all leftmost, non-overlapping occurrences, as
 bytes.Contains and bytes.Replace(s, from, to, -1) provide them.
 */
module TextReplace {

  type Text = seq<char>

  predicate At(s: Text, i: int, pat: Text) {
    0 <= i && i + |pat| <= |s| && s[i..i + |pat|] == pat
  }

  predicate Contains(s: Text, pat: Text) {
    exists i :: 0 <= i <= |s| && At(s, i, pat)
  }

  function ReplaceAll(s: Text, from: Text, to: Text): Text
    requires from != []
    decreases |s|
  {
    if s == [] then []
    else if At(s, 0, from) then to + ReplaceAll(s[|from|..], from, to)
    else [s[0]] + ReplaceAll(s[1..], from, to)
  }

  // ---------- what is replaced ----------

  /** The stretches between the occurrences that are replaced. */
  function Pieces(s: Text, from: Text): (r: seq<Text>)
    requires from != []
    ensures r != []
    decreases |s|
  {
    if s == [] then [[]]
    else if At(s, 0, from) then [[]] + Pieces(s[|from|..], from)
    else
      var rest := Pieces(s[1..], from);
      [[s[0]] + rest[0]] + rest[1..]
  }

  function Glue(pieces: seq<Text>, with: Text): Text
    requires pieces != []
    decreases |pieces|
  {
    if |pieces| == 1 then pieces[0] else pieces[0] + with + Glue(pieces[1..], with)
  }

  lemma GlueFirst(pieces: seq<Text>, c: char, with: Text)
    requires pieces != []
    ensures Glue([[c] + pieces[0]] + pieces[1..], with) == [c] + Glue(pieces, with)
  {
    var longer := [[c] + pieces[0]] + pieces[1..];
    assert longer[1..] == pieces[1..];
    if |pieces| > 1 {
      assert [c] + pieces[0] + with + Glue(pieces[1..], with) == [c] + (pieces[0] + with + Glue(pieces[1..], with));
    }
  }

  /** `from` occurs in `piece + from` at the end only. */
  ghost predicate FirstOccurrenceEnds(piece: Text, from: Text) {
    forall i :: 0 <= i < |piece| ==> !At(piece + from, i, from)
  }

  lemma {:induction false} PiecesAndGlue(s: Text, from: Text, with: Text)
    requires from != []
    ensures Glue(Pieces(s, from), with) == ReplaceAll(s, from, with)
    decreases |s|
  {
    if s == [] {
    } else if At(s, 0, from) {
      var rest := Pieces(s[|from|..], from);
      PiecesAndGlue(s[|from|..], from, with);
      assert ([[]] + rest)[1..] == rest;
      assert [] + with == with;
    } else {
      PiecesAndGlue(s[1..], from, with);
      GlueFirst(Pieces(s[1..], from), s[0], with);
    }
  }

  lemma {:induction false} ReplaceBySame(s: Text, from: Text)
    requires from != []
    ensures ReplaceAll(s, from, from) == s
    decreases |s|
  {
    if s == [] {
    } else if At(s, 0, from) {
      ReplaceBySame(s[|from|..], from);
      assert s == from + s[|from|..];
    } else {
      ReplaceBySame(s[1..], from);
      assert s == [s[0]] + s[1..];
    }
  }

  /** `r` cuts `s` at leftmost occurrences of `from`, as far as pieces and the head of `s` can tell. */
  ghost predicate Leftmost(s: Text, from: Text, r: seq<Text>) {
    && r != []
    && (forall k :: 0 <= k < |r| - 1 ==> FirstOccurrenceEnds(r[k], from))
    && !Contains(r[|r| - 1], from)
    && (if |r| == 1 then r[0] == s else r[0] + from <= s)
  }

  lemma {:induction false} PiecesAreLeftmost(s: Text, from: Text)
    requires from != []
    ensures Leftmost(s, from, Pieces(s, from))
    decreases |s|
  {
    if s == [] {
      assert Pieces(s, from) == [[]];
    } else if At(s, 0, from) {
      PiecesAreLeftmost(s[|from|..], from);
      EmptyPieceFirst(s, from, Pieces(s[|from|..], from));
    } else {
      PiecesAreLeftmost(s[1..], from);
      FirstPieceGrows(s, from, Pieces(s[1..], from));
    }
  }

  lemma EmptyPieceFirst(s: Text, from: Text, rest: seq<Text>)
    requires At(s, 0, from) && Leftmost(s[|from|..], from, rest)
    ensures Leftmost(s, from, [[]] + rest)
  {
    var r: seq<Text> := [[]] + rest;
    assert forall k :: 0 < k < |r| ==> r[k] == rest[k - 1];
    assert r[0] + from == from;
  }

  /** The pieces of `s`, given those of its tail, when no occurrence starts at its head. */
  lemma FirstPieceGrows(s: Text, from: Text, rest: seq<Text>)
    requires from != [] && s != [] && !At(s, 0, from) && Leftmost(s[1..], from, rest)
    ensures Leftmost(s, from, [[s[0]] + rest[0]] + rest[1..])
  {
    var r := [[s[0]] + rest[0]] + rest[1..];
    assert forall k :: 0 < k < |r| ==> r[k] == rest[k];
    if |r| > 1 {
      LeftmostGrows(s[0], rest[0], from, s);
    } else {
      assert r[0] == s;
      LastGrows(s, from);
    }
  }

  lemma LeftmostGrows(c: char, piece: Text, from: Text, s: Text)
    requires from != [] && FirstOccurrenceEnds(piece, from)
    requires s != [] && s[0] == c && piece + from <= s[1..] && !At(s, 0, from)
    ensures FirstOccurrenceEnds([c] + piece, from) && [c] + piece + from <= s
  {
    var t := [c] + piece + from;
    assert t == [c] + (piece + from);
    forall i | 0 <= i < 1 + |piece| ensures !At([c] + piece + from, i, from) {
      if i == 0 {
        assert t[..|from|] == s[..|from|];
      } else {
        assert t[i..i + |from|] == (piece + from)[i - 1..i - 1 + |from|];
        assert !At(piece + from, i - 1, from);
      }
    }
  }

  lemma SliceOfTail(s: Text, i: nat, n: nat)
    requires 0 < i && i + n <= |s|
    ensures s[1..][i - 1..i - 1 + n] == s[i..i + n]
  {
  }

  lemma LastGrows(s: Text, from: Text)
    requires s != [] && !At(s, 0, from) && !Contains(s[1..], from)
    ensures !Contains(s, from)
  {
    forall i | 0 <= i <= |s| ensures !At(s, i, from) {
      if i > 0 {
        var t := s[1..];
        assert !At(t, i - 1, from);
        if i + |from| <= |s| { SliceOfTail(s, i, |from|); }
      }
    }
  }

  /** `r` cuts `s` at leftmost non-overlapping occurrences of `from`. */
  ghost predicate LeftmostCut(s: Text, from: Text, r: seq<Text>) {
    && r != [] && Glue(r, from) == s
    && (forall k :: 0 <= k < |r| - 1 ==> FirstOccurrenceEnds(r[k], from))
    && !Contains(r[|r| - 1], from)
  }

  /**
   Replacement cuts the text at the leftmost non-overlapping occurrences of `from` and
   glues the pieces with `to`: gluing them with `from` gives the text back, no piece is
   followed by an occurrence that could have started earlier, and the last has none.
   */
  lemma ReplaceAllIsLeftmost(s: Text, from: Text, to: Text)
    requires from != []
    ensures LeftmostCut(s, from, Pieces(s, from)) && Glue(Pieces(s, from), to) == ReplaceAll(s, from, to)
  {
    PiecesAndGlue(s, from, to);
    PiecesAndGlue(s, from, from);
    ReplaceBySame(s, from);
    PiecesAreLeftmost(s, from);
  }

  lemma ContainsInTail(s: Text, from: Text)
    requires s != [] && !Contains(s, from)
    ensures !At(s, 0, from) && !Contains(s[1..], from)
  {
    var t := s[1..];
    forall i | 0 <= i <= |t| ensures !At(t, i, from) {
      assert !At(s, i + 1, from);
      if i + |from| <= |t| { SliceOfTail(s, i + 1, |from|); }
    }
  }

  /** A first piece that is not empty loses its head. */
  lemma FirstPieceShrinks(c: char, piece: Text, from: Text, rest: Text)
    requires from != [] && FirstOccurrenceEnds([c] + piece, from)
    ensures FirstOccurrenceEnds(piece, from) && !At([c] + piece + from + rest, 0, from)
  {
    var t := [c] + piece + from;
    assert !At(t, 0, from);
    assert (t + rest)[..|from|] == t[..|from|];
    forall i | 0 <= i < |piece| ensures !At(piece + from, i, from) {
      assert !At(t, i + 1, from);
      assert t[i + 1..i + 1 + |from|] == (piece + from)[i..i + |from|];
    }
  }

  lemma {:induction false} UncutIsWhole(s: Text, from: Text)
    requires from != [] && !Contains(s, from)
    ensures Pieces(s, from) == [s]
    decreases |s|
  {
    if s != [] {
      ContainsInTail(s, from);
      UncutIsWhole(s[1..], from);
      assert [s[0]] + s[1..] == s;
    }
  }

  lemma {:induction false} CutFrom(s: Text, from: Text, first: Text, rest: seq<Text>, tail: Text)
    requires from != [] && rest != [] && FirstOccurrenceEnds(first, from)
    requires s == first + from + tail && Pieces(tail, from) == rest
    ensures Pieces(s, from) == [first] + rest
    decreases |first|
  {
    if first == [] {
      assert s[..|from|] == from && s[|from|..] == tail;
    } else {
      var c, shorter := first[0], first[1..];
      assert first == [c] + shorter;
      FirstPieceShrinks(c, shorter, from, tail);
      assert s == [c] + shorter + from + tail && s[1..] == shorter + from + tail;
      CutFrom(s[1..], from, shorter, rest, tail);
      assert ([shorter] + rest)[1..] == rest;
    }
  }

  /** The properties in ReplaceAllIsLeftmost determine the cut: there is no other. */
  lemma {:induction false} LeftmostCutIsUnique(s: Text, from: Text, r: seq<Text>)
    requires from != [] && LeftmostCut(s, from, r)
    ensures r == Pieces(s, from)
    decreases |r|
  {
    if |r| == 1 {
      UncutIsWhole(s, from);
    } else {
      var rest := r[1..];
      var tail := Glue(rest, from);
      assert forall k :: 0 <= k < |rest| ==> rest[k] == r[k + 1];
      LeftmostCutIsUnique(tail, from, rest);
      CutFrom(s, from, r[0], rest, tail);
      assert r == [r[0]] + rest;
    }
  }

  // ---------- cutting a text ----------

  /** No occurrence of `pat` lies across the border between `a` and `b`. */
  ghost predicate CleanCut(a: Text, b: Text, pat: Text) {
    forall i :: 0 <= i < |a| < i + |pat| ==> !At(a + b, i, pat)
  }

  lemma CutLater(a: Text, b: Text, pat: Text, k: nat)
    requires CleanCut(a, b, pat) && k <= |a|
    ensures CleanCut(a[k..], b, pat)
  {
    forall i | 0 <= i < |a[k..]| < i + |pat| ensures !At(a[k..] + b, i, pat) {
      assert !At(a + b, k + i, pat);
      if i + |pat| <= |a[k..] + b| {
        assert (a[k..] + b)[i..i + |pat|] == (a + b)[k + i..k + i + |pat|];
      }
    }
  }

  /** Across a clean cut, the two sides are replaced independently. */
  lemma {:induction false} ReplaceAcross(a: Text, b: Text, from: Text, to: Text)
    requires from != [] && CleanCut(a, b, from)
    ensures ReplaceAll(a + b, from, to) == ReplaceAll(a, from, to) + ReplaceAll(b, from, to)
    decreases |a|
  {
    if a == [] {
      assert a + b == b;
    } else if At(a + b, 0, from) {
      assert |from| <= |a|;
      assert (a + b)[..|from|] == a[..|from|];
      assert (a + b)[|from|..] == a[|from|..] + b;
      CutLater(a, b, from, |from|);
      ReplaceAcross(a[|from|..], b, from, to);
    } else {
      assert |from| <= |a| ==> (a + b)[..|from|] == a[..|from|];
      assert (a + b)[1..] == a[1..] + b;
      CutLater(a, b, from, 1);
      ReplaceAcross(a[1..], b, from, to);
    }
  }

  lemma {:induction false} ReplaceNothing(s: Text, from: Text, to: Text)
    requires from != [] && !Contains(s, from)
    ensures ReplaceAll(s, from, to) == s
    decreases |s|
  {
    if s != [] {
      assert !At(s, 0, from);
      assert !Contains(s[1..], from) by {
        forall i | 0 <= i <= |s[1..]| ensures !At(s[1..], i, from) {
          assert !At(s, i + 1, from);
          if i + |from| <= |s[1..]| {
            assert s[1..][i..i + |from|] == s[i + 1..i + 1 + |from|];
          }
        }
      }
      ReplaceNothing(s[1..], from, to);
    }
  }

  lemma ReplaceWhole(from: Text, to: Text)
    requires from != []
    ensures ReplaceAll(from, from, to) == to
  {
    assert At(from, 0, from) && from[|from|..] == [];
    assert to + [] == to;
  }

  /** One differing character rules an occurrence out. */
  lemma Differs(s: Text, i: int, pat: Text, k: nat)
    requires 0 <= i && k < |pat| && i + k < |s| && s[i + k] != pat[k]
    ensures !At(s, i, pat)
  {
    if i + |pat| <= |s| { assert s[i..i + |pat|][k] == s[i + k]; }
  }

  /** A single occurrence between two stretches is replaced where it stands, if both its borders are clean. */
  lemma ReplaceBetween(h: Text, from: Text, r: Text, to: Text)
    requires from != [] && !Contains(h, from) && CleanCut(h, from + r, from) && CleanCut(from, r, from)
    ensures ReplaceAll(h + (from + r), from, to) == h + (to + ReplaceAll(r, from, to))
  {
    ReplaceAcross(h, from + r, from, to);
    ReplaceNothing(h, from, to);
    ReplaceAcross(from, r, from, to);
    ReplaceWhole(from, to);
  }
}
