/**
  What the dots around a word are for: patterns that begin or end with a dot
  match only at the word's beginning or end.
 */
module Anchors {
  import opened Patterns
  import opened WordPieces

  predicate NoDot(s: string) {
    forall k :: 0 <= k < |s| ==> s[k] != '.'
  }

  /** The match at i is this key. */
  predicate MatchesKey(work: string, t: Table, i: int, key: string) {
    Matches(work, t, i, |key|) && work[i..i + |key|] == key
  }

  /** A pattern that begins with a dot matches exactly at the beginning of the words that begin with the rest. */
  lemma AnchoredAtStart(lowered: string, p: string, t: Table, i: int)
    requires p != "" && NoDot(p) && NoDot(lowered) && "." + p in t
    ensures MatchesKey("." + lowered + ".", t, i, "." + p) <==> i == 0 && p <= lowered
  {
    var work, key := "." + lowered + ".", "." + p;
    if |p| <= |lowered| {
      assert work[0..|key|] == "." + lowered[..|p|];
      assert p <= lowered <==> lowered[..|p|] == p;
    }
    if MatchesKey(work, t, i, key) {
      assert work[i] == key[0] == '.';
      assert i == 0;
      assert work[0..|key|][|key| - 1] == key[|key| - 1];
      assert |p| <= |lowered|;
      assert lowered[..|p|] == ("." + lowered[..|p|])[1..] == key[1..] == p;
    }
  }

  /** A pattern that ends with a dot matches exactly at the end of the words that end with the rest. */
  lemma AnchoredAtEnd(lowered: string, p: string, t: Table, i: int)
    requires p != "" && NoDot(p) && NoDot(lowered) && p + "." in t
    ensures MatchesKey("." + lowered + ".", t, i, p + ".")
      <==> |p| <= |lowered| && i == |lowered| + 1 - |p| && lowered[|lowered| - |p|..] == p
  {
    var work, key := "." + lowered + ".", p + ".";
    var last, from := i + |p|, |lowered| + 1 - |p|;
    if |p| <= |lowered| {
      assert work[from..from + |key|] == lowered[from - 1..] + ".";
    }
    if MatchesKey(work, t, i, key) {
      assert work[last] == work[i..i + |key|][|p|] == key[|p|] == '.';
      assert last == |work| - 1;
      assert work[i..i + |key|][0] == work[i] == p[0];
      assert i > 0;
      assert lowered[from - 1..] == (lowered[from - 1..] + ".")[..|p|] == key[..|p|] == p;
    }
  }

  /** A pattern without dots matches exactly where its letters stand in the word. */
  lemma FreeAnywhere(lowered: string, p: string, t: Table, i: int)
    requires p != "" && NoDot(p) && p in t
    ensures MatchesKey("." + lowered + ".", t, i, p)
      <==> 0 < i && i - 1 + |p| <= |lowered| && lowered[i - 1..i - 1 + |p|] == p
  {
    var work := "." + lowered + ".";
    if 0 < i && i - 1 + |p| <= |lowered| {
      assert work[i..i + |p|] == lowered[i - 1..i - 1 + |p|];
    }
    if MatchesKey(work, t, i, p) {
      assert work[i..i + |p|][0] == work[i] == p[0] && work[i..i + |p|][|p| - 1] == work[i + |p| - 1] == p[|p| - 1];
    }
  }

  // ------------------------------------------------------------ an example

  /** The point between c and d of words that begin with abcd. */
  const ABCD: Table := map[".abcd" := [0, 0, 0, 0, 1, 0]]

  lemma OnlyAtStart(i: int, l: int)
    requires Matches(".abcdef.", ABCD, i, l)
    ensures i == 0 && l == 5
  {
    assert ".abcdef."[i..i + l] == ".abcd";
    assert MatchesKey("." + "abcdef" + ".", ABCD, i, "." + "abcd") by {
      assert "." + "abcdef" + "." == ".abcdef." && "." + "abcd" == ".abcd";
    }
    AnchoredAtStart("abcdef", "abcd", ABCD, i);
  }

  lemma PointFour(points: seq<nat>)
    requires points == [0, 0, 0, 0, 1, 0, 0, 0, 0]
    ensures ArePoints(points, ".abcdef.", ABCD)
  {
    forall i, l, k, v | Gives(".abcdef.", ABCD, i, l, k, v)
      ensures v <= points[k]
    {
      OnlyAtStart(i, l);
    }
    assert ".abcdef."[0..0 + 5] == ".abcd";
    assert Gives(".abcdef.", ABCD, 0, 5, 4, points[4]);
  }

  /** The pattern `.abc1d` cuts abcdef, and any word lowered to it, after its third letter and nowhere else. */
  lemma AnchoredPatternCuts(word: string, points: seq<nat>)
    requires |word| == 6 && ArePoints(points, "." + "abcdef" + ".", ABCD)
    ensures CutAt(PiecesOf(word, points), word, [3])
  {
    assert "." + "abcdef" + "." == ".abcdef.";
    var ps: seq<nat> := [0, 0, 0, 0, 1, 0, 0, 0, 0];
    PointFour(ps);
    PointsAreUnique(points, ps, ".abcdef.", ABCD);
    PiecesBreakByPoints(word, points);
    var cuts :| CutAt(PiecesOf(word, points), word, cuts) && AreBreaks(cuts, word, points);
    hide *;
    OnlyThree(cuts, word, points);
  }

  lemma OnlyThree(cuts: seq<nat>, word: string, points: seq<nat>)
    requires |word| == 6 && points == [0, 0, 0, 0, 1, 0, 0, 0, 0] && AreBreaks(cuts, word, points)
    ensures cuts == [3]
  {
    assert 3 in cuts;
    assert forall b :: b in cuts ==> b == 3;
    assert forall i :: 0 <= i < |cuts| ==> cuts[i] in cuts;
    SecondIsLarger(cuts);
  }

  lemma SecondIsLarger(cuts: seq<nat>)
    requires forall i, j :: 0 <= i < j < |cuts| ==> cuts[i] < cuts[j]
    ensures |cuts| > 1 ==> cuts[0] < cuts[1]
  {
  }
}
