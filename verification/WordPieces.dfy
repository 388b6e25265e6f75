/**
  From points to pieces: odd points break the word, after the edges were zeroed.
  What the pieces are, and when none of them is cut too short.
 */
module WordPieces {
  import opened Sequences
  import opened Patterns

  /** No hyphens in the first two letters or the last two. */
  function Edged(points: seq<int>): (r: seq<int>)
    requires |points| >= 3
    ensures |r| == |points|
  {
    points[1 := 0][2 := 0][|points| - 2 := 0][|points| - 3 := 0]
  }

  // -------------------------------------------------------------- the pieces

  /** One letter more: it joins the last piece, and ends it if its point is odd. */
  function Step(ps: seq<string>, c: char, point: int): seq<string>
    requires ps != []
  {
    var grown := ps[..|ps| - 1] + [ps[|ps| - 1] + [c]];
    if point % 2 == 1 then grown + [""] else grown
  }

  /** The pieces after the first n letters. */
  function Pieces(word: string, points: seq<int>, n: nat): (ps: seq<string>)
    requires n <= |word| && n <= |points|
    ensures ps != []
  {
    if n == 0 then [""]
    else
      Step(Pieces(word, points, n - 1), word[n - 1], points[n - 1])
  }

  function Min(a: nat, b: nat): nat {
    if a < b then a else b
  }

  /** Where the pieces meet: the total length up to each piece but the last. */
  function Boundaries(ps: seq<string>): seq<nat> {
    if |ps| <= 1 then []
    else Boundaries(ps[..|ps| - 1]) + [|Concat(ps[..|ps| - 1])|]
  }

  /** The letter counts after which the points are odd. */
  function Cuts(points: seq<int>, n: nat): seq<nat>
    requires n <= |points|
  {
    if n == 0 then []
    else Cuts(points, n - 1) + (if points[n - 1] % 2 == 1 then [n] else [])
  }

  lemma {:induction false} CutsAre(points: seq<int>, n: nat)
    requires n <= |points|
    ensures forall b :: b in Cuts(points, n) <==> 0 < b <= n && points[b - 1] % 2 == 1
    ensures forall i, j :: 0 <= i < j < |Cuts(points, n)| ==> Cuts(points, n)[i] < Cuts(points, n)[j]
    decreases n
  {
    if n > 0 {
      CutsAre(points, n - 1);
      var c := Cuts(points, n - 1);
      assert forall i :: 0 <= i < |c| ==> c[i] in c;
    }
  }

  /** The text in order, cut exactly at the given letter counts. */
  ghost predicate CutAt(ps: seq<string>, text: string, cuts: seq<nat>) {
    && |ps| == |cuts| + 1
    && Concat(ps) == text && Boundaries(ps) == cuts
    && (forall k :: 0 <= k < |ps| - 1 ==> ps[k] != "")
    && |ps[0]| == (if cuts == [] then |text| else cuts[0])
    && |ps[|ps| - 1]| == |text| - (if cuts == [] then 0 else cuts[|cuts| - 1])
  }

  lemma PiecesSnoc(ps: seq<string>, p: string)
    ensures Concat(ps + [p]) == Concat(ps) + p
    ensures Boundaries(ps + [p]) == if ps == [] then [] else Boundaries(ps) + [|Concat(ps)|]
  {
    ConcatSnoc(ps, p);
    assert (ps + [p])[..|ps|] == ps;
  }

  lemma GrowLast(ps: seq<string>, text: string, cuts: seq<nat>, c: char)
    requires CutAt(ps, text, cuts)
    ensures CutAt(ps[..|ps| - 1] + [ps[|ps| - 1] + [c]], text + [c], cuts)
  {
    var init, last := ps[..|ps| - 1], ps[|ps| - 1];
    assert ps == init + [last];
    PiecesSnoc(init, last);
    PiecesSnoc(init, last + [c]);
    hide Concat, Boundaries;
    assert Concat(init) + (last + [c]) == Concat(init) + last + [c];
  }

  lemma EndPiece(ps: seq<string>, text: string, cuts: seq<nat>)
    requires CutAt(ps, text, cuts) && ps[|ps| - 1] != ""
    ensures CutAt(ps + [""], text, cuts + [|text|])
  {
    PiecesSnoc(ps, "");
    hide Concat, Boundaries;
    assert text + "" == text;
  }

  lemma StepKeeps(ps: seq<string>, text: string, cuts: seq<nat>, c: char, point: int)
    requires CutAt(ps, text, cuts)
    ensures CutAt(Step(ps, c, point), text + [c], cuts + if point % 2 == 1 then [|text| + 1] else [])
  {
    GrowLast(ps, text, cuts, c);
    var grown := ps[..|ps| - 1] + [ps[|ps| - 1] + [c]];
    assert grown[|grown| - 1] == ps[|ps| - 1] + [c];
    hide CutAt;
    assert cuts + [] == cuts;
    if point % 2 == 1 {
      EndPiece(grown, text + [c], cuts);
    }
  }

  lemma NoPieces()
    ensures CutAt([""], "", [])
  {
    assert Concat([]) == "";
    PiecesSnoc([], "");
    assert [] + [""] == [""];
  }

  lemma {:induction false} PiecesAreCuts(word: string, points: seq<int>, n: nat)
    requires n <= |word| && n <= |points|
    ensures CutAt(Pieces(word, points, n), word[..n], Cuts(points, n))
    decreases n
  {
    hide CutAt, Step;
    if n == 0 {
      NoPieces();
    } else {
      PiecesAreCuts(word, points, n - 1);
      StepKeeps(Pieces(word, points, n - 1), word[..n - 1], Cuts(points, n - 1), word[n - 1], points[n - 1]);
      assert word[..n - 1] + [word[n - 1]] == word[..n];
    }
  }

  lemma EdgedAt(points: seq<int>)
    requires |points| >= 3
    ensures forall k :: 0 <= k < |points| ==>
      Edged(points)[k] == if k == 1 || k == 2 || k == |points| - 2 || k == |points| - 3 then 0 else points[k]
  {
  }

  /**
    With as many points as `hyphenate_word` has, edges zeroed, for a word of at
    least five letters: the pieces spell the word, none is empty, and the first
    and the last have two letters or more.
   */
  lemma EdgedPiecesAreGood(word: string, points: seq<int>)
    requires |word| >= 5 && |points| == |word| + 3
    ensures GoodPieces(Pieces(word, Edged(points)[2..], |word|), word)
  {
    hide *;
    var tail, n := Edged(points)[2..], |word|;
    EdgedAt(points);
    assert tail[0] == 0 && tail[n - 1] == 0 && tail[n - 2] == 0;
    CutsInside(tail, n);
    PiecesAreCuts(word, tail, n);
    assert word[..n] == word;
    GoodFromCuts(Pieces(word, tail, n), word, Cuts(tail, n));
  }

  /** The word cut after its b-th letter exactly where the point there is odd, and two letters stand on either side. */
  ghost predicate BreaksByPoints(ps: seq<string>, word: string, points: seq<int>)
    requires |points| == |word| + 3
  {
    exists cuts :: CutAt(ps, word, cuts) && AreBreaks(cuts, word, points)
  }

  ghost predicate AreBreaks(cuts: seq<nat>, word: string, points: seq<int>)
    requires |points| == |word| + 3
  {
    && (forall i, j :: 0 <= i < j < |cuts| ==> cuts[i] < cuts[j])
    && (forall b :: b in cuts ==> 2 <= b <= |word| - 2 && points[b + 1] % 2 == 1)
    && (forall b :: 2 <= b <= |word| - 2 && points[b + 1] % 2 == 1 ==> b in cuts)
  }

  lemma PiecesBreakByPoints(word: string, points: seq<int>)
    requires |word| >= 5 && |points| == |word| + 3
    ensures BreaksByPoints(PiecesOf(word, points), word, points)
  {
    hide *;
    var tail, n := Edged(points)[2..], |word|;
    EdgedAt(points);
    CutsAre(tail, n);
    PiecesAreCuts(word, tail, n);
    assert word[..n] == word;
    ThesePieces(word, points);
    CutsAreBreaks(word, points, tail);
    assert BreaksByPoints(PiecesOf(word, points), word, points) by { MakesBreaks(word, points, Cuts(tail, n)); }
  }

  lemma MakesBreaks(word: string, points: seq<int>, cuts: seq<nat>)
    requires |points| == |word| + 3 && CutAt(PiecesOf(word, points), word, cuts) && AreBreaks(cuts, word, points)
    ensures BreaksByPoints(PiecesOf(word, points), word, points)
  {
  }

  lemma CutsAreBreaks(word: string, points: seq<int>, tail: seq<int>)
    requires |word| >= 5 && |points| == |word| + 3 && tail == Edged(points)[2..]
    ensures AreBreaks(Cuts(tail, |word|), word, points)
  {
    var n := |word|;
    hide Cuts, Edged;
    EdgedAt(points);
    CutsAre(tail, n);
    assert forall k :: 0 <= k < n ==> tail[k] == Edged(points)[k + 2];
  }

  lemma CutsInside(tail: seq<int>, n: nat)
    requires 5 <= n <= |tail| && tail[0] == 0 && tail[n - 1] % 2 == 0 && tail[n - 2] % 2 == 0
    ensures var cuts := Cuts(tail, n); forall b :: b in cuts ==> 2 <= b <= n - 2
  {
    hide *;
    CutsAre(tail, n);
  }

  lemma GoodFromCuts(ps: seq<string>, word: string, cuts: seq<nat>)
    requires CutAt(ps, word, cuts) && |word| >= 5
    requires forall b :: b in cuts ==> 2 <= b <= |word| - 2
    ensures GoodPieces(ps, word)
  {
    hide Concat, Boundaries;
    if cuts != [] {
      assert cuts[0] in cuts && cuts[|cuts| - 1] in cuts;
    }
  }

  ghost predicate GoodPieces(ps: seq<string>, word: string) {
    && ps != [] && Concat(ps) == word
    && (forall k :: 0 <= k < |ps| ==> ps[k] != "")
    && |ps[0]| >= 2 && |ps[|ps| - 1]| >= 2
  }

  // ------------------------------------- when lowering changes the word's length

  function Work(lowered: string): string {
    "." + lowered + "."
  }

  /** The pieces of a word that is no exception, from its collected points. */
  function PiecesOf(word: string, points: seq<int>): seq<string>
    requires |points| >= 3
  {
    Pieces(word, Edged(points)[2..], Min(|word|, |points| - 2))
  }

  /** Whatever patterns are loaded, the word is cut well. */
  ghost predicate AlwaysGood(word: string, lowered: string, toInt: Reader)
    requires ReadsDecimals(toInt)
  {
    forall patterns, points: seq<nat> :: GivesPoints(patterns, points, lowered, toInt) ==>
      GoodPieces(PiecesOf(word, points), word)
  }

  /** The points `hyphenate_word` collects with these patterns. */
  ghost predicate GivesPoints(patterns: seq<string>, points: seq<nat>, lowered: string, toInt: Reader)
    ensures GivesPoints(patterns, points, lowered, toInt) ==> |points| == |lowered| + 3
  {
    && AllPatterns(patterns) && Accepted(patterns, toInt)
    && ArePoints(points, Work(lowered), TableOf(patterns, toInt))
  }

  /**
    Some pattern can break the word in its last two letters, or the points do
    not reach its end: lowering shortened it, or lengthened it and the
    characters where the word's own end falls are next to a pattern letter.
   */
  predicate Exposed(word: string, lowered: string)
    requires |word| >= 5
  {
    |lowered| < |word| || ExposedAt(lowered, |word|) || ExposedAt(lowered, |word| + 1)
  }

  /** Point j is not zeroed, and lies next to a pattern letter. */
  predicate ExposedAt(lowered: string, j: nat)
    requires j >= 5
  {
    j < |lowered| && (IsLetter(Work(lowered)[j - 1]) || IsLetter(Work(lowered)[j]))
  }

  /** Even points where a short piece could end make good pieces. */
  lemma EvenEdgesAreGood(word: string, points: seq<int>)
    requires |word| >= 5 && |points| >= |word| + 3
    requires Edged(points)[|word|] % 2 == 0 && Edged(points)[|word| + 1] % 2 == 0
    ensures GoodPieces(PiecesOf(word, points), word)
  {
    hide *;
    var tail, n := Edged(points)[2..], |word|;
    EdgedAt(points);
    assert tail[0] == 0 && tail[n - 1] % 2 == 0 && tail[n - 2] % 2 == 0;
    CutsInside(tail, n);
    PiecesAreCuts(word, tail, n);
    assert word[..n] == word;
    GoodFromCuts(Pieces(word, tail, n), word, Cuts(tail, n));
    ThesePieces(word, points);
  }

  lemma ThesePieces(word: string, points: seq<int>)
    requires |points| >= |word| + 2 && |points| >= 3
    ensures PiecesOf(word, points) == Pieces(word, Edged(points)[2..], |word|)
  {
  }

  lemma UnexposedIsGood(word: string, lowered: string, patterns: seq<string>, points: seq<nat>, toInt: Reader)
    requires |word| >= 5 && !Exposed(word, lowered) && GivesPoints(patterns, points, lowered, toInt)
    ensures GoodPieces(PiecesOf(word, points), word)
  {
    var n := |word|;
    EdgedAt(points);
    forall j | n <= j <= n + 1
      ensures Edged(points)[j] == 0
    {
      if j < |lowered| {
        OutOfReach(points, Work(lowered), patterns, toInt, j);
      }
    }
    hide Edged, Exposed, GivesPoints, GoodPieces;
    EvenEdgesAreGood(word, points);
  }

  /** A break in the last two letters is not good. */
  lemma BadBreak(word: string, points: seq<int>, j: nat)
    requires |word| >= 5 && |points| >= |word| + 2 && |word| <= j <= |word| + 1 && Edged(points)[j] % 2 == 1
    ensures !GoodPieces(PiecesOf(word, points), word)
  {
    hide Edged, GoodPieces, Pieces, Concat, Boundaries;
    var tail, n, b := Edged(points)[2..], |word|, j - 1;
    assert tail[b - 1] == Edged(points)[j];
    PiecesAreCuts(word, tail, n);
    CutsAre(tail, n);
    var cuts, ps := Cuts(tail, n), Pieces(word, tail, n);
    hide Cuts;
    assert b in cuts;
    assert cuts[|cuts| - 1] >= b by {
      var i :| 0 <= i < |cuts| && cuts[i] == b;
      if i < |cuts| - 1 {
        assert cuts[i] < cuts[|cuts| - 1];
      }
    }
    assert word[..n] == word;
    assert |ps[|ps| - 1]| <= 1;
    ShortLastIsBad(ps, word);
  }

  lemma ShortLastIsBad(ps: seq<string>, word: string)
    requires ps != [] && |ps[|ps| - 1]| <= 1
    ensures !GoodPieces(ps, word)
  {
  }

  /** With too few points the pieces do not even spell the word. */
  lemma LettersCutOff(word: string, points: seq<int>)
    requires 3 <= |points| < |word| + 2
    ensures !GoodPieces(PiecesOf(word, points), word)
  {
    hide Edged;
    PiecesAreCuts(word, Edged(points)[2..], |points| - 2);
    hide Pieces, Concat, Cuts, Boundaries;
    assert |Concat(PiecesOf(word, points))| < |word|;
  }

  /** A pattern of one letter, with a 1 on the side of the exposed point. */
  lemma OneLetterReaches(lowered: string, j: nat, c: char, before: bool, toInt: Reader)
    returns (patterns: seq<string>, points: seq<nat>)
    requires ReadsDecimals(toInt) && IsLetter(c) && 0 < j <= |Work(lowered)|
    requires if before then j < |Work(lowered)| && Work(lowered)[j] == c else Work(lowered)[j - 1] == c
    ensures GivesPoints(patterns, points, lowered, toInt) && points[j] == 1
  {
    OneLetterPatterns(c, toInt);
    if before {
      patterns, points := ["1" + [c]], Beside(Work(lowered), c, 1, 0);
      BesideArePoints(Work(lowered), c, 1, 0);
    } else {
      patterns, points := [[c] + "1"], Beside(Work(lowered), c, 0, 1);
      BesideArePoints(Work(lowered), c, 0, 1);
    }
  }

  /** An exposed word is cut badly by some patterns. */
  lemma ExposedIsCut(word: string, lowered: string, toInt: Reader) returns (patterns: seq<string>, points: seq<nat>)
    requires |word| >= 5 && ReadsDecimals(toInt) && Exposed(word, lowered)
    ensures GivesPoints(patterns, points, lowered, toInt) && !GoodPieces(PiecesOf(word, points), word)
  {
    var work, n := Work(lowered), |word|;
    hide GoodPieces, GivesPoints, Pieces;
    if |lowered| + 1 < n {
      patterns, points := OneLetterReaches(lowered, 1, '.', false, toInt);
      LettersCutOff(word, points);
    } else {
      var j := if |lowered| < n then n + 1 else if ExposedAt(lowered, n) then n else n + 1;
      var before := j < |work| && IsLetter(work[j]);
      patterns, points := OneLetterReaches(lowered, j, work[if before then j else j - 1], before, toInt);
      EdgedAt(points);
      hide Edged;
      BadBreak(word, points, j);
    }
  }

  /**
    Of a word of five letters or more, no piece is empty and the first and the
    last have two letters, whatever patterns are loaded, exactly if it is not
    exposed. If lowering keeps its length it is not.
   */
  lemma EdgesAreSafeIffNotExposed(word: string, lowered: string, toInt: Reader)
    requires |word| >= 5 && ReadsDecimals(toInt)
    ensures AlwaysGood(word, lowered, toInt) <==> !Exposed(word, lowered)
    ensures |lowered| == |word| ==> !Exposed(word, lowered)
  {
    hide GivesPoints, GoodPieces, PiecesOf;
    if Exposed(word, lowered) {
      var patterns, points := ExposedIsCut(word, lowered, toInt);
    } else {
      hide Exposed;
      forall patterns, points: seq<nat> | GivesPoints(patterns, points, lowered, toInt)
        ensures GoodPieces(PiecesOf(word, points), word)
      {
        UnexposedIsGood(word, lowered, patterns, points, toInt);
      }
    }
  }

  /** A capital I with a dot lowers to two characters: one pattern then cuts off the last letter alone. */
  lemma DottedCapitalIsCut(toInt: Reader)
    requires ReadsDecimals(toInt)
    ensures var word, lowered, points: seq<nat> := "x\U{0130}abcd", "xi\U{0307}abcd", [0, 0, 0, 0, 0, 0, 1, 0, 0, 0];
      GivesPoints(["b1c"], points, lowered, toInt) && CutAt(PiecesOf(word, points), word, [5])
  {
    var word, points: seq<nat> := "x\U{0130}abcd", [0, 0, 0, 0, 0, 0, 1, 0, 0, 0];
    hide *;
    BetweenBAndC(toInt);
    SixReaches(points, toInt);
    FifthLetter(points);
    PiecesAreCuts(word, Edged(points)[2..], 6);
    assert word[..6] == word;
    ThesePieces(word, points);
  }

  lemma SixReaches(points: seq<nat>, toInt: Reader)
    requires points == [0, 0, 0, 0, 0, 0, 1, 0, 0, 0]
    requires AllPatterns(["b1c"]) && Accepted(["b1c"], toInt) && TableOf(["b1c"], toInt) == map["bc" := [0, 1, 0]]
    ensures GivesPoints(["b1c"], points, "xi\U{0307}abcd", toInt)
  {
    hide AllPatterns, Accepted, TableOf, ArePoints;
    assert "." + "xi\U{0307}abcd" + "." == ".xi\U{0307}abcd.";
    PointSix(points, Work("xi\U{0307}abcd"), map["bc" := [0, 1, 0]]);
  }

  lemma FifthLetter(points: seq<int>)
    requires points == [0, 0, 0, 0, 0, 0, 1, 0, 0, 0]
    ensures Cuts(Edged(points)[2..], 6) == [5]
  {
    var tail := Edged(points)[2..];
    assert tail == [0, 0, 0, 0, 1, 0, 0, 0];
    hide Edged;
    CutsOfZeros([], 4);
    assert [] + Zeros(4) == tail[..4];
    CutsPrefix([] + Zeros(4), tail, 4);
    assert Cuts(tail, 5) == [] + [5];
  }

  lemma PointSix(points: seq<nat>, work: string, t: Table)
    requires work == ".xi\U{0307}abcd." && t == map["bc" := [0, 1, 0]] && points == [0, 0, 0, 0, 0, 0, 1, 0, 0, 0]
    ensures ArePoints(points, work, t)
  {
    forall i, l, k, v | Gives(work, t, i, l, k, v)
      ensures v <= points[k]
    {
      assert |work[i..i + l]| == 2 && work[i..i + l][0] == work[i] && work[i..i + l][1] == work[i + 1];
      assert i == 5;
    }
    assert work[5..5 + 2] == "bc";
    assert Gives(work, t, 5, 2, 6, points[6]);
  }

  lemma BetweenBAndC(toInt: Reader)
    requires ReadsDecimals(toInt)
    ensures AllPatterns(["b1c"]) && Accepted(["b1c"], toInt) && TableOf(["b1c"], toInt) == map["bc" := [0, 1, 0]]
  {
    hide Chars, Points, IntOf, Digits, TableOf, IsPattern, Accepted, AllPatterns;
    NothingLeft();
    OneIsOne();
    LetterFirst('c', "", "1");
    DigitFirst('1', "c", "");
    LetterFirst('b', "1c", "");
    assert ['c'] + "" == "c" && ['1'] + "c" == "1c" && ['b'] + "1c" == "b1c" && ['b'] + "c" == "bc";
    TableOfPattern("b1c", toInt);
    assert [0] + [1, 0] == [0, 1, 0] && [1] + [0] == [1, 0];
  }

  // ----------------------------------------------------------- the exceptions

  predicate IsLower(c: char) {
    'a' <= c <= 'z'
  }

  function Flag(run: string): int {
    if run == "-" then 1 else 0
  }

  /** A flag per stretch between the letters: whether it is a single hyphen. */
  function Flags(ex: string, run: string): (r: seq<int>)
    ensures r != []
  {
    if ex == "" then [Flag(run)]
    else if IsLower(ex[0]) then [Flag(run)] + Flags(ex[1..], "")
    else Flags(ex[1..], run + [ex[0]])
  }

  /** A stretch between letters breaks the word exactly if it is a single hyphen, whatever else may stand there. */
  lemma {:induction false} StretchBreaksIffHyphen(stretch: string, run: string, c: char, rest: string)
    requires IsLower(c) && forall k :: 0 <= k < |stretch| ==> !IsLower(stretch[k])
    ensures Flags(stretch + ([c] + rest), run) == [if run + stretch == "-" then 1 else 0] + Flags(rest, "")
    decreases |stretch|
  {
    if stretch == "" {
      assert "" + ([c] + rest) == [c] + rest && ([c] + rest)[1..] == rest && run + "" == run;
    } else {
      assert (stretch + ([c] + rest))[1..] == stretch[1..] + ([c] + rest);
      assert run + [stretch[0]] + stretch[1..] == run + stretch;
      StretchBreaksIffHyphen(stretch[1..], run + [stretch[0]], c, rest);
    }
  }

  /** The points stored for an exception. */
  function ExceptionPoints(ex: string): seq<int> {
    [0] + Flags(ex, "")
  }

  /** The word an exception is for: it without its hyphens. */
  function Unhyphenated(ex: string): string {
    if ex == "" then "" else (if ex[0] == '-' then "" else [ex[0]]) + Unhyphenated(ex[1..])
  }

  /** The last exception for a word decides. */
  function ExceptionsOf(exs: seq<string>): map<string, seq<int>> {
    if exs == [] then map[]
    else
      var last := exs[|exs| - 1];
      ExceptionsOf(exs[..|exs| - 1])[Unhyphenated(last) := ExceptionPoints(last)]
  }

  /** The last exception for a word decides. */
  lemma {:induction false} LastExceptionDecides(exs: seq<string>, k: nat)
    requires k < |exs| && LastFor(exs, k)
    ensures var t := ExceptionsOf(exs);
      Unhyphenated(exs[k]) in t && t[Unhyphenated(exs[k])] == ExceptionPoints(exs[k])
    decreases |exs|
  {
    hide Unhyphenated, ExceptionPoints;
    var n := |exs| - 1;
    if k < n {
      var front := exs[..n];
      assert front[k] == exs[k] && LastFor(front, k);
      assert Unhyphenated(exs[n]) != Unhyphenated(exs[k]);
      LastExceptionDecides(front, k);
    }
  }

  /** Only exceptions are stored. */
  lemma {:induction false} OnlyExceptionsStored(exs: seq<string>, word: string) returns (k: nat)
    requires word in ExceptionsOf(exs)
    ensures k < |exs| && Unhyphenated(exs[k]) == word
    decreases |exs|
  {
    hide Unhyphenated, ExceptionPoints;
    k := |exs| - 1;
    if Unhyphenated(exs[k]) != word {
      k := OnlyExceptionsStored(exs[..k], word);
    }
  }

  predicate LastFor(exs: seq<string>, k: nat)
    requires k < |exs|
  {
    forall l :: k < l < |exs| ==> Unhyphenated(exs[l]) != Unhyphenated(exs[k])
  }

  /** Pieces joined by hyphens. */
  function Hyphenated(ps: seq<string>): string
    requires ps != []
  {
    if |ps| == 1 then ps[0] else Hyphenated(ps[..|ps| - 1]) + "-" + ps[|ps| - 1]
  }

  ghost predicate LowerPieces(ps: seq<string>) {
    ps != [] && forall k :: 0 <= k < |ps| ==> ps[k] != "" && AllLower(ps[k])
  }

  predicate AllLower(s: string) {
    forall k :: 0 <= k < |s| ==> IsLower(s[k])
  }

  function Zeros(n: nat): (r: seq<int>)
    ensures |r| == n && forall k :: 0 <= k < n ==> r[k] == 0
  {
    seq(n, _ => 0)
  }

  lemma {:induction false} FlagsOfLetters(s: string, run: string)
    requires AllLower(s)
    ensures Flags(s, run) == [Flag(run)] + Zeros(|s|)
    decreases |s|
  {
    if s != "" {
      FlagsOfLetters(s[1..], "");
    }
  }

  /** One more piece, behind a hyphen. */
  lemma {:induction false} FlagsSnoc(s: string, w: string, run: string)
    requires s != "" && IsLower(s[|s| - 1]) && AllLower(w)
    ensures var f := Flags(s, run);
      Flags(s + ("-" + w), run) == f[..|f| - 1] + [1] + Zeros(|w|) && f[|f| - 1] == 0
    decreases |s|
  {
    var more := "-" + w;
    assert (s + more)[0] == s[0] && (s + more)[1..] == s[1..] + more;
    if |s| == 1 {
      assert s[1..] == "" && "" + more == more && more[1..] == w && "" + ['-'] == "-";
      FlagsOfLetters(w, "-");
      assert Flags(more, "") == Flags(w, "-") == [1] + Zeros(|w|);
      assert Flags(s, run) == [Flag(run), 0] && [Flag(run), 0][..1] == [Flag(run)];
    } else if IsLower(s[0]) {
      FlagsSnoc(s[1..], w, "");
      var g := Flags(s[1..], "");
      assert ([Flag(run)] + g)[..|g|] == [Flag(run)] + g[..|g| - 1];
    } else {
      FlagsSnoc(s[1..], w, run + [s[0]]);
    }
  }

  function OwnLetter(c: char): string {
    if c == '-' then "" else [c]
  }

  lemma UnhyphenatedUnfolds(a: string)
    ensures Unhyphenated("") == ""
    ensures a != "" ==> Unhyphenated(a) == OwnLetter(a[0]) + Unhyphenated(a[1..])
  {
  }

  lemma {:induction false} UnhyphenatedAppend(a: string, b: string)
    ensures Unhyphenated(a + b) == Unhyphenated(a) + Unhyphenated(b)
    decreases |a|
  {
    hide *;
    UnhyphenatedUnfolds(a);
    UnhyphenatedUnfolds(a + b);
    if a == "" {
      assert a + b == b && "" + Unhyphenated(b) == Unhyphenated(b);
    } else {
      UnhyphenatedAppend(a[1..], b);
      assert (a + b)[0] == a[0] && (a + b)[1..] == a[1..] + b;
      Assoc(OwnLetter(a[0]), Unhyphenated(a[1..]), Unhyphenated(b));
    }
  }

  lemma {:induction false} UnhyphenatedLetters(s: string)
    requires AllLower(s)
    ensures Unhyphenated(s) == s
    decreases |s|
  {
    if s != "" {
      UnhyphenatedLetters(s[1..]);
    }
  }

  /** The flags after each letter of an exception break its word where its pieces meet. */
  ghost predicate BreaksAt(ex: string, ps: seq<string>) {
    var f := Flags(ex, "");
    && Unhyphenated(ex) == Concat(ps) && ex != "" && IsLower(ex[|ex| - 1])
    && |f| == |Concat(ps)| + 1 && Cuts(f[1..], |f| - 1) == Boundaries(ps)
  }

  lemma OnePiece(p: string)
    requires p != "" && AllLower(p)
    ensures BreaksAt(p, [p])
  {
    ConcatOne(p);
    UnhyphenatedLetters(p);
    FlagsOfLetters(p, "");
    assert ([0] + Zeros(|p|))[1..] == [] + Zeros(|p|);
    CutsOfZeros([], |p|);
  }

  lemma OnePieceMore(ex: string, front: seq<string>, last: string)
    requires front != [] && BreaksAt(ex, front) && last != "" && AllLower(last)
    ensures BreaksAt(ex + "-" + last, front + [last])
  {
    var f := Flags(ex, "");
    hide Flags, Unhyphenated, Concat, Boundaries, Cuts, AllLower;
    NonemptyConcat(ex, f);
    PiecesSnoc(front, last);
    UnhyphenatedAppend(ex, "-" + last);
    BehindHyphen(last);
    assert ex + "-" + last == ex + ("-" + last);
    FlagsSnoc(ex, last, "");
    CutsMore(f, |last|);
    LastIsLower(last);
  }

  lemma BehindHyphen(s: string)
    requires AllLower(s)
    ensures Unhyphenated("-" + s) == s
  {
    UnhyphenatedLetters(s);
    assert ("-" + s)[1..] == s && "" + s == s;
  }

  lemma LastIsLower(s: string)
    requires s != "" && AllLower(s)
    ensures IsLower(s[|s| - 1])
  {
  }

  /** The flags of one more piece behind a hyphen: one more cut, where the front ends. */
  lemma CutsMore(f: seq<int>, n: nat)
    requires |f| > 1 && f[|f| - 1] == 0
    ensures var m := |f| - 1;
      Cuts((f[..m] + [1] + Zeros(n))[1..], m + n) == Cuts(f[1..], m) + [m]
  {
    var m := |f| - 1;
    assert (f[..m] + [1] + Zeros(n))[1..] == (f[1..m] + [1]) + Zeros(n);
    CutsOfZeros(f[1..m] + [1], n);
    CutsPrefix(f[1..], f[1..m] + [1], m - 1);
    assert f[1..][m - 1] == 0 && (f[1..m] + [1])[m - 1] == 1;
  }

  lemma NonemptyConcat(ex: string, f: seq<int>)
    requires f == Flags(ex, "") && ex != "" && IsLower(ex[|ex| - 1])
    ensures |f| > 1
  {
    FlagsHaveLetters(ex, "");
  }

  lemma {:induction false} FlagsHaveLetters(ex: string, run: string)
    requires ex != "" && IsLower(ex[|ex| - 1])
    ensures |Flags(ex, run)| > 1
    decreases |ex|
  {
    if !IsLower(ex[0]) {
      FlagsHaveLetters(ex[1..], run + [ex[0]]);
    }
  }

  /** What is stored for pieces joined by hyphens: their word, with its breaks exactly where they meet. */
  lemma {:induction false} HyphensAreBoundaries(ps: seq<string>)
    requires LowerPieces(ps)
    ensures BreaksAt(Hyphenated(ps), ps)
    decreases |ps|
  {
    hide BreaksAt, AllLower;
    var n := |ps| - 1;
    assert ps == ps[..n] + [ps[n]];
    if n == 0 {
      assert ps == [ps[0]];
      OnePiece(ps[0]);
    } else {
      HyphensAreBoundaries(ps[..n]);
      OnePieceMore(Hyphenated(ps[..n]), ps[..n], ps[n]);
    }
  }

  lemma {:induction false} CutsPrefix(a: seq<int>, b: seq<int>, n: nat)
    requires n <= |a| && n <= |b| && a[..n] == b[..n]
    ensures Cuts(a, n) == Cuts(b, n)
    decreases n
  {
    if n > 0 {
      assert a[n - 1] == a[..n][n - 1] && b[n - 1] == b[..n][n - 1];
      assert a[..n - 1] == a[..n][..n - 1] && b[..n - 1] == b[..n][..n - 1];
      CutsPrefix(a, b, n - 1);
    }
  }

  lemma {:induction false} CutsOfZeros(a: seq<int>, n: nat)
    ensures Cuts(a + Zeros(n), |a| + n) == Cuts(a, |a|)
    decreases n
  {
    if n == 0 {
      assert a + Zeros(0) == a;
    } else {
      CutsOfZeros(a, n - 1);
      CutsPrefix(a + Zeros(n), a + Zeros(n - 1), |a| + n - 1);
      assert (a + Zeros(n))[|a| + n - 1] == 0;
    }
  }

  /** An exception written as pieces joined by hyphens breaks its word, in any case, exactly where they meet. */
  lemma ExceptionsBreakAsWritten(ps: seq<string>, word: string)
    requires LowerPieces(ps) && |word| == |Concat(ps)|
    ensures var points := ExceptionPoints(Hyphenated(ps));
      && Unhyphenated(Hyphenated(ps)) == Concat(ps) && |points| == |word| + 2
      && CutAt(Pieces(word, points[2..], |word|), word, Boundaries(ps))
  {
    HyphensAreBoundaries(ps);
    var f := Flags(Hyphenated(ps), "");
    PiecesAreCuts(word, f[1..], |word|);
    hide *;
    assert ([0] + f)[2..] == f[1..];
    assert word[..|word|] == word;
  }
}
