/**
  What the hyphenation patterns mean, independently of the trie: how a pattern
  is read, and the points of a word, the largest values any matching pattern gives.
 */
module Patterns {
  import opened Wrappers

  /** The characters of a pattern to its numbers. */
  type Table = map<string, seq<int>>

  /** `int` of a nonempty string, None when it raises. */
  type Reader = string -> Option<int>

  predicate IsDigit(c: char) {
    '0' <= c <= '9'
  }

  predicate IsLetter(c: char) {
    c == '.' || 'a' <= c <= 'z'
  }

  // ------------------------------------------------------ reading a pattern

  /** The pattern with its digits removed. */
  function Chars(p: string): string {
    if p == "" then "" else (if IsDigit(p[0]) then "" else [p[0]]) + Chars(p[1..])
  }

  /** What stands between the letters, `run` being what was read since the last one. */
  function Parts(p: string, run: string): (r: seq<string>)
    ensures 1 <= |r| <= |Chars(p)| + 1
  {
    if p == "" then [run]
    else if IsLetter(p[0]) then [run] + Parts(p[1..], "")
    else Parts(p[1..], run + [p[0]])
  }

  /** `[int(d or 0) for d in parts]`, None when one of them raises. */
  function Numbers(parts: seq<string>, toInt: Reader): (r: Option<seq<int>>)
    ensures r.Some? ==> |r.value| == |parts|
  {
    if parts == [] then Some([])
    else
      var first := if parts[0] == "" then Some(0) else toInt(parts[0]);
      var rest := Numbers(parts[1..], toInt);
      if first.Some? && rest.Some? then Some([first.value] + rest.value) else None
  }

  function Parse(p: string, toInt: Reader): (r: Option<seq<int>>)
    ensures r.Some? ==> 1 <= |r.value| <= |Chars(p)| + 1
  {
    Numbers(Parts(p, ""), toInt)
  }

  /** Patterns none of which makes the constructor raise. */
  ghost predicate Accepted(patterns: seq<string>, toInt: Reader) {
    forall p :: p in patterns ==> Parse(p, toInt).Some?
  }

  predicate IsTable(t: Table) {
    forall key :: key in t ==> |t[key]| <= |key| + 1
  }

  /** The last pattern with given characters decides. */
  function TableOf(patterns: seq<string>, toInt: Reader): (t: Table)
    requires Accepted(patterns, toInt)
    ensures IsTable(t)
  {
    if patterns == [] then map[]
    else
      var last := patterns[|patterns| - 1];
      TableOf(patterns[..|patterns| - 1], toInt)[Chars(last) := Parse(last, toInt).value]
  }

  // ------------------------------------------------- patterns in Liang's format

  /** The last pattern with given characters decides. */
  lemma {:induction false} LastPatternDecides(patterns: seq<string>, toInt: Reader, k: nat)
    requires Accepted(patterns, toInt) && k < |patterns| && LastWith(patterns, k)
    ensures var t := TableOf(patterns, toInt);
      Chars(patterns[k]) in t && Some(t[Chars(patterns[k])]) == Parse(patterns[k], toInt)
    decreases |patterns|
  {
    hide Chars, Parse;
    var n := |patterns| - 1;
    if k < n {
      var front := patterns[..n];
      assert front[k] == patterns[k] && LastWith(front, k);
      assert Chars(patterns[n]) != Chars(patterns[k]);
      LastPatternDecides(front, toInt, k);
    }
  }

  /** Only patterns are in the table. */
  lemma {:induction false} OnlyPatternsStored(patterns: seq<string>, toInt: Reader, key: string) returns (k: nat)
    requires Accepted(patterns, toInt) && key in TableOf(patterns, toInt)
    ensures k < |patterns| && Chars(patterns[k]) == key
    decreases |patterns|
  {
    hide Chars, Parse;
    k := |patterns| - 1;
    if Chars(patterns[k]) != key {
      k := OnlyPatternsStored(patterns[..k], toInt, key);
    }
  }

  /** No later pattern has the same characters. */
  predicate LastWith(patterns: seq<string>, k: nat)
    requires k < |patterns|
  {
    forall l :: k < l < |patterns| ==> Chars(patterns[l]) != Chars(patterns[k])
  }

  /** Digits between letters and dots, as in the comment of `_insert_pattern` and the built-in table. */
  predicate IsPattern(p: string) {
    forall k :: 0 <= k < |p| ==> IsDigit(p[k]) || IsLetter(p[k])
  }

  predicate Digits(d: string) {
    forall k :: 0 <= k < |d| ==> IsDigit(d[k])
  }

  function DigitValue(c: char): nat
    requires IsDigit(c)
  {
    c as int - '0' as int
  }

  /** The number a run of digits stands for, zero if there are none. */
  function IntOf(d: string): nat
    requires Digits(d)
  {
    if d == "" then 0 else 10 * IntOf(d[..|d| - 1]) + DigitValue(d[|d| - 1])
  }

  /** Decimal numbers: one more digit is ten times the number, plus the digit. */
  lemma IntOfSnoc(d: string, c: char)
    requires Digits(d) && IsDigit(c)
    ensures Digits(d + [c]) && IntOf(d + [c]) == 10 * IntOf(d) + (c as int - '0' as int)
    ensures IntOf("") == 0
  {
    assert (d + [c])[..|d|] == d;
  }

  /** `int` reads digits as a decimal number; of other strings nothing is supposed. */
  ghost predicate ReadsDecimals(toInt: Reader) {
    forall d: string :: d != "" && Digits(d) ==> toInt(d) == Some(IntOf(d))
  }

  /** The numbers around the letters. */
  function Points(p: string, run: string): (r: seq<int>)
    requires IsPattern(p) && Digits(run)
    ensures |r| == |Chars(p)| + 1
  {
    if p == "" then [IntOf(run)]
    else if IsDigit(p[0]) then Points(p[1..], run + [p[0]])
    else [IntOf(run)] + Points(p[1..], "")
  }

  /** Such patterns are accepted, and read as the numbers between their letters. */
  lemma {:induction false} PatternsParse(p: string, run: string, toInt: Reader)
    requires IsPattern(p) && Digits(run) && ReadsDecimals(toInt)
    ensures Numbers(Parts(p, run), toInt) == Some(Points(p, run))
    decreases |p|
  {
    if p == "" {
      assert Parts(p, run)[1..] == [] && [IntOf(run)] + [] == [IntOf(run)];
    } else if IsDigit(p[0]) {
      PatternsParse(p[1..], run + [p[0]], toInt);
    } else {
      PatternsParse(p[1..], "", toInt);
      assert Parts(p, run)[1..] == Parts(p[1..], "");
    }
  }

  /** A number as it is written in a pattern: zero is left out. */
  function Decimal(v: nat): string {
    if v == 0 then "" else Decimal(v / 10) + [('0' as int + v % 10) as char]
  }

  /** The pattern with given letters and the numbers around them. */
  function Written(chars: string, points: seq<int>): string
    requires |points| == |chars| + 1
  {
    (if points[0] < 0 then "" else Decimal(points[0])) +
    if chars == "" then "" else [chars[0]] + Written(chars[1..], points[1..])
  }

  /** No number begins with a zero. */
  predicate NoLeadingZero(p: string, afterDigit: bool) {
    p == "" ||
    if IsDigit(p[0]) then (afterDigit || p[0] != '0') && NoLeadingZero(p[1..], true)
    else NoLeadingZero(p[1..], false)
  }

  /** Writing a number back gives its digits, unless they begin with a zero: then fewer. */
  lemma {:induction false} DecimalOf(d: string)
    requires Digits(d)
    ensures |Decimal(IntOf(d))| <= |d|
    ensures Decimal(IntOf(d)) == d <==> d == "" || d[0] != '0'
    ensures d != "" && d[0] == '0' ==> |Decimal(IntOf(d))| < |d|
    ensures d != "" && d[0] != '0' ==> IntOf(d) > 0
    decreases |d|
  {
    if d != "" {
      var front, last := d[..|d| - 1], d[|d| - 1];
      DecimalOf(front);
      assert d == front + [last];
      assert IntOf(d) / 10 == IntOf(front) && IntOf(d) % 10 == DigitValue(last);
    }
  }

  lemma PatternUnfolds(p: string, run: string)
    requires IsPattern(p) && p != "" && Digits(run)
    ensures IsPattern(p[1..]) && (IsDigit(p[0]) ==> Digits(run + [p[0]]))
    ensures if IsDigit(p[0]) then Chars(p) == Chars(p[1..]) && Points(p, run) == Points(p[1..], run + [p[0]])
      else Chars(p) == [p[0]] + Chars(p[1..]) && Points(p, run) == [IntOf(run)] + Points(p[1..], "")
  {
    assert "" + Chars(p[1..]) == Chars(p[1..]);
  }

  lemma WrittenUnfolds(c: char, chars: string, v: nat, points: seq<int>)
    requires |points| == |chars| + 1
    ensures Written([c] + chars, [v] + points) == Decimal(v) + ([c] + Written(chars, points))
    ensures Written("", [v]) == Decimal(v)
  {
    assert ([c] + chars)[1..] == chars && ([v] + points)[1..] == points;
    assert Decimal(v) + "" == Decimal(v);
  }

  /**
    Parsing loses nothing but leading zeros: a pattern can be written back from
    its letters and numbers exactly if no number in it begins with a zero.
   */
  lemma {:induction false} ParsingLosesOnlyZeros(p: string, run: string)
    requires IsPattern(p) && Digits(run)
    ensures |Written(Chars(p), Points(p, run))| <= |run + p|
    ensures Written(Chars(p), Points(p, run)) == run + p
      <==> (run == "" || run[0] != '0') && NoLeadingZero(p, run != "")
    decreases |p|
  {
    DecimalOf(run);
    hide Decimal, IntOf, IsDigit, IsLetter, IsPattern, Digits, Written, Chars;
    if p == "" {
      WrittenUnfolds('.', "", IntOf(run), [0]);
      assert run + "" == run && Chars("") == "" by { NoChars(); }
    } else {
      var rest := p[1..];
      PatternUnfolds(p, run);
      assert p == [p[0]] + rest;
      hide Points;
      if IsDigit(p[0]) {
        ParsingLosesOnlyZeros(rest, run + [p[0]]);
        assert run + [p[0]] + rest == run + p;
      } else {
        NoDigits();
        ParsingLosesOnlyZeros(rest, "");
        var written := Written(Chars(rest), Points(rest, ""));
        WrittenUnfolds(p[0], Chars(rest), IntOf(run), Points(rest, ""));
        assert "" + rest == rest;
        SameParts(Decimal(IntOf(run)), written, run, rest, p[0]);
      }
    }
  }

  lemma NoChars()
    ensures Chars("") == ""
  {
  }

  lemma NoDigits()
    ensures Digits("")
  {
  }

  lemma SameParts(a: string, b: string, run: string, rest: string, c: char)
    requires |a| <= |run| && |b| <= |rest|
    ensures a + ([c] + b) == run + ([c] + rest) <==> a == run && b == rest
  {
    var x, y := a + ([c] + b), run + ([c] + rest);
    if x == y {
      assert x[..|a|] == a && y[..|a|] == run && x[|a| + 1..] == b && y[|a| + 1..] == rest;
    }
  }

  // -------------------------------------------------------------- the points

  /** A nonempty stretch of the word that is a pattern's letters. */
  predicate Matches(work: string, t: Table, i: int, l: int) {
    0 <= i && 0 < l && i + l <= |work| && work[i..i + l] in t
  }

  /** The value that match gives to point k. */
  function ValueAt(work: string, t: Table, i: int, l: int, k: int): int
    requires Matches(work, t, i, l) && i <= k < i + |t[work[i..i + l]]|
  {
    t[work[i..i + l]][k - i]
  }

  /** The match of length l at i gives point k the value v. */
  predicate Gives(work: string, t: Table, i: int, l: int, k: int, v: int) {
    Matches(work, t, i, l) && i <= k < i + |t[work[i..i + l]]| && ValueAt(work, t, i, l, k) == v
  }

  /** Matches starting before i, or at i and no longer than l. */
  predicate Before(i: int, l: int, iBound: int, lBound: int) {
    i < iBound || (i == iBound && l <= lBound)
  }

  /** points[k] is the largest value given to k by the matches up to the bound, or 0. */
  ghost predicate Largest(points: seq<nat>, work: string, t: Table, iBound: int, lBound: int)
    requires IsTable(t) && |points| == |work| + 1
  {
    && (forall i, l, k, v :: Gives(work, t, i, l, k, v) && Before(i, l, iBound, lBound) ==> v <= points[k])
    && (forall k :: 0 <= k < |points| && points[k] != 0 ==>
          exists i, l :: Gives(work, t, i, l, k, points[k]) && Before(i, l, iBound, lBound))
  }

  /** One more match: its values are maxed in, everything else stays. */
  lemma LargestStep(before: seq<nat>, after: seq<nat>, work: string, t: Table, i: nat, l: nat)
    requires IsTable(t) && |before| == |after| == |work| + 1 && i + l < |work|
    requires Largest(before, work, t, i, l)
    requires forall k :: 0 <= k < |before| ==> after[k] == Raised(before, work, t, i, l + 1, k)
    ensures Largest(after, work, t, i, l + 1)
  {
    forall i', l', k, v | Gives(work, t, i', l', k, v) && Before(i', l', i, l + 1)
      ensures v <= after[k]
    {
      assert after[k] == Raised(before, work, t, i, l + 1, k) >= before[k];
      if !Before(i', l', i, l) {
        assert i' == i && l' == l + 1;
      }
    }
    forall k | 0 <= k < |after| && after[k] != 0
      ensures exists i', l' :: Gives(work, t, i', l', k, after[k]) && Before(i', l', i, l + 1)
    {
      if after[k] == before[k] {
        var i', l' :| Gives(work, t, i', l', k, before[k]) && Before(i', l', i, l);
        assert Gives(work, t, i', l', k, after[k]) && Before(i', l', i, l + 1);
      } else {
        assert Gives(work, t, i, l + 1, k, after[k]) && Before(i, l + 1, i, l + 1);
      }
    }
  }

  /** Point k once the match of length l at i, if there is one, has been maxed in. */
  function Raised(points: seq<nat>, work: string, t: Table, i: nat, l: nat, k: nat): nat
    requires IsTable(t) && k < |points|
  {
    if Matches(work, t, i, l) && i <= k < i + |t[work[i..i + l]]| then Max(points[k], ValueAt(work, t, i, l, k))
    else points[k]
  }

  /** No match at i is longer than l: on to the next offset. */
  lemma LargestNext(points: seq<nat>, work: string, t: Table, i: nat, l: nat)
    requires IsTable(t) && |points| == |work| + 1 && Largest(points, work, t, i, l)
    requires forall l' :: Matches(work, t, i, l') ==> l' <= l
    ensures Largest(points, work, t, i + 1, 0)
  {
    forall i', l', k, v | Gives(work, t, i', l', k, v)
      ensures Before(i', l', i + 1, 0) == Before(i', l', i, l)
    {
    }
  }

  lemma LargestAll(points: seq<nat>, work: string, t: Table)
    requires IsTable(t) && |points| == |work| + 1 && Largest(points, work, t, |work|, 0)
    ensures ArePoints(points, work, t)
  {
    assert forall i, l, k, v :: Gives(work, t, i, l, k, v) ==> Before(i, l, |work|, 0);
  }

  function Max(a: nat, b: int): nat {
    if a < b then b else a
  }

  /** The brute-force meaning of a word's points: the maximum over all matches at all offsets. */
  ghost predicate ArePoints(points: seq<nat>, work: string, t: Table)
    requires IsTable(t)
  {
    && |points| == |work| + 1
    && (forall i, l, k, v :: Gives(work, t, i, l, k, v) ==> v <= points[k])
    && (forall k :: 0 <= k < |points| && points[k] != 0 ==> exists i, l :: Gives(work, t, i, l, k, points[k]))
  }

  lemma PointsAreUnique(p: seq<nat>, q: seq<nat>, work: string, t: Table)
    requires IsTable(t) && ArePoints(p, work, t) && ArePoints(q, work, t)
    ensures p == q
  {
    forall k | 0 <= k < |p|
      ensures p[k] == q[k]
    {
      BoundedBy(p, q, work, t, k);
      BoundedBy(q, p, work, t, k);
    }
  }

  lemma BoundedBy(p: seq<nat>, q: seq<nat>, work: string, t: Table, k: nat)
    requires IsTable(t) && ArePoints(p, work, t) && ArePoints(q, work, t) && k < |p|
    ensures p[k] <= q[k]
  {
    if p[k] != 0 {
      var i, l :| Gives(work, t, i, l, k, p[k]);
    }
  }

  // ------------------------------------------------- what patterns can reach

  ghost predicate AllPatterns(patterns: seq<string>) {
    forall p :: p in patterns ==> IsPattern(p)
  }

  lemma PatternsAccepted(patterns: seq<string>, toInt: Reader)
    requires AllPatterns(patterns) && ReadsDecimals(toInt)
    ensures Accepted(patterns, toInt)
  {
    forall p | p in patterns
      ensures Parse(p, toInt).Some?
    {
      PatternsParse(p, "", toInt);
    }
  }

  lemma {:induction false} CharsAreLetters(p: string)
    requires IsPattern(p)
    ensures forall k :: 0 <= k < |Chars(p)| ==> IsLetter(Chars(p)[k])
    decreases |p|
  {
    if p != "" {
      CharsAreLetters(p[1..]);
    }
  }

  /** Every key of their table is spelt in pattern letters. */
  lemma {:induction false} KeysAreLetters(patterns: seq<string>, toInt: Reader, key: string)
    requires AllPatterns(patterns) && Accepted(patterns, toInt) && key in TableOf(patterns, toInt)
    ensures forall k :: 0 <= k < |key| ==> IsLetter(key[k])
    decreases |patterns|
  {
    var last := patterns[|patterns| - 1];
    if key == Chars(last) {
      CharsAreLetters(last);
    } else {
      KeysAreLetters(patterns[..|patterns| - 1], toInt, key);
    }
  }

  /** So a point between two characters that are no pattern letters stays zero. */
  lemma OutOfReach(points: seq<nat>, work: string, patterns: seq<string>, toInt: Reader, j: nat)
    requires AllPatterns(patterns) && Accepted(patterns, toInt) && 0 < j < |work|
    requires ArePoints(points, work, TableOf(patterns, toInt))
    requires !IsLetter(work[j - 1]) && !IsLetter(work[j])
    ensures points[j] == 0
  {
    var t := TableOf(patterns, toInt);
    if points[j] != 0 {
      var i, l :| Gives(work, t, i, l, j, points[j]);
      KeysAreLetters(patterns, toInt, work[i..i + l]);
      TouchesKey(work, work[i..i + l], i, l, j);
    }
  }

  /** A point within a stretch of letters, or at its ends, is next to one of them. */
  lemma TouchesKey(work: string, key: string, i: nat, l: nat, j: nat)
    requires 0 < l && i + l <= |work| && i <= j <= i + l && 0 < j < |work| && key == work[i..i + l]
    requires forall k :: 0 <= k < l ==> IsLetter(key[k])
    ensures IsLetter(work[j - 1]) || IsLetter(work[j])
  {
    if i < j {
      assert key[j - 1 - i] == work[j - 1];
    } else {
      assert key[0] == work[j];
    }
  }

  /** The points of a word under a single one-letter pattern: `a` before each c, `b` after. */
  function Beside(work: string, c: char, a: nat, b: nat): (r: seq<nat>)
    ensures |r| == |work| + 1
    ensures forall j :: 0 <= j <= |work| ==> r[j] == BesideAt(work, c, a, b, j)
  {
    seq<nat>(|work| + 1, j requires 0 <= j <= |work| => BesideAt(work, c, a, b, j))
  }

  function BesideAt(work: string, c: char, a: nat, b: nat, j: nat): nat
    requires j <= |work|
  {
    Max(if j < |work| && work[j] == c then a else 0, if j > 0 && work[j - 1] == c then b else 0)
  }

  lemma BesideArePoints(work: string, c: char, a: nat, b: nat)
    ensures IsTable(map[[c] := [a, b]]) && ArePoints(Beside(work, c, a, b), work, map[[c] := [a, b]])
  {
    var t: Table, r := map[[c] := [a, b]], Beside(work, c, a, b);
    forall i, l, k, v | Gives(work, t, i, l, k, v)
      ensures v <= r[k]
    {
      OneLetterMatch(work, c, t, i, l);
    }
    forall k | 0 <= k < |r| && r[k] != 0
      ensures exists i, l :: Gives(work, t, i, l, k, r[k])
    {
      if k < |work| && work[k] == c && r[k] == a {
        assert work[k..k + 1] == [c];
        assert Gives(work, t, k, 1, k, r[k]);
      } else {
        assert work[k - 1..k - 1 + 1] == [c];
        assert Gives(work, t, k - 1, 1, k, r[k]);
      }
    }
  }

  lemma OneLetterMatch(work: string, c: char, t: Table, i: int, l: int)
    requires t.Keys == {[c]} && Matches(work, t, i, l)
    ensures l == 1 && work[i] == c
  {
    assert |work[i..i + l]| == 1 && work[i..i + l][0] == work[i];
  }

  lemma TableOfPattern(p: string, toInt: Reader)
    requires IsPattern(p) && ReadsDecimals(toInt)
    ensures AllPatterns([p]) && Accepted([p], toInt) && TableOf([p], toInt) == map[Chars(p) := Points(p, "")]
  {
    var ps := [p];
    PatternsAccepted(ps, toInt);
    PatternsParse(p, "", toInt);
    assert ps[..|ps| - 1] == [];
    hide Chars, Points, Numbers, Parts;
  }

  /** A letter, and a digit, at the front of a pattern. */
  lemma LetterFirst(c: char, rest: string, run: string)
    requires IsLetter(c) && IsPattern(rest) && Digits(run)
    ensures IsPattern([c] + rest) && Chars([c] + rest) == [c] + Chars(rest)
    ensures Points([c] + rest, run) == [IntOf(run)] + Points(rest, "")
  {
    assert ([c] + rest)[1..] == rest;
  }

  lemma DigitFirst(c: char, rest: string, run: string)
    requires IsDigit(c) && IsPattern(rest) && Digits(run) && Digits(run + [c])
    ensures IsPattern([c] + rest) && Chars([c] + rest) == Chars(rest)
    ensures Points([c] + rest, run) == Points(rest, run + [c])
  {
    assert ([c] + rest)[1..] == rest && "" + Chars(rest) == Chars(rest);
  }

  /** The one-letter patterns with a 1 before or after the letter. */
  lemma OneLetterPatterns(c: char, toInt: Reader)
    requires IsLetter(c) && ReadsDecimals(toInt)
    ensures AllPatterns(["1" + [c]]) && AllPatterns([[c] + "1"])
    ensures Accepted(["1" + [c]], toInt) && TableOf(["1" + [c]], toInt) == map[[c] := [1, 0]]
    ensures Accepted([[c] + "1"], toInt) && TableOf([[c] + "1"], toInt) == map[[c] := [0, 1]]
  {
    hide Chars, Points, IntOf, Digits, TableOf, IsPattern, Accepted, AllPatterns;
    NothingLeft();
    OneIsOne();
    LetterFirst(c, "", "1");
    LetterFirst(c, "1", "");
    DigitFirst('1', "", "");
    DigitFirst('1', [c], "");
    assert [c] + "" == [c] && ['1'] + [c] == "1" + [c] && ['1'] + "" == "1";
    assert [1] + [0] == [1, 0] && [0] + [1] == [0, 1];
    TableOfPattern("1" + [c], toInt);
    TableOfPattern([c] + "1", toInt);
  }

  lemma NothingLeft()
    ensures Chars("") == "" && IsPattern("") && Digits("") && Points("", "") == [0] && IntOf("") == 0
  {
  }

  lemma OneIsOne()
    ensures Digits("1") && IntOf("1") == 1 && "" + "1" == "1" && "" + ['1'] == "1" && Points("", "1") == [1]
  {
    assert "1"[..0] == "";
  }
}
