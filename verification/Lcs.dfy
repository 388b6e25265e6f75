/**
  Longest common subsequence of two id lists: the table fill and the backtrack
  of `_compute_lcs`, and what makes the answer a longest one.
 */
module Lcs {
  type Id = string

  /** Length of a longest common subsequence of a[..i] and b[..j]. */
  ghost function Len(a: seq<Id>, b: seq<Id>, i: nat, j: nat): nat
    requires i <= |a| && j <= |b|
    decreases i + j
  {
    if i == 0 || j == 0 then 0
    else if a[i - 1] == b[j - 1] then Len(a, b, i - 1, j - 1) + 1
    else Max(Len(a, b, i - 1, j), Len(a, b, i, j - 1))
  }

  function Max(x: nat, y: nat): nat {
    if x < y then y else x
  }

  /** The ids collected walking back from cell (i, j), in list order. */
  ghost function Backtrack(a: seq<Id>, b: seq<Id>, i: nat, j: nat): seq<Id>
    requires i <= |a| && j <= |b|
    decreases i + j
  {
    if i == 0 || j == 0 then []
    else if a[i - 1] == b[j - 1] then Backtrack(a, b, i - 1, j - 1) + [a[i - 1]]
    else if Len(a, b, i - 1, j) > Len(a, b, i, j - 1) then Backtrack(a, b, i - 1, j)
    else Backtrack(a, b, i, j - 1)
  }

  /** f picks, left to right and below n, the positions of s inside a. */
  ghost predicate Embeds(s: seq<Id>, a: seq<Id>, n: nat, f: seq<nat>) {
    && |f| == |s|
    && (forall k :: 0 <= k < |f| ==> f[k] < n && f[k] < |a| && a[f[k]] == s[k])
    && (forall k, l :: 0 <= k < l < |f| ==> f[k] < f[l])
  }

  ghost predicate Subsequence(s: seq<Id>, a: seq<Id>) {
    exists f :: Embeds(s, a, |a|, f)
  }

  ghost predicate CommonSubsequence(s: seq<Id>, a: seq<Id>, b: seq<Id>) {
    Subsequence(s, a) && Subsequence(s, b)
  }

  /** Dropping the last cell loses at most one from the length, in either direction. */
  lemma {:induction false} LenStep(a: seq<Id>, b: seq<Id>, i: nat, j: nat)
    requires i <= |a| && j <= |b|
    ensures i > 0 ==> Len(a, b, i - 1, j) <= Len(a, b, i, j) <= Len(a, b, i - 1, j) + 1
    ensures j > 0 ==> Len(a, b, i, j - 1) <= Len(a, b, i, j) <= Len(a, b, i, j - 1) + 1
    decreases i + j
  {
    if i > 0 && j > 0 {
      LenStep(a, b, i - 1, j);
      LenStep(a, b, i, j - 1);
      LenStep(a, b, i - 1, j - 1);
    }
  }

  /** No common subsequence is longer than the table entry. */
  lemma {:induction false} CommonIsBounded(a: seq<Id>, b: seq<Id>, i: nat, j: nat, s: seq<Id>, f: seq<nat>, g: seq<nat>)
    requires i <= |a| && j <= |b|
    requires Embeds(s, a, i, f) && Embeds(s, b, j, g)
    ensures |s| <= Len(a, b, i, j)
    decreases i + j
  {
    if |s| > 0 {
      var n := |s| - 1;
      assert f[n] < i && g[n] < j && a[f[n]] == b[g[n]];
      if a[i - 1] == b[j - 1] {
        CommonIsBounded(a, b, i - 1, j - 1, s[..n], f[..n], g[..n]);
      } else if f[n] < i - 1 {
        CommonIsBounded(a, b, i - 1, j, s, f, g);
      } else {
        CommonIsBounded(a, b, i, j - 1, s, f, g);
      }
    }
  }

  lemma EmbedsSnoc(s: seq<Id>, a: seq<Id>, n: nat, f: seq<nat>)
    requires n < |a| && Embeds(s, a, n, f)
    ensures Embeds(s + [a[n]], a, n + 1, f + [n])
  {
  }

  lemma EmbedsWiden(s: seq<Id>, a: seq<Id>, n: nat, f: seq<nat>)
    requires Embeds(s, a, n, f)
    ensures Embeds(s, a, n + 1, f)
  {
  }

  /** The backtrack is as long as the table says, and embeds in both lists. */
  lemma {:induction false} BacktrackEmbeds(a: seq<Id>, b: seq<Id>, i: nat, j: nat) returns (f: seq<nat>, g: seq<nat>)
    requires i <= |a| && j <= |b|
    ensures |Backtrack(a, b, i, j)| == Len(a, b, i, j)
    ensures Embeds(Backtrack(a, b, i, j), a, i, f) && Embeds(Backtrack(a, b, i, j), b, j, g)
    decreases i + j
  {
    if i == 0 || j == 0 {
      f, g := [], [];
    } else {
      hide Embeds;
      if a[i - 1] == b[j - 1] {
        f, g := BacktrackEmbeds(a, b, i - 1, j - 1);
        EmbedsSnoc(Backtrack(a, b, i - 1, j - 1), a, i - 1, f);
        EmbedsSnoc(Backtrack(a, b, i - 1, j - 1), b, j - 1, g);
        f, g := f + [i - 1], g + [j - 1];
      } else if Len(a, b, i - 1, j) > Len(a, b, i, j - 1) {
        f, g := BacktrackEmbeds(a, b, i - 1, j);
        EmbedsWiden(Backtrack(a, b, i, j), a, i - 1, f);
      } else {
        f, g := BacktrackEmbeds(a, b, i, j - 1);
        EmbedsWiden(Backtrack(a, b, i, j), b, j - 1, g);
      }
    }
  }

  /** The list `_compute_lcs` returns. */
  ghost function Longest(a: seq<Id>, b: seq<Id>): seq<Id> {
    Backtrack(a, b, |a|, |b|)
  }

  /** Soundness and optimality of the result, on every pair of lists, repeated ids included. */
  lemma BacktrackIsLongest(a: seq<Id>, b: seq<Id>)
    ensures CommonSubsequence(Longest(a, b), a, b)
    ensures forall s :: CommonSubsequence(s, a, b) ==> |s| <= |Longest(a, b)|
    ensures |Longest(a, b)| == Len(a, b, |a|, |b|)
  {
    var f, g := BacktrackEmbeds(a, b, |a|, |b|);
    forall s | CommonSubsequence(s, a, b)
      ensures |s| <= |Longest(a, b)|
    {
      var p :| Embeds(s, a, |a|, p);
      var q :| Embeds(s, b, |b|, q);
      CommonIsBounded(a, b, |a|, |b|, s, p, q);
    }
  }

  /** The first `rows` rows of the table hold the lengths they should. */
  ghost predicate RowsFilled(dp: array2<nat>, a: seq<Id>, b: seq<Id>, rows: nat)
    requires dp.Length0 == |a| + 1 && dp.Length1 == |b| + 1 && rows <= |a| + 1
    reads dp
  {
    forall p, q :: 0 <= p < rows && 0 <= q <= |b| ==> dp[p, q] == Len(a, b, p, q)
  }

  /** The inner table-filling loop of `_compute_lcs`. */
  method FillRow(dp: array2<nat>, oldIds: seq<Id>, newIds: seq<Id>, i: nat)
    requires dp.Length0 == |oldIds| + 1 && dp.Length1 == |newIds| + 1
    requires 1 <= i <= |oldIds| && RowsFilled(dp, oldIds, newIds, i) && dp[i, 0] == 0
    modifies dp
    ensures RowsFilled(dp, oldIds, newIds, i + 1)
    ensures forall p, q :: i < p <= |oldIds| && 0 <= q <= |newIds| ==> dp[p, q] == old(dp[p, q])
  {
    for j := 1 to |newIds| + 1
      invariant RowsFilled(dp, oldIds, newIds, i)
      invariant forall q :: 0 <= q < j ==> dp[i, q] == Len(oldIds, newIds, i, q)
      invariant forall p, q :: i < p <= |oldIds| && 0 <= q <= |newIds| ==> dp[p, q] == old(dp[p, q])
    {
      if oldIds[i - 1] == newIds[j - 1] {
        dp[i, j] := dp[i - 1, j - 1] + 1;
      } else {
        dp[i, j] := Max(dp[i - 1, j], dp[i, j - 1]);
      }
    }
  }

  /** The table of `_compute_lcs`, all rows filled. */
  method FillTable(oldIds: seq<Id>, newIds: seq<Id>) returns (dp: array2<nat>)
    ensures fresh(dp) && dp.Length0 == |oldIds| + 1 && dp.Length1 == |newIds| + 1
    ensures RowsFilled(dp, oldIds, newIds, |oldIds| + 1)
  {
    dp := new nat[|oldIds| + 1, |newIds| + 1]((_, _) => 0);
    for i := 1 to |oldIds| + 1
      invariant RowsFilled(dp, oldIds, newIds, i)
      invariant forall p :: i <= p <= |oldIds| ==> dp[p, 0] == 0
    {
      FillRow(dp, oldIds, newIds, i);
    }
  }

  /** `_compute_lcs`: fill the table, walk back through it, reverse what was collected. */
  method ComputeLcs(oldIds: seq<Id>, newIds: seq<Id>) returns (lcsIds: seq<Id>)
    ensures lcsIds == Longest(oldIds, newIds)
    ensures CommonSubsequence(lcsIds, oldIds, newIds)
    ensures forall s :: CommonSubsequence(s, oldIds, newIds) ==> |s| <= |lcsIds|
  {
    var dp := FillTable(oldIds, newIds);
    var collected: seq<Id> := [];
    var i: nat, j: nat := |oldIds|, |newIds|;
    while i > 0 && j > 0
      invariant i <= |oldIds| && j <= |newIds|
      invariant RowsFilled(dp, oldIds, newIds, |oldIds| + 1)
      invariant Backtrack(oldIds, newIds, i, j) + Reversed(collected) == Longest(oldIds, newIds)
      decreases i + j
    {
      if oldIds[i - 1] == newIds[j - 1] {
        ReversedSnoc(collected, oldIds[i - 1]);
        assert Backtrack(oldIds, newIds, i, j) + Reversed(collected)
            == Backtrack(oldIds, newIds, i - 1, j - 1) + ([oldIds[i - 1]] + Reversed(collected));
        collected := collected + [oldIds[i - 1]];
        i, j := i - 1, j - 1;
      } else if dp[i - 1, j] > dp[i, j - 1] {
        i := i - 1;
      } else {
        j := j - 1;
      }
    }
    lcsIds := Reversed(collected);
    BacktrackIsLongest(oldIds, newIds);
  }

  /** Python's `reversed`. */
  function Reversed(s: seq<Id>): (r: seq<Id>)
    ensures |r| == |s|
    ensures forall k :: 0 <= k < |s| ==> r[k] == s[|s| - 1 - k]
  {
    seq(|s|, k requires 0 <= k < |s| => s[|s| - 1 - k])
  }

  lemma ReversedSnoc(s: seq<Id>, x: Id)
    ensures Reversed(s + [x]) == [x] + Reversed(s)
  {
  }
}
