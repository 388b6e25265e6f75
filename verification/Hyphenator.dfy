/**
  Frank Liang's hyphenator: patterns stored in a trie of nested dictionaries,
  walked from every offset of the word to collect its points.
 */
module Hyphenators {
  import opened Wrappers
  import opened Patterns
  import opened WordPieces
  import opened Words

  /** One nested dictionary: an entry per letter, and the points under the None key. */
  class TrieNode {
    var children: map<char, TrieNode>
    var points: Option<seq<int>>

    constructor ()
      ensures children == map[] && points == None
    {
      children, points := map[], None;
    }
  }

  function Init(s: string): string
    requires s != ""
  {
    s[..|s| - 1]
  }

  function Last(s: string): char
    requires s != ""
  {
    s[|s| - 1]
  }

  type Trie = map<string, TrieNode>

  /** Different prefixes have different dictionaries, and prefixes of stored prefixes are stored. */
  ghost predicate Separate(nodes: Trie) {
    && (forall p, q :: p in nodes && q in nodes && p != q ==> nodes[p] != nodes[q])
    && (forall p :: p in nodes && p != "" ==> Init(p) in nodes)
  }

  /** The letters of every stored dictionary, and the points stored in it. */
  ghost function Kids(nodes: Trie): map<string, map<char, TrieNode>>
    reads nodes.Values
  {
    map p | p in nodes :: nodes[p].children
  }

  ghost function Ends(nodes: Trie): map<string, Option<seq<int>>>
    reads nodes.Values
  {
    map p | p in nodes :: nodes[p].points
  }

  /** A dictionary has exactly the letters that extend its prefix to a stored one, leading there. */
  ghost predicate Linked(nodes: Trie, kids: map<string, map<char, TrieNode>>) {
    && (forall p, c :: p in kids && c in kids[p] ==> p + [c] in nodes && kids[p][c] == nodes[p + [c]])
    && (forall p :: p in nodes && p != "" ==> Init(p) in kids && Last(p) in kids[Init(p)])
  }

  /** The points are stored at the ends of the patterns, and nowhere else. */
  ghost predicate Stored(ends: map<string, Option<seq<int>>>, table: Table) {
    && (forall p :: p in ends ==> ends[p] == if p in table then Some(table[p]) else None)
    && (forall p :: p in table ==> p in ends)
  }

  lemma LinkedDown(nodes: Trie, kids: map<string, map<char, TrieNode>>, p: string, c: char)
    requires Linked(nodes, kids) && p in kids && c in kids[p]
    ensures p + [c] in nodes && kids[p][c] == nodes[p + [c]]
  {
  }

  lemma LinkedUp(nodes: Trie, kids: map<string, map<char, TrieNode>>, p: string)
    requires Linked(nodes, kids) && p in nodes && p != ""
    ensures Init(p) in kids && Last(p) in kids[Init(p)]
  {
  }

  lemma LinkedAdd(nodes: Trie, kids: map<string, map<char, TrieNode>>, prefix: string, c: char, key: string,
                  child: TrieNode)
    requires Linked(nodes, kids) && prefix in kids && kids.Keys == nodes.Keys
    requires key == prefix + [c] && c !in kids[prefix] && key !in nodes
    ensures Linked(nodes[key := child], kids[prefix := kids[prefix][c := child]][key := map[]])
  {
    hide Linked;
    assert Init(key) == prefix && Last(key) == c;
    var nodes', kids' := nodes[key := child], kids[prefix := kids[prefix][c := child]][key := map[]];
    forall p, d | p in kids' && d in kids'[p]
      ensures p + [d] in nodes' && kids'[p][d] == nodes'[p + [d]]
    {
      if !(p == prefix && d == c) {
        LinkedDown(nodes, kids, p, d);
      }
    }
    forall p | p in nodes' && p != ""
      ensures Init(p) in kids' && Last(p) in kids'[Init(p)]
    {
      if p != key {
        LinkedUp(nodes, kids, p);
        assert Init(p) != key;
      }
    }
    LinkedFrom(nodes', kids');
  }

  lemma LinkedFrom(nodes: Trie, kids: map<string, map<char, TrieNode>>)
    requires forall p, c :: p in kids && c in kids[p] ==> p + [c] in nodes && kids[p][c] == nodes[p + [c]]
    requires forall p :: p in nodes && p != "" ==> Init(p) in kids && Last(p) in kids[Init(p)]
    ensures Linked(nodes, kids)
  {
  }

  lemma SeparateAdd(nodes: Trie, prefix: string, c: char, child: TrieNode)
    requires Separate(nodes) && prefix in nodes && child !in nodes.Values
    ensures Separate(nodes[prefix + [c] := child])
  {
    assert Init(prefix + [c]) == prefix;
  }

  lemma TwoEdits<V>(a: map<string, V>, b: map<string, V>, k: string, v: V, l: string, w: V)
    requires k in a && l !in a && b.Keys == a.Keys + {l} && b[k] == v && b[l] == w
    requires forall p :: p in a && p != k ==> b[p] == a[p]
    ensures b == a[k := v][l := w]
  {
  }

  lemma OneEdit<V>(a: map<string, V>, b: map<string, V>, k: string, v: V)
    requires b.Keys == a.Keys + {k} && b[k] == v && forall p :: p in a && p != k ==> b[p] == a[p]
    ensures b == a[k := v]
  {
  }

  lemma OthersDiffer(nodes: Trie, prefix: string)
    requires Separate(nodes) && prefix in nodes
    ensures forall p :: p in nodes && p != prefix ==> nodes[p] != nodes[prefix]
  {
  }

  lemma StoredAdd(ends: map<string, Option<seq<int>>>, table: Table, key: string)
    requires Stored(ends, table) && key !in ends
    ensures Stored(ends[key := None], table)
  {
  }

  /** A new dictionary, as far as prefixes, letters and points go. */
  lemma Grown(nodes: Trie, kids: map<string, map<char, TrieNode>>, ends: map<string, Option<seq<int>>>, table: Table,
              prefix: string, c: char, child: TrieNode)
    requires Separate(nodes) && Linked(nodes, kids) && Stored(ends, table)
    requires kids.Keys == ends.Keys == nodes.Keys && prefix in nodes && c !in kids[prefix] && child !in nodes.Values
    ensures var key := prefix + [c];
      && key !in nodes && Separate(nodes[key := child])
      && Linked(nodes[key := child], kids[prefix := kids[prefix][c := child]][key := map[]])
      && Stored(ends[key := None], table)
    ensures forall p :: p in nodes && p != prefix ==> nodes[p] != nodes[prefix]
  {
    hide *;
    UnlinkedIsNew(nodes, kids, prefix, c);
    OthersDiffer(nodes, prefix);
    SeparateAdd(nodes, prefix, c, child);
    LinkedAdd(nodes, kids, prefix, c, prefix + [c], child);
    StoredAdd(ends, table, prefix + [c]);
  }

  lemma StoredSet(ends: map<string, Option<seq<int>>>, table: Table, key: string, points: seq<int>)
    requires Stored(ends, table) && key in ends
    ensures Stored(ends[key := Some(points)], table[key := points])
  {
  }

  lemma UnlinkedIsNew(nodes: Trie, kids: map<string, map<char, TrieNode>>, prefix: string, c: char)
    requires Linked(nodes, kids) && prefix in kids && c !in kids[prefix]
    ensures prefix + [c] !in nodes
  {
    assert Init(prefix + [c]) == prefix && Last(prefix + [c]) == c;
  }

  lemma PrefixStored(nodes: Trie, p: string)
    requires Separate(nodes) && p in nodes && p != ""
    ensures Init(p) in nodes
  {
  }

  /** No stored prefix extends one that is not stored. */
  lemma {:induction false} NothingBeyond(nodes: Trie, work: string, i: nat, l: nat, l': nat)
    requires Separate(nodes) && i + l <= i + l' <= |work| && 0 < l && work[i..i + l] !in nodes
    ensures work[i..i + l'] !in nodes
    decreases l'
  {
    hide Separate;
    if l < l' {
      NothingBeyond(nodes, work, i, l, l' - 1);
      assert Init(work[i..i + l']) == work[i..i + l' - 1];
      if work[i..i + l'] in nodes {
        PrefixStored(nodes, work[i..i + l']);
      }
    }
  }

  lemma StoredKeys(ends: map<string, Option<seq<int>>>, table: Table)
    requires Stored(ends, table)
    ensures table.Keys <= ends.Keys
  {
  }

  lemma NoLongerMatch(nodes: Trie, table: Table, work: string, i: nat, l: nat)
    requires Separate(nodes) && table.Keys <= nodes.Keys && i + l <= |work|
    requires i + l < |work| ==> work[i..i + l + 1] !in nodes
    ensures forall l' :: Matches(work, table, i, l') ==> l' <= l
  {
    hide Separate;
    forall l' | Matches(work, table, i, l')
      ensures l' <= l
    {
      if l < l' {
        NothingBeyond(nodes, work, i, l + 1, l');
      }
    }
  }

  lemma EmptyTrie(root: TrieNode)
    requires root.children == map[] && root.points.None?
    ensures var nodes: Trie := map["" := root];
      Separate(nodes) && Linked(nodes, Kids(nodes)) && Stored(Ends(nodes), map[])
  {
  }

  /** `s.split()`. */
  function Fields(s: string): seq<string> {
    Texts(Split(s, Mode(false, false)))
  }

  class Hyphenator {
    var tree: TrieNode
    var exceptions: map<string, seq<int>>
    /** False when a pattern made the constructor raise. */
    var loaded: bool
    const lower: string -> string
    const toInt: Reader
    /** The node reached by each stored prefix, and the points stored for whole patterns. */
    ghost var nodes: map<string, TrieNode>
    ghost var table: Table

    ghost predicate Valid()
      reads this`tree, this`nodes, this`table, nodes.Values
    {
      && "" in nodes && nodes[""] == tree && Separate(nodes)
      && Linked(nodes, Kids(nodes)) && Stored(Ends(nodes), table) && IsTable(table)
    }

    /** The patterns, inserted in order into an empty trie, then the exceptions. */
    constructor (patterns: string, exceptions: string, lower: string -> string, toInt: Reader)
      ensures Valid() && this.lower == lower && this.toInt == toInt
      ensures loaded <==> Accepted(Fields(patterns), toInt)
      ensures loaded ==>
        table == TableOf(Fields(patterns), toInt) && this.exceptions == ExceptionsOf(Fields(exceptions))
    {
      var root := new TrieNode();
      tree, this.exceptions, this.lower, this.toInt := root, map[], lower, toInt;
      nodes, table, loaded := map["" := root], map[], false;
      new;
      EmptyTrie(root);
      hide Separate, Linked, Stored, IsTable, Kids, Ends;
      Load(patterns, exceptions);
    }

    /** The body of the constructor. */
    method Load(patterns: string, exs: string)
      requires Valid() && table == map[] && exceptions == map[]
      modifies this`loaded, this`exceptions, this`nodes, this`table, nodes.Values
      ensures Valid() && (loaded <==> Accepted(Fields(patterns), toInt))
      ensures loaded ==> table == TableOf(Fields(patterns), toInt) && exceptions == ExceptionsOf(Fields(exs))
    {
      hide Valid, Accepted, Fields, IsTable;
      var fields := FieldsOf(patterns);
      loaded := InsertAll(fields);
      if loaded {
        fields := FieldsOf(exs);
        AddExceptions(fields);
      }
    }

    /** `str.split`. */
    method FieldsOf(s: string) returns (fields: seq<string>)
      ensures fields == Fields(s)
    {
      var words := SplitWords(s, Mode(false, false));
      fields := Texts(words);
    }

    /** The constructor's loop over the patterns; false when one of them makes it raise. */
    method InsertAll(patterns: seq<string>) returns (ok: bool)
      requires Valid() && table == map[]
      modifies this`nodes, this`table, nodes.Values
      ensures Valid() && (ok <==> Accepted(patterns, toInt))
      ensures ok ==> table == TableOf(patterns, toInt)
    {
      hide Separate, Linked, Stored, IsTable, Kids, Ends, Parse;
      for i := 0 to |patterns|
        invariant Valid() && Accepted(patterns[..i], toInt) && table == TableOf(patterns[..i], toInt)
        invariant forall n :: n in nodes.Values ==> n in old(nodes.Values) || fresh(n)
      {
        assert patterns[..i + 1][..i] == patterns[..i] && patterns[..i + 1][i] == patterns[i];
        assert forall p :: p in patterns[..i + 1] <==> p in patterns[..i] || p == patterns[i];
        ok := InsertPattern(patterns[i]);
        if !ok {
          return;
        }
      }
      assert patterns[..|patterns|] == patterns;
      ok := true;
    }

    /** The constructor's loop over the exceptions. */
    method AddExceptions(exs: seq<string>)
      requires exceptions == map[]
      modifies this`exceptions
      ensures exceptions == ExceptionsOf(exs)
    {
      for i := 0 to |exs|
        invariant exceptions == ExceptionsOf(exs[..i])
      {
        assert exs[..i + 1][..i] == exs[..i] && exs[..i + 1][i] == exs[i];
        exceptions := exceptions[Unhyphenated(exs[i]) := ExceptionPoints(exs[i])];
      }
      assert exs[..|exs|] == exs;
    }

    /** A new dictionary under a letter. */
    method AddChild(t: TrieNode, ghost prefix: string, c: char, child: TrieNode)
      requires Valid() && prefix in nodes && nodes[prefix] == t && c !in t.children
      requires child !in nodes.Values && child.children == map[] && child.points.None?
      modifies this`nodes, t`children
      ensures Valid() && nodes == old(nodes)[prefix + [c] := child]
    {
      hide Separate, Linked, Stored, IsTable;
      ghost var key, kids, ends := prefix + [c], Kids(nodes), Ends(nodes);
      Grown(nodes, kids, ends, table, prefix, c, child);
      t.children := t.children[c := child];
      nodes := nodes[key := child];
      assert Kids(nodes) == kids[prefix := kids[prefix][c := child]][key := map[]] by {
        hide Ends;
        TwoEdits(kids, Kids(nodes), prefix, kids[prefix][c := child], key, map[]);
      }
      assert Ends(nodes) == ends[key := None] by {
        hide Kids;
        OneEdit(ends, Ends(nodes), key, None);
      }
    }

    /** The walk of `_insert_pattern` one letter down, adding a dictionary if the letter is new. */
    method Descend(t: TrieNode, ghost prefix: string, c: char) returns (child: TrieNode)
      requires Valid() && prefix in nodes && nodes[prefix] == t
      modifies this`nodes, t
      ensures Valid() && prefix + [c] in nodes && nodes[prefix + [c]] == child
      ensures forall n :: n in nodes.Values ==> n in old(nodes.Values) || fresh(n)
    {
      hide Separate, Linked, Stored, IsTable, Kids, Ends;
      LinkedAt(prefix, c);
      if c in t.children {
        child := t.children[c];
      } else {
        child := new TrieNode();
        AddChild(t, prefix, c, child);
      }
    }

    lemma LinkedAt(prefix: string, c: char)
      requires Valid() && prefix in nodes
      ensures if c in nodes[prefix].children
        then prefix + [c] in nodes && nodes[prefix].children[c] == nodes[prefix + [c]]
              else prefix + [c] !in nodes
    {
      assert Kids(nodes)[prefix] == nodes[prefix].children;
      if c !in nodes[prefix].children {
        UnlinkedIsNew(nodes, Kids(nodes), prefix, c);
      }
    }

    /** `t[None] = points`. */
    method StorePoints(t: TrieNode, ghost key: string, points: seq<int>)
      requires Valid() && key in nodes && nodes[key] == t && |points| <= |key| + 1
      modifies this`table, t`points
      ensures Valid() && table == old(table)[key := points]
    {
      hide Separate, Linked, Stored;
      ghost var kids, ends := Kids(nodes), Ends(nodes);
      OthersDiffer(nodes, key);
      StoredSet(ends, table, key, points);
      t.points := Some(points);
      table := table[key := points];
      assert Kids(nodes) == kids;
      OneEdit(ends, Ends(nodes), key, Some(points));
    }

    /**
      `_insert_pattern`: raises, the trie untouched, or the characters name the
      path and the numbers are stored at its end.
     */
    method InsertPattern(pattern: string) returns (ok: bool)
      requires Valid()
      modifies this`nodes, this`table, nodes.Values
      ensures Valid() && (ok <==> Parse(pattern, toInt).Some?)
      ensures table == if ok then old(table)[Chars(pattern) := Parse(pattern, toInt).value] else old(table)
      ensures forall n :: n in nodes.Values ==> n in old(nodes.Values) || fresh(n)
    {
      hide Separate, Linked, Stored, IsTable, Kids, Ends;
      var chars, points := Chars(pattern), Parse(pattern, toInt);
      if points.None? {
        return false;
      }
      var t := tree;
      for i := 0 to |chars|
        invariant Valid() && table == old(table) && tree == old(tree)
        invariant chars[..i] in nodes && nodes[chars[..i]] == t
        invariant forall n :: n in nodes.Values ==> n in old(nodes.Values) || fresh(n)
      {
        assert chars[..i] + [chars[i]] == chars[..i + 1];
        t := Descend(t, chars[..i], chars[i]);
      }
      assert chars[..|chars|] == chars;
      StorePoints(t, chars, points.value);
      return true;
    }

    // ------------------------------------------------------------- hyphenating

    /** The loop over one pattern's numbers: each is maxed into the point it falls on. */
    method MaxInto(points: array<nat>, i: nat, p: seq<int>)
      requires i + |p| <= points.Length
      modifies points
      ensures forall k :: 0 <= k < points.Length ==>
        points[k] == if i <= k < i + |p| then Max(old(points[k]), p[k - i]) else old(points[k])
    {
      for j := 0 to |p|
        invariant forall k :: 0 <= k < points.Length ==>
          points[k] == if i <= k < i + j then Max(old(points[k]), p[k - i]) else old(points[k])
      {
        points[i + j] := Max(points[i + j], p[j]);
      }
    }

    lemma StoredHere(prefix: string)
      requires Valid() && prefix in nodes
      ensures nodes[prefix].points == if prefix in table then Some(table[prefix]) else None
    {
      assert Ends(nodes)[prefix] == nodes[prefix].points;
    }

    lemma NoLongerMatchHere(work: string, i: nat, l: nat)
      requires Valid() && i + l <= |work| && (i + l < |work| ==> work[i..i + l + 1] !in nodes)
      ensures forall l' :: Matches(work, table, i, l') ==> l' <= l
    {
      StoredKeys(Ends(nodes), table);
      hide Separate, Linked, Stored;
      NoLongerMatch(nodes, table, work, i, l);
    }

    /** The walk of `hyphenate_word` from one offset, down the trie as far as the word leads. */
    method WalkFrom(points: array<nat>, work: string, i: nat)
      requires Valid() && points.Length == |work| + 1 && i < |work|
      requires Largest(points[..], work, table, i, 0)
      modifies points
      ensures Largest(points[..], work, table, i + 1, 0)
    {
      hide Separate, Linked, Stored, Kids, Ends, Largest;
      var t := tree;
      assert work[i..i + 0] == "";
      for l := 0 to |work| - i
        invariant Largest(points[..], work, table, i, l)
        invariant work[i..i + l] in nodes && nodes[work[i..i + l]] == t
      {
        var c := work[i + l];
        ghost var prefix, longer := work[i..i + l], work[i..i + l + 1];
        assert prefix + [c] == longer;
        LinkedAt(prefix, c);
        if c !in t.children {
          NoLongerMatchHere(work, i, l);
          LargestNext(points[..], work, table, i, l);
          return;
        }
        t := t.children[c];
        StoredHere(longer);
        ghost var before := points[..];
        if t.points.Some? {
          MaxInto(points, i, t.points.value);
        }
        LargestStep(before, points[..], work, table, i, l);
      }
      NoLongerMatchHere(work, i, |work| - i);
      LargestNext(points[..], work, table, i, |work| - i);
    }

    /** The point array of a word that is no exception, before the edges are zeroed. */
    method CollectPoints(work: string) returns (points: array<nat>)
      requires Valid()
      ensures fresh(points) && ArePoints(points[..], work, table)
    {
      points := new nat[|work| + 1](_ => 0);
      for i := 0 to |work|
        invariant Largest(points[..], work, table, i, 0)
      {
        WalkFrom(points, work, i);
      }
      LargestAll(points[..], work, table);
    }

    /** The piece-building loop: `zip` stops at the shorter of word and points. */
    method BuildPieces(word: string, points: seq<int>) returns (pieces: seq<string>)
      ensures pieces == Pieces(word, points, Min(|word|, |points|))
    {
      pieces := [""];
      for k := 0 to Min(|word|, |points|)
        invariant pieces == Pieces(word, points, k)
      {
        pieces := pieces[|pieces| - 1 := pieces[|pieces| - 1] + [word[k]]];
        assert pieces == Pieces(word, points, k)[..|pieces| - 1] + [Pieces(word, points, k)[|pieces| - 1] + [word[k]]];
        if points[k] % 2 == 1 {
          pieces := pieces + [""];
        }
      }
    }

    /**
      `hyphenate_word`. For an ordinary word the pieces come from the brute-force
      points of the loaded patterns; when lowering keeps its length they are good.
     */
    method HyphenateWord(word: string) returns (pieces: seq<string>)
      requires Valid()
      ensures |word| <= 4 ==> pieces == [word]
      ensures |word| > 4 && lower(word) in exceptions ==>
        var points := exceptions[lower(word)][Min(2, |exceptions[lower(word)]|)..];
        pieces == Pieces(word, points, Min(|word|, |points|))
      ensures |word| > 4 && lower(word) !in exceptions ==>
        exists points: seq<nat> ::
          && ArePoints(points, "." + lower(word) + ".", table) && pieces == PiecesOf(word, points)
          && (|lower(word)| == |word| ==> BreaksByPoints(pieces, word, points))
      ensures |word| > 4 && lower(word) !in exceptions && |lower(word)| == |word| ==> GoodPieces(pieces, word)
    {
      hide Separate, Linked, Stored, Kids, Ends, ArePoints, Pieces, GoodPieces, BreaksByPoints;
      if |word| <= 4 {
        return [word];
      }
      if lower(word) in exceptions {
        var points := exceptions[lower(word)];
        pieces := BuildPieces(word, points[Min(2, |points|)..]);
        return;
      }
      var work := "." + lower(word) + ".";
      var points := CollectPoints(work);
      ghost var collected: seq<nat> := points[..];
      PointsLength(collected, work, table);
      points[1], points[2], points[points.Length - 2], points[points.Length - 3] := 0, 0, 0, 0;
      assert points[..] == Edged(collected);
      pieces := BuildPieces(word, points[2..]);
      assert points[2..] == Edged(collected)[2..];
      assert pieces == PiecesOf(word, collected);
      if |lower(word)| == |word| {
        EdgedPiecesAreGood(word, collected);
        PiecesBreakByPoints(word, collected);
      }
      assert ArePoints(collected, "." + lower(word) + ".", table);
    }

    lemma PointsLength(points: seq<nat>, work: string, t: Table)
      requires IsTable(t) && ArePoints(points, work, t)
      ensures |points| == |work| + 1
    {
    }
  }
}
