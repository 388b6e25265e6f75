/**
  `replace_words`: the batch form splices replacements into the text in place;
  the streaming form does the same to a growing buffer.
 */
module ReplaceWords {
  import opened Wrappers
  import opened Sequences
  import opened Words

  /** The replacement table, its keys already lowered, and the lowering of a whole string. */
  datatype Table = Table(entries: map<string, string>, lower: string -> string)

  /** The mode both forms split with. */
  const Plain := Mode(false, false)

  /** `word.rstrip` of the punctuation marks. */
  function RStrip(w: string): (r: string)
    ensures |r| <= |w| && r == w[..|r|]
    ensures r != "" ==> !IsPunctuation(r[|r| - 1])
    ensures forall k :: |r| <= k < |w| ==> IsPunctuation(w[k])
  {
    if w == "" || !IsPunctuation(w[|w| - 1]) then w else RStrip(w[..|w| - 1])
  }

  /** What stands in for one word: its replacement followed by its trailing punctuation, or itself. */
  function Substitute(w: string, t: Table): string {
    var bare := RStrip(w);
    var key := t.lower(bare);
    if key in t.entries && t.entries[key] != "" then t.entries[key] + w[|bare|..] else w
  }

  /** Words of a text, each of them the text it covers, in order from `from` on. */
  ghost predicate InOrder(ws: seq<Word>, text: string, from: nat)
    decreases |ws|
  {
    if ws == [] then from <= |text|
    else
      && from <= ws[0].start <= ws[0].end <= |text| && ws[0].text == text[ws[0].start..ws[0].end]
      && InOrder(ws[1..], text, ws[0].end)
  }

  /** The pure word-by-word rebuild of the text from `from` up to the end of the last word. */
  ghost function Rebuilt(text: string, from: nat, ws: seq<Word>, t: Table): string
    requires InOrder(ws, text, from)
    decreases |ws|
  {
    if ws == [] then ""
    else text[from..ws[0].start] + Substitute(ws[0].text, t) + Rebuilt(text, ws[0].end, ws[1..], t)
  }

  ghost function LastEnd(from: nat, ws: seq<Word>): nat {
    if ws == [] then from else ws[|ws| - 1].end
  }

  /** The whole text, word by word: what `replace_words` is meant to return. */
  ghost function Replaced(text: string, t: Table): string {
    SplitInOrder(text);
    Rebuilt(text, 0, Split(text, Plain), t) + text[LastEnd(0, Split(text, Plain))..]
  }

  // ------------------------------------------------ what the result has to be

  /** The word without what trails from n on: marks only, and none just before them. */
  predicate IsBare(w: string, n: nat) {
    && n <= |w| && (n > 0 ==> !IsPunctuation(w[n - 1]))
    && forall k :: n <= k < |w| ==> IsPunctuation(w[k])
  }

  /** What has to stand for a word: the replacement of its bare part and its own trailing marks, or the word itself. */
  ghost predicate StandsFor(part: string, w: string, t: Table) {
    forall n: nat :: IsBare(w, n) ==>
      var key := t.lower(w[..n]);
      part == if key in t.entries && t.entries[key] != "" then t.entries[key] + w[n..] else w
  }

  /** The text with a part in place of each word; all between the words is as it was. */
  ghost function Filled(text: string, from: nat, ws: seq<Word>, parts: seq<string>): string
    requires InOrder(ws, text, from) && |parts| == |ws|
    decreases |ws|
  {
    if ws == [] then text[from..]
    else text[from..ws[0].start] + parts[0] + Filled(text, ws[0].end, ws[1..], parts[1..])
  }

  ghost predicate AllStandFor(parts: seq<string>, ws: seq<Word>, t: Table) {
    |parts| == |ws| && forall k :: 0 <= k < |ws| ==> StandsFor(parts[k], ws[k].text, t)
  }

  /** r is the text with each of its words replaced as it has to be. */
  ghost predicate IsReplaced(r: string, text: string, t: Table) {
    exists ws, parts :: IsFilled(r, text, ws, parts, t)
  }

  ghost predicate IsFilled(r: string, text: string, ws: seq<Word>, parts: seq<string>, t: Table) {
    AreWords(ws, text, 0, Plain) && InOrder(ws, text, 0) && AllStandFor(parts, ws, t) && r == Filled(text, 0, ws, parts)
  }

  /** There is one bare part. */
  lemma BareIsOne(w: string, m: nat, n: nat)
    requires IsBare(w, m) && IsBare(w, n)
    ensures m == n
  {
  }

  lemma SubstituteStandsFor(w: string, t: Table)
    ensures StandsFor(Substitute(w, t), w, t)
  {
    var bare := RStrip(w);
    assert IsBare(w, |bare|) && w[..|bare|] == bare;
    forall n: nat | IsBare(w, n)
      ensures n == |bare|
    {
      BareIsOne(w, n, |bare|);
    }
    hide RStrip, IsBare;
  }

  lemma {:induction false} RebuiltIsFilled(text: string, from: nat, ws: seq<Word>, t: Table)
    returns (parts: seq<string>)
    requires InOrder(ws, text, from)
    ensures LastEnd(from, ws) <= |text| && AllStandFor(parts, ws, t)
    ensures Filled(text, from, ws, parts) == Rebuilt(text, from, ws, t) + text[LastEnd(from, ws)..]
    decreases |ws|
  {
    if ws == [] {
      parts := [];
      assert "" + text[from..] == text[from..];
    } else {
      var rest := RebuiltIsFilled(text, ws[0].end, ws[1..], t);
      var first := Substitute(ws[0].text, t);
      SubstituteStandsFor(ws[0].text, t);
      parts := [first] + rest;
      assert parts[1..] == rest;
      hide Substitute, StandsFor, Rebuilt, Filled;
      OrderUnfolds(ws, text, from);
      RebuiltUnfolds(text, from, ws, t);
      FilledUnfolds(text, from, ws, parts);
      Assoc(text[from..ws[0].start] + first, Rebuilt(text, ws[0].end, ws[1..], t), text[LastEnd(from, ws)..]);
    }
  }

  lemma FilledUnfolds(text: string, from: nat, ws: seq<Word>, parts: seq<string>)
    requires ws != [] && InOrder(ws, text, from) && |parts| == |ws|
    ensures Filled(text, from, ws, parts)
      == text[from..ws[0].start] + parts[0] + Filled(text, ws[0].end, ws[1..], parts[1..])
  {
  }

  /** The specification says so. */
  lemma ReplacedIsReplaced(text: string, t: Table)
    ensures IsReplaced(Replaced(text, t), text, t)
  {
    SplitFindsExactlyTheWords(text, Plain);
    SplitInOrder(text);
    var ws := Split(text, Plain);
    var parts := RebuiltIsFilled(text, 0, ws, t);
    assert IsFilled(Replaced(text, t), text, ws, parts, t) by {
      hide AreWords, AllStandFor, Filled, Rebuilt, Split;
    }
  }

  // --------------------------------------------------------- ordering facts

  lemma OrderUnfolds(ws: seq<Word>, text: string, from: nat)
    ensures ws == [] ==> (InOrder(ws, text, from) <==> from <= |text|)
    ensures ws != [] ==> (InOrder(ws, text, from) <==>
      (&& from <= ws[0].start <= ws[0].end <= |text| && ws[0].text == text[ws[0].start..ws[0].end]
       && InOrder(ws[1..], text, ws[0].end)))
    ensures ws != [] ==> LastEnd(from, ws) == LastEnd(ws[0].end, ws[1..])
  {
  }

  lemma RebuiltUnfolds(text: string, from: nat, ws: seq<Word>, t: Table)
    requires InOrder(ws, text, from)
    ensures ws == [] ==> Rebuilt(text, from, ws, t) == ""
    ensures ws != [] ==> from <= ws[0].start <= ws[0].end <= |text| && InOrder(ws[1..], text, ws[0].end)
    ensures ws != [] ==>
      Rebuilt(text, from, ws, t)
      == text[from..ws[0].start] + Substitute(ws[0].text, t) + Rebuilt(text, ws[0].end, ws[1..], t)
  {
  }

  lemma {:induction false} OrderedWords(ws: seq<Word>, text: string, from: nat)
    requires from <= |text|
    requires forall k :: 0 <= k < |ws| ==>
      from <= ws[k].start <= ws[k].end <= |text| && ws[k].text == text[ws[k].start..ws[k].end]
    requires forall k, l :: 0 <= k < l < |ws| ==> ws[k].end <= ws[l].start
    ensures InOrder(ws, text, from)
    decreases |ws|
  {
    if ws != [] {
      OrderedWords(ws[1..], text, ws[0].end);
    }
  }

  lemma SplitInOrder(text: string)
    ensures InOrder(Split(text, Plain), text, 0)
    ensures LastEnd(0, Split(text, Plain)) <= |text|
  {
    SplitFindsExactlyTheWords(text, Plain);
    OrderedWords(Split(text, Plain), text, 0);
  }

  lemma {:induction false} InOrderEnds(ws: seq<Word>, text: string, from: nat)
    requires InOrder(ws, text, from)
    ensures from <= LastEnd(from, ws) <= |text|
    decreases |ws|
  {
    if ws != [] {
      InOrderEnds(ws[1..], text, ws[0].end);
    }
  }

  // ------------------------------------------------------- in-place splicing

  /** One pass of the `_process_words` loop: `done` is the text rebuilt so far, `from` the input read so far. */
  method ProcessWord(text0: string, offset0: int, w: Word, t: Table,
                     ghost input: string, ghost done: string, ghost from: nat)
    returns (text: string, offset: int)
    requires from <= w.start <= w.end <= |input| && w.text == input[w.start..w.end]
    requires text0 == done + input[from..] && offset0 == |done| - from
    ensures var more := done + input[from..w.start] + Substitute(w.text, t);
      text == more + input[w.end..] && w.end + offset == |more|
  {
    text, offset := text0, offset0;
    var noPunctuation := RStrip(w.text);
    var punctuationOff := |w.text| - |noPunctuation|;
    var key := t.lower(noPunctuation);
    hide RStrip;
    if key in t.entries && t.entries[key] != "" {
      var replacement := t.entries[key];
      Splice(input, done, from, w.start, w.end, w.text, replacement, punctuationOff);
      text := text[..w.start + offset] + replacement + text[w.end + offset - punctuationOff..];
      offset := offset + |replacement| - |w.text| + punctuationOff;
    } else {
      Keep(input, done, from, w.start, w.end);
    }
  }

  lemma Splice(input: string, done: string, from: nat, start: nat, end: nat, word: string, with: string, off: nat)
    requires from <= start <= end <= |input| && word == input[start..end] && off <= |word|
    ensures var text, offset := done + input[from..], |done| - from;
      && 0 <= start + offset <= |text| && 0 <= end + offset - off <= |text|
      && text[..start + offset] + with + text[end + offset - off..]
         == done + input[from..start] + (with + word[|word| - off..]) + input[end..]
  {
    var text, offset := done + input[from..], |done| - from;
    assert text[..start + offset] == done + input[from..start];
    assert text[end + offset - off..] == input[end - off..] == word[|word| - off..] + input[end..];
    Assoc4'(done + input[from..start], with, word[|word| - off..], input[end..]);
  }

  lemma Keep(input: string, done: string, from: nat, start: nat, end: nat)
    requires from <= start <= end <= |input|
    ensures done + input[from..] == done + input[from..start] + input[start..end] + input[end..]
  {
  }

  lemma Assoc4(a: string, b: string, c: string, d: string)
    ensures a + (b + c + d) == a + b + c + d
  {
  }

  /**
    `_process_words`: replacements spliced into the text while an offset tracks
    how far it has moved. The result is the word-by-word rebuild.
   */
  method ProcessWords(input: string, words: seq<Word>, t: Table) returns (text: string, processedIndex: nat)
    requires InOrder(words, input, 0)
    ensures LastEnd(0, words) <= |input|
    ensures text == Rebuilt(input, 0, words, t) + input[LastEnd(0, words)..]
    ensures processedIndex == |Rebuilt(input, 0, words, t)|
  {
    InOrderEnds(words, input, 0);
    hide *;
    text := input;
    var offset := 0;
    processedIndex := 0;
    ghost var done: string, from: nat, rest := "", 0, words;
    Assoc([], Rebuilt(input, 0, words, t), []);
    Assoc([], input, []);
    assert input[0..] == input;
    for i := 0 to |words|
      invariant rest == words[i..] && from <= |input| && InOrder(rest, input, from)
      invariant LastEnd(from, rest) == LastEnd(0, words)
      invariant done + Rebuilt(input, from, rest, t) == Rebuilt(input, 0, words, t)
      invariant text == done + input[from..] && offset == |done| - from && processedIndex == |done|
    {
      var w := words[i];
      OrderUnfolds(rest, input, from);
      RebuiltUnfolds(input, from, rest, t);
      Assoc4(done, input[from..w.start], Substitute(w.text, t), Rebuilt(input, w.end, rest[1..], t));
      text, offset := ProcessWord(text, offset, w, t, input, done, from);
      done, from, rest := done + input[from..w.start] + Substitute(w.text, t), w.end, rest[1..];
      processedIndex := w.end + offset;
    }
    RebuiltUnfolds(input, from, rest, t);
    Assoc(done, [], []);
    LastEndNil(from);
  }

  lemma LastEndNil(from: nat)
    ensures LastEnd(from, []) == from
  {
  }

  /** The batch form. */
  method ReplaceText(text: string, t: Table) returns (r: string)
    ensures r == Replaced(text, t) && IsReplaced(r, text, t)
  {
    ReplacedIsReplaced(text, t);
    hide IsReplaced;
    var words := SplitWords(text, Plain);
    SplitInOrder(text);
    var processed: nat;
    r, processed := ProcessWords(text, words, t);
  }

  // ---------------------------------------------------------- the streaming form

  lemma ShiftedCons(ws: seq<Word>, k: nat)
    requires ws != []
    ensures Shifted(ws, k)[1..] == Shifted(ws[1..], k)
  {
  }

  lemma {:induction false} RebuiltShifts(text: string, k: nat, from: nat, ws: seq<Word>, t: Table)
    requires k <= |text| && InOrder(ws, text[k..], from)
    ensures InOrder(Shifted(ws, k), text, k + from)
    ensures Rebuilt(text, k + from, Shifted(ws, k), t) == Rebuilt(text[k..], from, ws, t)
    ensures LastEnd(k + from, Shifted(ws, k)) == k + LastEnd(from, ws)
    decreases |ws|
  {
    hide *;
    var tail, moved := text[k..], Shifted(ws, k);
    OrderUnfolds(ws, tail, from);
    OrderUnfolds(moved, text, k + from);
    if ws != [] {
      ShiftedCons(ws, k);
      RebuiltShifts(text, k, ws[0].end, ws[1..], t);
      assert text[k + from..k + ws[0].start] == tail[from..ws[0].start];
      assert text[k + ws[0].start..k + ws[0].end] == tail[ws[0].start..ws[0].end];
      RebuiltUnfolds(tail, from, ws, t);
      RebuiltUnfolds(text, k + from, moved, t);
    } else {
      LastEndNil(from);
      LastEndNil(k + from);
      RebuiltUnfolds(tail, from, ws, t);
      RebuiltUnfolds(text, k + from, moved, t);
    }
  }

  lemma ReplacedUnfolds(text: string, t: Table)
    ensures InOrder(Split(text, Plain), text, 0) && LastEnd(0, Split(text, Plain)) <= |text|
    ensures Replaced(text, t) == Rebuilt(text, 0, Split(text, Plain), t) + text[LastEnd(0, Split(text, Plain))..]
  {
    SplitInOrder(text);
  }

  /** Replacing the first of several words commutes with cutting the text after it, whatever follows. */
  lemma ReplacedPeels(text: string, more: string, t: Table)
    requires |Split(text, Plain)| >= 2
    ensures var w := Split(text, Plain)[0];
      && w.start <= w.end <= |text|
      && Replaced(text + more, t) == text[..w.start] + Substitute(w.text, t) + Replaced(text[w.end..] + more, t)
  {
    hide *;
    SplitPeels(text, more, Plain);
    var w := Split(text, Plain)[0];
    var whole, tail := text + more, text[w.end..] + more;
    assert whole[w.end..] == tail;
    ReplacedUnfolds(whole, t);
    ReplacedUnfolds(tail, t);
    var ws := Split(tail, Plain);
    var moved := Shifted(ws, w.end);
    RebuiltShifts(whole, w.end, 0, ws, t);
    assert ([w] + moved)[1..] == moved && ([w] + moved)[0] == w;
    OrderUnfolds([w] + moved, whole, 0);
    RebuiltUnfolds(whole, 0, [w] + moved, t);
    ReplacedUnfolds(text, t);
    OrderUnfolds(Split(text, Plain), text, 0);
    assert whole[0..w.start] == text[..w.start];
    assert whole[w.end + LastEnd(0, ws)..] == tail[LastEnd(0, ws)..];
    Assoc4'(text[..w.start], Substitute(w.text, t), Rebuilt(tail, 0, ws, t), tail[LastEnd(0, ws)..]);
  }

  lemma Assoc4'(a: string, b: string, c: string, d: string)
    ensures a + b + c + d == a + b + (c + d)
  {
  }

  /** The text up to the end of the last of `ws` rebuilt, and the rest replaced later: the streaming step. */
  lemma {:induction false} ReplacedCuts(text: string, more: string, n: nat, t: Table)
    requires n < |Split(text, Plain)|
    ensures var ws := Split(text, Plain)[..n];
      && InOrder(ws, text, 0) && LastEnd(0, ws) <= |text|
      && Replaced(text + more, t) == Rebuilt(text, 0, ws, t) + Replaced(text[LastEnd(0, ws)..] + more, t)
      && |Split(text[LastEnd(0, ws)..], Plain)| == |Split(text, Plain)| - n
    decreases n
  {
    hide *;
    var ws := Split(text, Plain)[..n];
    if n == 0 {
      assert ws == [] && text[0..] == text;
      LastEndNil(0);
      OrderUnfolds([], text, 0);
      RebuiltUnfolds(text, 0, [], t);
      Assoc([], Replaced(text + more, t), []);
    } else {
      ReplacedPeels(text, more, t);
      SplitPeels(text, more, Plain);
      var w := Split(text, Plain)[0];
      var tail := text[w.end..];
      ReplacedCuts(tail, more, n - 1, t);
      var vs := Split(tail, Plain)[..n - 1];
      PeeledPrefix(text, w, n);
      RebuiltShifts(text, w.end, 0, vs, t);
      assert ([w] + Shifted(vs, w.end))[1..] == Shifted(vs, w.end) && ([w] + Shifted(vs, w.end))[0] == w;
      ReplacedUnfolds(text, t);
      OrderUnfolds(Split(text, Plain), text, 0);
      OrderUnfolds(ws, text, 0);
      RebuiltUnfolds(text, 0, ws, t);
      assert tail[LastEnd(0, vs)..] == text[w.end + LastEnd(0, vs)..];
      assert text[0..w.start] == text[..w.start];
      Assoc4'(text[..w.start], Substitute(w.text, t), Rebuilt(tail, 0, vs, t),
              Replaced(tail[LastEnd(0, vs)..] + more, t));
      Assoc(text[..w.start] + Substitute(w.text, t), Rebuilt(tail, 0, vs, t), []);
    }
  }

  lemma PeeledPrefix(text: string, w: Word, n: nat)
    requires w.end <= |text| && 0 < n < |Split(text, Plain)|
    requires Split(text, Plain) == [w] + Shifted(Split(text[w.end..], Plain), w.end)
    ensures n - 1 < |Split(text[w.end..], Plain)|
    ensures Split(text, Plain)[..n] == [w] + Shifted(Split(text[w.end..], Plain)[..n - 1], w.end)
  {
    hide Split;
  }

  /**
    One turn of the streaming form: all words but the last are final, so their
    rebuild is yielded and the buffer keeps the rest, never more than one word,
    whatever is still to come.
   */
  method ReplaceChunk(buffer0: string, chunk: string, t: Table, ghost more: string)
    returns (yielded: Option<string>, buffer: string)
    ensures yielded.None? ==> buffer == buffer0 + chunk
    ensures yielded.Some? ==> yielded.value + Replaced(buffer + more, t) == Replaced(buffer0 + chunk + more, t)
    ensures |Split(buffer, Plain)| <= 1
  {
    hide Split, Substitute, Replaced, Rebuilt, InOrder, LastEnd;
    buffer := buffer0 + chunk;
    var words := SplitWords(buffer, Plain);
    if |words| <= 1 {
      return None, buffer;
    }
    var n := |words| - 1;
    ReplacedCuts(buffer, more, n, t);
    ghost var end := LastEnd(0, words[..n]);
    ghost var whole := buffer;
    var processed: nat;
    buffer, processed := ProcessWords(buffer, words[..n], t);
    assert buffer[..processed] == Rebuilt(whole, 0, words[..n], t) && buffer[processed..] == whole[end..];
    yielded, buffer := Some(buffer[..processed]), buffer[processed..];
  }

  /** The streaming form, over the chunks as they arrive. */
  method ReplaceStream(chunks: seq<string>, t: Table) returns (out: seq<string>)
    ensures Concat(out) == Replaced(Concat(chunks), t) && IsReplaced(Concat(out), Concat(chunks), t)
  {
    ReplacedIsReplaced(Concat(chunks), t);
    hide Split, Replaced, IsReplaced;
    out := [];
    var buffer := "";
    ghost var rest := chunks;
    assert "" + Concat(chunks) == Concat(chunks);
    assert "" + Replaced(Concat(chunks), t) == Replaced(Concat(chunks), t);
    for i := 0 to |chunks|
      invariant rest == chunks[i..]
      invariant Concat(out) + Replaced(buffer + Concat(rest), t) == Replaced(Concat(chunks), t)
    {
      Assoc(buffer, chunks[i], Concat(rest[1..]));
      rest := rest[1..];
      ghost var sofar := Concat(out);
      var yielded;
      yielded, buffer := ReplaceChunk(buffer, chunks[i], t, Concat(rest));
      if yielded.Some? {
        Assoc(sofar, yielded.value, Replaced(buffer + Concat(rest), t));
        ConcatSnoc(out, yielded.value);
        out := out + [yielded.value];
      }
    }
    Assoc(buffer, [], []);
    if buffer != "" {
      var last := ReplaceText(buffer, t);
      ConcatSnoc(out, last);
      out := out + [last];
    } else {
      ReplacedNothing(t);
    }
  }

  lemma ReplacedNothing(t: Table)
    ensures Replaced("", t) == ""
  {
  }
}
