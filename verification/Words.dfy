/**
  `split_words`: words and their positions, in every punctuation and character mode.
 */
module Words {
  import opened Sequences

  datatype Mode = Mode(ignorePunctuation: bool, splitCharacter: bool)

  /** A word, with punctuation already dropped when the mode says so, and its place in the text. */
  datatype Word = Word(text: string, start: nat, end: nat)

  /** `str.isspace` of a single character. */
  predicate IsSpace(c: char) {
    || '\t' <= c <= '\r' || '\U{1C}' <= c <= ' ' || c == '\U{85}' || c == '\U{A0}'
    || c == '\U{1680}' || '\U{2000}' <= c <= '\U{200A}' || c == '\U{2028}' || c == '\U{2029}'
    || c == '\U{202F}' || c == '\U{205F}' || c == '\U{3000}'
  }

  /** The PUNCTUATIONS list: ASCII punctuation and seven typographic marks. */
  predicate IsPunctuation(c: char) {
    || '!' <= c <= '/' || ':' <= c <= '@' || '[' <= c <= '`' || '{' <= c <= '~'
    || c == '\U{B1}' || c == '\U{2014}' || c == '\U{2018}' || c == '\U{2019}'
    || c == '\U{201C}' || c == '\U{201D}' || c == '\U{2026}'
  }

  /** The same, one by one. */
  const Punctuations := "!\"#$%&'()*+,-./:;<=>?@[\\]^_`{|}~\U{B1}\U{2014}\U{2018}\U{2019}\U{201C}\U{201D}\U{2026}"

  lemma PunctuationsListed(c: char)
    ensures IsPunctuation(c) <==> c in Punctuations
  {
    hide IsPunctuation, Punctuations;
    AllArePunctuation();
    if IsPunctuation(c) {
      PunctuationIsListed(c);
    }
  }

  lemma AllArePunctuation()
    ensures forall c :: c in Punctuations ==> IsPunctuation(c)
  {
    assert forall k :: 0 <= k < |Punctuations| ==> IsPunctuation(Punctuations[k]);
  }

  lemma PunctuationIsListed(c: char)
    requires IsPunctuation(c)
    ensures c in Punctuations
  {
    hide Punctuations;
    if c <= '@' {
      FirstAreListed(c);
    } else {
      OthersAreListed(c);
    }
  }

  lemma FirstAreListed(c: char)
    requires '!' <= c <= '/' || ':' <= c <= '@'
    ensures c in Punctuations
  {
    var p := Punctuations;
    assert |p| == 39;
    assert p[if c <= '/' then c as int - '!' as int else 15 + c as int - ':' as int] == c;
  }

  lemma OthersAreListed(c: char)
    requires IsPunctuation(c) && '@' < c
    ensures c in Punctuations
  {
    var p := Punctuations;
    assert |p| == 39;
    if c <= '~' {
      assert p[if c <= '`' then 22 + c as int - '[' as int else 28 + c as int - '{' as int] == c;
    } else {
      assert p[32] == '\U{B1}' && p[33] == '\U{2014}' && p[34] == '\U{2018}' && p[35] == '\U{2019}';
      assert p[36] == '\U{201C}' && p[37] == '\U{201D}' && p[38] == '\U{2026}';
    }
  }

  /** The scripts split character by character: CJK, kana and Thai. */
  predicate IsCharBased(c: char) {
    || '\U{4E00}' <= c <= '\U{9FFF}' || '\U{3040}' <= c <= '\U{30FF}' || '\U{3400}' <= c <= '\U{4DBF}'
    || '\U{E00}' <= c <= '\U{E7F}'
  }

  function DropPunctuation(w: string): string {
    if w == "" then ""
    else (if IsPunctuation(w[0]) then "" else [w[0]]) + DropPunctuation(w[1..])
  }

  function Cleaned(w: string, m: Mode): string {
    if m.ignorePunctuation then DropPunctuation(w) else w
  }

  /** `_add_current_word`: the word text[start..end], unless nothing is left of it. */
  function Commit(text: string, start: nat, end: nat, m: Mode): seq<Word>
    requires start <= end <= |text|
  {
    var w := Cleaned(text[start..end], m);
    if w == "" then [] else [Word(w, start, end)]
  }

  /** The words found from `pos` on, when the current word began at `start`. */
  function Scan(text: string, pos: nat, start: nat, m: Mode): seq<Word>
    requires start <= pos <= |text|
    decreases |text| - pos
  {
    if pos == |text| then Commit(text, start, pos, m)
    else if IsSpace(text[pos]) then Commit(text, start, pos, m) + Scan(text, pos + 1, pos + 1, m)
    else if m.splitCharacter && IsCharBased(text[pos]) then
      (if start < pos then Commit(text, start, pos, m) else [])
      + (Commit(text, pos, pos + 1, m) + Scan(text, pos + 1, pos + 1, m))
    else Scan(text, pos + 1, start, m)
  }

  function Split(text: string, m: Mode): seq<Word> {
    Scan(text, 0, 0, m)
  }

  function Texts(ws: seq<Word>): (ts: seq<string>)
    ensures |ts| == |ws| && forall k :: 0 <= k < |ws| ==> ts[k] == ws[k].text
  {
    seq(|ws|, k requires 0 <= k < |ws| => ws[k].text)
  }

  /** `split_words`. */
  method SplitWords(text: string, m: Mode) returns (words: seq<Word>)
    ensures words == Split(text, m)
  {
    words := [];
    var wordStart: nat := 0;
    for pos := 0 to |text|
      invariant wordStart <= pos
      invariant words + Scan(text, pos, wordStart, m) == Split(text, m)
    {
      var rest := Scan(text, pos + 1, pos + 1, m);
      if IsSpace(text[pos]) {
        Assoc(words, Commit(text, wordStart, pos, m), rest);
        words := words + Commit(text, wordStart, pos, m);
        wordStart := pos + 1;
      } else if m.splitCharacter && IsCharBased(text[pos]) {
        var before := if wordStart < pos then Commit(text, wordStart, pos, m) else [];
        Assoc(words, before, Commit(text, pos, pos + 1, m) + rest);
        Assoc(words + before, Commit(text, pos, pos + 1, m), rest);
        if wordStart < pos {
          words := words + Commit(text, wordStart, pos, m);
        }
        words := words + Commit(text, pos, pos + 1, m);
        wordStart := pos + 1;
      }
    }
    words := words + Commit(text, wordStart, |text|, m);
  }

  // ------------------------------------------------------ what a word is

  /** Characters after which, and before which, a word may not continue. */
  predicate Breaks(c: char, m: Mode) {
    IsSpace(c) || (m.splitCharacter && IsCharBased(c))
  }

  /** The places in w where no punctuation stands, in order. */
  ghost predicate ArePlaces(ps: seq<nat>, w: string) {
    && (forall i :: 0 <= i < |ps| ==> ps[i] < |w| && !IsPunctuation(w[ps[i]]))
    && (forall i, j :: 0 <= i < j < |ps| ==> ps[i] < ps[j])
    && (forall k :: 0 <= k < |w| && !IsPunctuation(w[k]) ==> k in ps)
  }

  ghost predicate SpelledAt(r: string, w: string, ps: seq<nat>) {
    |r| == |ps| && forall i :: 0 <= i < |ps| ==> ps[i] < |w| && r[i] == w[ps[i]]
  }

  /** r is w without its punctuation: exactly the characters at the other places, in order. */
  ghost predicate WithoutPunctuation(r: string, w: string) {
    exists ps :: ArePlaces(ps, w) && SpelledAt(r, w, ps)
  }

  /** A word: nonempty, no whitespace, one script character at most, and not extensible either way. */
  ghost predicate IsWordOf(w: Word, text: string, m: Mode) {
    && w.start < w.end <= |text|
    && w.text != ""
    && (if m.ignorePunctuation then WithoutPunctuation(w.text, text[w.start..w.end])
        else w.text == text[w.start..w.end])
    && (forall p :: w.start <= p < w.end ==> !IsSpace(text[p]))
    && (w.end - w.start > 1 ==> forall p :: w.start <= p < w.end ==> !Breaks(text[p], m))
    && (w.start > 0 && !Breaks(text[w.start], m) ==> Breaks(text[w.start - 1], m))
    && (w.end < |text| && !Breaks(text[w.end - 1], m) ==> Breaks(text[w.end], m))
  }

  /** A character some word has to contain. */
  predicate Counts(c: char, m: Mode) {
    !IsSpace(c) && !(m.ignorePunctuation && IsPunctuation(c))
  }

  ghost predicate Covers(ws: seq<Word>, p: int) {
    exists k :: 0 <= k < |ws| && ws[k].start <= p < ws[k].end
  }

  /** ws are the words of text[from..], in order. */
  ghost predicate AreWords(ws: seq<Word>, text: string, from: nat, m: Mode) {
    && (forall k :: 0 <= k < |ws| ==> from <= ws[k].start && IsWordOf(ws[k], text, m))
    && (forall k, l :: 0 <= k < l < |ws| ==> ws[k].end <= ws[l].start)
    && (forall p :: from <= p < |text| && Counts(text[p], m) ==> Covers(ws, p))
  }

  lemma {:induction false} DroppedAway(w: string)
    ensures DropPunctuation(w) == "" <==> forall k :: 0 <= k < |w| ==> IsPunctuation(w[k])
  {
    if w != "" { DroppedAway(w[1..]); }
  }

  lemma {:induction false} DropSnoc(w: string, c: char)
    ensures DropPunctuation(w + [c]) == DropPunctuation(w) + if IsPunctuation(c) then [] else [c]
    decreases |w|
  {
    hide IsPunctuation;
    if w == "" {
      assert [c][1..] == "" && w + [c] == [c];
    } else {
      assert (w + [c])[0] == w[0] && (w + [c])[1..] == w[1..] + [c];
      DropSnoc(w[1..], c);
    }
  }

  /** Dropping punctuation keeps exactly the other characters, in order. */
  lemma {:induction false} DroppedPlaces(w: string) returns (ps: seq<nat>)
    ensures ArePlaces(ps, w) && SpelledAt(DropPunctuation(w), w, ps)
    decreases |w|
  {
    hide IsPunctuation, DropPunctuation;
    if w == "" {
      ps := [];
      NothingDropped();
    } else {
      var n := |w| - 1;
      assert w == w[..n] + [w[n]];
      var front := DroppedPlaces(w[..n]);
      DropSnoc(w[..n], w[n]);
      ps := front + if IsPunctuation(w[n]) then [] else [n];
      assert forall k :: 0 <= k < n ==> w[..n][k] == w[k];
      assert forall k :: k in front ==> k in ps;
    }
  }

  lemma NothingDropped()
    ensures DropPunctuation("") == ""
  {
  }

  lemma CleanedSpells(w: string, m: Mode)
    ensures if m.ignorePunctuation then WithoutPunctuation(Cleaned(w, m), w) else Cleaned(w, m) == w
  {
    var ps := DroppedPlaces(w);
  }

  lemma CommitFacts(text: string, start: nat, end: nat, m: Mode)
    requires start <= end <= |text|
    ensures |Commit(text, start, end, m)| <= 1
    ensures start == end ==> Commit(text, start, end, m) == []
    ensures var c := Commit(text, start, end, m); c != [] ==> c[0].start == start && c[0].end == end
  {
  }

  /** The word a breaking character is by itself: itself for a script character, nothing for whitespace. */
  function Own(text: string, pos: nat, m: Mode): seq<Word>
    requires pos < |text|
  {
    if IsSpace(text[pos]) then [] else Commit(text, pos, pos + 1, m)
  }

  lemma OwnFacts(text: string, pos: nat, m: Mode)
    requires pos < |text|
    ensures |Own(text, pos, m)| <= 1
    ensures var c := Own(text, pos, m); c != [] ==> c[0].start == pos && c[0].end == pos + 1
  {
    CommitFacts(text, pos, pos + 1, m);
  }

  /** One turn of the character loop. */
  lemma ScanUnfolds(text: string, pos: nat, start: nat, m: Mode)
    requires start <= pos < |text|
    ensures !Breaks(text[pos], m) ==> Scan(text, pos, start, m) == Scan(text, pos + 1, start, m)
    ensures Breaks(text[pos], m) ==>
      Scan(text, pos, start, m) == Commit(text, start, pos, m) + (Own(text, pos, m) + Scan(text, pos + 1, pos + 1, m))
  {
    CommitFacts(text, start, pos, m);
    Assoc([], Scan(text, pos + 1, pos + 1, m), []);
  }

  lemma CommitIsWord(text: string, start: nat, end: nat, m: Mode)
    requires start <= end <= |text|
    requires end - start > 1 ==> forall p :: start <= p < end ==> !Breaks(text[p], m)
    requires forall p :: start <= p < end ==> !IsSpace(text[p])
    requires 0 < start < |text| && !Breaks(text[start], m) ==> Breaks(text[start - 1], m)
    requires 0 < end < |text| && !Breaks(text[end - 1], m) ==> Breaks(text[end], m)
    ensures forall w :: w in Commit(text, start, end, m) ==> IsWordOf(w, text, m)
    ensures forall p :: start <= p < end && Counts(text[p], m) ==> Covers(Commit(text, start, end, m), p)
  {
    hide IsPunctuation, IsSpace, Breaks, WithoutPunctuation, DropPunctuation;
    DroppedAway(text[start..end]);
    CleanedSpells(text[start..end], m);
    var ws := Commit(text, start, end, m);
    forall p | start <= p < end && Counts(text[p], m)
      ensures Covers(ws, p)
    {
      assert text[start..end][p - start] == text[p];
      assert ws[0].start <= p < ws[0].end;
    }
  }

  lemma OwnIsWord(text: string, pos: nat, m: Mode)
    requires pos < |text| && Breaks(text[pos], m)
    ensures |Own(text, pos, m)| <= 1
    ensures forall w :: w in Own(text, pos, m) ==> pos <= w.start && w.end <= pos + 1 && IsWordOf(w, text, m)
    ensures Counts(text[pos], m) ==> Covers(Own(text, pos, m), pos)
  {
    OwnFacts(text, pos, m);
    if !IsSpace(text[pos]) {
      CommitIsWord(text, pos, pos + 1, m);
    }
  }

  lemma WordsJoin(a: seq<Word>, b: seq<Word>, text: string, from: nat, mid: nat, m: Mode)
    requires from <= mid <= |text| && AreWords(b, text, mid, m)
    requires forall w :: w in a ==> from <= w.start && w.end <= mid && IsWordOf(w, text, m)
    requires |a| <= 1
    requires forall p :: from <= p < mid && Counts(text[p], m) ==> Covers(a, p)
    ensures AreWords(a + b, text, from, m)
  {
    hide IsWordOf, Counts;
    forall p | from <= p < |text| && Counts(text[p], m)
      ensures Covers(a + b, p)
    {
      if p < mid {
        assert Covers(a, p);
        var k :| 0 <= k < |a| && a[k].start <= p < a[k].end;
        assert (a + b)[k].start <= p < (a + b)[k].end;
      } else {
        assert Covers(b, p);
        var k :| 0 <= k < |b| && b[k].start <= p < b[k].end;
        assert (a + b)[|a| + k].start <= p < (a + b)[|a| + k].end;
      }
    }
  }

  /** What is committed when the current word ends at `pos`. */
  lemma CommitAtBreak(text: string, pos: nat, start: nat, m: Mode)
    requires start <= pos <= |text| && (pos < |text| ==> Breaks(text[pos], m))
    requires forall p :: start <= p < pos ==> !Breaks(text[p], m)
    requires start == 0 || Breaks(text[start - 1], m)
    ensures |Commit(text, start, pos, m)| <= 1
    ensures forall w :: w in Commit(text, start, pos, m) ==> start <= w.start && w.end <= pos && IsWordOf(w, text, m)
    ensures forall p :: start <= p < pos && Counts(text[p], m) ==> Covers(Commit(text, start, pos, m), p)
  {
    hide IsCharBased, IsPunctuation;
    CommitFacts(text, start, pos, m);
    CommitIsWord(text, start, pos, m);
  }

  lemma ScanAtEnd(text: string, start: nat, m: Mode)
    requires start <= |text|
    requires var c := Commit(text, start, |text|, m);
      && |c| <= 1
      && (forall w :: w in c ==> start <= w.start && IsWordOf(w, text, m))
      && (forall p :: start <= p < |text| && Counts(text[p], m) ==> Covers(c, p))
    ensures AreWords(Scan(text, |text|, start, m), text, start, m)
  {
    hide Commit, IsWordOf, Counts, Covers;
  }

  lemma {:induction false} ScanFindsWords(text: string, pos: nat, start: nat, m: Mode)
    requires start <= pos <= |text|
    requires forall p :: start <= p < pos ==> !Breaks(text[p], m)
    requires start == 0 || Breaks(text[start - 1], m)
    ensures AreWords(Scan(text, pos, start, m), text, start, m)
    decreases |text| - pos
  {
    hide *;
    if pos == |text| {
      CommitAtBreak(text, pos, start, m);
      ScanAtEnd(text, start, m);
    } else {
      ScanUnfolds(text, pos, start, m);
      if !Breaks(text[pos], m) {
        ScanFindsWords(text, pos + 1, start, m);
      } else {
        var rest := Scan(text, pos + 1, pos + 1, m);
        ScanFindsWords(text, pos + 1, pos + 1, m);
        OwnIsWord(text, pos, m);
        WordsJoin(Own(text, pos, m), rest, text, pos, pos + 1, m);
        CommitAtBreak(text, pos, start, m);
        WordsJoin(Commit(text, start, pos, m), Own(text, pos, m) + rest, text, start, pos, m);
      }
    }
  }

  /** `split_words` finds exactly the words of the text: maximal, in order, every counting character in one. */
  lemma SplitFindsExactlyTheWords(text: string, m: Mode)
    ensures AreWords(Split(text, m), text, 0, m)
  {
    ScanFindsWords(text, 0, 0, m);
  }

  // ------------------------------------------- cutting the text into chunks

  function Shifted(ws: seq<Word>, k: nat): (r: seq<Word>)
    ensures |r| == |ws| && forall i :: 0 <= i < |ws| ==> r[i] == Word(ws[i].text, ws[i].start + k, ws[i].end + k)
  {
    seq(|ws|, i requires 0 <= i < |ws| => Word(ws[i].text, ws[i].start + k, ws[i].end + k))
  }

  lemma ShiftedAppend(a: seq<Word>, b: seq<Word>, k: nat)
    ensures Shifted(a + b, k) == Shifted(a, k) + Shifted(b, k)
  {
  }

  lemma CommitShifts(text: string, k: nat, start: nat, end: nat, m: Mode)
    requires start <= end && k + end <= |text|
    ensures Commit(text, k + start, k + end, m) == Shifted(Commit(text[k..], start, end, m), k)
  {
    assert text[k + start..k + end] == text[k..][start..end];
  }

  lemma OwnShifts(text: string, k: nat, pos: nat, m: Mode)
    requires k + pos < |text|
    ensures Own(text, k + pos, m) == Shifted(Own(text[k..], pos, m), k)
  {
    CommitShifts(text, k, pos, pos + 1, m);
  }

  lemma {:induction false} ScanShifts(text: string, k: nat, pos: nat, start: nat, m: Mode)
    requires start <= pos && k + pos <= |text|
    ensures Scan(text, k + pos, k + start, m) == Shifted(Scan(text[k..], pos, start, m), k)
    decreases |text| - pos
  {
    CommitShifts(text, k, start, pos, m);
    if k + pos < |text| {
      hide Scan, Commit, Own, Breaks, Shifted;
      var tail := text[k..];
      ScanUnfolds(text, k + pos, k + start, m);
      ScanUnfolds(tail, pos, start, m);
      if Breaks(tail[pos], m) {
        OwnShifts(text, k, pos, m);
        ScanShifts(text, k, pos + 1, pos + 1, m);
        ShiftedAppend(Own(tail, pos, m), Scan(tail, pos + 1, pos + 1, m), k);
        ShiftedAppend(Commit(tail, start, pos, m), Own(tail, pos, m) + Scan(tail, pos + 1, pos + 1, m), k);
      } else {
        ScanShifts(text, k, pos + 1, start, m);
      }
    }
  }

  ghost predicate Resumes(text: string, r: seq<Word>, start: nat, m: Mode) {
    && r != []
    && start <= r[0].start <= r[0].end <= |text|
    && r == [r[0]] + Scan(text, r[0].end, r[0].end, m)
  }

  /** After the first word, scanning can start afresh at its end. */
  lemma {:induction false} ScanResumes(text: string, pos: nat, start: nat, m: Mode)
    requires start <= pos <= |text| && Scan(text, pos, start, m) != []
    ensures Resumes(text, Scan(text, pos, start, m), start, m)
    decreases |text| - pos
  {
    if pos == |text| {
      CommitFacts(text, start, pos, m);
      CommitFacts(text, pos, pos, m);
    } else {
      hide Scan, Commit, Own, Breaks;
      ScanUnfolds(text, pos, start, m);
      if !Breaks(text[pos], m) {
        ScanResumes(text, pos + 1, start, m);
      } else {
        if Commit(text, start, pos, m) == [] && Own(text, pos, m) == [] {
          Assoc([], Scan(text, pos + 1, pos + 1, m), []);
          ScanResumes(text, pos + 1, pos + 1, m);
        } else {
          ResumesAtBreak(text, pos, start, m);
        }
      }
    }
  }

  lemma ResumesAtBreak(text: string, pos: nat, start: nat, m: Mode)
    requires start <= pos < |text| && Breaks(text[pos], m)
    requires Commit(text, start, pos, m) != [] || Own(text, pos, m) != []
    ensures Resumes(text, Scan(text, pos, start, m), start, m)
  {
    hide Scan, Commit, Own, Breaks;
    ScanUnfolds(text, pos, start, m);
    var c, own, rest := Commit(text, start, pos, m), Own(text, pos, m), Scan(text, pos + 1, pos + 1, m);
    Assoc(c, own + rest, []);
    if c != [] {
      CommitFacts(text, start, pos, m);
      ScanUnfolds(text, pos, pos, m);
      CommitFacts(text, pos, pos, m);
      Assoc([], own + rest, []);
      assert c == [c[0]];
    } else {
      OwnFacts(text, pos, m);
      assert own == [own[0]];
    }
  }

  lemma CommitAgrees(text: string, more: string, start: nat, end: nat, m: Mode)
    requires start <= end <= |text|
    ensures Commit(text + more, start, end, m) == Commit(text, start, end, m)
  {
    assert (text + more)[start..end] == text[start..end];
  }

  /** Once a second word has been seen, the first one no longer depends on what follows. */
  lemma {:induction false} FirstWordIsStable(text: string, more: string, pos: nat, start: nat, m: Mode)
    requires start <= pos <= |text| && |Scan(text, pos, start, m)| >= 2
    ensures Scan(text + more, pos, start, m) != []
    ensures Scan(text + more, pos, start, m)[0] == Scan(text, pos, start, m)[0]
    decreases |text| - pos
  {
    hide *;
    ScanEnds(text, start, m);
    CommitFacts(text, start, pos, m);
    assert (text + more)[pos] == text[pos];
    CommitAgrees(text, more, start, pos, m);
    OwnAgrees(text, more, pos, m);
    OwnFacts(text, pos, m);
    ScanUnfolds(text, pos, start, m);
    ScanUnfolds(text + more, pos, start, m);
    var c, own := Commit(text, start, pos, m), Own(text, pos, m);
    var rest, rest' := Scan(text, pos + 1, pos + 1, m), Scan(text + more, pos + 1, pos + 1, m);
    if !Breaks(text[pos], m) {
      FirstWordIsStable(text, more, pos + 1, start, m);
    } else if c != [] {
      assert (c + (own + rest))[0] == c[0] == (c + (own + rest'))[0];
    } else if own != [] {
      assert (c + (own + rest))[0] == own[0] == (c + (own + rest'))[0];
    } else {
      Assoc([], rest, []);
      Assoc([], rest', []);
      FirstWordIsStable(text, more, pos + 1, pos + 1, m);
    }
  }

  lemma ScanEnds(text: string, start: nat, m: Mode)
    requires start <= |text|
    ensures |Scan(text, |text|, start, m)| <= 1
  {
  }

  lemma OwnAgrees(text: string, more: string, pos: nat, m: Mode)
    requires pos < |text|
    ensures Own(text + more, pos, m) == Own(text, pos, m)
  {
    CommitAgrees(text, more, pos, pos + 1, m);
  }

  /** The step both streaming forms take: emit the first of several words and go on with the rest. */
  lemma SplitPeels(text: string, more: string, m: Mode)
    requires |Split(text, m)| >= 2
    ensures var w := Split(text, m)[0];
      && w.end <= |text|
      && Split(text + more, m) == [w] + Shifted(Split(text[w.end..] + more, m), w.end)
      && Split(text, m) == [w] + Shifted(Split(text[w.end..], m), w.end)
  {
    var w := Split(text, m)[0];
    FirstWordIsStable(text, more, 0, 0, m);
    ScanResumes(text, 0, 0, m);
    ScanResumes(text + more, 0, 0, m);
    ScanShifts(text, w.end, 0, 0, m);
    ScanShifts(text + more, w.end, 0, 0, m);
    assert (text + more)[w.end..] == text[w.end..] + more;
  }
}
