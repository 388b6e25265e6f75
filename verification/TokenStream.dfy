/**
  `BufferedTokenStream` over the word tokenizer: text is pushed in pieces, and a
  word is emitted once a later one has been seen.
 */
module TokenStream {
  import opened Sequences
  import opened Words

  datatype TokenData = TokenData(token: string, segmentId: nat)

  /** `" ".join`. */
  function Join(ts: seq<string>): string {
    if ts == [] then "" else if |ts| == 1 then ts[0] else ts[0] + " " + Join(ts[1..])
  }

  function Tokens(text: string, m: Mode): seq<string> {
    Texts(Split(text, m))
  }

  /** Whatever text follows, the tokens of `pushed` start with `emitted` and go on with those of `kept`. */
  ghost predicate Accounts(pushed: string, emitted: seq<string>, kept: string, m: Mode) {
    forall more: string :: Tokens(pushed + more, m) == emitted + Tokens(kept + more, m)
  }

  lemma AccountsStart(m: Mode)
    ensures Accounts("", [], "", m)
  {
    forall more: string
      ensures Tokens("" + more, m) == [] + Tokens("" + more, m)
    {
    }
  }

  lemma AccountsPush(pushed: string, emitted: seq<string>, kept: string, text: string, m: Mode)
    requires Accounts(pushed, emitted, kept, m)
    ensures Accounts(pushed + text, emitted, kept + text, m)
  {
    forall more: string
      ensures Tokens(pushed + text + more, m) == emitted + Tokens(kept + text + more, m)
    {
      assert pushed + text + more == pushed + (text + more) && kept + text + more == kept + (text + more);
    }
  }

  lemma AccountsEmit(pushed: string, emitted: seq<string>, kept: string, m: Mode)
    requires Accounts(pushed, emitted, kept, m) && |Split(kept, m)| >= 2
    ensures Split(kept, m)[0].end <= |kept|
    ensures Accounts(pushed, emitted + [Split(kept, m)[0].text], kept[Split(kept, m)[0].end..], m)
  {
    var w := Split(kept, m)[0];
    SplitPeels(kept, "", m);
    forall more: string
      ensures Tokens(pushed + more, m) == emitted + [w.text] + Tokens(kept[w.end..] + more, m)
    {
      SplitPeels(kept, more, m);
      assert Tokens(kept + more, m) == [w.text] + Tokens(kept[w.end..] + more, m);
      assert emitted + ([w.text] + Tokens(kept[w.end..] + more, m))
          == emitted + [w.text] + Tokens(kept[w.end..] + more, m);
    }
  }

  lemma AccountsEnd(pushed: string, emitted: seq<string>, kept: string, m: Mode)
    requires Accounts(pushed, emitted, kept, m)
    ensures Tokens(pushed, m) == emitted + Tokens(kept, m)
  {
    assert pushed + "" == pushed && kept + "" == kept;
  }

  /** Cutting the buffer after its first word makes it shorter: the push loop terminates. */
  lemma FirstWordShrinks(kept: string, m: Mode)
    requires Split(kept, m) != []
    ensures 0 < Split(kept, m)[0].end <= |kept| && Split(kept, m)[0].text != ""
  {
    SplitFindsExactlyTheWords(kept, m);
    assert IsWordOf(Split(kept, m)[0], kept, m);
  }

  lemma {:induction false} JoinAppend(a: seq<string>, b: seq<string>)
    requires a != [] && b != []
    ensures Join(a + b) == Join(a) + " " + Join(b)
    decreases |a|
  {
    if |a| == 1 {
      assert (a + b)[1..] == b;
    } else {
      assert (a + b)[1..] == a[1..] + b;
      JoinAppend(a[1..], b);
      assert a[0] + " " + (Join(a[1..]) + " " + Join(b)) == a[0] + " " + Join(a[1..]) + " " + Join(b);
    }
  }

  lemma JoinSnoc(a: seq<string>, x: string)
    ensures Join(a + [x]) == if a == [] then x else Join(a) + " " + x
  {
    if a == [] {
      assert a + [x] == [x];
    } else {
      JoinAppend(a, [x]);
    }
  }

  /** Lengthening the last piece by some words is lengthening the whole by them. */
  lemma JoinInto(a: seq<string>, x: string, more: seq<string>)
    requires more != []
    ensures Join(a + [x + " " + Join(more)]) == Join(a + [x]) + " " + Join(more)
  {
    JoinSnoc(a, x);
    JoinSnoc(a, x + " " + Join(more));
    assert Join(a) + " " + (x + " " + Join(more)) == Join(a) + " " + x + " " + Join(more);
  }

  function Pending(outBuf: string): seq<string> {
    if outBuf == "" then [] else [outBuf]
  }

  /** `outBuf`, a space if it is not empty, then the words. */
  function Appended(outBuf: string, words: seq<string>): string {
    (if outBuf == "" then "" else outBuf + " ") + Join(words)
  }

  lemma AppendedOne(outBuf: string, word: string)
    ensures outBuf != "" ==> Appended(outBuf, [word]) == outBuf + " " + word
    ensures outBuf == "" ==> Appended(outBuf, [word]) == outBuf + word == word
  {
  }

  lemma AppendedSome(outBuf: string, words: seq<string>)
    ensures outBuf != "" ==> Appended(outBuf, words) == outBuf + " " + Join(words)
    ensures outBuf == "" ==> Appended(outBuf, words) == outBuf + Join(words) == Join(words)
    ensures |words| == 1 ==> words == [Join(words)]
  {
  }

  /** What was emitted and what is pending, joined by spaces, is the words consumed. */
  ghost predicate Balanced(evs: seq<string>, outBuf: string, consumed: seq<string>) {
    && Join(evs + Pending(outBuf)) == Join(consumed)
    && (evs + Pending(outBuf) == [] <==> consumed == [])
  }

  lemma BalancedAppend(evs: seq<string>, outBuf: string, consumed: seq<string>, words: seq<string>)
    requires Balanced(evs, outBuf, consumed) && words != [] && Join(words) != ""
    ensures Appended(outBuf, words) != ""
    ensures Balanced(evs, Appended(outBuf, words), consumed + words)
    ensures Balanced(evs + [Appended(outBuf, words)], "", consumed + words)
  {
    var next := Appended(outBuf, words);
    if outBuf == "" {
      assert next == Join(words);
      assert evs + [] == evs;
      JoinSnoc(evs, next);
    } else {
      assert next == outBuf + " " + Join(words);
      JoinInto(evs, outBuf, words);
    }
    if consumed == [] {
      assert consumed + words == words;
    } else {
      JoinAppend(consumed, words);
    }
    assert evs + [next] + Pending("") == evs + Pending(next);
  }

  lemma JoinNonempty(ts: seq<string>)
    requires ts != [] && forall t :: t in ts ==> t != ""
    ensures Join(ts) != ""
  {
    assert ts[0] in ts;
  }

  lemma TokensNonempty(text: string, m: Mode)
    ensures forall t :: t in Tokens(text, m) ==> t != ""
  {
    SplitFindsExactlyTheWords(text, m);
  }

  function TokenTexts(ds: seq<TokenData>): (ts: seq<string>)
    ensures |ts| == |ds| && forall k :: 0 <= k < |ds| ==> ts[k] == ds[k].token
  {
    seq(|ds|, k requires 0 <= k < |ds| => ds[k].token)
  }

  class BufferedTokenStream {
    const mode: Mode
    const minTokenLen: nat
    const minCtxLen: nat
    var eventCh: seq<TokenData>
    var closed: bool
    var currentSegmentId: nat
    var inBuf: string
    var outBuf: string
    /** The text of the current segment, the words taken from it, and the events sent before it. */
    ghost var segmentText: string
    ghost var consumed: seq<string>
    ghost var sentBefore: seq<TokenData>

    /** The events of the current segment. */
    ghost function Sent(): seq<string>
      requires |sentBefore| <= |eventCh|
      reads this`eventCh, this`sentBefore
    {
      TokenTexts(eventCh[|sentBefore|..])
    }

    ghost predicate Valid()
      reads this
    {
      && sentBefore <= eventCh
      && SegmentsApart()
      && LongEnough()
      && Accounts(segmentText, consumed, inBuf, mode)
      && Balanced(Sent(), outBuf, consumed)
      && (minTokenLen <= 1 ==> outBuf == "" && Sent() == consumed)
    }

    /** The events of this segment bear its id, and no event sent before does. */
    ghost predicate SegmentsApart()
      reads this`sentBefore, this`eventCh, this`currentSegmentId
    {
      && (forall k :: |sentBefore| <= k < |eventCh| ==> eventCh[k].segmentId == currentSegmentId)
      && (forall d :: d in sentBefore ==> d.segmentId < currentSegmentId)
    }

    /** The tokens of the segment are as long as they have to be, and the one pending is not. */
    ghost predicate LongEnough()
      requires |sentBefore| <= |eventCh|
      reads this`sentBefore, this`eventCh, this`outBuf
    {
      && (forall t :: t in Sent() ==> |t| >= minTokenLen)
      && (outBuf != "" ==> |outBuf| < minTokenLen)
    }

    /** Between calls at most one word is held back, or less text than the minimum context. */
    ghost predicate Settled()
      reads this
    {
      |inBuf| < minCtxLen || |Split(inBuf, mode)| <= 1
    }

    constructor (mode: Mode, minTokenLen: nat, minCtxLen: nat)
      ensures Valid() && Settled() && eventCh == [] && sentBefore == [] && segmentText == "" && !closed
      ensures this.mode == mode && this.minTokenLen == minTokenLen && this.minCtxLen == minCtxLen
    {
      this.mode, this.minTokenLen, this.minCtxLen := mode, minTokenLen, minCtxLen;
      eventCh, closed, currentSegmentId, inBuf, outBuf := [], false, 0, "", "";
      segmentText, consumed, sentBefore := "", [], [];
      AccountsStart(mode);
    }

    method SendNowait(token: string)
      requires sentBefore <= eventCh
      modifies this`eventCh
      ensures eventCh == old(eventCh) + [TokenData(token, currentSegmentId)]
      ensures sentBefore <= eventCh && Sent() == old(Sent()) + [token]
    {
      eventCh := eventCh + [TokenData(token, currentSegmentId)];
      assert eventCh[|sentBefore|..] == old(eventCh[|sentBefore|..]) + [TokenData(token, currentSegmentId)];
    }

    /** One turn of the push loop: move the first word to `outBuf`, emit if long enough, cut the input buffer. */
    method TakeFirst(tok: Word)
      requires Valid() && |Split(inBuf, mode)| >= 2 && tok == Split(inBuf, mode)[0]
      modifies this`eventCh, this`inBuf, this`outBuf, this`consumed
      ensures Valid() && |inBuf| < |old(inBuf)|
      ensures old(eventCh) <= eventCh
      ensures consumed == old(consumed) + [tok.text]
    {
      hide Accounts, Balanced, Split, TokenTexts, Appended;
      FirstWordShrinks(inBuf, mode);
      AccountsEmit(segmentText, consumed, inBuf, mode);
      assert Join([tok.text]) == tok.text;
      BalancedAppend(Sent(), outBuf, consumed, [tok.text]);
      AppendedOne(outBuf, tok.text);
      hide Join;
      if outBuf != "" {
        outBuf := outBuf + " ";
      }
      outBuf := outBuf + tok.text;
      consumed := consumed + [tok.text];
      inBuf := inBuf[tok.end..];
      SendIfLongEnough();
    }

    /** The pending token goes out once it has its minimum length. */
    method SendIfLongEnough()
      requires sentBefore <= eventCh && SegmentsApart() && outBuf != ""
      requires forall t :: t in Sent() ==> |t| >= minTokenLen
      requires Balanced(Sent(), outBuf, consumed) && Balanced(Sent() + [outBuf], "", consumed)
      modifies this`eventCh, this`outBuf
      ensures old(eventCh) <= eventCh && sentBefore <= eventCh
      ensures SegmentsApart() && LongEnough() && Balanced(Sent(), outBuf, consumed)
      ensures minTokenLen <= 1 ==> outBuf == "" && Sent() == old(Sent()) + [old(outBuf)]
    {
      hide Balanced, TokenTexts;
      if |outBuf| >= minTokenLen {
        SendNowait(outBuf);
        outBuf := "";
      }
    }

    /** `push_text`: false when it raises because the stream is closed. */
    method PushText(text: string) returns (accepted: bool)
      requires Valid() && Settled()
      modifies this`eventCh, this`inBuf, this`outBuf, this`consumed, this`segmentText
      ensures Valid() && Settled() && accepted == !closed
      ensures segmentText == if accepted then old(segmentText) + text else old(segmentText)
      ensures old(eventCh) <= eventCh
      ensures |old(inBuf) + text| < minCtxLen ==> eventCh == old(eventCh)
    {
      hide Accounts, Balanced, Split, TokenTexts, LongEnough, SegmentsApart, Sent;
      if closed {
        return false;
      }
      AccountsPush(segmentText, consumed, inBuf, text, mode);
      inBuf := inBuf + text;
      segmentText := segmentText + text;
      if |inBuf| < minCtxLen {
        return true;
      }
      while true
        invariant Valid() && old(eventCh) <= eventCh && segmentText == old(segmentText) + text
        decreases |inBuf|
      {
        var tokens := SplitWords(inBuf, mode);
        if |tokens| <= 1 {
          break;
        }
        TakeFirst(tokens[0]);
      }
      return true;
    }

    /** The part of `flush` that sends what is left. */
    method SendRest()
      requires Valid() && Settled()
      modifies this`eventCh, this`outBuf
      ensures old(eventCh) <= eventCh && sentBefore <= eventCh
      ensures forall k :: |sentBefore| <= k < |eventCh| ==> eventCh[k].segmentId == currentSegmentId
      ensures Join(Sent()) == Join(Tokens(segmentText, mode))
      ensures minTokenLen <= 1 && minCtxLen <= 1 ==> Sent() == Tokens(segmentText, mode)
      ensures forall k :: 0 <= k < |Sent()| - 1 ==> |Sent()[k]| >= minTokenLen
    {
      hide Accounts, Balanced, Split, TokenTexts, Appended, Join;
      RestBalances(segmentText, consumed, inBuf, outBuf, Sent(), mode);
      AppendedSome(outBuf, Tokens(inBuf, mode));
      Assoc(consumed, [], []);
      if inBuf != "" || outBuf != "" {
        var tokens := SplitWords(inBuf, mode);
        if tokens != [] {
          if outBuf != "" {
            outBuf := outBuf + " ";
          }
          outBuf := outBuf + Join(Texts(tokens));
        }
        if outBuf != "" {
          SendNowait(outBuf);
        }
      } else {
        NoWords(mode);
      }
    }

    /** `flush`: whatever is left becomes the segment's last token, and a new segment begins. */
    method Flush() returns (accepted: bool)
      requires Valid() && Settled()
      modifies this
      ensures Valid() && Settled() && accepted == !closed && closed == old(closed)
      ensures !accepted ==> eventCh == old(eventCh)
      ensures accepted ==> segmentText == "" && sentBefore == eventCh && old(sentBefore) <= eventCh
      ensures accepted ==> forall d :: d in eventCh ==> d.segmentId != currentSegmentId
      ensures accepted ==>
        var sent := eventCh[|old(sentBefore)|..];
        && (forall d :: d in sent ==> d.segmentId == old(currentSegmentId))
        && Join(TokenTexts(sent)) == Join(Tokens(old(segmentText), mode))
        && (minTokenLen <= 1 && minCtxLen <= 1 ==> TokenTexts(sent) == Tokens(old(segmentText), mode))
        && (forall k :: 0 <= k < |sent| - 1 ==> |sent[k].token| >= minTokenLen)
    {
      hide Accounts, Balanced, LongEnough, Split, TokenTexts, Join, Tokens;
      if closed {
        return false;
      }
      ghost var sofar := sentBefore;
      SendRest();
      ghost var sent := Sent();
      SameTexts(eventCh, |sofar|);
      BeginSegment();
      return true;
    }

    /** What is left after the rest was sent: a new id, empty buffers. */
    method BeginSegment()
      requires sentBefore <= eventCh && SegmentsApart()
      modifies this`currentSegmentId, this`inBuf, this`outBuf, this`segmentText, this`consumed, this`sentBefore
      ensures Valid() && Settled() && segmentText == "" && sentBefore == eventCh
      ensures forall d :: d in eventCh ==> d.segmentId != currentSegmentId
    {
      hide Accounts, Balanced, Split, TokenTexts, Join;
      currentSegmentId := currentSegmentId + 1;
      inBuf, outBuf := "", "";
      segmentText, consumed, sentBefore := "", [], eventCh;
      AccountsStart(mode);
      NoWords(mode);
      assert eventCh[|eventCh|..] == [] && Sent() == [];
      NothingYet();
    }

    /** `end_input`: flush, then close for good. */
    method EndInput() returns (accepted: bool)
      requires Valid() && Settled()
      modifies this
      ensures Valid() && Settled() && accepted == !old(closed) && closed
      ensures !accepted ==> eventCh == old(eventCh)
      ensures accepted ==>
        && old(sentBefore) <= eventCh
        && Join(TokenTexts(eventCh[|old(sentBefore)|..])) == Join(Tokens(old(segmentText), mode))
    {
      hide Accounts, Split, TokenTexts, Join;
      accepted := Flush();
      closed := true;
    }
  }

  /** What is sent at the end of a segment completes its words. */
  lemma RestBalances(pushed: string, consumed: seq<string>, kept: string, outBuf: string, evs: seq<string>, m: Mode)
    requires Accounts(pushed, consumed, kept, m) && Balanced(evs, outBuf, consumed)
    ensures Tokens(pushed, m) == consumed + Tokens(kept, m)
    ensures var words := Tokens(kept, m);
      if words == [] then
        Join(if outBuf == "" then evs else evs + [outBuf]) == Join(Tokens(pushed, m))
      else
        Join(words) != "" && Join(evs + [Appended(outBuf, words)]) == Join(Tokens(pushed, m))
  {
    hide Accounts, Balanced, Tokens, Appended, Join;
    var words := Tokens(kept, m);
    AccountsEnd(pushed, consumed, kept, m);
    if words == [] {
      BalancedJoins(evs, outBuf, consumed);
      Assoc(consumed, [], []);
    } else {
      TokensNonempty(kept, m);
      JoinNonempty(words);
      BalancedAppend(evs, outBuf, consumed, words);
      BalancedJoins(evs + [Appended(outBuf, words)], "", consumed + words);
    }
  }

  lemma SameTexts(eventCh: seq<TokenData>, from: nat)
    requires from <= |eventCh|
    ensures forall k :: from <= k < |eventCh| ==> TokenTexts(eventCh[from..])[k - from] == eventCh[k].token
  {
  }

  lemma NothingYet()
    ensures Balanced([], "", [])
  {
    Assoc<string>([], [], []);
  }

  lemma BalancedJoins(evs: seq<string>, outBuf: string, consumed: seq<string>)
    requires Balanced(evs, outBuf, consumed)
    ensures outBuf == "" ==> Join(evs) == Join(consumed)
    ensures outBuf != "" ==> Join(evs + [outBuf]) == Join(consumed)
  {
    Assoc(evs, [], []);
  }

  lemma NoWords(m: Mode)
    ensures Split("", m) == [] && Tokens("", m) == [] && TokenTexts([]) == []
  {
  }

  /**
    A word stream fed with any chunks and flushed once, as `WordTokenizer.stream`
    sets it up: it emits exactly the words of the whole text, one token each.
   */
  method StreamWords(chunks: seq<string>, m: Mode) returns (tokens: seq<string>)
    ensures tokens == Tokens(Concat(chunks), m)
  {
    hide Accounts, Balanced, Split, Tokens;
    hide BufferedTokenStream.LongEnough, BufferedTokenStream.SegmentsApart, BufferedTokenStream.Settled;
    var stream := new BufferedTokenStream(m, 1, 1);
    ghost var rest := chunks;
    assert "" + Concat(chunks) == Concat(chunks);
    for i := 0 to |chunks|
      invariant stream.Valid() && stream.Settled() && !stream.closed && fresh(stream)
      invariant stream.mode == m && stream.minTokenLen == stream.minCtxLen == 1 && stream.sentBefore == []
      invariant rest == chunks[i..] && stream.segmentText + Concat(rest) == Concat(chunks)
    {
      Assoc(stream.segmentText, chunks[i], Concat(rest[1..]));
      rest := rest[1..];
      var accepted := stream.PushText(chunks[i]);
    }
    Assoc(stream.segmentText, [], []);
    var accepted := stream.Flush();
    assert stream.eventCh[0..] == stream.eventCh;
    tokens := TokenTexts(stream.eventCh);
  }
}
