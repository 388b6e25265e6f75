/**
  The input side of the streaming TTS fallback: every attempt gets the text
  pushed so far replayed into a new channel, and then the live text.
 */
module TtsReplay {
  import opened Wrappers

  /** What arrives from the caller: text, possibly empty, or a flush mark. */
  datatype Data = Text(text: string) | Flush

  /** A channel: what was sent into it, and whether it was closed. */
  datatype Chan = Chan(sent: seq<Data>, closed: bool)

  /** What a datum adds to the recorded text. */
  function Recorded(d: Data): seq<string> {
    match d
    case Text(t) => if t != "" then [t] else []
    case Flush => []
  }

  /** The nonempty texts among the data, in order. */
  function Texts(ds: seq<Data>): seq<string> {
    if ds == [] then [] else Texts(ds[..|ds| - 1]) + Recorded(ds[|ds| - 1])
  }

  lemma TextsSnoc(ds: seq<Data>, d: Data)
    ensures Texts(ds + [d]) == Texts(ds) + Recorded(d)
  {
    assert (ds + [d])[..|ds|] == ds;
  }

  lemma {:induction false} TextsNonempty(ds: seq<Data>)
    ensures forall t :: t in Texts(ds) ==> t != ""
    decreases |ds|
  {
    if ds != [] {
      TextsNonempty(ds[..|ds| - 1]);
    }
  }

  /** The recorded text as it is sent again: one datum each, no flush marks. */
  function Replayed(ts: seq<string>): (ds: seq<Data>)
    ensures |ds| == |ts| && forall k :: 0 <= k < |ts| ==> ds[k] == Text(ts[k])
  {
    seq(|ts|, k requires 0 <= k < |ts| => Text(ts[k]))
  }

  lemma ReplayedStep(ts: seq<string>, k: nat)
    requires k < |ts|
    ensures Replayed(ts[..k + 1]) == Replayed(ts[..k]) + [Text(ts[k])]
  {
  }

  lemma {:induction false} ReplayedTexts(ts: seq<string>)
    requires forall t :: t in ts ==> t != ""
    ensures Texts(Replayed(ts)) == ts
    decreases |ts|
  {
    if ts != [] {
      hide Texts, Replayed;
      var n := |ts| - 1;
      var last := ts[n];
      assert last in ts && ts[..n + 1] == ts && ts[..n] + [last] == ts;
      assert forall t :: t in ts[..n] ==> t in ts;
      ReplayedTexts(ts[..n]);
      ReplayedStep(ts, n);
      TextsSnoc(Replayed(ts[..n]), Text(last));
    }
  }

  /** Nothing that replaying leaves out: no flush mark and no empty text. */
  predicate OnlyTexts(ds: seq<Data>) {
    forall k :: 0 <= k < |ds| ==> ds[k].Text? && ds[k].text != ""
  }

  lemma OnlyTextsSnoc(ds: seq<Data>, d: Data)
    ensures OnlyTexts(ds + [d]) <==> OnlyTexts(ds) && |Recorded(d)| == 1
  {
    assert forall k :: 0 <= k < |ds| ==> (ds + [d])[k] == ds[k];
    assert (ds + [d])[|ds|] == d;
  }

  /** Replaying gives back the data themselves exactly if they are only texts; otherwise there are fewer. */
  lemma {:induction false} ReplayedIsAllIff(ds: seq<Data>)
    ensures |Texts(ds)| <= |ds|
    ensures |Texts(ds)| == |ds| <==> OnlyTexts(ds)
    ensures Replayed(Texts(ds)) == ds <==> OnlyTexts(ds)
    decreases |ds|
  {
    hide Texts, OnlyTexts, Replayed;
    if ds == [] {
      NothingReplayed();
    } else {
      var front, last := ds[..|ds| - 1], ds[|ds| - 1];
      assert ds == front + [last];
      ReplayedIsAllIff(front);
      OnlyTextsSnoc(front, last);
      TextsSnoc(front, last);
      if OnlyTexts(ds) {
        ReplayedSnoc(Texts(front), last);
      }
    }
  }

  lemma NothingReplayed()
    ensures Texts([]) == [] && OnlyTexts([]) && Replayed([]) == []
  {
  }

  lemma ReplayedSnoc(ts: seq<string>, d: Data)
    requires |Recorded(d)| == 1
    ensures Replayed(ts + Recorded(d)) == Replayed(ts) + [d]
  {
  }

  /** What an attempt's channel holds that began after `before` of the data received. */
  function Offered(received: seq<Data>, before: nat): seq<Data>
    requires before <= |received|
  {
    Replayed(Texts(received[..before])) + received[before..]
  }

  /** It is what was received exactly if no flush mark and no empty text came before the attempt. */
  lemma OfferedIsAllIff(received: seq<Data>, before: nat)
    requires before <= |received|
    ensures Offered(received, before) == received <==> OnlyTexts(received[..before])
  {
    var front := received[..before];
    ReplayedIsAllIff(front);
    hide Replayed, Texts, OnlyTexts;
    assert front + received[before..] == received;
    if |Texts(front)| == |front| && Offered(received, before) == received {
      assert Offered(received, before)[..before] == Replayed(Texts(front));
    }
  }

  /** At the beginning of an attempt. */
  lemma AllReplayed(received: seq<Data>)
    ensures Offered(received, |received|) == Replayed(Texts(received))
    ensures Texts(Replayed(Texts(received))) == Texts(received)
    ensures Offered(received, |received|) == received <==> OnlyTexts(received)
  {
    OfferedIsAllIff(received, |received|);
    TextsNonempty(received);
    ReplayedTexts(Texts(received));
    hide Texts, Replayed, OnlyTexts;
    assert received[..|received|] == received && received[|received|..] == [];
  }

  lemma OfferedSnoc(received: seq<Data>, before: nat, d: Data)
    requires before <= |received|
    ensures Offered(received + [d], before) == Offered(received, before) + [d]
  {
    hide Texts, Replayed;
    assert (received + [d])[..before] == received[..before];
    assert (received + [d])[before..] == received[before..] + [d];
  }

  /**
    `FallbackSynthesizeStream._run` with its forwarding task. `received` records
    everything taken from the caller's channel, `before` how much of it came before
    the current attempt began, `raised` whether a send would have raised.
   */
  class FallbackSynthesizeStream {
    var pushedTokens: seq<string>
    var newInputCh: Option<Chan>
    var inputDone: bool
    ghost var received: seq<Data>
    ghost var before: nat
    ghost var raised: bool

    /**
      The recorded tokens are the text received; the current attempt's channel holds
      that text up to the attempt and the data themselves since, so it has been
      offered exactly the text, and it is closed exactly when the input is over.
     */
    ghost predicate Valid()
      reads this
    {
      && pushedTokens == Texts(received) && before <= |received|
      && (newInputCh.Some? ==> newInputCh.value.sent == Offered(received, before))
      && (newInputCh.Some? ==> Texts(newInputCh.value.sent) == pushedTokens && newInputCh.value.closed == inputDone)
      && !raised
    }

    constructor ()
      ensures Valid() && received == [] && before == 0 && newInputCh.None? && !inputDone
    {
      pushedTokens, newInputCh, inputDone := [], None, false;
      received, before, raised := [], 0, false;
    }

    /** `send_nowait` on the current channel; raises on a closed one. */
    method SendNowait(d: Data)
      requires newInputCh.Some?
      modifies this`newInputCh, this`raised
      ensures raised == (old(raised) || old(newInputCh).value.closed)
      ensures newInputCh == if old(newInputCh).value.closed then old(newInputCh)
        else Some(Chan(old(newInputCh).value.sent + [d], false))
    {
      if newInputCh.value.closed {
        raised := true;
      } else {
        newInputCh := Some(newInputCh.value.(sent := newInputCh.value.sent + [d]));
      }
    }

    /** The forwarding task receives one datum: pass it on to the current attempt, remember it if it is text. */
    method Forward(data: Data)
      requires Valid() && !inputDone
      modifies this
      ensures Valid() && received == old(received) + [data] && before == old(before) && inputDone == old(inputDone)
      ensures newInputCh.Some? <==> old(newInputCh).Some?
    {
      hide Offered, Texts;
      TextsSnoc(received, data);
      OfferedSnoc(received, before, data);
      if newInputCh.Some? {
        TextsSnoc(newInputCh.value.sent, data);
        SendNowait(data);
      }
      if data.Text? && data.text != "" {
        pushedTokens := pushedTokens + [data.text];
      }
      received := received + [data];
    }

    /** The caller's channel is closed: the forwarding task closes the current attempt's and is done. */
    method InputEnds()
      requires Valid() && !inputDone
      modifies this
      ensures Valid() && inputDone && received == old(received) && before == old(before)
      ensures newInputCh.Some? <==> old(newInputCh).Some?
    {
      if newInputCh.Some? {
        newInputCh := Some(newInputCh.value.(closed := true));
      }
      inputDone := true;
    }

    /** A new attempt: a fresh channel, the recorded text replayed into it, closed at once if the input is over. */
    method BeginAttempt()
      requires Valid()
      modifies this
      ensures Valid() && newInputCh.Some? && inputDone == old(inputDone) && received == old(received)
      ensures before == |received|
      ensures newInputCh.value.sent == received <==> OnlyTexts(received)
      ensures newInputCh.value.sent == Replayed(old(pushedTokens)) && pushedTokens == old(pushedTokens)
    {
      hide Texts, Replayed, Offered, OnlyTexts;
      AllReplayed(received);
      newInputCh, before := Some(Chan([], false)), |received|;
      var tokens := pushedTokens;
      assert tokens[..0] == [];
      NothingReplayed();
      for k := 0 to |tokens|
        invariant newInputCh == Some(Chan(Replayed(tokens[..k]), false)) && !raised
        invariant pushedTokens == tokens && received == old(received) && inputDone == old(inputDone)
        invariant before == |received|
      {
        ReplayedStep(tokens, k);
        SendNowait(Text(tokens[k]));
      }
      assert tokens[..|tokens|] == tokens;
      if inputDone {
        newInputCh := Some(newInputCh.value.(closed := true));
      }
    }
  }

  /** What can happen to a run between its awaits. */
  datatype Event = Arrives(data: Data) | InputOver | AttemptBegins

  /** The text of the data that arrive before the input is over. */
  ghost function TextOf(events: seq<Event>): seq<string> {
    Texts(Arrivals(events))
  }

  ghost function Arrivals(events: seq<Event>): seq<Data> {
    if events == [] then []
    else
      var rest := Arrivals(events[..|events| - 1]);
      if events[|events| - 1].Arrives? && InputOver !in events[..|events| - 1] then rest + [events[|events| - 1].data]
      else rest
  }

  /** How many data had arrived when the last attempt began. */
  ghost function ArrivedBefore(events: seq<Event>): (n: nat)
    ensures n <= |Arrivals(events)|
  {
    if events == [] then 0
    else
      var front := events[..|events| - 1];
      if events[|events| - 1].AttemptBegins? then |Arrivals(front)| else ArrivedBefore(front)
  }

  lemma NothingArrived()
    ensures Arrivals([]) == [] && ArrivedBefore([]) == 0
  {
  }

  /** What one more event adds. */
  lemma EventsStep(events: seq<Event>, i: nat)
    requires i < |events|
    ensures events[..i + 1] == events[..i] + [events[i]]
    ensures Arrivals(events[..i + 1]) == Arrivals(events[..i]) +
      if events[i].Arrives? && InputOver !in events[..i] then [events[i].data] else []
    ensures ArrivedBefore(events[..i + 1]) ==
      if events[i].AttemptBegins? then |Arrivals(events[..i])| else ArrivedBefore(events[..i])
  {
    assert events[..i + 1][..i] == events[..i];
  }

  /**
    Any interleaving of arriving input and failing attempts: the attempt that is
    current at the end has been offered the whole text, in order, however many
    failed before it, and its channel is closed if and only if the input is over.
    It has been offered the very data that arrived if and only if no flush mark
    and no empty text had arrived when it began.
   */
  method RunAttempts(events: seq<Event>) returns (offered: Option<Chan>)
    ensures AttemptBegins in events ==> offered.Some?
    ensures offered.Some? ==> Texts(offered.value.sent) == TextOf(events)
    ensures offered.Some? ==> offered.value.closed == (InputOver in events)
    ensures offered.Some? ==>
      var arrived, n := Arrivals(events), ArrivedBefore(events);
      && offered.value.sent == Offered(arrived, n)
      && (offered.value.sent == arrived <==> OnlyTexts(arrived[..n]))
  {
    hide Offered, Texts, OnlyTexts, Replayed, Arrivals, ArrivedBefore;
    NothingArrived();
    var stream := new FallbackSynthesizeStream();
    for i := 0 to |events|
      invariant fresh(stream) && stream.Valid() && stream.received == Arrivals(events[..i])
      invariant stream.inputDone == (InputOver in events[..i])
      invariant stream.newInputCh.Some? ==> stream.before == ArrivedBefore(events[..i])
      invariant AttemptBegins in events[..i] ==> stream.newInputCh.Some?
    {
      EventsStep(events, i);
      match events[i] {
        case Arrives(data) =>
          if !stream.inputDone {
            stream.Forward(data);
          }
        case InputOver =>
          if !stream.inputDone {
            stream.InputEnds();
          }
        case AttemptBegins =>
          stream.BeginAttempt();
      }
    }
    assert events[..|events|] == events;
    offered := stream.newInputCh;
    OfferedIsAllIff(Arrivals(events), ArrivedBefore(events));
  }
}
