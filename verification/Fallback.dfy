/**
  The LLM and TTS fallback adapters: many streams trying the instances in order,
  background recoveries, and the availability they share. One `Op` is what
  happens between two awaits.
 */
module Fallback {
  import opened Wrappers
  import opened Sequences
  import Emission = AudioEmission
  import Segments = AudioSegments

  /** `_LLMStatus` / `_TTSStatus`: the flag and the last recovery task started. */
  datatype Status = Status(available: bool, recoveringTask: Option<nat>)

  /** Chunked and streaming TTS share one adapter; an LLM adapter has only LLM streams. */
  datatype Kind = Llm | TtsChunked | TtsStreaming

  /** Before instance i, inside its attempt, or how the stream ended. */
  datatype Pc = Before(i: nat) | Trying(i: nat) | Returned | RaisedAllFailed | Reraised | Cancelled

  /**
    One running stream: the `all_failed` snapshot, the instances attempted, the
    instance behind each chunk passed on, and whether the stream has gone on after
    an attempt that failed with chunks passed on. A TTS stream has an audio emitter:
    `pieces` is what was pushed into it, `taken` how many of its events its main task has handled.
   */
  datatype Stream = Stream(kind: Kind, pc: Pc, allFailed: bool, attempts: seq<nat>, output: seq<nat>, wentOn: bool,
                           pieces: seq<Bytes>, taken: nat)

  /**
    `audio` is how emitters are set up, `recoveries` the tasks not done yet, with
    their instance, `events` what was emitted per instance.
   */
  datatype State = State(audio: Emission.Config, status: seq<Status>, recoveries: map<nat, nat>, nextTask: nat,
                         events: seq<seq<bool>>, streams: map<nat, Stream>)

  function InitialFor(n: nat, audio: Emission.Config): State {
    State(audio, seq(n, _ => Status(true, None)), map[], 0, seq(n, _ => []), map[])
  }

  predicate AllUnavailable(s: State) {
    forall i :: 0 <= i < |s.status| ==> !s.status[i].available
  }

  /** Set the flag and emit the change. */
  function Changed(s: State, i: nat, available: bool): (s': State)
    requires i < |s.status| && |s.events| == |s.status|
    ensures s'.streams == s.streams && |s'.status| == |s.status|
  {
    s.(status := s.status[i := s.status[i].(available := available)],
       events := s.events[i := s.events[i] + [available]])
  }

  /** `_try_recovery`: start a task unless one is pending. */
  function TryRecovery(s: State, i: nat): (s': State)
    requires i < |s.status|
    ensures s'.streams == s.streams && |s'.status| == |s.status|
  {
    var last := s.status[i].recoveringTask;
    if last.None? || last.value !in s.recoveries then
      s.(status := s.status[i := s.status[i].(recoveringTask := Some(s.nextTask))],
         recoveries := s.recoveries[s.nextTask := i], nextTask := s.nextTask + 1)
    else s
  }

  /** The streaming TTS has nothing to retry with before any text was pushed. */
  function MaybeRecover(s: State, i: nat, kind: Kind, hasText: bool): (s': State)
    requires i < |s.status|
    ensures s'.streams == s.streams && |s'.status| == |s.status|
  {
    if kind.TtsStreaming? && !hasText then s else TryRecovery(s, i)
  }

  function Moved(s: State, id: nat, pc: Pc): State
    requires id in s.streams
  {
    s.(streams := s.streams[id := s.streams[id].(pc := pc)])
  }

  datatype Op =
    | Start(id: nat, kind: Kind)
    | Visit(id: nat, hasText: bool)
    | Chunk(id: nat, data: Bytes)
    | Handles(id: nat)
    | Succeed(id: nat)
    | Fail(id: nat, hasText: bool)
    | Cancel(id: nat)
    | Recovered(task: nat)
    | RecoveryEnds(task: nat)

  predicate TryingAt(s: State, id: nat) {
    id in s.streams && s.streams[id].pc.Trying? && s.streams[id].pc.i < |s.status|
  }

  predicate BeforeAt(s: State, id: nat) {
    id in s.streams && s.streams[id].pc.Before? && s.streams[id].pc.i <= |s.status|
  }

  /** What was sent into a stream's emitter: its one segment, and the audio. */
  function EmitterEvents(st: Stream): seq<Emission.Event> {
    [Emission.StartSegment("")] + Segments.EventsOf(Segments.Pushes(st.pieces))
  }

  /** The state of a stream's emitter after the events its main task has handled. */
  ghost function EmitterState(audio: Emission.Config, st: Stream): Emission.State {
    Emission.Run(audio.(streaming := st.kind.TtsStreaming?),
        if st.taken <= |st.pieces| + 1 then EmitterEvents(st)[..st.taken] else EmitterEvents(st))
  }

  /**
    What the guard after a failure asks: for the LLM whether a chunk was sent, for
    TTS whether the emitter reports a duration.
   */
  ghost predicate Audible(audio: Emission.Config, st: Stream) {
    if st.kind.Llm? then st.output != [] else Segments.PushedDuration(EmitterState(audio, st)) > 0.0
  }

  predicate Enabled(s: State, op: Op) {
    match op
    case Start(id, _) => id !in s.streams
    case Visit(id, _) => BeforeAt(s, id)
    case Chunk(id, _) => TryingAt(s, id)
    case Handles(id) => id in s.streams && !s.streams[id].kind.Llm? && s.streams[id].taken <= |s.streams[id].pieces|
    case Succeed(id) => TryingAt(s, id)
    case Fail(id, _) => TryingAt(s, id)
    case Cancel(id) => TryingAt(s, id)
    case Recovered(t) => t in s.recoveries && s.recoveries[t] < |s.status|
    case RecoveryEnds(t) => t in s.recoveries
  }

  /** A chunk passed on by instance i: an LLM chunk, or audio, of which only nonempty pieces are heard. */
  function Passed(st: Stream, i: nat, data: Bytes): Stream {
    if st.kind.Llm? then st.(output := st.output + [i])
    else st.(output := if data == [] then st.output else st.output + [i], pieces := st.pieces + [data])
  }

  /** The `except` branch of an attempt: flag, event, guard, recovery, on to the next instance. */
  function Failed(s: State, id: nat, audible: bool, hasText: bool): State
    requires TryingAt(s, id) && |s.events| == |s.status|
  {
    var st := s.streams[id];
    var i := st.pc.i;
    var s1 := if s.status[i].available then Changed(s, i, false) else s;
    if audible then Moved(s1, id, if st.kind.Llm? then Reraised else Returned)
    else
      var s2 := MaybeRecover(s1, i, st.kind, hasText);
      s2.(streams := s2.streams[id := st.(pc := Before(i + 1), wentOn := st.wentOn || st.output != [])])
  }

  function Visited(s: State, id: nat, hasText: bool): State
    requires BeforeAt(s, id)
  {
    var st := s.streams[id];
    var i := st.pc.i;
    if i == |s.status| then Moved(s, id, RaisedAllFailed)
    else if s.status[i].available || st.allFailed then
      s.(streams := s.streams[id := st.(pc := Trying(i), attempts := st.attempts + [i])])
    else Moved(MaybeRecover(s, i, st.kind, hasText), id, Before(i + 1))
  }

  ghost function Do(s: State, op: Op): State
    requires Enabled(s, op) && |s.events| == |s.status|
  {
    match op
    case Start(id, kind) =>
      s.(streams := s.streams[id := Stream(kind, Before(0), AllUnavailable(s), [], [], false, [], 0)])
    case Visit(id, hasText) => Visited(s, id, hasText)
    case Chunk(id, data) => s.(streams := s.streams[id := Passed(s.streams[id], s.streams[id].pc.i, data)])
    case Handles(id) => s.(streams := s.streams[id := s.streams[id].(taken := s.streams[id].taken + 1)])
    case Succeed(id) => Moved(s, id, Returned)
    case Fail(id, hasText) => Failed(s, id, Audible(s.audio, s.streams[id]), hasText)
    case Cancel(id) => Moved(s, id, Cancelled)
    case Recovered(t) => Changed(s, s.recoveries[t], true).(recoveries := s.recoveries - {t})
    case RecoveryEnds(t) => s.(recoveries := s.recoveries - {t})
  }

  // ------------------------------------------------------------ invariants

  /** Alternating, beginning with "unavailable". */
  predicate Alternates(events: seq<bool>) {
    forall k :: 0 <= k < |events| ==> events[k] == (k % 2 == 1)
  }

  /** A pending recovery is the one in its instance's slot and in no other, and that instance is unavailable. */
  ghost predicate RecoveryInv(s: State) {
    && (forall t :: t in s.recoveries ==>
          && t < s.nextTask && s.recoveries[t] < |s.status|
          && s.status[s.recoveries[t]] == Status(false, Some(t)))
    && (forall i :: 0 <= i < |s.status| && s.status[i].recoveringTask.Some? ==>
          var t := s.status[i].recoveringTask.value;
          t < s.nextTask && (t in s.recoveries ==> s.recoveries[t] == i))
  }

  ghost predicate EventInv(s: State) {
    && |s.events| == |s.status|
    && forall i :: 0 <= i < |s.status| ==>
         Alternates(s.events[i]) && s.status[i].available == (|s.events[i]| % 2 == 0)
  }

  /** The attempts are in order and below n; a full retry skips nobody below n. */
  ghost predicate AttemptsBelow(st: Stream, n: nat) {
    && (forall k, l :: 0 <= k < l < |st.attempts| ==> st.attempts[k] < st.attempts[l])
    && (forall a :: a in st.attempts ==> a < n)
    && (st.allFailed ==> forall a :: 0 <= a < n ==> a in st.attempts)
  }

  ghost predicate AttemptsInv(st: Stream, n: nat) {
    match st.pc
    case Before(i) => i <= n && AttemptsBelow(st, i)
    case Trying(i) => i < n && AttemptsBelow(st, i + 1)
    case RaisedAllFailed => AttemptsBelow(st, n)
    case _ => true
  }

  /**
    Until a stream has gone on after a failed attempt with output, all its output
    is of one instance; after that, it begins with that of an instance left behind.
   */
  ghost predicate OutputInv(st: Stream) {
    && (st.kind.Llm? ==> !st.wentOn)
    && (!st.wentOn ==>
          && OneInstance(st.output)
          && (st.pc.Before? || st.pc.RaisedAllFailed? ==> st.output == [])
          && (st.pc.Trying? ==> forall k :: 0 <= k < |st.output| ==> st.output[k] == st.pc.i))
    && (st.wentOn ==> st.output != [] && (st.pc.Before? || st.pc.Trying? ==> st.output[0] < st.pc.i))
    && st.taken <= |st.pieces| + 1
  }

  ghost predicate OneInstance(output: seq<nat>) {
    forall k, l :: 0 <= k < l < |output| ==> output[k] == output[l]
  }

  ghost predicate StreamsInv(s: State) {
    forall id :: id in s.streams ==> AttemptsInv(s.streams[id], |s.status|) && OutputInv(s.streams[id])
  }

  ghost predicate Inv(s: State) {
    RecoveryInv(s) && EventInv(s) && StreamsInv(s)
  }

  lemma ChangedKeepsEvents(s: State, i: nat)
    requires EventInv(s) && i < |s.status|
    ensures EventInv(Changed(s, i, !s.status[i].available))
  {
  }

  lemma TryRecoveryKeeps(s: State, i: nat)
    requires RecoveryInv(s) && EventInv(s) && i < |s.status| && !s.status[i].available
    ensures RecoveryInv(TryRecovery(s, i)) && EventInv(TryRecovery(s, i))
    ensures TryRecovery(s, i).streams == s.streams && |TryRecovery(s, i).status| == |s.status|
  {
  }

  /** One stream changed, the rest of the streams as before. */
  lemma StreamSet(s: State, s1: State, id: nat, st: Stream)
    requires StreamsInv(s) && |s1.status| == |s.status| && s1.streams == s.streams[id := st]
    requires AttemptsInv(st, |s.status|) && OutputInv(st)
    ensures StreamsInv(s1)
  {
  }

  lemma FailKeepsShared(s: State, i: nat)
    requires RecoveryInv(s) && EventInv(s) && i < |s.status|
    ensures var s1 := if s.status[i].available then Changed(s, i, false) else s;
      RecoveryInv(s1) && EventInv(s1) && !s1.status[i].available && |s1.status| == |s.status| && s1.streams == s.streams
  {
    ChangedKeepsEvents(s, i);
  }

  lemma MaybeRecoverKeeps(s: State, i: nat, kind: Kind, hasText: bool)
    requires RecoveryInv(s) && EventInv(s) && i < |s.status| && !s.status[i].available
    ensures var r := MaybeRecover(s, i, kind, hasText);
      RecoveryInv(r) && EventInv(r) && r.streams == s.streams && |r.status| == |s.status|
  {
    TryRecoveryKeeps(s, i);
    hide RecoveryInv, EventInv, TryRecovery;
  }

  lemma FailKeepsStream(st: Stream, n: nat, audible: bool)
    requires AttemptsInv(st, n) && OutputInv(st) && st.pc.Trying? && n > 0
    requires st.kind.Llm? ==> (audible <==> st.output != [])
    ensures audible ==>
      var t := st.(pc := if st.kind.Llm? then Reraised else Returned);
      AttemptsInv(t, n) && OutputInv(t)
    ensures !audible ==>
      var t := st.(pc := Before(st.pc.i + 1), wentOn := st.wentOn || st.output != []);
      AttemptsInv(t, n) && OutputInv(t)
  {
  }

  lemma FailKeeps(s: State, id: nat, audible: bool, hasText: bool)
    requires Inv(s) && TryingAt(s, id) && (s.streams[id].kind.Llm? ==> (audible <==> s.streams[id].output != []))
    ensures Inv(Failed(s, id, audible, hasText))
  {
    var st, r := s.streams[id], Failed(s, id, audible, hasText);
    var i := st.pc.i;
    FailKeepsShared(s, i);
    FailKeepsStream(st, |s.status|, audible);
    var s1 := if s.status[i].available then Changed(s, i, false) else s;
    MaybeRecoverKeeps(s1, i, st.kind, hasText);
    hide RecoveryInv, EventInv, AttemptsInv, OutputInv, MaybeRecover, Changed;
    StreamSet(s, r, id, r.streams[id]);
    hide StreamsInv;
    SharedOnly(r, if audible then s1 else MaybeRecover(s1, i, st.kind, hasText));
  }

  /** The shared invariants do not look at the streams. */
  lemma SharedOnly(s1: State, s: State)
    requires RecoveryInv(s) && EventInv(s) && s1 == s.(streams := s1.streams)
    ensures RecoveryInv(s1) && EventInv(s1)
  {
  }

  lemma VisitKeepsStream(st: Stream, n: nat, available: bool)
    requires AttemptsInv(st, n) && OutputInv(st) && st.pc.Before?
    ensures st.pc.i == n ==> AttemptsInv(st.(pc := RaisedAllFailed), n) && OutputInv(st.(pc := RaisedAllFailed))
    ensures st.pc.i < n ==>
      var t := st.(pc := Trying(st.pc.i), attempts := st.attempts + [st.pc.i]);
      AttemptsInv(t, n) && OutputInv(t)
    ensures st.pc.i < n && !st.allFailed ==>
      var t := st.(pc := Before(st.pc.i + 1));
      AttemptsInv(t, n) && OutputInv(t)
  {
    assert forall k :: 0 <= k < |st.attempts| ==> st.attempts[k] in st.attempts;
  }

  lemma VisitKeeps(s: State, id: nat, hasText: bool)
    requires Inv(s) && Enabled(s, Visit(id, hasText))
    ensures Inv(Visited(s, id, hasText))
  {
    var st, r := s.streams[id], Visited(s, id, hasText);
    var i := st.pc.i;
    VisitKeepsStream(st, |s.status|, true);
    if i < |s.status| && !s.status[i].available {
      TryRecoveryKeeps(s, i);
    }
    hide RecoveryInv, EventInv, AttemptsInv, OutputInv;
    StreamSet(s, r, id, r.streams[id]);
    hide StreamsInv, TryRecovery;
    var recovers := i < |s.status| && !s.status[i].available && !st.allFailed;
    SharedOnly(r, if recovers then MaybeRecover(s, i, st.kind, hasText) else s);
  }

  lemma StreamStepKeeps(s: State, op: Op)
    requires Inv(s) && Enabled(s, op) && (op.Start? || op.Chunk? || op.Handles? || op.Succeed? || op.Cancel?)
    ensures Inv(Do(s, op))
  {
    hide Audible, MaybeRecover, TryRecovery, Changed, AllUnavailable;
    var r := Do(s, op);
    SharedOnly(r, s);
    hide RecoveryInv, EventInv;
    StreamSet(s, r, op.id, r.streams[op.id]);
  }

  lemma RecoveryStepKeeps(s: State, op: Op)
    requires Inv(s) && Enabled(s, op) && (op.Recovered? || op.RecoveryEnds?)
    ensures Inv(Do(s, op))
  {
    hide StreamsInv, Alternates;
    var r := Do(s, op);
    assert StreamsInv(r) by {
      StreamsSame(s, r);
    }
    if op.Recovered? {
      ChangedKeepsEvents(s, s.recoveries[op.task]);
    }
  }

  lemma StreamsSame(s: State, r: State)
    requires StreamsInv(s) && r.streams == s.streams && |r.status| == |s.status|
    ensures StreamsInv(r)
  {
  }

  lemma FailStepKeeps(s: State, id: nat, hasText: bool)
    requires Inv(s) && Enabled(s, Fail(id, hasText))
    ensures Inv(Do(s, Fail(id, hasText)))
  {
    hide Inv;
    FailKeeps(s, id, Audible(s.audio, s.streams[id]), hasText);
  }

  lemma StepKeeps(s: State, op: Op)
    requires Inv(s) && Enabled(s, op)
    ensures Inv(Do(s, op))
  {
    hide RecoveryInv, StreamsInv, Enabled;
    match op
    case Visit(id, hasText) => VisitKeeps(s, id, hasText);
    case Fail(id, hasText) => FailStepKeeps(s, id, hasText);
    case Recovered(_) => RecoveryStepKeeps(s, op);
    case RecoveryEnds(_) => RecoveryStepKeeps(s, op);
    case _ => StreamStepKeeps(s, op);
  }

  // ------------------------------------------------------------------ runs

  ghost predicate Next(s: State, s1: State) {
    |s.events| == |s.status| && exists op :: Enabled(s, op) && s1 == Do(s, op)
  }

  /** Any interleaving of any number of streams and recoveries over n instances. */
  ghost predicate IsRun(tr: seq<State>, n: nat, audio: Emission.Config) {
    tr != [] && tr[0] == InitialFor(n, audio) && forall i :: 0 <= i < |tr| - 1 ==> Next(tr[i], tr[i + 1])
  }

  lemma {:induction false} RunKeepsInv(tr: seq<State>, n: nat, audio: Emission.Config, i: nat)
    requires IsRun(tr, n, audio) && i < |tr|
    ensures Inv(tr[i])
  {
    if i > 0 {
      RunKeepsInv(tr, n, audio, i - 1);
      assert Next(tr[i - 1], tr[i - 1 + 1]);
      var op :| Enabled(tr[i - 1], op) && tr[i] == Do(tr[i - 1], op);
      hide Inv;
      StepKeeps(tr[i - 1], op);
    }
  }

  /** At most one pending recovery per instance, and then the instance is unavailable. */
  lemma OneRecoveryPerInstance(tr: seq<State>, n: nat, audio: Emission.Config, i: nat, t: nat, u: nat)
    requires IsRun(tr, n, audio) && i < |tr| && t in tr[i].recoveries && u in tr[i].recoveries
    requires tr[i].recoveries[t] == tr[i].recoveries[u]
    ensures t == u
    ensures tr[i].recoveries[t] < |tr[i].status| && !tr[i].status[tr[i].recoveries[t]].available
  {
    RunKeepsInv(tr, n, audio, i);
  }

  /** Availability events alternate, beginning with "unavailable", and the flag is the last of them. */
  lemma EventsAlternate(tr: seq<State>, n: nat, audio: Emission.Config, i: nat, k: nat)
    requires IsRun(tr, n, audio) && i < |tr| && k < |tr[i].status|
    ensures k < |tr[i].events| && Alternates(tr[i].events[k])
    ensures tr[i].status[k].available ==
      (tr[i].events[k] == [] || tr[i].events[k][|tr[i].events[k]| - 1])
  {
    RunKeepsInv(tr, n, audio, i);
  }

  /** A stream that gives up after finding every instance unavailable has tried each of them. */
  lemma FullRetryTriesAll(tr: seq<State>, n: nat, audio: Emission.Config, i: nat, id: nat)
    requires IsRun(tr, n, audio) && i < |tr| && id in tr[i].streams
    requires tr[i].streams[id].pc.RaisedAllFailed? && tr[i].streams[id].allFailed
    ensures forall a :: 0 <= a < |tr[i].status| ==> a in tr[i].streams[id].attempts
  {
    RunKeepsInv(tr, n, audio, i);
  }

  /** LLM output is never a mixture: all chunks of a stream come from one instance, and "all failed" means none. */
  lemma LlmOutputIsOneInstance(tr: seq<State>, n: nat, audio: Emission.Config, i: nat, id: nat)
    requires IsRun(tr, n, audio) && i < |tr| && id in tr[i].streams && tr[i].streams[id].kind.Llm?
    ensures OneInstance(tr[i].streams[id].output)
    ensures tr[i].streams[id].pc.RaisedAllFailed? ==> tr[i].streams[id].output == []
  {
    RunKeepsInv(tr, n, audio, i);
  }

  // ------------------------------------------------- when TTS audio is a mixture

  /** A guard sees audio exactly once the emitter's main task has handled two full frames of it. */
  lemma AudibleIff(audio: Emission.Config, st: Stream)
    requires Emission.IsConfig(audio) && !st.kind.Llm? && st.taken <= |st.pieces| + 1
    ensures Audible(audio, st) <==>
      st.taken > 0 && |Concat(st.pieces[..st.taken - 1])| >= 2 * Emission.FrameBytes(audio)
  {
    var c := audio.(streaming := st.kind.TtsStreaming?);
    Segments.EmptyRun(c);
    if st.taken > 0 {
      var handled := st.pieces[..st.taken - 1];
      Segments.AudibleFromTwoFrames(c, [], "", handled);
      assert [] + [Emission.StartSegment("")] == [Emission.StartSegment("")];
      assert EmitterEvents(st)[..st.taken] == [Emission.StartSegment("")] + Segments.EventsOf(Segments.Pushes(handled));
    }
  }

  /**
    A TTS stream goes on after a failed attempt although that attempt, or one
    before it, has passed audio on, exactly if less than two frames of the audio were handled.
   */
  lemma GoesOnIffInaudible(tr: seq<State>, n: nat, audio: Emission.Config, i: nat, id: nat, hasText: bool)
    requires IsRun(tr, n, audio) && i < |tr| && Emission.IsConfig(audio) && |tr[i].events| == |tr[i].status|
    requires Enabled(tr[i], Fail(id, hasText)) && !tr[i].streams[id].kind.Llm?
    ensures var st, after := tr[i].streams[id], Do(tr[i], Fail(id, hasText)).streams[id];
      && st.taken <= |st.pieces| + 1
      && (after.pc.Before? <==> st.taken == 0 || |Concat(st.pieces[..st.taken - 1])| < 2 * Emission.FrameBytes(audio))
      && (after.pc.Before? && st.output != [] <==> after.pc.Before? && after.wentOn)
  {
    RunKeepsInv(tr, n, audio, i);
    SameAudio(tr, n, audio, i);
    var st := tr[i].streams[id];
    assert OutputInv(st) by { assert StreamsInv(tr[i]); }
    AudibleIff(audio, st);
    hide Audible, Concat;
  }

  lemma LastStep(tr: seq<State>, n: nat, audio: Emission.Config, i: nat) returns (op: Op)
    requires IsRun(tr, n, audio) && 0 < i < |tr|
    ensures Inv(tr[i - 1]) && |tr[i - 1].events| == |tr[i - 1].status|
    ensures Enabled(tr[i - 1], op) && tr[i] == Do(tr[i - 1], op)
  {
    RunKeepsInv(tr, n, audio, i - 1);
    assert Next(tr[i - 1], tr[i - 1 + 1]);
    op :| Enabled(tr[i - 1], op) && tr[i] == Do(tr[i - 1], op);
    hide Do, Enabled;
  }

  lemma {:induction false} SameAudio(tr: seq<State>, n: nat, audio: Emission.Config, i: nat)
    requires IsRun(tr, n, audio) && i < |tr|
    ensures tr[i].audio == audio
  {
    if i > 0 {
      SameAudio(tr, n, audio, i - 1);
      assert Next(tr[i - 1], tr[i - 1 + 1]);
      hide Audible;
    }
  }

  /** The next audio it passes on makes the output a mixture exactly if the stream has so gone on. */
  lemma ChunkMixesIffWentOn(tr: seq<State>, n: nat, audio: Emission.Config, i: nat, id: nat, data: Bytes)
    requires IsRun(tr, n, audio) && i < |tr| && |tr[i].events| == |tr[i].status|
    requires Enabled(tr[i], Chunk(id, data)) && (data != [] || tr[i].streams[id].kind.Llm?)
    ensures !OneInstance(Do(tr[i], Chunk(id, data)).streams[id].output) <==> tr[i].streams[id].wentOn
  {
    RunKeepsInv(tr, n, audio, i);
    var st := tr[i].streams[id];
    assert OutputInv(st) by { assert StreamsInv(tr[i]); }
    var after := Do(tr[i], Chunk(id, data)).streams[id].output;
    assert after == st.output + [st.pc.i];
    if st.wentOn {
      assert after[0] != after[|after| - 1];
    }
  }

  /** An inaudible failure, up to the next instance: its flag is as before. */
  lemma GoesOnToNext(s: State, id: nat, hasText: bool)
    requires TryingAt(s, id) && |s.events| == |s.status| && s.streams[id].pc.i + 1 < |s.status|
    ensures var st, s1 := s.streams[id], Failed(s, id, false, hasText);
      && |s1.events| == |s1.status| == |s.status| && id in s1.streams
      && s1.streams[id] == st.(pc := Before(st.pc.i + 1), wentOn := st.wentOn || st.output != [])
      && s1.status[st.pc.i + 1].available == s.status[st.pc.i + 1].available
  {
  }

  /** An available instance is tried, and what it passes on is its output. */
  lemma TriesAndPassesOn(s: State, id: nat, hasText: bool, data: Bytes)
    requires BeforeAt(s, id) && |s.events| == |s.status| && !s.streams[id].kind.Llm? && data != []
    requires s.streams[id].pc.i < |s.status| && s.status[s.streams[id].pc.i].available
    ensures var s1 := Do(s, Visit(id, hasText));
      && |s1.events| == |s1.status| && Enabled(s1, Chunk(id, data))
      && Do(s1, Chunk(id, data)).streams[id].output == s.streams[id].output + [s.streams[id].pc.i]
  {
    hide Audible, MaybeRecover, Changed;
  }

  /** What an instance tried has passed on is a mixture with output of the next. */
  lemma MixedAfterNext(tr: seq<State>, n: nat, audio: Emission.Config, i: nat, id: nat)
    requires IsRun(tr, n, audio) && i < |tr| && TryingAt(tr[i], id) && tr[i].streams[id].output != []
    ensures !OneInstance(tr[i].streams[id].output + [tr[i].streams[id].pc.i + 1])
  {
    RunKeepsInv(tr, n, audio, i);
    var st := tr[i].streams[id];
    assert OutputInv(st) by { assert StreamsInv(tr[i]); }
    var after := st.output + [st.pc.i + 1];
    assert after[0] == st.output[0] && after[|after| - 1] == st.pc.i + 1;
  }

  /**
    At any failure that goes on past audio: if the next instance is available
    and passes on some more, the output is a mixture.
   */
  lemma InaudibleFailureMixes(tr: seq<State>, n: nat, audio: Emission.Config, i: nat, id: nat, hasText: bool,
                              data: Bytes)
    requires IsRun(tr, n, audio) && i < |tr| && |tr[i].events| == |tr[i].status| && data != []
    requires Enabled(tr[i], Fail(id, hasText)) && !tr[i].streams[id].kind.Llm?
    requires !Audible(tr[i].audio, tr[i].streams[id]) && tr[i].streams[id].output != []
    requires var next := tr[i].streams[id].pc.i + 1; next < |tr[i].status| && tr[i].status[next].available
    ensures var s1 := Do(tr[i], Fail(id, hasText));
      && |s1.events| == |s1.status| && Enabled(s1, Visit(id, hasText))
      && var s2 := Do(s1, Visit(id, hasText));
      && |s2.events| == |s2.status| && Enabled(s2, Chunk(id, data))
      && !OneInstance(Do(s2, Chunk(id, data)).streams[id].output)
  {
    var s := tr[i];
    assert Do(s, Fail(id, hasText)) == Failed(s, id, false, hasText);
    hide IsRun, Do, Audible, Inv, OneInstance, Failed;
    MixedAfterNext(tr, n, audio, i, id);
    GoesOnToNext(s, id, hasText);
    TriesAndPassesOn(Failed(s, id, false, hasText), id, hasText, data);
  }

  /** A stream that has gone on stays marked, and its output only grows. */
  ghost predicate Follows(a: Stream, b: Stream) {
    a.output <= b.output && (a.wentOn ==> b.wentOn)
  }

  lemma StreamFollows(s: State, op: Op, id: nat)
    requires Enabled(s, op) && |s.events| == |s.status| && id in s.streams
    ensures id in Do(s, op).streams && Follows(s.streams[id], Do(s, op).streams[id])
  {
    hide Audible, MaybeRecover, TryRecovery, Changed, AllUnavailable;
  }

  /** At some state up to i the stream had gone on, and it has passed on more since. */
  ghost predicate PassedOnSince(tr: seq<State>, i: nat, id: nat, k: nat) {
    && k <= i < |tr| && id in tr[k].streams && id in tr[i].streams
    && tr[k].streams[id].wentOn && |tr[k].streams[id].output| < |tr[i].streams[id].output|
  }

  ghost predicate PassedOnSinceSome(tr: seq<State>, i: nat, id: nat) {
    exists k: nat :: PassedOnSince(tr, i, id, k)
  }

  /**
    In every run a stream's output is a mixture exactly if it went on after
    inaudible audio and then passed on more.
   */
  lemma {:induction false} MixtureIff(tr: seq<State>, n: nat, audio: Emission.Config, i: nat, id: nat)
    requires IsRun(tr, n, audio) && i < |tr| && id in tr[i].streams
    ensures !OneInstance(tr[i].streams[id].output) <==> PassedOnSinceSome(tr, i, id)
  {
    hide *;
    if i == 0 {
      NoStreamsAtFirst(tr, n, audio);
    } else {
      var op := LastStep(tr, n, audio, i);
      if id in tr[i - 1].streams {
        MixtureIff(tr, n, audio, i - 1, id);
        StreamFollows(tr[i - 1], op, id);
        MixtureStep(tr, n, audio, i, id, op);
      } else {
        NewStream(tr[i - 1], op, id);
        NoneBefore(tr, n, audio, i - 1, id);
        NothingPassedOn(tr, i, id);
      }
    }
  }

  lemma NoStreamsAtFirst(tr: seq<State>, n: nat, audio: Emission.Config)
    requires IsRun(tr, n, audio)
    ensures tr[0].streams == map[]
  {
  }

  lemma NothingPassedOn(tr: seq<State>, i: nat, id: nat)
    requires 0 < i < |tr| && id in tr[i].streams && tr[i].streams[id].output == []
    ensures !PassedOnSinceSome(tr, i, id)
  {
  }

  lemma NewStream(s: State, op: Op, id: nat)
    requires Enabled(s, op) && |s.events| == |s.status| && id !in s.streams && id in Do(s, op).streams
    ensures Do(s, op).streams[id].output == [] && OneInstance(Do(s, op).streams[id].output)
  {
    hide Audible;
  }

  lemma {:induction false} NoneBefore(tr: seq<State>, n: nat, audio: Emission.Config, i: nat, id: nat)
    requires IsRun(tr, n, audio) && i < |tr| && id !in tr[i].streams
    ensures forall k :: 0 <= k <= i ==> id !in tr[k].streams
  {
    hide *;
    if i > 0 {
      var op := LastStep(tr, n, audio, i);
      if id in tr[i - 1].streams {
        StreamFollows(tr[i - 1], op, id);
      }
      NoneBefore(tr, n, audio, i - 1, id);
    }
  }

  lemma MixtureStep(tr: seq<State>, n: nat, audio: Emission.Config, i: nat, id: nat, op: Op)
    requires IsRun(tr, n, audio) && 0 < i < |tr| && id in tr[i - 1].streams && id in tr[i].streams
    requires |tr[i - 1].events| == |tr[i - 1].status|
    requires Enabled(tr[i - 1], op) && tr[i] == Do(tr[i - 1], op) && Follows(tr[i - 1].streams[id], tr[i].streams[id])
    requires !OneInstance(tr[i - 1].streams[id].output) <==> PassedOnSinceSome(tr, i - 1, id)
    ensures !OneInstance(tr[i].streams[id].output) <==> PassedOnSinceSome(tr, i, id)
  {
    hide Do, Enabled, IsRun, OneInstance;
    var before, after := tr[i - 1].streams[id], tr[i].streams[id];
    if |after.output| == |before.output| {
      SameSince(tr, i, id);
      hide PassedOnSinceSome;
    } else {
      GrowingIsChunk(tr[i - 1], op, id);
      ChunkMixesIffWentOn(tr, n, audio, i - 1, id, op.data);
      if before.wentOn {
        assert PassedOnSince(tr, i, id, i - 1);
      } else {
        NeverWentOn(tr, n, audio, i - 1, id);
      }
    }
  }

  lemma SameSince(tr: seq<State>, i: nat, id: nat)
    requires 0 < i < |tr| && id in tr[i - 1].streams && id in tr[i].streams
    requires |tr[i].streams[id].output| == |tr[i - 1].streams[id].output|
    requires tr[i - 1].streams[id].output <= tr[i].streams[id].output
    ensures tr[i].streams[id].output == tr[i - 1].streams[id].output
    ensures PassedOnSinceSome(tr, i, id) <==> PassedOnSinceSome(tr, i - 1, id)
  {
    if PassedOnSinceSome(tr, i, id) {
      var k: nat :| PassedOnSince(tr, i, id, k);
      assert PassedOnSince(tr, i - 1, id, k);
    }
    if PassedOnSinceSome(tr, i - 1, id) {
      var k: nat :| PassedOnSince(tr, i - 1, id, k);
      assert PassedOnSince(tr, i, id, k);
    }
  }

  lemma GrowingIsChunk(s: State, op: Op, id: nat)
    requires Enabled(s, op) && |s.events| == |s.status| && id in s.streams
    requires |Do(s, op).streams[id].output| > |s.streams[id].output|
    ensures op.Chunk? && op.id == id && (op.data != [] || s.streams[id].kind.Llm?)
  {
    hide Audible, MaybeRecover, TryRecovery, Changed, AllUnavailable;
  }

  lemma {:induction false} NeverWentOn(tr: seq<State>, n: nat, audio: Emission.Config, i: nat, id: nat)
    requires IsRun(tr, n, audio) && i < |tr| && id in tr[i].streams && !tr[i].streams[id].wentOn
    ensures forall k :: 0 <= k <= i && id in tr[k].streams ==> !tr[k].streams[id].wentOn
  {
    hide Do, Enabled, IsRun, Inv;
    if i > 0 {
      var op := LastStep(tr, n, audio, i);
      if id in tr[i - 1].streams {
        StreamFollows(tr[i - 1], op, id);
        NeverWentOn(tr, n, audio, i - 1, id);
      } else {
        NoneBefore(tr, n, audio, i - 1, id);
      }
    }
  }

  lemma Extend(tr: seq<State>, n: nat, audio: Emission.Config, op: Op)
    requires IsRun(tr, n, audio) && |tr[|tr| - 1].events| == |tr[|tr| - 1].status| && Enabled(tr[|tr| - 1], op)
    ensures IsRun(tr + [Do(tr[|tr| - 1], op)], n, audio)
  {
    hide Do, Enabled;
    assert Next(tr[|tr| - 1], Do(tr[|tr| - 1], op));
  }

  function Streaming(pc: Pc, attempts: seq<nat>, output: seq<nat>, wentOn: bool, pieces: seq<Bytes>, taken: nat):
    map<nat, Stream> {
    map[0 := Stream(TtsStreaming, pc, false, attempts, output, wentOn, pieces, taken)]
  }

  /** One stream of an adapter of two, both available. */
  function OneStream(audio: Emission.Config, pc: Pc, attempts: seq<nat>, output: seq<nat>, pieces: seq<Bytes>,
                     taken: nat): State {
    InitialFor(2, audio).(streams := Streaming(pc, attempts, output, false, pieces, taken))
  }

  lemma FirstSteps(audio: Emission.Config, data: Bytes)
    requires data != []
    ensures Enabled(InitialFor(2, audio), Start(0, TtsStreaming))
    ensures Do(InitialFor(2, audio), Start(0, TtsStreaming)) == OneStream(audio, Before(0), [], [], [], 0)
    ensures Enabled(OneStream(audio, Before(0), [], [], [], 0), Visit(0, true))
    ensures Do(OneStream(audio, Before(0), [], [], [], 0), Visit(0, true))
      == OneStream(audio, Trying(0), [0], [], [], 0)
    ensures Enabled(OneStream(audio, Trying(0), [0], [], [], 0), Chunk(0, data))
    ensures Do(OneStream(audio, Trying(0), [0], [], [], 0), Chunk(0, data))
      == OneStream(audio, Trying(0), [0], [0], [data], 0)
  {
    assert InitialFor(2, audio).status[0].available;
    assert [] + [0] == [0] && [] + [data] == [data];
  }

  lemma EmitterSteps(audio: Emission.Config, data: Bytes)
    ensures Enabled(OneStream(audio, Trying(0), [0], [0], [data], 0), Handles(0))
    ensures Do(OneStream(audio, Trying(0), [0], [0], [data], 0), Handles(0))
      == OneStream(audio, Trying(0), [0], [0], [data], 1)
    ensures Enabled(OneStream(audio, Trying(0), [0], [0], [data], 1), Handles(0))
    ensures Do(OneStream(audio, Trying(0), [0], [0], [data], 1), Handles(0))
      == OneStream(audio, Trying(0), [0], [0], [data], 2)
  {
  }

  /** The run in which a stream tries one instance and passes on some audio, which its emitter then handles. */
  lemma PassesOnAndHandles(audio: Emission.Config, data: Bytes) returns (tr: seq<State>)
    requires data != []
    ensures IsRun(tr, 2, audio) && tr[|tr| - 1] == OneStream(audio, Trying(0), [0], [0], [data], 2)
  {
    FirstSteps(audio, data);
    EmitterSteps(audio, data);
    tr := [InitialFor(2, audio)];
    hide Do, Enabled, OneStream;
    Extend(tr, 2, audio, Start(0, TtsStreaming));
    tr := tr + [OneStream(audio, Before(0), [], [], [], 0)];
    hide IsRun;
    TwoInstances(audio);
    Extend(tr, 2, audio, Visit(0, true));
    tr := tr + [OneStream(audio, Trying(0), [0], [], [], 0)];
    Extend(tr, 2, audio, Chunk(0, data));
    tr := tr + [OneStream(audio, Trying(0), [0], [0], [data], 0)];
    Extend(tr, 2, audio, Handles(0));
    tr := tr + [OneStream(audio, Trying(0), [0], [0], [data], 1)];
    Extend(tr, 2, audio, Handles(0));
    tr := tr + [OneStream(audio, Trying(0), [0], [0], [data], 2)];
  }

  lemma TwoInstances(audio: Emission.Config)
    ensures forall pc, attempts, output, pieces, taken ::
      var s := OneStream(audio, pc, attempts, output, pieces, taken);
      |s.events| == |s.status| == 2
  {
  }

  /** The stream tries one instance and passes on less than two frames, all of it handled, and the attempt fails. */
  lemma InaudibleFailure(audio: Emission.Config, data: Bytes) returns (tr: seq<State>)
    requires Emission.IsConfig(audio) && 0 < |data| < 2 * Emission.FrameBytes(audio)
    ensures IsRun(tr, 2, audio)
    ensures var s := tr[|tr| - 1];
      && |s.events| == |s.status| == 2 && s.status[1].available
      && s.streams == Streaming(Before(1), [0], [0], true, [data], 2)
  {
    tr := PassesOnAndHandles(audio, data);
    var s := OneStream(audio, Trying(0), [0], [0], [data], 2);
    hide IsRun, Audible;
    Inaudible(audio, data, s.streams[0]);
    Extend(tr, 2, audio, Fail(0, true));
    tr := tr + [Do(s, Fail(0, true))];
  }

  lemma Inaudible(audio: Emission.Config, data: Bytes, st: Stream)
    requires Emission.IsConfig(audio) && |data| < 2 * Emission.FrameBytes(audio)
    requires st.kind.TtsStreaming? && st.pieces == [data] && st.taken == 2
    ensures !Audible(audio, st)
  {
    AudibleIff(audio, st);
    ConcatOne(data);
    assert [data][..1] == [data];
  }

  /** And then the mixture does happen: a run of a two-instance TTS adapter that returns audio of both. */
  lemma TtsMixtureHappens(audio: Emission.Config, data: Bytes) returns (tr: seq<State>)
    requires Emission.IsConfig(audio) && 0 < |data| < 2 * Emission.FrameBytes(audio)
    ensures IsRun(tr, 2, audio) && 0 in tr[|tr| - 1].streams
    ensures tr[|tr| - 1].streams[0].pc.Returned? && tr[|tr| - 1].streams[0].output == [0, 1]
  {
    tr := InaudibleFailure(audio, data);
    hide IsRun, Audible;
    var s4 := tr[|tr| - 1];
    var s5 := s4.(streams := Streaming(Trying(1), [0, 1], [0], true, [data], 2));
    var s6 := s4.(streams := Streaming(Trying(1), [0, 1], [0, 1], true, [data, data], 2));
    assert [0] + [1] == [0, 1] && [data] + [data] == [data, data];
    assert Do(s4, Visit(0, true)) == s5;
    assert Do(s5, Chunk(0, data)) == s6;
    Extend(tr, 2, audio, Visit(0, true));
    tr := tr + [s5];
    Extend(tr, 2, audio, Chunk(0, data));
    tr := tr + [s6];
    Extend(tr, 2, audio, Succeed(0));
    tr := tr + [Do(s6, Succeed(0))];
  }

  // ---------------------------------------------------------------- the adapter

  /** The adapter's fields, with its streams and pending tasks; each method is one step. */
  class FallbackAdapter {
    const audio: Emission.Config
    var status: seq<Status>
    var recoveries: map<nat, nat>
    var nextTask: nat
    var streams: map<nat, Stream>
    ghost var events: seq<seq<bool>>

    ghost function Now(): State
      reads this
    {
      State(audio, status, recoveries, nextTask, events, streams)
    }

    ghost predicate Valid()
      reads this
    {
      Inv(Now())
    }

    /** All n instances available; an empty list raises instead of making an adapter. */
    constructor (n: nat, audio: Emission.Config)
      requires n >= 1
      ensures Valid() && Now() == InitialFor(n, audio)
    {
      this.audio := audio;
      status, recoveries, nextTask := seq(n, _ => Status(true, None)), map[], 0;
      streams, events := map[], seq(n, _ => []);
    }

    /** Emit the availability change of an instance. */
    method SetAvailable(i: nat, available: bool)
      requires i < |status| && |events| == |status|
      modifies this`status, this`events
      ensures Now() == Changed(old(Now()), i, available)
    {
      status := status[i := status[i].(available := available)];
      events := events[i := events[i] + [available]];
    }

    /** `_try_recovery`. */
    method StartRecovery(i: nat, kind: Kind, hasText: bool)
      requires i < |status|
      modifies this`status, this`recoveries, this`nextTask
      ensures Now() == MaybeRecover(old(Now()), i, kind, hasText)
    {
      if kind.TtsStreaming? && !hasText {
        return;
      }
      var last := status[i].recoveringTask;
      if last.None? || last.value !in recoveries {
        status := status[i := status[i].(recoveringTask := Some(nextTask))];
        recoveries := recoveries[nextTask := i];
        nextTask := nextTask + 1;
      }
    }

    /** The start of `_run`: the snapshot of whether all instances are unavailable. */
    method StartStream(id: nat, kind: Kind)
      requires Valid() && id !in streams
      modifies this`streams
      ensures Valid() && Now() == Do(old(Now()), Start(id, kind))
    {
      hide Inv;
      EventsMatch(Now());
      StepKeeps(Now(), Start(id, kind));
      var allFailed := true;
      for i := 0 to |status|
        invariant allFailed <==> forall k :: 0 <= k < i ==> !status[k].available
      {
        allFailed := allFailed && !status[i].available;
      }
      streams := streams[id := Stream(kind, Before(0), allFailed, [], [], false, [], 0)];
    }

    lemma EventsMatch(s: State)
      requires Inv(s)
      ensures |s.events| == |s.status|
    {
    }

    /** The loop of `_run` at one instance, up to the attempt or on to the next instance. */
    method VisitInstance(id: nat, hasText: bool)
      requires Valid() && BeforeAt(Now(), id)
      modifies this
      ensures Valid() && Now() == Do(old(Now()), Visit(id, hasText))
    {
      hide Inv;
      EventsMatch(Now());
      StepKeeps(Now(), Visit(id, hasText));
      var stream := streams[id];
      var i := stream.pc.i;
      if i == |status| {
        streams := streams[id := stream.(pc := RaisedAllFailed)];
        return;
      }
      if status[i].available || stream.allFailed {
        streams := streams[id := stream.(pc := Trying(i), attempts := stream.attempts + [i])];
        return;
      }
      StartRecovery(i, stream.kind, hasText);
      streams := streams[id := stream.(pc := Before(i + 1))];
    }

    /** One result of the attempt passed on: a chunk sent, or audio pushed into the emitter. */
    method PassOn(id: nat, data: Bytes)
      requires Valid() && TryingAt(Now(), id)
      modifies this`streams
      ensures Valid() && Now() == Do(old(Now()), Chunk(id, data))
    {
      hide Inv;
      EventsMatch(Now());
      StepKeeps(Now(), Chunk(id, data));
      var stream := streams[id];
      if stream.kind.Llm? {
        stream := stream.(output := stream.output + [stream.pc.i]);
      } else {
        stream := stream.(pieces := stream.pieces + [data]);
        if data != [] {
          stream := stream.(output := stream.output + [stream.pc.i]);
        }
      }
      streams := streams[id := stream];
    }

    /** The `except` branch of `_run`, given what the stream's emitter reports. */
    method AttemptFailed(id: nat, pushedDuration: real, hasText: bool)
      requires Valid() && TryingAt(Now(), id)
      requires !streams[id].kind.Llm? ==> pushedDuration == Segments.PushedDuration(EmitterState(audio, streams[id]))
      modifies this
      ensures Valid() && Now() == Do(old(Now()), Fail(id, hasText))
    {
      hide Inv;
      EventsMatch(Now());
      StepKeeps(Now(), Fail(id, hasText));
      var stream := streams[id];
      var i := stream.pc.i;
      if status[i].available {
        SetAvailable(i, false);
      }
      if stream.kind.Llm? {
        if stream.output != [] {
          streams := streams[id := stream.(pc := Reraised)];
          return;
        }
      } else if pushedDuration > 0.0 {
        streams := streams[id := stream.(pc := Returned)];
        return;
      }
      StartRecovery(i, stream.kind, hasText);
      streams := streams[id := stream.(pc := Before(i + 1), wentOn := stream.wentOn || stream.output != [])];
    }

    /** The end of a recovery task: the flag and the event if its probe succeeded, nothing if it failed. */
    method RecoveryDone(task: nat, succeeded: bool)
      requires Valid() && Enabled(Now(), Recovered(task))
      modifies this
      ensures Valid() && Now() == Do(old(Now()), if succeeded then Recovered(task) else RecoveryEnds(task))
    {
      hide Inv;
      EventsMatch(Now());
      StepKeeps(Now(), if succeeded then Recovered(task) else RecoveryEnds(task));
      if succeeded {
        SetAvailable(recoveries[task], true);
      }
      recoveries := recoveries - {task};
    }
  }
}
