/**
  The speech scheduler of `AgentActivity` as a state machine. One `Op` is what
  happens between two awaits; `Do` is what it does to the shared fields.
 */
module Scheduler {
  import opened Wrappers

  type Handle = nat
  type Task = nat

  /** A queue entry; the heap orders them by (-priority, stamp). */
  datatype Entry = Entry(priority: int, stamp: nat, speech: Handle)

  /** The three futures of a speech handle. */
  datatype Speech = Speech(authorised: bool, playedOut: bool, interrupted: bool)

  /**
    An element of `_speech_tasks`; `awaiting` once it has reached its wait for
    its handle's authorisation, `returned` once the coroutine is over and its callbacks are pending.
   */
  datatype SpeechTask = SpeechTask(owned: Option<Handle>, awaiting: bool, returned: bool)

  /** Where the main loop is suspended. Crashed: a handle was authorised twice. */
  datatype Pc = Blocked | Playing(speech: Handle) | Exited | Crashed

  /** `scheduled` and `played` record every accepted and every authorised entry, in order. */
  datatype State = State(
    pc: Pc,
    currentSpeech: Option<Handle>,
    speechQ: seq<Entry>,
    qUpdated: bool,
    draining: bool,
    speechTasks: map<Task, SpeechTask>,
    speeches: map<Handle, Speech>,
    clock: nat,
    scheduled: seq<Entry>,
    played: seq<Entry>)

  const Initial := State(Blocked, None, [], false, false, map[], map[], 0, [], [])

  // ------------------------------------------------------------ the queue

  predicate Sooner(a: Entry, b: Entry) {
    a.priority > b.priority || (a.priority == b.priority && a.stamp < b.stamp)
  }

  /** Position of the entry `heappop` returns. */
  function Least(q: seq<Entry>): (k: nat)
    requires q != []
    ensures k < |q| && forall i :: 0 <= i < |q| ==> !Sooner(q[i], q[k])
  {
    if |q| == 1 then 0
    else
      var rest := Least(q[1..]) + 1;
      assert forall i :: 1 <= i < |q| ==> q[i] == q[1..][i - 1];
      if Sooner(q[rest], q[0]) then rest else 0
  }

  function Removed<T>(q: seq<T>, k: nat): seq<T>
    requires k < |q|
  {
    q[..k] + q[k + 1..]
  }

  // ------------------------------------------------------- atomic segments

  datatype Op =
    | Spawn(task: Task)
    | Say(task: Task, speech: Handle, priority: int, stamp: nat)
    | ToolReply(parent: Task, task: Task, speech: Handle, priority: int, stamp: nat)
    | MarkPlayedOut(task: Task)
    | Await(task: Task)
    | Fail(task: Task)
    | Return(task: Task)
    | Callbacks(task: Task)
    | Interrupt(speech: Handle)
    | Drain(onExit: Task)
    | Resume

  /** `_create_speech_task`, with the fresh handle it owns if any. */
  function Created(s: State, task: Task, owned: Option<Handle>): State {
    s.(speechTasks := s.speechTasks[task := SpeechTask(owned, false, false)],
       speeches := if owned.None? then s.speeches else s.speeches[owned.value := Speech(false, false, false)])
  }

  /** `_schedule_speech`: refused while draining unless bypassed. */
  function Scheduled(s: State, speech: Handle, priority: int, stamp: nat, bypassDraining: bool): State {
    if s.draining && !bypassDraining then s
    else
      var e := Entry(priority, stamp, speech);
      s.(speechQ := s.speechQ + [e], scheduled := s.scheduled + [e], clock := stamp, qUpdated := true)
  }

  /** A handle whose playout future is resolved (resolving it twice is harmless). */
  function PlayedOut(s: State, owned: Option<Handle>): State {
    if owned.Some? && owned.value in s.speeches then
      s.(speeches := s.speeches[owned.value := s.speeches[owned.value].(playedOut := true)])
    else s
  }

  predicate IsDone(s: State, h: Handle) {
    h in s.speeches && s.speeches[h].playedOut
  }

  predicate IsAuthorised(s: State, h: Handle) {
    h in s.speeches && s.speeches[h].authorised
  }

  /** Pop the least entry and authorise it. */
  function PopAndAuthorise(s: State): State
    requires s.speechQ != []
  {
    var k := Least(s.speechQ);
    var e := s.speechQ[k];
    var s1 := s.(speechQ := Removed(s.speechQ, k), currentSpeech := Some(e.speech));
    if e.speech !in s.speeches || s.speeches[e.speech].authorised then s1.(pc := Crashed)
    else
      s1.(pc := Playing(e.speech),
          speeches := s.speeches[e.speech := s.speeches[e.speech].(authorised := true)],
          played := s.played + [e])
  }

  /**
    The main loop from a resumption to its next suspension: drain the queue up
    to the first speech still to be played, else exit or clear the event.
   */
  function RunMain(s: State): State
    decreases |s.speechQ|
  {
    if s.speechQ == [] then
      if s.draining && s.speechTasks == map[] then s.(pc := Exited)
      else s.(pc := Blocked, qUpdated := false)
    else
      var s1 := PopAndAuthorise(s);
      if s1.pc.Playing? && IsDone(s1, s1.pc.speech) then RunMain(s1.(currentSpeech := None))
      else s1
  }

  predicate CanResume(s: State) {
    match s.pc
    case Blocked => s.qUpdated
    case Playing(h) => IsDone(s, h)
    case _ => false
  }

  predicate Running(s: State, t: Task) {
    t in s.speechTasks && !s.speechTasks[t].returned
  }

  /** The task runs and its own handle was authorised: the only place that may bypass draining. */
  predicate PastAuthorisation(s: State, t: Task) {
    && Running(s, t) && s.speechTasks[t].awaiting
    && s.speechTasks[t].owned.Some?
    && IsAuthorised(s, s.speechTasks[t].owned.value)
  }

  predicate IsInterrupted(s: State, h: Handle) {
    h in s.speeches && s.speeches[h].interrupted
  }

  /**
    A task with a handle of its own goes on from its wait when that is authorised
    or interrupted; others return any time.
   */
  predicate MayReturn(s: State, t: Task) {
    && Running(s, t)
    && (s.speechTasks[t].owned.Some? ==>
          s.speechTasks[t].awaiting &&
          (IsAuthorised(s, s.speechTasks[t].owned.value) || IsInterrupted(s, s.speechTasks[t].owned.value)))
  }

  /** A task with a handle of its own that has not reached its wait. */
  predicate Preparing(s: State, t: Task) {
    Running(s, t) && s.speechTasks[t].owned.Some? && !s.speechTasks[t].awaiting
  }

  /** `Fail`: the coroutine raises before it waits. */
  predicate Enabled(s: State, op: Op) {
    match op
    case Spawn(t) => t !in s.speechTasks
    case Say(t, h, _, stamp) => t !in s.speechTasks && h !in s.speeches && s.clock < stamp
    case ToolReply(parent, t, h, _, stamp) =>
      PastAuthorisation(s, parent) && t !in s.speechTasks && h !in s.speeches && s.clock < stamp
    case MarkPlayedOut(t) => PastAuthorisation(s, t)
    case Await(t) => Preparing(s, t)
    case Fail(t) => Preparing(s, t)
    case Return(t) => MayReturn(s, t)
    case Callbacks(t) => t in s.speechTasks && s.speechTasks[t].returned
    case Interrupt(h) => h in s.speeches
    case Drain(t) => !s.draining && t !in s.speechTasks
    case Resume => CanResume(s)
  }

  function Do(s: State, op: Op): State
    requires Enabled(s, op)
  {
    match op
    case Spawn(t) => Created(s, t, None)
    case Say(t, h, p, stamp) => Scheduled(Created(s, t, Some(h)), h, p, stamp, false)
    case ToolReply(_, t, h, p, stamp) => Scheduled(Created(s, t, Some(h)), h, p, stamp, true)
    case MarkPlayedOut(t) => PlayedOut(s, s.speechTasks[t].owned)
    case Await(t) => s.(speechTasks := s.speechTasks[t := s.speechTasks[t].(awaiting := true)])
    case Fail(t) => s.(speechTasks := s.speechTasks[t := s.speechTasks[t].(returned := true)])
    case Return(t) => s.(speechTasks := s.speechTasks[t := s.speechTasks[t].(returned := true)])
    case Callbacks(t) =>
      PlayedOut(s.(speechTasks := s.speechTasks - {t}), s.speechTasks[t].owned).(qUpdated := true)
    case Interrupt(h) =>
      if IsDone(s, h) then s else s.(speeches := s.speeches[h := s.speeches[h].(interrupted := true)])
    case Drain(t) => Created(s, t, None).(qUpdated := true, draining := true)
    case Resume => RunMain(s.(currentSpeech := None))
  }

  // ------------------------------------------------------------ invariants

  /** Scheduled first and at least as urgent. */
  predicate Ahead(a: Entry, b: Entry) {
    a.stamp < b.stamp && a.priority >= b.priority
  }

  /** What was scheduled is what waits plus what was authorised; stamps and handles never repeat. */
  ghost predicate HistoryInv(s: State) {
    && multiset(s.scheduled) == multiset(s.speechQ) + multiset(s.played)
    && (forall e :: e in s.scheduled ==> e.stamp <= s.clock && e.speech in s.speeches)
    && (forall i, j :: 0 <= i < j < |s.scheduled| ==>
          s.scheduled[i].stamp < s.scheduled[j].stamp && s.scheduled[i].speech != s.scheduled[j].speech)
  }

  /** Authorised means popped: no waiting entry is authorised, and every authorised handle was popped. */
  ghost predicate AuthorisedInv(s: State) {
    && (forall e :: e in s.speechQ ==> !IsAuthorised(s, e.speech))
    && (forall e :: e in s.played ==> IsAuthorised(s, e.speech))
    && (forall h :: IsAuthorised(s, h) ==> exists e :: e in s.played && e.speech == h)
  }

  /** No entry was authorised while one ahead of it waited. */
  ghost predicate OrderInv(s: State) {
    && (forall e, p :: e in s.speechQ && p in s.played ==> !Ahead(e, p))
    && (forall i, j :: 0 <= i < j < |s.played| ==> !Ahead(s.played[j], s.played[i]))
  }

  ghost predicate PlayingInv(s: State) {
    && !s.pc.Crashed?
    && (s.pc.Playing? ==> s.currentSpeech == Some(s.pc.speech) && IsAuthorised(s, s.pc.speech))
    && (forall h :: IsAuthorised(s, h) && !IsDone(s, h) ==> s.pc == Playing(h))
  }

  ghost predicate OwnerInv(s: State) {
    forall h :: h in s.speeches && !s.speeches[h].playedOut ==>
      exists t :: t in s.speechTasks && s.speechTasks[t].owned == Some(h)
  }

  ghost predicate WakeInv(s: State) {
    s.pc.Blocked? && !s.qUpdated ==> s.speechQ == [] && !(s.draining && s.speechTasks == map[])
  }

  ghost predicate ExitInv(s: State) {
    s.pc.Exited? ==>
      && s.draining && s.speechQ == []
      && forall t :: t in s.speechTasks && s.speechTasks[t].owned.Some? ==>
           !IsAuthorised(s, s.speechTasks[t].owned.value)
  }

  ghost predicate Inv(s: State) {
    && HistoryInv(s) && AuthorisedInv(s) && OrderInv(s)
    && PlayingInv(s) && OwnerInv(s) && WakeInv(s) && ExitInv(s)
  }

  // ------------------------------------------------- every segment keeps them

  /** A segment that leaves queue, history and authorisation alone keeps the four invariants about them. */
  lemma Frame(s: State, s1: State)
    requires HistoryInv(s) && AuthorisedInv(s) && OrderInv(s) && PlayingInv(s)
    requires s1.speechQ == s.speechQ && s1.scheduled == s.scheduled && s1.played == s.played && s1.clock == s.clock
    requires s1.pc == s.pc && s1.currentSpeech == s.currentSpeech && s.speeches.Keys <= s1.speeches.Keys
    requires forall h :: IsAuthorised(s1, h) <==> IsAuthorised(s, h)
    requires forall h :: IsDone(s, h) ==> IsDone(s1, h)
    ensures HistoryInv(s1) && AuthorisedInv(s1) && OrderInv(s1) && PlayingInv(s1)
  {
  }

  lemma CreatedKeeps(s: State, t: Task, owned: Option<Handle>)
    requires Inv(s) && t !in s.speechTasks && (owned.Some? ==> owned.value !in s.speeches)
    ensures Inv(Created(s, t, owned))
    ensures owned.Some? ==> !IsAuthorised(Created(s, t, owned), owned.value)
  {
    var s1 := Created(s, t, owned);
    Frame(s, s1);
    hide HistoryInv, AuthorisedInv, OrderInv, PlayingInv;
    assert OwnerInv(s1) by {
      assert s1.speechTasks[t].owned == owned;
      assert forall u :: u in s.speechTasks ==> u in s1.speechTasks && s1.speechTasks[u] == s.speechTasks[u];
    }
  }

  lemma ScheduledKeepsHistory(s: State, e: Entry, s1: State)
    requires HistoryInv(s) && AuthorisedInv(s) && OrderInv(s)
    requires s.clock < e.stamp && e.speech in s.speeches && !IsAuthorised(s, e.speech)
    requires forall x :: x in s.scheduled ==> x.speech != e.speech
    requires s1 == s.(speechQ := s.speechQ + [e], scheduled := s.scheduled + [e], clock := e.stamp, qUpdated := true)
    ensures HistoryInv(s1) && AuthorisedInv(s1) && OrderInv(s1)
  {
    assert forall h :: IsAuthorised(s1, h) <==> IsAuthorised(s, h);
    assert AuthorisedInv(s1);
    hide AuthorisedInv;
    NewestIsLast(s, e, s1);
    hide OrderInv;
    assert HistoryInv(s1);
  }

  lemma NewestIsLast(s: State, e: Entry, s1: State)
    requires HistoryInv(s) && OrderInv(s) && s.clock < e.stamp
    requires s1 == s.(speechQ := s.speechQ + [e], scheduled := s.scheduled + [e], clock := e.stamp, qUpdated := true)
    ensures OrderInv(s1)
  {
    forall p | p in s.played
      ensures p.stamp <= s.clock
    {
      assert p in multiset(s.played) && p in multiset(s.scheduled);
    }
    hide HistoryInv;
  }

  lemma ScheduledKeeps(s: State, h: Handle, priority: int, stamp: nat, bypass: bool)
    requires Inv(s) && s.clock < stamp && h in s.speeches && !IsAuthorised(s, h)
    requires forall e :: e in s.scheduled ==> e.speech != h
    requires bypass ==> !s.pc.Exited?
    ensures Inv(Scheduled(s, h, priority, stamp, bypass))
  {
    if !s.draining || bypass {
      ScheduledKeepsHistory(s, Entry(priority, stamp, h), Scheduled(s, h, priority, stamp, bypass));
      hide HistoryInv, AuthorisedInv, OrderInv;
      assert forall k :: IsAuthorised(Scheduled(s, h, priority, stamp, bypass), k) <==> IsAuthorised(s, k);
    }
  }

  /** Owners survive when no task leaves, except one whose own handle is played out with it. */
  lemma OwnersSurvive(s: State, s1: State, gone: set<Task>)
    requires OwnerInv(s)
    requires forall h :: h in s1.speeches && !s1.speeches[h].playedOut ==>
      h in s.speeches && !s.speeches[h].playedOut
    requires forall t :: t in s.speechTasks && t !in gone ==>
      t in s1.speechTasks && s1.speechTasks[t].owned == s.speechTasks[t].owned
    requires forall t :: t in gone && t in s.speechTasks && s.speechTasks[t].owned.Some? ==>
      IsDone(s1, s.speechTasks[t].owned.value) || s.speechTasks[t].owned.value !in s1.speeches
    ensures OwnerInv(s1)
  {
    forall h | h in s1.speeches && !s1.speeches[h].playedOut
      ensures exists u :: u in s1.speechTasks && s1.speechTasks[u].owned == Some(h)
    {
      var u :| u in s.speechTasks && s.speechTasks[u].owned == Some(h);
      assert u in s1.speechTasks && s1.speechTasks[u].owned == Some(h);
    }
  }

  lemma PlayedOutKeeps(s: State, t: Task)
    requires Inv(s) && PastAuthorisation(s, t)
    ensures Inv(PlayedOut(s, s.speechTasks[t].owned))
  {
    var s1 := PlayedOut(s, s.speechTasks[t].owned);
    Frame(s, s1);
    OwnersSurvive(s, s1, {});
    hide HistoryInv, AuthorisedInv, OrderInv, PlayingInv, OwnerInv;
  }

  lemma CallbacksKeeps(s: State, t: Task)
    requires Inv(s) && Enabled(s, Callbacks(t))
    ensures Inv(Do(s, Callbacks(t)))
  {
    var s1 := Do(s, Callbacks(t));
    Frame(s, s1);
    OwnersSurvive(s, s1, {t});
    hide HistoryInv, AuthorisedInv, OrderInv, PlayingInv, OwnerInv;
  }

  lemma FlagsKeep(s: State, op: Op)
    requires Inv(s) && Enabled(s, op) && (op.Await? || op.Fail? || op.Return? || op.Interrupt?)
    ensures Inv(Do(s, op))
  {
    Frame(s, Do(s, op));
    OwnersSurvive(s, Do(s, op), {});
    hide HistoryInv, AuthorisedInv, OrderInv, PlayingInv, OwnerInv;
  }

  /** Inside the main loop's segment: nothing is being played. */
  ghost predicate LoopInv(s: State) {
    && HistoryInv(s) && AuthorisedInv(s) && OrderInv(s) && OwnerInv(s)
    && forall h :: IsAuthorised(s, h) ==> IsDone(s, h)
  }

  lemma RemovedMembers(q: seq<Entry>, k: nat)
    requires k < |q|
    ensures multiset(q) == multiset(Removed(q, k)) + multiset{q[k]}
    ensures forall e :: e in Removed(q, k) ==> e in q
  {
    assert q == q[..k] + [q[k]] + q[k + 1..];
  }

  /** Entries share neither stamp nor handle, so the popped one leaves the queue. */
  lemma PoppedIsGone(s: State, k: nat)
    requires HistoryInv(s) && k < |s.speechQ|
    ensures forall e :: e in Removed(s.speechQ, k) ==> e.speech != s.speechQ[k].speech && e.stamp != s.speechQ[k].stamp
  {
    var e := s.speechQ[k];
    RemovedMembers(s.speechQ, k);
    forall x | x in Removed(s.speechQ, k)
      ensures x.speech != e.speech && x.stamp != e.stamp
    {
      assert multiset(s.scheduled)[x] >= multiset(Removed(s.speechQ, k))[x] + multiset{e}[x];
      assert x in multiset(s.scheduled) && e in multiset(s.scheduled);
      ScheduledOnce(s, e);
    }
  }

  lemma ScheduledOnce(s: State, e: Entry)
    requires HistoryInv(s) && e in s.scheduled
    ensures multiset(s.scheduled)[e] == 1
  {
    var i :| 0 <= i < |s.scheduled| && s.scheduled[i] == e;
    assert s.scheduled == s.scheduled[..i] + [e] + s.scheduled[i + 1..];
    assert e !in s.scheduled[..i] && e !in s.scheduled[i + 1..];
  }

  /** One turn of the inner loop. */
  lemma PopKeeps(s: State)
    requires LoopInv(s) && s.speechQ != []
    ensures var s1 := PopAndAuthorise(s);
      && s1.pc.Playing? && s1.currentSpeech == Some(s1.pc.speech) && |s1.speechQ| < |s.speechQ|
      && HistoryInv(s1) && AuthorisedInv(s1) && OrderInv(s1) && OwnerInv(s1)
      && (forall h :: IsAuthorised(s1, h) && !IsDone(s1, h) ==> h == s1.pc.speech)
  {
    var k := Least(s.speechQ);
    var e, s1 := s.speechQ[k], PopAndAuthorise(s);
    PopKeepsHistory(s);
    PoppedIsGone(s, k);
    RemovedMembers(s.speechQ, k);
    assert forall h :: IsAuthorised(s1, h) <==> IsAuthorised(s, h) || h == e.speech;
    assert forall x :: x in s1.played <==> x in s.played || x == e;
    hide HistoryInv;
    PopKeepsOrder(s, k, s1);
    hide OrderInv;
    PopKeepsOwners(s, s1);
    hide OwnerInv;
    assert AuthorisedInv(s1);
  }

  lemma PopKeepsHistory(s: State)
    requires LoopInv(s) && s.speechQ != []
    ensures PopAndAuthorise(s).pc.Playing? && HistoryInv(PopAndAuthorise(s))
  {
    hide OrderInv, OwnerInv;
    var k := Least(s.speechQ);
    var e := s.speechQ[k];
    assert e in s.speechQ && e in multiset(s.scheduled);
    assert !IsAuthorised(s, e.speech);
    hide AuthorisedInv;
    assert e.speech in s.speeches;
    MovedHistory(s, k, PopAndAuthorise(s));
  }

  /** An entry moved from the queue to the authorised ones. */
  lemma MovedHistory(s: State, k: nat, s1: State)
    requires HistoryInv(s) && k < |s.speechQ|
    requires s1.speechQ == Removed(s.speechQ, k) && s1.played == s.played + [s.speechQ[k]]
    requires s1.scheduled == s.scheduled && s1.clock == s.clock && s1.speeches.Keys == s.speeches.Keys
    ensures HistoryInv(s1)
  {
    RemovedMembers(s.speechQ, k);
    assert multiset(s1.played) == multiset(s.played) + multiset{s.speechQ[k]};
  }

  lemma PopKeepsOwners(s: State, s1: State)
    requires OwnerInv(s) && s1.speechTasks == s.speechTasks && s1.speeches.Keys == s.speeches.Keys
    requires forall h :: h in s.speeches ==> s1.speeches[h].playedOut == s.speeches[h].playedOut
    ensures OwnerInv(s1)
  {
    OwnersSurvive(s, s1, {});
  }

  lemma PopKeepsOrder(s: State, k: nat, s1: State)
    requires OrderInv(s) && s.speechQ != [] && k == Least(s.speechQ)
    requires s1.speechQ == Removed(s.speechQ, k) && s1.played == s.played + [s.speechQ[k]]
    ensures OrderInv(s1)
  {
    var e := s.speechQ[k];
    RemovedMembers(s.speechQ, k);
    forall x | x in s.speechQ
      ensures !Ahead(x, e)
    {
      var i :| 0 <= i < |s.speechQ| && s.speechQ[i] == x;
      assert !Sooner(s.speechQ[i], s.speechQ[k]);
    }
    assert e in s.speechQ;
    assert forall p :: p in s1.played ==> p in s.played || p == e;
    forall i, j | 0 <= i < j < |s1.played|
      ensures !Ahead(s1.played[j], s1.played[i])
    {
      assert s1.played[i] == s.played[i] && s.played[i] in s.played;
    }
  }

  /** The segment's result, one turn at a time: stop, go round again, or wait for the popped speech. */
  lemma RunMainUnfolds(s: State)
    ensures s.speechQ == [] ==> RunMain(s) == Stopped(s)
    ensures s.speechQ != [] && GoesOn(s) ==> RunMain(s) == RunMain(PopAndAuthorise(s).(currentSpeech := None))
    ensures s.speechQ != [] && !GoesOn(s) ==> RunMain(s) == PopAndAuthorise(s)
  {
  }

  function Stopped(s: State): State {
    if s.draining && s.speechTasks == map[] then s.(pc := Exited) else s.(pc := Blocked, qUpdated := false)
  }

  predicate GoesOn(s: State)
    requires s.speechQ != []
  {
    var s1 := PopAndAuthorise(s);
    s1.pc.Playing? && IsDone(s1, s1.pc.speech)
  }

  lemma StoppedKeeps(s: State)
    requires LoopInv(s) && s.speechQ == []
    ensures Inv(Stopped(s)) && Stopped(s).speechQ == [] && Stopped(s).played == s.played
  {
    Restate(s, Stopped(s));
    hide HistoryInv, AuthorisedInv, OrderInv, OwnerInv;
  }

  lemma PausedKeeps(s: State)
    requires LoopInv(s) && s.speechQ != [] && !GoesOn(s)
    ensures Inv(PopAndAuthorise(s))
  {
    PopKeeps(s);
    LastPlayed(s);
    hide PopAndAuthorise, HistoryInv, AuthorisedInv, OrderInv, OwnerInv;
  }

  lemma GoingOnKeeps(s: State)
    requires LoopInv(s) && s.speechQ != [] && GoesOn(s)
    ensures LoopInv(PopAndAuthorise(s).(currentSpeech := None))
    ensures |PopAndAuthorise(s).speechQ| < |s.speechQ|
  {
    PopKeeps(s);
    var s1 := PopAndAuthorise(s);
    Restate(s1, s1.(currentSpeech := None));
    hide PopAndAuthorise, HistoryInv, AuthorisedInv, OrderInv, OwnerInv;
  }

  /** The whole segment re-establishes every invariant; the double authorisation never happens. */
  lemma {:induction false} RunMainKeeps(s: State)
    requires LoopInv(s)
    ensures Inv(RunMain(s))
    decreases |s.speechQ|
  {
    RunMainUnfolds(s);
    hide *;
    if s.speechQ == [] {
      StoppedKeeps(s);
    } else if GoesOn(s) {
      GoingOnKeeps(s);
      RunMainKeeps(PopAndAuthorise(s).(currentSpeech := None));
    } else {
      PausedKeeps(s);
    }
  }

  lemma LastPlayed(s: State)
    requires LoopInv(s) && s.speechQ != []
    ensures PopAndAuthorise(s).pc.Playing? ==> IsAuthorised(PopAndAuthorise(s), PopAndAuthorise(s).pc.speech)
  {
  }

  /** The loop's position and flags do not matter to the invariants about queue and handles. */
  lemma Restate(s: State, s1: State)
    requires HistoryInv(s) && AuthorisedInv(s) && OrderInv(s) && OwnerInv(s)
    requires s1 == s.(pc := s1.pc, currentSpeech := s1.currentSpeech, qUpdated := s1.qUpdated)
    ensures HistoryInv(s1) && AuthorisedInv(s1) && OrderInv(s1) && OwnerInv(s1)
    ensures forall h :: IsAuthorised(s1, h) == IsAuthorised(s, h) && IsDone(s1, h) == IsDone(s, h)
  {
    assert forall h :: IsAuthorised(s1, h) == IsAuthorised(s, h) && IsDone(s1, h) == IsDone(s, h);
    OwnersSurvive(s, s1, {});
    hide OwnerInv;
  }

  lemma ToolReplyBeforeExit(s: State, t: Task)
    requires ExitInv(s) && PastAuthorisation(s, t)
    ensures !s.pc.Exited?
  {
  }

  lemma StepKeeps(s: State, op: Op)
    requires Inv(s) && Enabled(s, op)
    ensures Inv(Do(s, op))
  {
    hide HistoryInv, AuthorisedInv, OrderInv, OwnerInv, ExitInv;
    match op
    case Spawn(t) => CreatedKeeps(s, t, None);
    case Say(t, h, p, stamp) =>
      CreatedKeeps(s, t, Some(h));
      FreshIsUnscheduled(s, h);
      ScheduledKeeps(Created(s, t, Some(h)), h, p, stamp, false);
    case ToolReply(parent, t, h, p, stamp) =>
      ToolReplyBeforeExit(s, parent);
      CreatedKeeps(s, t, Some(h));
      FreshIsUnscheduled(s, h);
      ScheduledKeeps(Created(s, t, Some(h)), h, p, stamp, true);
    case MarkPlayedOut(t) => PlayedOutKeeps(s, t);
    case Callbacks(t) => CallbacksKeeps(s, t);
    case Drain(t) =>
      CreatedKeeps(s, t, None);
      DrainingKeeps(Created(s, t, None));
    case Resume =>
      ResumeEntersLoop(s);
      RunMainKeeps(s.(currentSpeech := None));
    case _ => FlagsKeep(s, op);
  }

  lemma FreshIsUnscheduled(s: State, h: Handle)
    requires HistoryInv(s) && h !in s.speeches
    ensures forall e :: e in s.scheduled ==> e.speech != h
  {
  }

  lemma DrainingKeeps(s: State)
    requires Inv(s)
    ensures Inv(s.(qUpdated := true, draining := true))
  {
    Frame(s, s.(qUpdated := true, draining := true));
    OwnersSurvive(s, s.(qUpdated := true, draining := true), {});
  }

  lemma ResumeEntersLoop(s: State)
    requires Inv(s) && CanResume(s)
    ensures LoopInv(s.(currentSpeech := None))
  {
    Restate(s, s.(currentSpeech := None));
    hide HistoryInv, AuthorisedInv, OrderInv, OwnerInv;
  }

  // ------------------------------------------------------------------ runs

  ghost predicate Next(s: State, s1: State) {
    exists op :: Enabled(s, op) && s1 == Do(s, op)
  }

  ghost predicate Run(tr: seq<State>) {
    tr != [] && tr[0] == Initial && forall i :: 0 <= i < |tr| - 1 ==> Next(tr[i], tr[i + 1])
  }

  lemma {:induction false} RunKeepsInv(tr: seq<State>, i: nat)
    requires Run(tr) && i < |tr|
    ensures Inv(tr[i])
  {
    if i > 0 {
      RunKeepsInv(tr, i - 1);
      assert Next(tr[i - 1], tr[i - 1 + 1]);
      var op :| Enabled(tr[i - 1], op) && tr[i] == Do(tr[i - 1], op);
      hide Inv;
      StepKeeps(tr[i - 1], op);
    }
  }

  /**
    No lost wake-up and no wait on an orphan: whenever the main loop cannot
    resume, either nothing is queued and the drain (if any) still has live
    tasks, or it waits for an unfinished speech whose owning task is live.
   */
  lemma SuspendedForAReason(tr: seq<State>, i: nat)
    requires Run(tr) && i < |tr| && !CanResume(tr[i])
    ensures match tr[i].pc
      case Blocked => tr[i].speechQ == [] && (tr[i].draining ==> tr[i].speechTasks != map[])
      case Playing(h) =>
        && IsAuthorised(tr[i], h) && !IsDone(tr[i], h) && tr[i].currentSpeech == Some(h)
        && exists t :: t in tr[i].speechTasks && tr[i].speechTasks[t].owned == Some(h)
      case Exited => true
      case Crashed => false
  {
    RunKeepsInv(tr, i);
  }

  /** At most one speech is authorised and not played out, and the loop is waiting for it. */
  lemma OneSpeechAtATime(tr: seq<State>, i: nat, g: Handle, h: Handle)
    requires Run(tr) && i < |tr|
    requires IsAuthorised(tr[i], g) && !IsDone(tr[i], g) && IsAuthorised(tr[i], h) && !IsDone(tr[i], h)
    ensures g == h && tr[i].pc == Playing(h) && tr[i].currentSpeech == Some(h)
  {
    RunKeepsInv(tr, i);
  }

  /** A speech scheduled earlier at no lower priority is authorised earlier: urgency first, then arrival. */
  lemma PlayOrder(tr: seq<State>, i: nat, a: Entry, k: nat)
    requires Run(tr) && i < |tr| && a in tr[i].scheduled && k < |tr[i].played| && Ahead(a, tr[i].played[k])
    ensures exists j :: 0 <= j < k && tr[i].played[j] == a
  {
    var s := tr[i];
    RunKeepsInv(tr, i);
    assert a in multiset(s.scheduled);
    assert a !in s.speechQ by {
      assert s.played[k] in s.played;
    }
    assert a in s.played;
    var j :| 0 <= j < |s.played| && s.played[j] == a;
    assert j != k;
  }

  /** Every entry the segment authorises was a least one among those then queued. */
  lemma {:induction false} SegmentPicksLeast(s: State) returns (picked: seq<Entry>)
    requires LoopInv(s)
    ensures RunMain(s).played == s.played + picked
    ensures multiset(s.speechQ) == multiset(picked) + multiset(RunMain(s).speechQ)
    ensures forall e, x :: e in picked && x in RunMain(s).speechQ ==> !Sooner(x, e)
    ensures forall i, j :: 0 <= i < j < |picked| ==> !Sooner(picked[j], picked[i])
    decreases |s.speechQ|
  {
    hide *;
    RunMainUnfolds(s);
    if s.speechQ == [] {
      picked := [];
      StoppedKeeps(s);
      assert s.played == s.played + [];
    } else {
      var e, s1 := PopPicksLeast(s);
      if GoesOn(s) {
        GoingOnKeeps(s);
        var more := SegmentPicksLeast(s1.(currentSpeech := None));
        picked := [e] + more;
        LeastFirst(s.speechQ, e, s1.speechQ, more, RunMain(s).speechQ);
        assert s.played + [e] + more == s.played + picked;
      } else {
        picked := [e];
      }
    }
  }

  lemma LeastFirst(q: seq<Entry>, e: Entry, mid: seq<Entry>, more: seq<Entry>, rest: seq<Entry>)
    requires multiset(q) == multiset{e} + multiset(mid) && multiset(mid) == multiset(more) + multiset(rest)
    requires forall x :: x in mid ==> !Sooner(x, e)
    requires forall d, x :: d in more && x in rest ==> !Sooner(x, d)
    requires forall i, j :: 0 <= i < j < |more| ==> !Sooner(more[j], more[i])
    ensures multiset(q) == multiset([e] + more) + multiset(rest)
    ensures forall d, x :: d in [e] + more && x in rest ==> !Sooner(x, d)
    ensures forall i, j :: 0 <= i < j < |[e] + more| ==> !Sooner(([e] + more)[j], ([e] + more)[i])
  {
    hide Sooner;
    forall x | x in more || x in rest
      ensures x in mid
    {
      assert x in multiset(more) || x in multiset(rest);
      assert x in multiset(mid);
    }
    assert multiset([e] + more) == multiset{e} + multiset(more);
  }

  lemma PopPicksLeast(s: State) returns (e: Entry, s1: State)
    requires LoopInv(s) && s.speechQ != []
    ensures s1 == PopAndAuthorise(s) && s1.played == s.played + [e]
    ensures multiset(s.speechQ) == multiset{e} + multiset(s1.speechQ) && |s1.speechQ| < |s.speechQ|
    ensures forall x :: x in s1.speechQ ==> !Sooner(x, e)
  {
    var k := Least(s.speechQ);
    e, s1 := s.speechQ[k], PopAndAuthorise(s);
    PopKeeps(s);
    RemovedMembers(s.speechQ, k);
    forall x | x in s1.speechQ
      ensures !Sooner(x, e)
    {
      var i :| 0 <= i < |s.speechQ| && s.speechQ[i] == x;
    }
  }

  /** In every run, each resumption authorises least entries first, and leaves none that should have gone before. */
  lemma ResumptionPicksLeast(tr: seq<State>, i: nat) returns (picked: seq<Entry>)
    requires Run(tr) && i < |tr| && CanResume(tr[i])
    ensures var s1 := Do(tr[i], Resume);
      && s1.played == tr[i].played + picked
      && multiset(tr[i].speechQ) == multiset(picked) + multiset(s1.speechQ)
      && (forall e, x :: e in picked && x in s1.speechQ ==> !Sooner(x, e))
      && (forall k, l :: 0 <= k < l < |picked| ==> !Sooner(picked[l], picked[k]))
  {
    RunKeepsInv(tr, i);
    ResumeEntersLoop(tr[i]);
    picked := SegmentPicksLeast(tr[i].(currentSpeech := None));
  }

  /** What one segment can do to the drain flag, the record of schedulings and the exit. */
  lemma StepHistory(s: State, op: Op)
    requires Inv(s) && Enabled(s, op)
    ensures s.draining ==> Do(s, op).draining
    ensures s.pc.Exited? ==> Do(s, op).pc.Exited? && Do(s, op).scheduled == s.scheduled
    ensures Do(s, op).pc.Exited? && !s.pc.Exited? ==> s.speechTasks == map[]
    ensures s.speeches.Keys <= Do(s, op).speeches.Keys
    ensures forall e :: e in Do(s, op).scheduled ==> e in s.scheduled || e.speech !in s.speeches
  {
    hide RunMain;
    if op.Resume? {
      RunMainKeepsTasks(s.(currentSpeech := None));
    } else if op.ToolReply? {
      ToolReplyBeforeExit(s, op.parent);
    }
  }

  lemma {:induction false} HistoryGrows(tr: seq<State>, i: nat, j: nat)
    requires Run(tr) && i <= j < |tr|
    ensures tr[i].draining ==> tr[j].draining
    ensures tr[i].pc.Exited? ==> tr[j].pc.Exited? && tr[j].scheduled == tr[i].scheduled
    decreases j - i
  {
    hide *;
    if i < j {
      HistoryGrows(tr, i, j - 1);
      var op := LastStep(tr, j);
    }
  }

  lemma LastStep(tr: seq<State>, j: nat) returns (op: Op)
    requires Run(tr) && 0 < j < |tr|
    ensures Inv(tr[j - 1]) && Inv(tr[j])
    ensures Enabled(tr[j - 1], op) && tr[j] == Do(tr[j - 1], op)
    ensures tr[j - 1].draining ==> tr[j].draining
    ensures tr[j - 1].pc.Exited? ==> tr[j].pc.Exited? && tr[j].scheduled == tr[j - 1].scheduled
    ensures tr[j].pc.Exited? && !tr[j - 1].pc.Exited? ==> tr[j - 1].speechTasks == map[]
    ensures tr[j - 1].speeches.Keys <= tr[j].speeches.Keys
    ensures forall e :: e in tr[j].scheduled ==> e in tr[j - 1].scheduled || e.speech !in tr[j - 1].speeches
  {
    RunKeepsInv(tr, j - 1);
    RunKeepsInv(tr, j);
    assert Next(tr[j - 1], tr[j - 1 + 1]);
    op :| Enabled(tr[j - 1], op) && tr[j] == Do(tr[j - 1], op);
    StepHistory(tr[j - 1], op);
  }

  lemma {:induction false} RunMainKeepsTasks(s: State)
    ensures RunMain(s).draining == s.draining && RunMain(s).speechTasks == s.speechTasks
    ensures RunMain(s).scheduled == s.scheduled && RunMain(s).speeches.Keys == s.speeches.Keys
    ensures RunMain(s).pc.Exited? ==> s.draining && s.speechTasks == map[]
    decreases |s.speechQ|
  {
    if s.speechQ != [] {
      var s1 := PopAndAuthorise(s);
      if s1.pc.Playing? && IsDone(s1, s1.pc.speech) {
        RunMainKeepsTasks(s1.(currentSpeech := None));
      }
    }
  }

  /**
    The drain is complete: from the moment the loop exits, the queue is and
    stays empty, nothing more is ever scheduled, and every speech that was
    ever scheduled has been authorised.
   */
  lemma DrainIsComplete(tr: seq<State>, i: nat, j: nat)
    requires Run(tr) && i <= j < |tr| && tr[i].pc.Exited?
    ensures tr[j].pc.Exited? && tr[j].draining && tr[j].speechQ == [] && tr[j].scheduled == tr[i].scheduled
    ensures multiset(tr[j].played) == multiset(tr[i].scheduled)
    ensures forall e :: e in tr[j].scheduled ==> IsAuthorised(tr[j], e.speech)
  {
    HistoryGrows(tr, i, j);
    RunKeepsInv(tr, j);
    forall e | e in tr[j].scheduled
      ensures IsAuthorised(tr[j], e.speech)
    {
      assert e in multiset(tr[j].scheduled);
      assert e in tr[j].played;
    }
  }
}
