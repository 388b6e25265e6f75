/**
  When a drain can end: a speech refused while draining holds it up, unless it
  is interrupted, and nothing else does.
 */
module Draining {
  import opened Wrappers
  import opened Scheduler

  ghost predicate NeverScheduled(s: State, h: Handle) {
    forall e :: e in s.scheduled ==> e.speech != h
  }

  predicate Owns(s: State, t: Task, h: Handle) {
    t in s.speechTasks && s.speechTasks[t].owned == Some(h)
  }

  /** A running task whose own handle was refused, and has not been interrupted. */
  ghost predicate HoldsUp(s: State, t: Task, h: Handle) {
    Running(s, t) && Owns(s, t, h) && h in s.speeches && NeverScheduled(s, h) && !IsInterrupted(s, h)
  }

  lemma UnscheduledIsUnauthorised(s: State, h: Handle)
    requires Inv(s) && NeverScheduled(s, h)
    ensures !IsAuthorised(s, h)
  {
    assert forall e :: e in s.played ==> e in multiset(s.scheduled);
    assert forall e :: e in multiset(s.scheduled) ==> e in s.scheduled;
  }

  lemma {:induction false} RunMainKeepsFlags(s: State)
    ensures forall h :: IsInterrupted(RunMain(s), h) <==> IsInterrupted(s, h)
    decreases |s.speechQ|
  {
    RunMainUnfolds(s);
    hide RunMain;
    if s.speechQ != [] && GoesOn(s) {
      RunMainKeepsFlags(PopAndAuthorise(s).(currentSpeech := None));
    }
  }

  lemma StillUnscheduled(s: State, op: Op, h: Handle)
    requires Inv(s) && Enabled(s, op) && h in s.speeches && NeverScheduled(s, h)
    ensures NeverScheduled(Do(s, op), h) && h in Do(s, op).speeches
  {
    StepHistory(s, op);
    hide Inv, Do, Enabled;
  }

  /** What a step can do to a task that runs for an unauthorised handle, and to the handle's flag. */
  lemma RunsOn(s: State, op: Op, t: Task, h: Handle)
    requires Inv(s) && Enabled(s, op) && Running(s, t) && Owns(s, t, h) && h in s.speeches
    requires !IsAuthorised(s, h) && !IsInterrupted(s, h)
    ensures op != Fail(t) ==> Running(Do(s, op), t) && Owns(Do(s, op), t, h)
    ensures s.speechTasks[t].awaiting ==> op != Fail(t) && Do(s, op).speechTasks[t].awaiting
    ensures op != Interrupt(h) ==> !IsInterrupted(Do(s, op), h)
  {
    hide Inv;
    if op.Resume? {
      RunMainKeepsTasks(s.(currentSpeech := None));
      RunMainKeepsFlags(s.(currentSpeech := None));
      hide RunMain;
    }
  }

  /** As long as it is not interrupted and does not fail before its wait, it stays so, and the loop does not exit. */
  lemma StillHoldsUp(s: State, op: Op, t: Task, h: Handle)
    requires Inv(s) && Enabled(s, op) && HoldsUp(s, t, h)
    requires op != Fail(t) && !IsInterrupted(Do(s, op), h)
    ensures HoldsUp(Do(s, op), t, h)
    ensures s.speechTasks[t].awaiting ==> Do(s, op).speechTasks[t].awaiting
    ensures Do(s, op).pc.Exited? ==> s.pc.Exited?
  {
    UnscheduledIsUnauthorised(s, h);
    StepHistory(s, op);
    StillUnscheduled(s, op, h);
    RunsOn(s, op, t, h);
    hide Inv, NeverScheduled, Do, Enabled, IsInterrupted;
  }

  // ------------------------------------------------------ the refused speech

  /** Over a run, step i is a `say` while draining, before the loop has exited. */
  ghost predicate RefusedAt(tr: seq<State>, i: nat, t: Task, h: Handle) {
    && Run(tr) && i + 1 < |tr| && tr[i].draining && !tr[i].pc.Exited?
    && SayStep(tr[i], tr[i + 1], t, h)
  }

  ghost predicate SayStep(s: State, s': State, t: Task, h: Handle) {
    exists priority, stamp :: IsSay(s, s', t, h, priority, stamp)
  }

  ghost predicate IsSay(s: State, s': State, t: Task, h: Handle, priority: int, stamp: nat) {
    Enabled(s, Say(t, h, priority, stamp)) && s' == Do(s, Say(t, h, priority, stamp))
  }

  lemma RefusalMeans(tr: seq<State>, i: nat, t: Task, h: Handle)
    requires RefusedAt(tr, i, t, h)
    ensures HoldsUp(tr[i + 1], t, h) && !tr[i + 1].pc.Exited?
  {
    RunKeepsInv(tr, i);
    FreshIsUnscheduled(tr[i], h);
  }

  /** A handle that was there before belongs to the task it belonged to. */
  lemma OwnedBefore(s: State, op: Op, t: Task, h: Handle)
    requires Enabled(s, op) && h in s.speeches && Owns(Do(s, op), t, h)
    ensures Owns(s, t, h)
  {
    if op.Resume? {
      RunMainKeepsTasks(s.(currentSpeech := None));
      hide RunMain;
    }
  }

  /** While the refused task is listed the loop has not exited, and its handle is never authorised. */
  lemma {:induction false} WhileListed(tr: seq<State>, i: nat, k: nat, t: Task, h: Handle)
    requires RefusedAt(tr, i, t, h) && i < k < |tr|
    ensures h in tr[k].speeches && NeverScheduled(tr[k], h) && !IsAuthorised(tr[k], h)
    ensures Owns(tr[k], t, h) ==> !tr[k].pc.Exited?
    decreases k
  {
    hide *;
    RunOf(tr, i, t, h);
    RunKeepsInv(tr, k);
    if k == i + 1 {
      RefusalMeans(tr, i, t, h);
      HoldsUpMeans(tr[k], t, h);
    } else {
      WhileListed(tr, i, k - 1, t, h);
      var op := LastStep(tr, k);
      StillUnscheduled(tr[k - 1], op, h);
      if Owns(tr[k], t, h) {
        OwnedBefore(tr[k - 1], op, t, h);
        ListedMeans(tr[k - 1], t, h);
      }
    }
    UnscheduledIsUnauthorised(tr[k], h);
  }

  lemma RunOf(tr: seq<State>, i: nat, t: Task, h: Handle)
    requires RefusedAt(tr, i, t, h)
    ensures Run(tr) && i + 1 < |tr|
  {
  }

  lemma ListedMeans(s: State, t: Task, h: Handle)
    requires Owns(s, t, h)
    ensures t in s.speechTasks
  {
  }

  lemma HoldsUpMeans(s: State, t: Task, h: Handle)
    requires HoldsUp(s, t, h)
    ensures h in s.speeches && NeverScheduled(s, h) && Owns(s, t, h) && Running(s, t) && !IsInterrupted(s, h)
  {
  }

  /** The refused task has come to its wait for an authorisation. */
  predicate Waits(s: State, t: Task, h: Handle) {
    Running(s, t) && Owns(s, t, h) && s.speechTasks[t].awaiting
  }

  lemma FlagStays(s: State, op: Op, h: Handle)
    requires Enabled(s, op) && IsInterrupted(s, h)
    ensures IsInterrupted(Do(s, op), h)
  {
    if op.Resume? {
      RunMainKeepsFlags(s.(currentSpeech := None));
      hide RunMain;
    }
  }

  /**
    `say` while draining raises, but its task goes on to wait for an
    authorisation that never comes: from then on, and as long as nobody
    interrupts the speech, the task is still there and the main loop does not exit.
   */
  lemma {:induction false} RefusedSpeechHoldsTheDrain(tr: seq<State>, i: nat, k: nat, j: nat, t: Task, h: Handle)
    requires RefusedAt(tr, i, t, h) && i < k <= j < |tr|
    requires Waits(tr[k], t, h) && !IsInterrupted(tr[j], h)
    ensures Waits(tr[j], t, h) && HoldsUp(tr[j], t, h) && !tr[j].pc.Exited?
    decreases j
  {
    hide Inv, Run, NeverScheduled, IsInterrupted;
    WhileListed(tr, i, k, t, h);
    if k < j {
      var op := LastStep(tr, j);
      if IsInterrupted(tr[j - 1], h) {
        FlagStays(tr[j - 1], op, h);
      }
      RefusedSpeechHoldsTheDrain(tr, i, k, j - 1, t, h);
      WaitingDoesNotFail(tr[j - 1], op, t, h);
      hide Do, Enabled;
      StillHoldsUp(tr[j - 1], op, t, h);
    }
  }

  lemma WaitingDoesNotFail(s: State, op: Op, t: Task, h: Handle)
    requires Waits(s, t, h) && Enabled(s, op)
    ensures op != Fail(t)
  {
  }

  /** Once the loop has exited, a speech said earlier has been authorised exactly if it was not said while draining. */
  lemma SaidIsPlayedIffNotDraining(tr: seq<State>, i: nat, j: nat, t: Task, h: Handle, priority: int, stamp: nat)
    requires Run(tr) && i + 1 <= j < |tr| && IsSay(tr[i], tr[i + 1], t, h, priority, stamp)
    requires tr[j].pc.Exited? && !tr[i].pc.Exited?
    ensures IsAuthorised(tr[j], h) <==> !tr[i].draining
  {
    if tr[i].draining {
      WhileListed(tr, i, j, t, h);
    } else {
      var e := Entry(priority, stamp, h);
      assert e in tr[i + 1].scheduled;
      hide Run, Inv, IsSay;
      StaysScheduled(tr, i + 1, j, e);
      DrainIsComplete(tr, j, j);
    }
  }

  lemma {:induction false} StaysScheduled(tr: seq<State>, i: nat, j: nat, e: Entry)
    requires Run(tr) && i <= j < |tr| && e in tr[i].scheduled
    ensures e in tr[j].scheduled
    decreases j
  {
    hide Run, Inv;
    if i < j {
      StaysScheduled(tr, i, j - 1, e);
      var op := LastStep(tr, j);
      ScheduleGrows(tr[j - 1], op, e);
    }
  }

  lemma ScheduleGrows(s: State, op: Op, e: Entry)
    requires Enabled(s, op) && e in s.scheduled
    ensures e in Do(s, op).scheduled
  {
    if op.Resume? {
      RunMainKeepsTasks(s.(currentSpeech := None));
      hide RunMain;
    }
  }

  // ------------------------------------------- and nothing else holds it up

  ghost predicate Possible(s: State, ops: seq<Op>)
    decreases |ops|
  {
    ops == [] || (Enabled(s, ops[0]) && Possible(Do(s, ops[0]), ops[1..]))
  }

  ghost function After(s: State, ops: seq<Op>): State
    requires Possible(s, ops)
    decreases |ops|
  {
    if ops == [] then s else After(Do(s, ops[0]), ops[1..])
  }

  /** No speech is interrupted, and no task fails before its wait. */
  ghost predicate Undisturbed(ops: seq<Op>) {
    forall k :: 0 <= k < |ops| ==> !ops[k].Interrupt? && !ops[k].Fail?
  }

  /** Left alone, the drain can come to its end. */
  ghost predicate CanEnd(s: State) {
    exists ops :: Possible(s, ops) && Undisturbed(ops) && After(s, ops).pc.Exited?
  }

  ghost predicate HeldUp(s: State) {
    exists t, h :: HoldsUp(s, t, h)
  }

  lemma {:induction false} HeldUpForGood(s: State, ops: seq<Op>, t: Task, h: Handle)
    requires Inv(s) && HoldsUp(s, t, h) && !s.pc.Exited? && Possible(s, ops) && Undisturbed(ops)
    ensures !After(s, ops).pc.Exited?
    decreases |ops|
  {
    hide Inv, Enabled, Do, NeverScheduled, IsInterrupted;
    if ops != [] {
      var op := ops[0];
      UnscheduledIsUnauthorised(s, h);
      RunsOn(s, op, t, h);
      StillHoldsUp(s, op, t, h);
      StepKeeps(s, op);
      assert forall k :: 0 <= k < |ops[1..]| ==> ops[1..][k] == ops[k + 1];
      HeldUpForGood(Do(s, op), ops[1..], t, h);
    }
  }

  /** Handles owned by listed tasks were created. */
  ghost predicate Known(s: State) {
    forall t :: t in s.speechTasks && s.speechTasks[t].owned.Some? ==> s.speechTasks[t].owned.value in s.speeches
  }

  lemma KnownStays(s: State, op: Op)
    requires Known(s) && Enabled(s, op)
    ensures Known(Do(s, op))
  {
    if op.Resume? {
      RunMainKeepsTasks(s.(currentSpeech := None));
      hide RunMain;
    }
  }

  lemma {:induction false} RunKnown(tr: seq<State>, i: nat)
    requires Run(tr) && i < |tr|
    ensures Known(tr[i])
  {
    if i > 0 {
      RunKnown(tr, i - 1);
      assert Next(tr[i - 1], tr[i - 1 + 1]);
      var op :| Enabled(tr[i - 1], op) && tr[i] == Do(tr[i - 1], op);
      hide Run, Do, Enabled;
      KnownStays(tr[i - 1], op);
    }
  }

  /** Draining, and nothing holds it up. */
  ghost predicate Ending(s: State) {
    Inv(s) && Known(s) && s.draining && !s.pc.Exited? && !HeldUp(s)
  }

  /** Letting tasks and the loop go on creates no obstacle. */
  lemma NoNewObstacle(s: State, op: Op, t: Task, h: Handle)
    requires Enabled(s, op) && (op.Callbacks? || op.Await? || op.Return? || op.Resume?)
    requires HoldsUp(Do(s, op), t, h)
    ensures HoldsUp(s, t, h)
  {
    if op.Resume? {
      RunMainKeepsTasks(s.(currentSpeech := None));
      RunMainKeepsFlags(s.(currentSpeech := None));
      hide RunMain;
    }
    assert NeverScheduled(s, h);
  }

  lemma EndingGoesOn(s: State, op: Op)
    requires Ending(s) && Enabled(s, op) && (op.Callbacks? || op.Await? || op.Return? || op.Resume?)
    ensures Do(s, op).pc.Exited? || Ending(Do(s, op))
  {
    hide Inv, Known, HoldsUp, Do, Enabled;
    var s' := Do(s, op);
    StepKeeps(s, op);
    KnownStays(s, op);
    StaysDraining(s, op);
    forall t, h | HoldsUp(s', t, h)
      ensures HoldsUp(s, t, h)
    {
      NoNewObstacle(s, op, t, h);
    }
  }

  lemma StaysDraining(s: State, op: Op)
    requires Inv(s) && Enabled(s, op) && s.draining
    ensures Do(s, op).draining
  {
    StepHistory(s, op);
    hide Inv, Do, Enabled;
  }

  /** Tasks whose coroutines are not over. */
  function Going(s: State): set<Task> {
    set t | t in s.speechTasks && !s.speechTasks[t].returned
  }

  /** Tasks that have not reached their wait. */
  function Unready(s: State): set<Task> {
    set t | t in s.speechTasks && Preparing(s, t)
  }

  lemma Fewer(a: set<Task>, b: set<Task>, t: Task)
    requires a == b - {t} && t in b
    ensures |a| < |b|
  {
    assert b == a + {t};
  }

  lemma CallbacksProgress(s: State, t: Task)
    requires Enabled(s, Callbacks(t))
    ensures |Do(s, Callbacks(t)).speechTasks| < |s.speechTasks|
  {
    var after := Do(s, Callbacks(t)).speechTasks;
    Fewer(after.Keys, s.speechTasks.Keys, t);
    assert |after| == |after.Keys| && |s.speechTasks| == |s.speechTasks.Keys|;
  }

  lemma AwaitProgress(s: State, t: Task)
    requires Enabled(s, Op.Await(t))
    ensures var s' := Do(s, Op.Await(t));
      |s'.speechTasks| == |s.speechTasks| && Going(s') == Going(s) && |Unready(s')| < |Unready(s)|
  {
    var s' := Do(s, Op.Await(t));
    SameKeys(s'.speechTasks, s.speechTasks);
    Fewer(Unready(s'), Unready(s), t);
  }

  lemma ReturnProgress(s: State, t: Task)
    requires Enabled(s, Return(t))
    ensures var s' := Do(s, Return(t)); |s'.speechTasks| == |s.speechTasks| && |Going(s')| < |Going(s)|
  {
    var s' := Do(s, Return(t));
    SameKeys(s'.speechTasks, s.speechTasks);
    Fewer(Going(s'), Going(s), t);
  }

  lemma SameKeys(a: map<Task, SpeechTask>, b: map<Task, SpeechTask>)
    requires a.Keys == b.Keys
    ensures |a| == |b|
  {
    assert |a| == |a.Keys| && |b| == |b.Keys|;
  }

  lemma {:induction false} RunMainShrinks(s: State)
    ensures |RunMain(s).speechQ| <= |s.speechQ| && (s.speechQ != [] ==> |RunMain(s).speechQ| < |s.speechQ|)
    decreases |s.speechQ|
  {
    RunMainUnfolds(s);
    hide RunMain;
    if s.speechQ != [] && GoesOn(s) {
      RunMainShrinks(PopAndAuthorise(s).(currentSpeech := None));
    }
  }

  lemma ResumeProgress(s: State)
    requires Enabled(s, Resume) && s.speechQ != []
    ensures var s' := Do(s, Resume); s'.speechTasks == s.speechTasks && |s'.speechQ| < |s.speechQ|
  {
    RunMainKeepsTasks(s.(currentSpeech := None));
    RunMainShrinks(s.(currentSpeech := None));
    hide RunMain;
  }

  /** When no task can go on, each one left waits for a speech still queued, and the loop can resume. */
  lemma LoopCanResume(s: State)
    requires Ending(s)
    requires forall t :: t in s.speechTasks ==> Running(s, t) && !Preparing(s, t) && !MayReturn(s, t)
    ensures CanResume(s) && (s.speechTasks != map[] ==> s.speechQ != [])
  {
    if s.speechTasks != map[] {
      var t :| t in s.speechTasks;
      QueuedForTask(s, t, s.speechTasks[t].owned.value);
    }
  }

  lemma QueuedForTask(s: State, t: Task, h: Handle)
    requires Ending(s) && Running(s, t) && Owns(s, t, h) && !MayReturn(s, t) && s.speechTasks[t].awaiting
    ensures s.speechQ != []
  {
    Unheld(s, t, h);
    assert h in s.speeches;
    var e :| e in s.scheduled && e.speech == h;
    assert e in multiset(s.scheduled);
    assert e in s.played || e in s.speechQ;
  }

  lemma Unheld(s: State, t: Task, h: Handle)
    requires !HeldUp(s)
    ensures !HoldsUp(s, t, h)
  {
  }

  /** With no task left every speech is played out: the loop runs through the queue and exits. */
  lemma {:induction false} NoTasksExits(s: State)
    requires LoopInv(s) && s.draining && s.speechTasks == map[]
    ensures RunMain(s).pc.Exited?
    decreases |s.speechQ|
  {
    RunMainUnfolds(s);
    hide RunMain;
    if s.speechQ != [] {
      PopGoesOn(s);
      GoingOnKeeps(s);
      PopFrame(s);
      hide PopAndAuthorise, LoopInv, GoesOn;
      NoTasksExits(PopAndAuthorise(s).(currentSpeech := None));
    }
  }

  lemma PopFrame(s: State)
    requires s.speechQ != []
    ensures PopAndAuthorise(s).draining == s.draining && PopAndAuthorise(s).speechTasks == s.speechTasks
  {
  }

  lemma PopGoesOn(s: State)
    requires LoopInv(s) && s.speechQ != [] && s.speechTasks == map[]
    ensures GoesOn(s)
  {
    var e := s.speechQ[Least(s.speechQ)];
    PopKeeps(s);
    hide OrderInv;
    assert e in s.speechQ && e in multiset(s.scheduled);
    assert e.speech in s.speeches;
  }

  /** A drain that nothing holds up can end: let the tasks go on, and the loop when none can. */
  lemma {:induction false} UnheldCanEnd(s: State) returns (ops: seq<Op>)
    requires Ending(s)
    ensures Possible(s, ops) && Undisturbed(ops) && After(s, ops).pc.Exited?
    decreases |s.speechTasks|, |Going(s)|, |Unready(s)|, |s.speechQ|
  {
    var op: Op;
    hide Inv, Known, HeldUp, RunMain;
    if t :| t in s.speechTasks && s.speechTasks[t].returned {
      op := Callbacks(t);
      CallbacksProgress(s, t);
    } else if t :| t in s.speechTasks && Preparing(s, t) {
      op := Op.Await(t);
      AwaitProgress(s, t);
    } else if t :| t in s.speechTasks && MayReturn(s, t) {
      op := Return(t);
      ReturnProgress(s, t);
    } else {
      op := Resume;
      LoopCanResume(s);
      if s.speechTasks == map[] {
        LastResume(s);
      } else {
        ResumeProgress(s);
      }
    }
    EndingGoesOn(s, op);
    var s' := Do(s, op);
    var more := [];
    if !s'.pc.Exited? {
      more := UnheldCanEnd(s');
    }
    ops := OneMore(s, op, more);
  }

  lemma LastResume(s: State)
    requires Ending(s) && CanResume(s) && s.speechTasks == map[]
    ensures Do(s, Resume).pc.Exited?
  {
    ResumeEntersLoop(s);
    NoTasksExits(s.(currentSpeech := None));
  }

  lemma OneMore(s: State, op: Op, more: seq<Op>) returns (ops: seq<Op>)
    requires Enabled(s, op) && !op.Interrupt? && !op.Fail?
    requires Possible(Do(s, op), more) && Undisturbed(more) && After(Do(s, op), more).pc.Exited?
    ensures Possible(s, ops) && Undisturbed(ops) && After(s, ops).pc.Exited?
  {
    ops := [op] + more;
    assert ops[0] == op && ops[1..] == more;
    hide Enabled, Do;
  }

  /**
    In every state of a run, a drain under way can come to its end without
    interrupting a speech exactly if no refused speech is left waiting, or about to wait, uninterrupted.
   */
  lemma DrainCanEndIffNotHeldUp(tr: seq<State>, i: nat)
    requires Run(tr) && i < |tr| && tr[i].draining && !tr[i].pc.Exited?
    ensures CanEnd(tr[i]) <==> !HeldUp(tr[i])
  {
    RunKeepsInv(tr, i);
    RunKnown(tr, i);
    hide Inv, Known;
    var s := tr[i];
    if HeldUp(s) {
      var t, h :| HoldsUp(s, t, h);
      forall ops | Possible(s, ops) && Undisturbed(ops)
        ensures !After(s, ops).pc.Exited?
      {
        HeldUpForGood(s, ops, t, h);
      }
    } else {
      var ops := UnheldCanEnd(s);
    }
  }

  /** Step i refused the speech. */
  ghost predicate RefusedIn(tr: seq<State>, i: nat, t: Task, h: Handle) {
    i + 1 < |tr| && tr[i].draining && SayStep(tr[i], tr[i + 1], t, h)
  }

  /** What holds a drain up was refused while draining. */
  lemma {:induction false} HeldUpByRefusal(tr: seq<State>, j: nat, t: Task, h: Handle)
    requires Run(tr) && j < |tr| && HoldsUp(tr[j], t, h)
    ensures exists i: nat :: i < j && RefusedIn(tr, i, t, h)
  {
    hide HoldsUp, Inv, Known, Run;
    if j == 0 {
      NobodyAtFirst(tr, t, h);
    } else {
      var op := LastStep(tr, j);
      if HoldsUp(tr[j - 1], t, h) {
        HeldUpByRefusal(tr, j - 1, t, h);
      } else {
        RunKnown(tr, j - 1);
        NewHoldUp(tr[j - 1], op, t, h);
        hide Do, Enabled;
        assert IsSay(tr[j - 1], tr[j], t, h, op.priority, op.stamp);
        assert RefusedIn(tr, j - 1, t, h);
      }
    }
  }

  lemma NobodyAtFirst(tr: seq<State>, t: Task, h: Handle)
    requires Run(tr)
    ensures !HoldsUp(tr[0], t, h)
  {
  }

  /** A task newly holding the drain up was created by a `say` that was refused. */
  lemma NewHoldUp(s: State, op: Op, t: Task, h: Handle)
    requires Known(s) && Enabled(s, op) && HoldsUp(Do(s, op), t, h) && !HoldsUp(s, t, h)
    ensures op.Say? && op.task == t && op.speech == h && s.draining
  {
    var s' := Do(s, op);
    if op.Resume? {
      RunMainKeepsTasks(s.(currentSpeech := None));
      RunMainKeepsFlags(s.(currentSpeech := None));
      hide RunMain;
    }
    if (op.Say? && !s.draining) || op.ToolReply? {
      assert Entry(op.priority, op.stamp, op.speech) in s'.scheduled;
    }
    assert forall e :: e in s.scheduled ==> e in s'.scheduled;
  }

  // ------------------------------------------------- what the steps are for

  lemma {:induction false} UnscheduledStays(tr: seq<State>, j: nat, k: nat, h: Handle)
    requires Run(tr) && j <= k < |tr| && h in tr[j].speeches && NeverScheduled(tr[j], h)
    ensures NeverScheduled(tr[k], h) && h in tr[k].speeches && !IsAuthorised(tr[k], h)
    decreases k - j
  {
    hide *;
    RunKeepsInv(tr, k);
    if j < k {
      UnscheduledStays(tr, j, k - 1, h);
      var op := LastStep(tr, k);
      StillUnscheduled(tr[k - 1], op, h);
    }
    UnscheduledIsUnauthorised(tr[k], h);
  }

  /** From a drain on, nothing said is ever played. */
  lemma NothingSaidIsPlayed(tr: seq<State>, i: nat, onExit: Task, j: nat, k: nat, t: Task, h: Handle,
                            priority: int, stamp: nat)
    requires Run(tr) && i < j < k < |tr| && Enabled(tr[i], Drain(onExit)) && tr[i + 1] == Do(tr[i], Drain(onExit))
    requires IsSay(tr[j], tr[j + 1], t, h, priority, stamp)
    ensures !IsAuthorised(tr[k], h)
  {
    assert tr[i + 1].draining;
    HistoryGrows(tr, i + 1, j);
    RunKeepsInv(tr, j);
    RefusedIsUnscheduled(tr[j], t, h, priority, stamp);
    hide Run, NeverScheduled, IsSay, Do;
    assert IsSay(tr[j], tr[j + 1], t, h, priority, stamp);
    SayMeans(tr[j], tr[j + 1], t, h, priority, stamp);
    UnscheduledStays(tr, j + 1, k, h);
  }

  lemma SayMeans(s: State, s': State, t: Task, h: Handle, priority: int, stamp: nat)
    requires IsSay(s, s', t, h, priority, stamp)
    ensures s' == Do(s, Say(t, h, priority, stamp))
  {
  }

  lemma RefusedIsUnscheduled(s: State, t: Task, h: Handle, priority: int, stamp: nat)
    requires Inv(s) && s.draining && Enabled(s, Say(t, h, priority, stamp))
    ensures var s' := Do(s, Say(t, h, priority, stamp)); NeverScheduled(s', h) && h in s'.speeches
  {
    FreshIsUnscheduled(s, h);
  }

  /** Interrupting a speech not yet played out lets its waiting task go on; it holds up no drain any more. */
  lemma InterruptionFrees(s: State, t: Task, h: Handle)
    requires Waits(s, t, h) && h in s.speeches && !IsDone(s, h)
    ensures Enabled(s, Interrupt(h))
    ensures var s' := Do(s, Interrupt(h)); Enabled(s', Return(t)) && !HoldsUp(s', t, h)
  {
  }

  /** A speech that is done cannot be interrupted any more. */
  lemma DoneIsNotInterrupted(s: State, h: Handle)
    requires Enabled(s, Interrupt(h)) && IsDone(s, h)
    ensures IsInterrupted(Do(s, Interrupt(h)), h) <==> IsInterrupted(s, h)
  {
  }

  /** A task that fails before its wait holds up nothing either, and its callbacks take it off the list. */
  lemma FailureFrees(s: State, t: Task, h: Handle)
    requires Enabled(s, Fail(t))
    ensures var s1 := Do(s, Fail(t));
      && !HoldsUp(s1, t, h) && Enabled(s1, Callbacks(t))
      && t !in Do(s1, Callbacks(t)).speechTasks
  {
  }

  /** The speech the loop waits for is played out by its task, or by the end of it: the loop goes on. */
  lemma PlayoutLetsTheLoopOn(s: State, t: Task, h: Handle)
    requires Inv(s) && s.pc == Playing(h) && Owns(s, t, h)
    ensures Enabled(s, MarkPlayedOut(t)) ==> CanResume(Do(s, MarkPlayedOut(t)))
    ensures Enabled(s, Callbacks(t)) ==> CanResume(Do(s, Callbacks(t)))
  {
    hide HistoryInv, OrderInv, OwnerInv;
  }

  /** Whatever happens to the tasks wakes a blocked loop: a speech scheduled, a task's end, a drain. */
  lemma BlockedLoopWakes(s: State, op: Op)
    requires s.pc.Blocked? && Enabled(s, op)
    requires (op.Say? && !s.draining) || op.ToolReply? || op.Callbacks? || op.Drain?
    ensures CanResume(Do(s, op))
  {
  }

  /** The step lists a new task: a speech, a tool reply, a task of the activity's own, or the drain's `on_exit`. */
  predicate Lists(s: State, op: Op, t: Task) {
    match op
    case Spawn(u) => u == t
    case Say(u, _, _, _) => u == t
    case ToolReply(_, u, _, _, _) => u == t
    case Drain(u) => u == t
    case _ => false
  }

  /** Between i and k some step took the task off the list: its callbacks. */
  ghost predicate TakenOffBetween(tr: seq<State>, i: nat, k: nat, t: Task) {
    exists j :: i <= j < k && k < |tr| && TakenOffAt(tr, j, t)
  }

  ghost predicate TakenOffAt(tr: seq<State>, j: nat, t: Task) {
    && 0 <= j && j + 1 < |tr| && t in tr[j].speechTasks
    && Enabled(tr[j], Callbacks(t)) && tr[j + 1] == Do(tr[j], Callbacks(t))
  }

  /** The loop does not exit before every task listed earlier, the drain's own included, is over and off the list. */
  lemma ExitWaitsForTasks(tr: seq<State>, i: nat, k: nat, op: Op, t: Task)
    requires Run(tr) && i < k < |tr| && Enabled(tr[i], op) && tr[i + 1] == Do(tr[i], op) && Lists(tr[i], op, t)
    requires !tr[i].pc.Exited? && tr[k].pc.Exited?
    ensures TakenOffBetween(tr, i + 1, k, t)
  {
    hide Run, Do;
    ListedNow(tr[i], op, t);
    if !TakenOffBetween(tr, i + 1, k, t) {
      StaysListed(tr, i + 1, k, t);
    }
  }

  lemma ListedNow(s: State, op: Op, t: Task)
    requires Enabled(s, op) && Lists(s, op, t)
    ensures t in Do(s, op).speechTasks && (Do(s, op).pc == s.pc)
  {
  }

  lemma {:induction false} StaysListed(tr: seq<State>, i: nat, k: nat, t: Task)
    requires Run(tr) && i <= k < |tr| && t in tr[i].speechTasks && !tr[i].pc.Exited?
    requires !TakenOffBetween(tr, i, k, t)
    ensures t in tr[k].speechTasks && !tr[k].pc.Exited?
    decreases k - i
  {
    hide Run, Do, Enabled;
    if i < k {
      TakenOffGrows(tr, i, k, t);
      StaysListed(tr, i, k - 1, t);
      var op := LastStep(tr, k);
      assert op != Callbacks(t) by { NotTakenOff(tr, i, k, t, op); }
      OnlyCallbacksUnlist(tr[k - 1], op, t);
    }
  }

  lemma TakenOffGrows(tr: seq<State>, i: nat, k: nat, t: Task)
    requires 0 < k < |tr|
    ensures TakenOffBetween(tr, i, k - 1, t) ==> TakenOffBetween(tr, i, k, t)
  {
    hide TakenOffAt;
  }

  lemma NotTakenOff(tr: seq<State>, i: nat, k: nat, t: Task, op: Op)
    requires i < k < |tr| && t in tr[k - 1].speechTasks && Enabled(tr[k - 1], op) && tr[k] == Do(tr[k - 1], op)
    requires !TakenOffBetween(tr, i, k, t)
    ensures op != Callbacks(t)
  {
    assert !TakenOffAt(tr, k - 1, t);
  }

  lemma OnlyCallbacksUnlist(s: State, op: Op, t: Task)
    requires Enabled(s, op) && t in s.speechTasks && op != Callbacks(t)
    ensures t in Do(s, op).speechTasks
  {
    hide RunMain;
    if op.Resume? {
      RunMainKeepsTasks(s.(currentSpeech := None));
    }
  }
}
