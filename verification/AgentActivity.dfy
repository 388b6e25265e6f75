/**
  The scheduling methods of `AgentActivity`, over its own fields. Each is
  proved to perform the segment of the same name in `Scheduler`.
 */
module AgentActivities {
  import opened Wrappers
  import opened Scheduler

  class AgentActivity {
    var mainTask: Pc
    var currentSpeech: Option<Handle>
    var speechQ: seq<Entry>
    var qUpdated: bool
    var draining: bool
    var speechTasks: map<Task, SpeechTask>
    var speeches: map<Handle, Speech>
    ghost var clock: nat
    ghost var scheduled: seq<Entry>
    ghost var played: seq<Entry>

    ghost function Now(): State
      reads this
    {
      State(mainTask, currentSpeech, speechQ, qUpdated, draining, speechTasks, speeches, clock, scheduled, played)
    }

    /** What the theorems about runs rest on holds between any two steps. */
    ghost predicate Valid()
      reads this
    {
      Inv(Now())
    }

    /** The fields after `__init__`, the main task suspended on the event it has just started to wait for. */
    constructor ()
      ensures Valid() && Now() == Initial
    {
      mainTask, currentSpeech, speechQ := Blocked, None, [];
      qUpdated, draining, speechTasks, speeches := false, false, map[], map[];
      clock, scheduled, played := 0, [], [];
    }

    /** `_wake_up_main_task`. */
    method WakeUpMainTask()
      modifies this`qUpdated
      ensures qUpdated
    {
      qUpdated := true;
    }

    /** `_create_speech_task`, with the handle created just before it if there is one. */
    method CreateSpeechTask(task: Task, owned: Option<Handle>)
      modifies this`speechTasks, this`speeches
      ensures Now() == Created(old(Now()), task, owned)
    {
      if owned.Some? {
        speeches := speeches[owned.value := Speech(false, false, false)];
      }
      speechTasks := speechTasks[task := SpeechTask(owned, false, false)];
    }

    /** `_schedule_speech`: false when it raises. */
    method ScheduleSpeech(speech: Handle, priority: int, now: nat, bypassDraining: bool) returns (accepted: bool)
      requires clock < now
      modifies this`speechQ, this`qUpdated, this`clock, this`scheduled
      ensures accepted <==> !draining || bypassDraining
      ensures Now() == Scheduled(old(Now()), speech, priority, now, bypassDraining)
    {
      if draining && !bypassDraining {
        return false;
      }
      speechQ := speechQ + [Entry(priority, now, speech)];
      clock, scheduled := now, scheduled + [Entry(priority, now, speech)];
      WakeUpMainTask();
      return true;
    }

    /** `say` and `_generate_reply`: the task is created before scheduling may raise. */
    method Say(task: Task, speech: Handle, priority: int, now: nat) returns (accepted: bool)
      requires Valid() && Enabled(Now(), Op.Say(task, speech, priority, now))
      modifies this
      ensures accepted <==> !old(draining)
      ensures Valid() && Now() == Do(old(Now()), Op.Say(task, speech, priority, now))
    {
      hide Inv;
      StepKeeps(Now(), Op.Say(task, speech, priority, now));
      CreateSpeechTask(task, Some(speech));
      accepted := ScheduleSpeech(speech, priority, now, false);
    }

    /** The end of `_pipeline_reply_task`: a tool reply, scheduled even under drain. */
    method ToolReply(parent: Task, task: Task, speech: Handle, priority: int, now: nat)
      requires Valid() && Enabled(Now(), Op.ToolReply(parent, task, speech, priority, now))
      modifies this
      ensures Valid() && Now() == Do(old(Now()), Op.ToolReply(parent, task, speech, priority, now))
    {
      hide Inv;
      StepKeeps(Now(), Op.ToolReply(parent, task, speech, priority, now));
      CreateSpeechTask(task, Some(speech));
      var accepted := ScheduleSpeech(speech, priority, now, true);
      assert accepted;
    }

    /** `_mark_playout_done` of a handle; resolving the future again is suppressed. */
    method MarkPlayoutDone(owned: Option<Handle>)
      modifies this`speeches
      ensures Now() == PlayedOut(old(Now()), owned)
    {
      if owned.Some? && owned.value in speeches {
        speeches := speeches[owned.value := speeches[owned.value].(playedOut := true)];
      }
    }

    /** A task that has played its speech marks it done before it goes on to its tools. */
    method FinishPlayout(task: Task)
      requires Valid() && Enabled(Now(), MarkPlayedOut(task))
      modifies this`speeches
      ensures Valid() && Now() == Do(old(Now()), MarkPlayedOut(task))
    {
      hide Inv;
      StepKeeps(Now(), MarkPlayedOut(task));
      MarkPlayoutDone(speechTasks[task].owned);
    }

    /** `SpeechHandle.interrupt` of a speech that allows it: nothing if it is done. */
    method InterruptSpeech(speech: Handle)
      requires Valid() && speech in speeches
      modifies this`speeches
      ensures Valid() && Now() == Do(old(Now()), Interrupt(speech))
    {
      hide Inv;
      StepKeeps(Now(), Interrupt(speech));
      if !speeches[speech].playedOut {
        speeches := speeches[speech := speeches[speech].(interrupted := true)];
      }
    }

    /** The done callbacks of a speech task, in the order they were added. */
    method TaskDone(task: Task)
      requires Valid() && Enabled(Now(), Callbacks(task))
      modifies this
      ensures Valid() && Now() == Do(old(Now()), Callbacks(task))
    {
      hide Inv;
      StepKeeps(Now(), Callbacks(task));
      var owned := speechTasks[task].owned;
      speechTasks := speechTasks - {task};
      MarkPlayoutDone(owned);
      WakeUpMainTask();
    }

    /** `drain` up to its await. */
    method BeginDrain(onExit: Task)
      requires Valid() && Enabled(Now(), Op.Drain(onExit))
      modifies this
      ensures Valid() && Now() == Do(old(Now()), Op.Drain(onExit))
    {
      hide Inv;
      StepKeeps(Now(), Op.Drain(onExit));
      CreateSpeechTask(onExit, None);
      WakeUpMainTask();
      draining := true;
    }

    /** `_authorize_playout`: raises when the handle was already authorised. */
    method AuthorisePlayout(e: Entry) returns (raised: bool)
      modifies this`speeches, this`played
      ensures raised <==> e.speech !in old(speeches) || old(speeches)[e.speech].authorised
      ensures raised ==> speeches == old(speeches) && played == old(played)
      ensures !raised ==> played == old(played) + [e]
      ensures !raised ==> speeches == old(speeches)[e.speech := old(speeches)[e.speech].(authorised := true)]
    {
      if e.speech !in speeches || speeches[e.speech].authorised {
        return true;
      }
      speeches := speeches[e.speech := speeches[e.speech].(authorised := true)];
      played := played + [e];
      return false;
    }

    /** `heapq.heappop`. */
    method HeapPop() returns (e: Entry)
      requires speechQ != []
      modifies this`speechQ
      ensures e == old(speechQ)[Least(old(speechQ))] && speechQ == Removed(old(speechQ), Least(old(speechQ)))
    {
      var k := Least(speechQ);
      e := speechQ[k];
      speechQ := Removed(speechQ, k);
    }

    /** The inner loop of `_main_task` up to its await: pop, publish, authorise. */
    method AuthoriseNext()
      requires speechQ != []
      modifies this
      ensures Now() == PopAndAuthorise(old(Now()))
    {
      var speech := HeapPop();
      currentSpeech := Some(speech.speech);
      var raised := AuthorisePlayout(speech);
      if raised {
        mainTask := Crashed;
      } else {
        mainTask := Playing(speech.speech);
      }
    }

    /** `_main_task` from one suspension to the next. */
    method MainSegment()
      requires Valid() && CanResume(Now())
      modifies this
      ensures Valid() && Now() == Do(old(Now()), Resume)
    {
      hide PopAndAuthorise, RunMain, Inv;
      StepKeeps(Now(), Resume);
      currentSpeech := None;
      while speechQ != []
        invariant RunMain(Now()) == RunMain(old(Now()).(currentSpeech := None))
        decreases |speechQ|
      {
        RunMainUnfolds(Now());
        PopShortens(Now());
        AuthoriseNext();
        if !mainTask.Playing? || !(mainTask.speech in speeches && speeches[mainTask.speech].playedOut) {
          return;
        }
        currentSpeech := None;
      }
      RunMainUnfolds(Now());
      if draining && speechTasks == map[] {
        mainTask := Exited;
        return;
      }
      qUpdated := false;
      mainTask := Blocked;
    }

    lemma PopShortens(s: State)
      requires s.speechQ != []
      ensures |PopAndAuthorise(s).speechQ| < |s.speechQ|
    {
    }
  }
}
