/** The `ProcPool` object: what each of its tasks does between two awaits, proved against `Processes`. */
module ProcPools {
  import opened Processes

  class ProcPool {
    const defaultNumIdleProcesses: nat
    const maxConcurrentInitializations: nat
    var targetIdleProcesses: nat
    var executors: seq<nat>
    var spawnTasks: map<nat, Step>
    var nextTask: nat
    var monitorTasks: set<nat>
    var warmedProcQueue: seq<nat>
    var jobsWaitingForProcess: nat
    var idleReady: bool
    var closed: bool

    // Of the executors: those initialised, and the running jobs.
    var initialized: set<nat>
    var running: map<nat, nat>

    // History.
    ghost var warmed: seq<nat>
    ghost var launched: seq<nat>
    ghost var refusals: nat
    ghost var waiting: set<nat>
    ghost var jobs: seq<nat>
    ghost var cancelled: nat
    ghost var crashed: set<nat>

    ghost function Abs(): State
      reads this
    {
      State(AbsProcs(), AbsLine(), AbsWaits(), idleReady, closed)
    }

    ghost function AbsLine(): Line
      reads this`warmedProcQueue, this`initialized, this`running, this`warmed, this`launched, this`refusals
    {
      Line(warmedProcQueue, initialized, running, warmed, launched, refusals)
    }

    ghost function AbsWaits(): Waits
      reads this`jobsWaitingForProcess, this`waiting, this`jobs, this`cancelled
    {
      Waits(jobsWaitingForProcess, waiting, jobs, cancelled)
    }

    ghost function AbsProcs(): Procs
      reads this`executors, this`spawnTasks, this`nextTask, this`monitorTasks, this`crashed
    {
      Procs(executors, spawnTasks, nextTask, monitorTasks, crashed)
    }

    function Cfg(): Config {
      Config(defaultNumIdleProcesses, maxConcurrentInitializations)
    }

    ghost predicate Valid()
      reads this
    {
      Inv(Cfg(), Abs())
    }

    constructor (numIdleProcesses: nat, maxConcurrentInitializations: nat)
      ensures Valid() && Abs() == Initial && targetIdleProcesses == numIdleProcesses
      ensures Cfg() == Config(numIdleProcesses, maxConcurrentInitializations)
    {
      defaultNumIdleProcesses, targetIdleProcesses := numIdleProcesses, numIdleProcesses;
      this.maxConcurrentInitializations := maxConcurrentInitializations;
      executors, spawnTasks, nextTask, monitorTasks := [], map[], 0, {};
      warmedProcQueue, jobsWaitingForProcess, idleReady, closed := [], 0, false, false;
      initialized, running := {}, map[];
      warmed, launched, refusals, waiting, jobs, cancelled, crashed := [], [], 0, {}, [], 0, {};
      new;
      assert Starters(AbsProcs()) == {};
    }

    /** `create_task(self._proc_spawn_task())`, kept in `_spawn_tasks`. */
    method Spawn()
      modifies this`spawnTasks, this`nextTask
      ensures AbsProcs() == Spawned(old(AbsProcs()), 1)
      ensures forall n: nat :: Spawned(AbsProcs(), n) == Spawned(old(AbsProcs()), n + 1)
    {
      spawnTasks, nextTask := spawnTasks[nextTask := Created], nextTask + 1;
    }

    /** `launch_job` up to its wait on the queue. */
    method LaunchJob(ghost job: nat)
      requires Valid() && job !in waiting && job !in jobs
      modifies this`spawnTasks, this`nextTask, this`jobsWaitingForProcess, this`waiting
      ensures Valid() && Abs() == Do(Cfg(), old(Abs()), Launch(job))
    {
      hide Inv, Spawned, Do;
      LaunchMeans(Cfg(), Abs(), job);
      StepKeeps(Cfg(), Abs(), Launch(job));
      hide Enabled;
      CountIn(job);
      if warmedProcQueue == [] && |spawnTasks| < jobsWaitingForProcess {
        Spawn();
      }
    }

    /** `launch_job` from its `get` on: the executor's guards do not raise, and the job runs on it. */
    method TakeProcess(job: nat) returns (proc: nat)
      requires Valid() && job in waiting && warmedProcQueue != []
      modifies this`warmedProcQueue, this`jobsWaitingForProcess, this`running, this`waiting, this`launched, this`jobs
      ensures Valid() && Abs() == Do(Cfg(), old(Abs()), Takes(job))
      ensures proc == old(warmedProcQueue)[0] && proc in initialized && proc !in old(running)
      ensures running == old(running)[proc := job]
    {
      hide Inv, Do, Enabled;
      TakesMeans(Cfg(), Abs(), job);
      StepKeeps(Cfg(), Abs(), Takes(job));
      proc := GetAndRun(job);
      CountOut(job);
    }

    method CountIn(ghost job: nat)
      modifies this`jobsWaitingForProcess, this`waiting
      ensures AbsWaits() == old(AbsWaits()).(count := old(jobsWaitingForProcess) + 1, waiting := old(waiting) + {job})
    {
      jobsWaitingForProcess, waiting := jobsWaitingForProcess + 1, waiting + {job};
    }

    method CountOut(ghost job: nat)
      requires jobsWaitingForProcess > 0
      modifies this`jobsWaitingForProcess, this`waiting, this`jobs
      ensures AbsWaits() ==
        old(AbsWaits()).(count := old(jobsWaitingForProcess) - 1, waiting := old(waiting) - {job},
                         jobs := old(jobs) + [job])
    {
      jobsWaitingForProcess, waiting, jobs := jobsWaitingForProcess - 1, waiting - {job}, jobs + [job];
    }

    /** The head of the queue starts the job; `requires` is what the guards of `JobExecutor.launch_job` check. */
    method GetAndRun(job: nat) returns (proc: nat)
      requires warmedProcQueue != [] && warmedProcQueue[0] !in running && warmedProcQueue[0] in initialized
      modifies this`warmedProcQueue, this`running, this`launched
      ensures proc == old(warmedProcQueue)[0] && running == old(running)[proc := job]
      ensures AbsLine() == old(AbsLine()).(queue := old(warmedProcQueue)[1..], launched := old(launched) + [proc],
                                           running := old(running)[proc := job])
    {
      proc := warmedProcQueue[0];
      warmedProcQueue := warmedProcQueue[1..];
      running, launched := running[proc := job], launched + [proc];
    }

    /** A launch cancelled in its wait: the count is left as it is. */
    ghost method CancelLaunch(job: nat)
      requires Valid() && job in waiting
      modifies this`waiting, this`cancelled
      ensures Valid() && Abs() == Do(Cfg(), old(Abs()), Cancels(job))
    {
      hide Inv;
      StepKeeps(Cfg(), Abs(), Cancels(job));
      waiting, cancelled := waiting - {job}, cancelled + 1;
    }

    /** The start of `_proc_spawn_task`. */
    method MakeExecutor(t: nat)
      requires Valid() && At(AbsProcs(), t, Created)
      modifies this`executors, this`spawnTasks
      ensures Valid() && Abs() == Do(Cfg(), old(Abs()), Runs(t))
    {
      hide Inv;
      StepKeeps(Cfg(), Abs(), Runs(t));
      executors, spawnTasks := executors + [t], spawnTasks[t := Queued];
    }

    /** Inside the semaphore: give up if the pool was closed meanwhile. */
    method EnterSemaphore(t: nat)
      requires Valid() && Enabled(Cfg(), Abs(), Acquires(t))
      modifies this`executors, this`spawnTasks
      ensures Valid() && Abs() == Do(Cfg(), old(Abs()), Acquires(t))
    {
      hide Inv;
      StepKeeps(Cfg(), Abs(), Acquires(t));
      MayRemove(Cfg(), Abs(), t);
      if closed {
        RemoveExecutor(t);
        spawnTasks := spawnTasks[t := Ended];
      } else {
        spawnTasks := spawnTasks[t := Starting];
      }
    }

    /** `list.remove`, which raises if the executor is not there. */
    method RemoveExecutor(e: nat)
      requires e in executors
      modifies this`executors
      ensures executors == Without(old(executors), e)
    {
      var i: nat := 0;
      while executors[i] != e
        invariant i < |executors| && e in executors[i..] && e !in executors[..i] && executors == old(executors)
        decreases |executors| - i
      {
        assert executors[i..] == [executors[i]] + executors[i + 1..];
        assert executors[..i + 1] == executors[..i] + [executors[i]];
        i := i + 1;
      }
      WithoutAt(executors, i, e);
      executors := executors[..i] + executors[i + 1..];
    }

    /** `initialize` returned: the executor joins the queue, once, and is monitored. */
    method ProcessReady(t: nat)
      requires Valid() && At(AbsProcs(), t, Starting)
      modifies this`spawnTasks, this`monitorTasks, this`initialized, this`warmedProcQueue, this`idleReady, this`warmed
      ensures Valid() && Abs() == Do(Cfg(), old(Abs()), InitSucceeds(t))
      ensures t !in old(warmed) && warmedProcQueue == old(warmedProcQueue) + [t]
    {
      hide Inv, Do;
      WarmedMeans(Cfg(), Abs(), t);
      StepKeeps(Cfg(), Abs(), InitSucceeds(t));
      hide Enabled;
      PutInQueue(t);
      if |warmedProcQueue| >= defaultNumIdleProcesses {
        idleReady := true;
      }
      Monitor(t);
    }

    method PutInQueue(t: nat)
      modifies this`initialized, this`warmedProcQueue, this`warmed
      ensures AbsLine() == old(AbsLine()).(initialized := old(initialized) + {t},
                                           queue := old(warmedProcQueue) + [t], warmed := old(warmed) + [t])
    {
      initialized, warmedProcQueue, warmed := initialized + {t}, warmedProcQueue + [t], warmed + [t];
    }

    /** The task's end: its executor is monitored from now on. */
    method Monitor(t: nat)
      modifies this`spawnTasks, this`monitorTasks
      ensures AbsProcs() ==
        old(AbsProcs()).(tasks := old(spawnTasks)[t := Ended], monitors := old(monitorTasks) + {t})
    {
      spawnTasks, monitorTasks := spawnTasks[t := Ended], monitorTasks + {t};
    }

    /** `start` or `initialize` raised; only in the second case is the executor monitored. */
    method ProcessFailed(t: nat, started: bool)
      requires Valid() && At(AbsProcs(), t, Starting)
      modifies this`spawnTasks, this`monitorTasks, this`crashed
      ensures Valid() && Abs() == Do(Cfg(), old(Abs()), if started then InitFails(t) else Crashes(t))
    {
      hide Inv;
      StepKeeps(Cfg(), Abs(), if started then InitFails(t) else Crashes(t));
      spawnTasks := spawnTasks[t := Ended];
      if started {
        monitorTasks := monitorTasks + {t};
      } else {
        crashed := crashed + {t};
      }
    }

    /** `_spawn_tasks.discard`, the done callback. */
    method DiscardTask(t: nat)
      requires Valid() && At(AbsProcs(), t, Ended)
      modifies this`spawnTasks
      ensures Valid() && Abs() == Do(Cfg(), old(Abs()), Discards(t))
    {
      hide Inv;
      StepKeeps(Cfg(), Abs(), Discards(t));
      spawnTasks := spawnTasks - {t};
    }

    /** `_monitor_process_task` after its `join`. */
    method ProcessExited(e: nat)
      requires Valid() && e in monitorTasks
      modifies this`executors, this`monitorTasks
      ensures Valid() && Abs() == Do(Cfg(), old(Abs()), Exits(e))
    {
      hide Inv;
      StepKeeps(Cfg(), Abs(), Exits(e));
      MayRemove(Cfg(), Abs(), e);
      RemoveExecutor(e);
      monitorTasks := monitorTasks - {e};
    }

    /** A turn of `_main_task`. */
    method KeepIdle()
      requires Valid() && !closed
      modifies this`spawnTasks, this`nextTask
      ensures Valid() && Abs() == Do(Cfg(), old(Abs()), Tick(targetIdleProcesses))
    {
      StepKeeps(Cfg(), Abs(), Tick(targetIdleProcesses));
      hide Inv;
      var wanted: nat :=
        if targetIdleProcesses < defaultNumIdleProcesses then targetIdleProcesses else defaultNumIdleProcesses;
      var pending: nat := |warmedProcQueue| + |spawnTasks|;
      if wanted > pending {
        var toSpawn: nat := wanted - pending;
        ghost var target := Spawned(AbsProcs(), toSpawn);
        for i := 0 to toSpawn
          invariant Spawned(AbsProcs(), toSpawn - i) == target
        {
          Spawn();
        }
      }
    }

    /** `aclose` sets the flag, then cancels the main loop. */
    method Close()
      requires Valid()
      modifies this`closed
      ensures Valid() && Abs() == Do(Cfg(), old(Abs()), Closes)
    {
      hide Inv;
      StepKeeps(Cfg(), Abs(), Closes);
      closed := true;
    }
  }
}
