/**
  `ProcPool` over every interleaving of launches, spawn tasks, process exits and
  the main loop. One `Op` is what happens between two awaits. A spawn task makes
  one executor, so task and executor share a number.
 */
module Processes {
  import opened Sequences

  /** `idle` is the default number of idle processes, `permits` that of concurrent initialisations. */
  datatype Config = Config(idle: nat, permits: nat)

  /** Not run yet; waiting for the semaphore; initialising its executor; ended but still in `_spawn_tasks`. */
  datatype Step = Created | Queued | Starting | Ended

  /** `_executors`, `_spawn_tasks`, `_monitor_tasks`; history: the executors whose `start` raised. */
  datatype Procs =
    Procs(executors: seq<nat>, tasks: map<nat, Step>, nextTask: nat, monitors: set<nat>, crashed: set<nat>)

  /**
    The warmed queue and what executors record: those initialised, and the job each runs. History: executors
    in the order they entered the queue and left it, and how often an executor's guards raised.
   */
  datatype Line = Line(queue: seq<nat>, initialized: set<nat>, running: map<nat, nat>,
                       warmed: seq<nat>, launched: seq<nat>, refusals: nat)

  /** `_jobs_waiting_for_process`, the launches awaiting the queue, those served, in order, and how many gave up. */
  datatype Waits = Waits(count: nat, waiting: set<nat>, jobs: seq<nat>, cancelled: nat)

  datatype State = State(procs: Procs, line: Line, waits: Waits, idleReady: bool, closed: bool)

  const Initial :=
    State(Procs([], map[], 0, {}, {}), Line([], {}, map[], [], [], 0), Waits(0, {}, [], 0), false, false)

  datatype Op =
    | Tick(target: nat)        // a turn of the main loop
    | Launch(job: nat)         // `launch_job` up to its wait on the queue
    | Runs(t: nat)             // a spawn task begins: its executor is made
    | Acquires(t: nat)         // the semaphore lets it in
    | Crashes(t: nat)          // `start` raises
    | InitFails(t: nat)
    | InitSucceeds(t: nat)
    | Discards(t: nat)         // the done callback
    | Takes(job: nat)          // a waiting launch gets the head of the queue
    | Cancels(job: nat)        // a waiting launch is cancelled
    | Exits(e: nat)            // a monitored process ends
    | Closes

  predicate At(p: Procs, t: nat, step: Step) {
    t in p.tasks && p.tasks[t] == step
  }

  function Starters(p: Procs): set<nat> {
    set t | t in p.tasks && p.tasks[t] == Starting
  }

  /** Any waiting launch may get the head: a newcomer can be served before an older one. */
  predicate Enabled(cfg: Config, s: State, op: Op) {
    match op
    case Tick(_) => !s.closed
    case Launch(job) => job !in s.waits.waiting && job !in s.waits.jobs
    case Runs(t) => At(s.procs, t, Created)
    case Acquires(t) => At(s.procs, t, Queued) && |Starters(s.procs)| < cfg.permits
    case Crashes(t) => At(s.procs, t, Starting)
    case InitFails(t) => At(s.procs, t, Starting)
    case InitSucceeds(t) => At(s.procs, t, Starting)
    case Discards(t) => At(s.procs, t, Ended)
    case Takes(job) => job in s.waits.waiting && s.line.queue != [] && s.waits.count > 0
    case Cancels(job) => job in s.waits.waiting
    case Exits(e) => e in s.procs.monitors
    case Closes => true
  }

  /** `create_task(self._proc_spawn_task())`, n times. */
  function Spawned(p: Procs, n: nat): Procs
    decreases n
  {
    if n == 0 then p
    else Spawned(p.(tasks := p.tasks[p.nextTask := Created], nextTask := p.nextTask + 1), n - 1)
  }

  /** `list.remove`: the first occurrence, if any. */
  function Without(es: seq<nat>, e: nat): seq<nat> {
    if es == [] then [] else if es[0] == e then es[1..] else [es[0]] + Without(es[1..], e)
  }

  function Moved(p: Procs, t: nat, step: Step): Procs {
    p.(tasks := p.tasks[t := step])
  }

  function ToSpawn(cfg: Config, s: State, target: nat): int {
    (if target < cfg.idle then target else cfg.idle) - (|s.line.queue| + |s.procs.tasks|)
  }

  /** The executor joins the queue. */
  function Warmed(l: Line, e: nat): Line {
    l.(initialized := l.initialized + {e}, queue := l.queue + [e], warmed := l.warmed + [e])
  }

  /** The head leaves the queue; its guards, then the job is running. */
  function Taken(l: Line, job: nat): Line
    requires l.queue != []
  {
    var e := l.queue[0];
    var l1 := l.(queue := l.queue[1..], launched := l.launched + [e]);
    if e in l.running || e !in l.initialized then l1.(refusals := l.refusals + 1)
    else l1.(running := l.running[e := job])
  }

  function ProcsAfter(cfg: Config, s: State, op: Op): Procs
    requires Enabled(cfg, s, op)
  {
    var p := s.procs;
    match op
    case Tick(target) => var n := ToSpawn(cfg, s, target); if n > 0 then Spawned(p, n) else p
    case Launch(job) => if s.line.queue == [] && |p.tasks| < s.waits.count + 1 then Spawned(p, 1) else p
    case Runs(t) => Moved(p, t, Queued).(executors := p.executors + [t])
    case Acquires(t) =>
      if s.closed then Moved(p, t, Ended).(executors := Without(p.executors, t)) else Moved(p, t, Starting)
    case Crashes(t) => Moved(p, t, Ended).(crashed := p.crashed + {t})
    case InitFails(t) => Moved(p, t, Ended).(monitors := p.monitors + {t})
    case InitSucceeds(t) => Moved(p, t, Ended).(monitors := p.monitors + {t})
    case Discards(t) => p.(tasks := p.tasks - {t})
    case Exits(e) => p.(executors := Without(p.executors, e), monitors := p.monitors - {e})
    case _ => p
  }

  function WaitsAfter(cfg: Config, s: State, op: Op): Waits
    requires Enabled(cfg, s, op)
  {
    var w := s.waits;
    match op
    case Launch(job) => w.(count := w.count + 1, waiting := w.waiting + {job})
    case Takes(job) => w.(count := w.count - 1, waiting := w.waiting - {job}, jobs := w.jobs + [job])
    case Cancels(job) => w.(waiting := w.waiting - {job}, cancelled := w.cancelled + 1)
    case _ => w
  }

  function LineAfter(cfg: Config, s: State, op: Op): Line
    requires Enabled(cfg, s, op)
  {
    match op
    case InitSucceeds(t) => Warmed(s.line, t)
    case Takes(job) => Taken(s.line, job)
    case _ => s.line
  }

  function Do(cfg: Config, s: State, op: Op): State
    requires Enabled(cfg, s, op)
  {
    State(ProcsAfter(cfg, s, op), LineAfter(cfg, s, op), WaitsAfter(cfg, s, op),
          s.idleReady || (op.InitSucceeds? && |s.line.queue| + 1 >= cfg.idle), s.closed || op.Closes?)
  }

  // -------------------------------------------------------------- invariants

  /** Executors enter the queue once, initialised, and leave it in that order, each for one job. */
  ghost predicate LineInv(l: Line) {
    && Distinct(l.warmed) && l.launched + l.queue == l.warmed
    && (forall e :: e in l.warmed <==> e in l.initialized)
    && (forall e :: e in l.running <==> e in l.launched)
    && l.refusals == 0
  }

  /** Only a task not yet through initialisation can still warm its executor. */
  ghost predicate TasksInv(p: Procs, initialized: set<nat>) {
    && (forall t :: t in p.tasks ==> t < p.nextTask)
    && (forall e :: e in initialized ==> e < p.nextTask)
    && (forall e :: e in initialized && e in p.tasks ==> p.tasks[e] == Ended)
  }

  /**
    The executors listed are, once each, those queued for the semaphore or
    starting, the monitored ones, and those whose start raised.
   */
  ghost predicate ListInv(p: Procs) {
    && Distinct(p.executors)
    && (forall e :: e in p.executors <==> At(p, e, Queued) || At(p, e, Starting) || e in p.monitors || e in p.crashed)
    && (forall e :: e in p.monitors || e in p.crashed ==> e < p.nextTask && (e in p.tasks ==> p.tasks[e] == Ended))
    && p.monitors !! p.crashed
  }

  /** The counter of waiting jobs also counts those that gave up. */
  ghost predicate WaitsInv(w: Waits) {
    && w.count == |w.waiting| + w.cancelled
    && Distinct(w.jobs)
    && (forall j :: j in w.waiting ==> j !in w.jobs)
  }

  /** The k-th job served runs on the k-th executor taken. */
  ghost predicate Matched(l: Line, w: Waits) {
    && |w.jobs| == |l.launched|
    && (forall k :: 0 <= k < |w.jobs| ==> l.launched[k] in l.running && l.running[l.launched[k]] == w.jobs[k])
  }

  ghost predicate BoundsInv(cfg: Config, s: State) {
    && |Starters(s.procs)| <= cfg.permits
    && (s.idleReady ==> |s.line.warmed| >= cfg.idle)
  }

  ghost predicate Inv(cfg: Config, s: State) {
    && LineInv(s.line) && TasksInv(s.procs, s.line.initialized) && ListInv(s.procs)
    && WaitsInv(s.waits) && Matched(s.line, s.waits) && BoundsInv(cfg, s)
  }

  lemma {:induction false} SpawnedTasks(p: Procs, n: nat)
    requires forall t :: t in p.tasks ==> t < p.nextTask
    ensures var p' := Spawned(p, n);
      && p' == p.(tasks := p'.tasks, nextTask := p.nextTask + n)
      && (forall t :: t in p'.tasks ==> t < p'.nextTask)
      && (forall t :: t in p'.tasks && t < p.nextTask ==> t in p.tasks && p'.tasks[t] == p.tasks[t])
      && (forall t :: t in p.tasks ==> t in p'.tasks)
      && (forall t :: t in p'.tasks && t >= p.nextTask ==> p'.tasks[t] == Created)
      && |p'.tasks| == |p.tasks| + n
    decreases n
  {
    if n > 0 {
      var p1 := p.(tasks := p.tasks[p.nextTask := Created], nextTask := p.nextTask + 1);
      OneMoreTask(p.tasks, p.nextTask);
      SpawnedTasks(p1, n - 1);
    }
  }

  lemma OneMoreTask(tasks: map<nat, Step>, t: nat)
    requires t !in tasks
    ensures |tasks[t := Created]| == |tasks| + 1
  {
    assert tasks[t := Created].Keys == tasks.Keys + {t};
    assert |tasks[t := Created]| == |tasks[t := Created].Keys| && |tasks| == |tasks.Keys|;
  }

  lemma {:induction false} WithoutMeans(es: seq<nat>, e: nat)
    requires Distinct(es)
    ensures Distinct(Without(es, e)) && forall x :: x in Without(es, e) <==> x in es && x != e
    decreases |es|
  {
    if es != [] {
      WithoutMeans(es[1..], e);
      assert es[0] !in es[1..] && forall x :: x in es <==> x == es[0] || x in es[1..];
      if es[0] != e {
        PrependDistinct(es[0], Without(es[1..], e));
      }
    }
  }

  // ---------------------------------------------------- the steps keep them

  /** The head of the queue is initialised and has no job, so the executor's guards let the launch pass. */
  lemma HeadIsNew(l: Line)
    requires LineInv(l) && l.queue != []
    ensures l.queue[0] in l.initialized && l.queue[0] !in l.running
  {
    var e, n := l.queue[0], |l.launched|;
    assert l.warmed[n] == e;
    assert forall k :: 0 <= k < n ==> l.warmed[k] == l.launched[k];
  }

  lemma WarmedKeeps(l: Line, t: nat)
    requires LineInv(l) && t !in l.initialized
    ensures LineInv(Warmed(l, t))
  {
    AppendDistinct(l.warmed, t);
    assert l.launched + (l.queue + [t]) == l.launched + l.queue + [t];
    hide Distinct;
  }

  lemma TakenKeeps(l: Line, job: nat)
    requires LineInv(l) && l.queue != []
    ensures LineInv(Taken(l, job)) && Taken(l, job).running == l.running[l.queue[0] := job]
  {
    HeadIsNew(l);
    hide Distinct;
    assert l.launched + [l.queue[0]] + l.queue[1..] == l.launched + l.queue;
    assert forall e :: e in l.launched + [l.queue[0]] <==> e in l.launched || e == l.queue[0];
  }

  lemma MatchedTaken(l: Line, w: Waits, job: nat)
    requires LineInv(l) && l.queue != [] && Matched(l, w)
    ensures Matched(Taken(l, job), w.(count := 0, waiting := {}, jobs := w.jobs + [job], cancelled := 0))
  {
    HeadIsNew(l);
    var l', jobs := Taken(l, job), w.jobs + [job];
    forall k | 0 <= k < |jobs|
      ensures l'.launched[k] in l'.running && l'.running[l'.launched[k]] == jobs[k]
    {
      if k < |w.jobs| {
        assert l.launched[k] in l.running && l'.launched[k] == l.launched[k];
      }
    }
  }

  lemma LineKept(cfg: Config, s: State, op: Op)
    requires Inv(cfg, s) && Enabled(cfg, s, op)
    ensures LineInv(LineAfter(cfg, s, op)) && Matched(LineAfter(cfg, s, op), WaitsAfter(cfg, s, op))
  {
    if op.Takes? {
      MatchedTaken(s.line, s.waits, op.job);
      TakenKeeps(s.line, op.job);
      hide LineInv, Taken, TasksInv, ListInv, WaitsInv, BoundsInv;
    } else if op.InitSucceeds? {
      WarmedKeeps(s.line, op.t);
      hide LineInv, ListInv, WaitsInv, BoundsInv;
    } else {
      hide LineInv, Matched, TasksInv, ListInv, WaitsInv, BoundsInv;
      assert Matched(s.line, WaitsAfter(cfg, s, op)) by { MatchedJobs(s.line, s.waits, WaitsAfter(cfg, s, op)); }
    }
  }

  lemma MatchedJobs(l: Line, w: Waits, w': Waits)
    requires Matched(l, w) && w'.jobs == w.jobs
    ensures Matched(l, w')
  {
  }

  lemma TasksKept(cfg: Config, s: State, op: Op)
    requires Inv(cfg, s) && Enabled(cfg, s, op)
    ensures TasksInv(ProcsAfter(cfg, s, op), LineAfter(cfg, s, op).initialized)
  {
    hide Starters, Without, LineInv, WaitsInv, Matched, BoundsInv, ListInv, Spawned, ToSpawn;
    if op.Tick? && ToSpawn(cfg, s, op.target) > 0 {
      SpawnedTasks(s.procs, ToSpawn(cfg, s, op.target));
    } else if op.Launch? {
      SpawnedTasks(s.procs, 1);
    }
  }

  lemma ListKept(cfg: Config, s: State, op: Op)
    requires Inv(cfg, s) && Enabled(cfg, s, op)
    ensures ListInv(ProcsAfter(cfg, s, op))
  {
    hide Starters, Without, LineInv, WaitsInv, Matched, BoundsInv, Distinct, Spawned, ToSpawn;
    if op.Tick? || op.Launch? {
      var n := if op.Launch? then 1 else ToSpawn(cfg, s, op.target);
      ListKeptBySpawning(s.procs, s.line.initialized, if n > 0 then n else 0);
    } else if op.Runs? {
      ListKeptByMaking(s.procs, s.line.initialized, op.t);
    } else if op.Acquires? && s.closed {
      ListKeptByGivingUp(s.procs, op.t);
    } else if op.Exits? {
      ListKeptByExit(s.procs, op.e);
    }
  }

  lemma ListKeptBySpawning(p: Procs, initialized: set<nat>, n: nat)
    requires ListInv(p) && TasksInv(p, initialized)
    ensures ListInv(Spawned(p, n))
  {
    hide Distinct, Spawned;
    SpawnedTasks(p, n);
  }

  lemma ListKeptByMaking(p: Procs, initialized: set<nat>, t: nat)
    requires ListInv(p) && TasksInv(p, initialized) && At(p, t, Created)
    ensures ListInv(Moved(p, t, Queued).(executors := p.executors + [t]))
  {
    AppendDistinct(p.executors, t);
    hide Distinct;
  }

  lemma ListKeptByGivingUp(p: Procs, t: nat)
    requires ListInv(p) && At(p, t, Queued)
    ensures ListInv(Moved(p, t, Ended).(executors := Without(p.executors, t)))
  {
    WithoutMeans(p.executors, t);
    hide Distinct, Without;
  }

  lemma ListKeptByExit(p: Procs, e: nat)
    requires ListInv(p) && e in p.monitors
    ensures ListInv(p.(executors := Without(p.executors, e), monitors := p.monitors - {e}))
  {
    WithoutMeans(p.executors, e);
    hide Distinct, Without;
  }

  lemma WaitsKept(cfg: Config, s: State, op: Op)
    requires Inv(cfg, s) && Enabled(cfg, s, op)
    ensures WaitsInv(WaitsAfter(cfg, s, op))
  {
    hide LineInv, TasksInv, ListInv, Matched, BoundsInv;
    if op.Takes? {
      AppendDistinct(s.waits.jobs, op.job);
      hide Distinct;
    }
  }

  lemma BoundsKept(cfg: Config, s: State, op: Op)
    requires Inv(cfg, s) && Enabled(cfg, s, op)
    ensures BoundsInv(cfg, Do(cfg, s, op))
  {
    StartersKept(cfg, s, op);
    hide Starters, TasksInv, ListInv, WaitsInv, Matched, ProcsAfter, Distinct;
    if op.InitSucceeds? {
      assert |s.line.queue| <= |s.line.warmed|;
    }
  }

  lemma StartersKept(cfg: Config, s: State, op: Op)
    requires Inv(cfg, s) && Enabled(cfg, s, op)
    ensures |Starters(ProcsAfter(cfg, s, op))| <= cfg.permits
  {
    hide LineInv, WaitsInv, Matched, ListInv, Without, Spawned, ToSpawn;
    var before, after := Starters(s.procs), Starters(ProcsAfter(cfg, s, op));
    if op.Tick? && ToSpawn(cfg, s, op.target) > 0 {
      SpawnedTasks(s.procs, ToSpawn(cfg, s, op.target));
    } else if op.Launch? {
      SpawnedTasks(s.procs, 1);
    }
    if op.Acquires? && !s.closed {
      assert after == before + {op.t};
    } else {
      assert after <= before;
      Smaller(after, before);
    }
  }

  lemma Smaller(a: set<nat>, b: set<nat>)
    requires a <= b
    ensures |a| <= |b|
  {
    assert b == a + (b - a);
  }

  /** What the three steps with the most effects come to. */
  lemma TakesMeans(cfg: Config, s: State, job: nat)
    requires Inv(cfg, s) && job in s.waits.waiting && s.line.queue != []
    ensures Enabled(cfg, s, Takes(job)) && s.line.queue[0] in s.line.initialized && s.line.queue[0] !in s.line.running
    ensures var l, w, e := s.line, s.waits, s.line.queue[0];
      Do(cfg, s, Takes(job)) ==
        s.(line := l.(queue := l.queue[1..], launched := l.launched + [e], running := l.running[e := job]),
           waits := w.(count := w.count - 1, waiting := w.waiting - {job}, jobs := w.jobs + [job]))
  {
    HeadIsNew(s.line);
    hide LineInv, TasksInv, ListInv, Matched, BoundsInv, Distinct;
  }

  lemma WarmedMeans(cfg: Config, s: State, t: nat)
    requires Inv(cfg, s) && At(s.procs, t, Starting)
    ensures t !in s.line.initialized && t !in s.line.warmed
    ensures var l, p := s.line, s.procs;
      Do(cfg, s, InitSucceeds(t)) ==
        State(p.(tasks := p.tasks[t := Ended], monitors := p.monitors + {t}),
              l.(initialized := l.initialized + {t}, queue := l.queue + [t], warmed := l.warmed + [t]),
              s.waits, s.idleReady || |l.queue| + 1 >= cfg.idle, s.closed)
  {
    hide ListInv, WaitsInv, Matched, BoundsInv, Distinct;
  }

  lemma LaunchMeans(cfg: Config, s: State, job: nat)
    requires Enabled(cfg, s, Launch(job))
    ensures var w := s.waits;
      Do(cfg, s, Launch(job)) ==
        s.(procs := if s.line.queue == [] && |s.procs.tasks| < w.count + 1 then Spawned(s.procs, 1) else s.procs,
           waits := w.(count := w.count + 1, waiting := w.waiting + {job}))
  {
  }

  /** What a task or a monitor removes from the executors is there. */
  lemma MayRemove(cfg: Config, s: State, e: nat)
    requires Inv(cfg, s) && (Enabled(cfg, s, Acquires(e)) || Enabled(cfg, s, Exits(e)))
    ensures e in s.procs.executors
  {
    hide LineInv, TasksInv, WaitsInv, Matched, BoundsInv, Distinct, Starters;
  }

  lemma {:induction false} WithoutAt(es: seq<nat>, i: nat, e: nat)
    requires i < |es| && es[i] == e && e !in es[..i]
    ensures Without(es, e) == es[..i] + es[i + 1..]
    decreases i
  {
    if i > 0 {
      assert es[0] == es[..i][0] && es[1..][..i - 1] == es[..i][1..];
      WithoutAt(es[1..], i - 1, e);
      assert es[..i] + es[i + 1..] == [es[0]] + (es[1..][..i - 1] + es[1..][i..]);
    } else {
      assert es[..i] + es[i + 1..] == es[1..];
    }
  }

  lemma StepKeeps(cfg: Config, s: State, op: Op)
    requires Inv(cfg, s) && Enabled(cfg, s, op)
    ensures Inv(cfg, Do(cfg, s, op))
  {
    LineKept(cfg, s, op);
    TasksKept(cfg, s, op);
    ListKept(cfg, s, op);
    WaitsKept(cfg, s, op);
    BoundsKept(cfg, s, op);
    hide LineInv, TasksInv, ListInv, WaitsInv, Matched, BoundsInv, ProcsAfter, LineAfter, WaitsAfter;
  }

  // ------------------------------------------------------------ over all runs

  ghost predicate Possible(cfg: Config, ops: seq<Op>)
    decreases |ops|, 0
  {
    ops == [] || (Possible(cfg, ops[..|ops| - 1]) && Enabled(cfg, Run(cfg, ops[..|ops| - 1]), ops[|ops| - 1]))
  }

  ghost function Run(cfg: Config, ops: seq<Op>): State
    requires Possible(cfg, ops)
    decreases |ops|, 1
  {
    if ops == [] then Initial else Do(cfg, Run(cfg, ops[..|ops| - 1]), ops[|ops| - 1])
  }

  lemma {:induction false} RunKeeps(cfg: Config, ops: seq<Op>)
    requires Possible(cfg, ops)
    ensures Inv(cfg, Run(cfg, ops))
    decreases |ops|
  {
    if ops == [] {
      assert Starters(Initial.procs) == {};
    } else {
      hide Inv, Enabled, Do;
      RunKeeps(cfg, ops[..|ops| - 1]);
      StepKeeps(cfg, Run(cfg, ops[..|ops| - 1]), ops[|ops| - 1]);
    }
  }

  /**
    In every run no executor is queued twice or uninitialised; the jobs launched
    run on distinct executors, handed out in the order they were warmed up; an
    executor's guards never raise; and `start` returns only once enough were warmed.
   */
  lemma JobsGetDistinctExecutors(cfg: Config, ops: seq<Op>)
    requires Possible(cfg, ops)
    ensures var s := Run(cfg, ops);
      && Distinct(s.line.warmed) && (forall e :: e in s.line.warmed ==> e in s.line.initialized)
      && s.line.launched <= s.line.warmed && Distinct(s.line.launched) && Distinct(s.waits.jobs)
      && Matched(s.line, s.waits) && s.line.refusals == 0
      && (s.idleReady ==> |s.line.warmed| >= cfg.idle)
  {
    RunKeeps(cfg, ops);
    hide Run, Possible, TasksInv, ListInv;
    var l := Run(cfg, ops).line;
    assert forall k :: 0 <= k < |l.launched| ==> l.launched[k] == l.warmed[k];
  }

  /**
    In every run a launch that waits can be served as soon as an executor is
    queued, and what `list.remove` is asked to remove from the executors is there.
   */
  lemma NothingRaises(cfg: Config, ops: seq<Op>, x: nat)
    requires Possible(cfg, ops)
    ensures var s := Run(cfg, ops);
      && (x in s.waits.waiting && s.line.queue != [] ==> Enabled(cfg, s, Takes(x)))
      && (Enabled(cfg, s, Acquires(x)) || Enabled(cfg, s, Exits(x)) ==> x in s.procs.executors)
  {
    hide Run, Possible, LineInv, TasksInv, Matched, BoundsInv, Distinct, Starters;
    RunKeeps(cfg, ops);
  }

  // ------------------------------------------------- how many are on their way

  function Pending(s: State): nat {
    |s.line.queue| + |s.procs.tasks|
  }

  /** A turn of the main loop brings the pending executors up to the target, never beyond. */
  lemma TickFillsUp(cfg: Config, s: State, target: nat)
    requires Inv(cfg, s) && !s.closed
    ensures var wanted := if target < cfg.idle then target else cfg.idle;
      Pending(Do(cfg, s, Tick(target))) == if Pending(s) < wanted then wanted else Pending(s)
  {
    if ToSpawn(cfg, s, target) > 0 {
      SpawnedTasks(s.procs, ToSpawn(cfg, s, target));
    }
  }

  /**
    A launch spawns a task exactly if the queue is empty and the tasks are fewer
    than the launches waiting, itself and those that gave up included.
   */
  lemma LaunchSpawns(cfg: Config, s: State, job: nat)
    requires Inv(cfg, s) && Enabled(cfg, s, Launch(job))
    ensures var s' := Do(cfg, s, Launch(job));
      && |s'.procs.tasks| == |s.procs.tasks| +
           (if s.line.queue == [] && |s.procs.tasks| < |s'.waits.waiting| + s.waits.cancelled then 1 else 0)
      && Pending(s') > 0
  {
    SpawnedTasks(s.procs, 1);
    assert |s.waits.waiting + {job}| == |s.waits.waiting| + 1;
  }

  lemma RunSnoc(cfg: Config, ops: seq<Op>, op: Op)
    requires Possible(cfg, ops) && Enabled(cfg, Run(cfg, ops), op)
    ensures Possible(cfg, ops + [op]) && Run(cfg, ops + [op]) == Do(cfg, Run(cfg, ops), op)
  {
    assert (ops + [op])[..|ops|] == ops;
    hide Enabled, Do;
  }

  // ------------------------------------------------------ what the list holds

  /**
    In every run `_executors` holds, once each, exactly the executors waiting for
    the semaphore or starting, those monitored, and those whose start raised.
   */
  lemma ExecutorsListed(cfg: Config, ops: seq<Op>)
    requires Possible(cfg, ops)
    ensures var p := Run(cfg, ops).procs;
      && Distinct(p.executors)
      && forall e :: e in p.executors <==> At(p, e, Queued) || At(p, e, Starting) || e in p.monitors || e in p.crashed
  {
    hide Run, Possible, LineInv, TasksInv, Matched, BoundsInv, WaitsInv, Distinct;
    RunKeeps(cfg, ops);
  }

  /** An executor whose start raised stays listed for good: nothing monitors it. */
  lemma {:induction false} CrashedStayListed(cfg: Config, ops: seq<Op>, i: nat, e: nat)
    requires Possible(cfg, ops) && i <= |ops| && Possible(cfg, ops[..i]) && e in Run(cfg, ops[..i]).procs.crashed
    ensures e in Run(cfg, ops).procs.crashed && e in Run(cfg, ops).procs.executors
    decreases |ops|
  {
    ExecutorsListed(cfg, ops);
    if i == |ops| {
      assert ops[..i] == ops;
    } else {
      var front := ops[..|ops| - 1];
      assert front[..i] == ops[..i];
      CrashedStayListed(cfg, front, i, e);
      RunKeeps(cfg, front);
      CrashedGrow(cfg, Run(cfg, front), ops[|ops| - 1]);
    }
  }

  lemma CrashedGrow(cfg: Config, s: State, op: Op)
    requires Inv(cfg, s) && Enabled(cfg, s, op)
    ensures s.procs.crashed <= Do(cfg, s, op).procs.crashed
  {
    hide LineInv, ListInv, Matched, BoundsInv, WaitsInv, Starters, Without, Spawned;
    if op.Tick? && ToSpawn(cfg, s, op.target) > 0 {
      SpawnedTasks(s.procs, ToSpawn(cfg, s, op.target));
    } else if op.Launch? {
      SpawnedTasks(s.procs, 1);
    }
  }

  /**
    `start` may return, in every run, exactly if at some warm-up the queue came
    to the number of idle processes: a step that queued an executor and left that many.
   */
  lemma {:induction false} StartReturnsIff(cfg: Config, ops: seq<Op>)
    requires Possible(cfg, ops)
    ensures Run(cfg, ops).idleReady <==> EnoughWarmed(cfg, ops)
    decreases |ops|
  {
    if ops != [] {
      var s, op := Run(cfg, ops[..|ops| - 1]), ops[|ops| - 1];
      StartReturnsIff(cfg, ops[..|ops| - 1]);
      hide Inv, ProcsAfter, WaitsAfter, Enabled;
    }
  }

  ghost predicate EnoughWarmed(cfg: Config, ops: seq<Op>)
    requires Possible(cfg, ops)
    decreases |ops|
  {
    ops != [] &&
    var front := ops[..|ops| - 1];
    (EnoughWarmed(cfg, front) || (ops[|ops| - 1].InitSucceeds? && |Run(cfg, ops).line.queue| >= cfg.idle))
  }
}
