/**
  Launches that nothing will serve. Every launch waiting needs an executor that
  is queued or on its way; how many lack one is accounted for step by step.
 */
module Shortages {
  import opened Processes

  // ------------------------------------------------------------ the account

  /** A spawn task that can still warm its executor; once the pool is closed only those let in before. */
  predicate Comes(step: Step, closed: bool) {
    step == Starting || (!closed && step != Ended)
  }

  function Coming(tasks: map<nat, Step>, closed: bool): set<nat> {
    set t | t in tasks && Comes(tasks[t], closed)
  }

  /** The tasks that give up when the pool is closed. */
  function NotLetIn(tasks: map<nat, Step>): set<nat> {
    set t | t in tasks && (tasks[t] == Created || tasks[t] == Queued)
  }

  /** Launches waiting beyond the executors queued or on their way. */
  function Shortage(s: State): int {
    |s.waits.waiting| - |s.line.queue| - |Coming(s.procs.tasks, s.closed)|
  }

  /** Whether this launch spawns a task. */
  predicate Spawns(s: State) {
    s.line.queue == [] && |s.procs.tasks| < s.waits.count + 1
  }

  /**
    How a step changes the shortage. It grows by a launch that spawns nothing, or
    spawns on a closed pool, by a failed start or initialisation, and by a close;
    it shrinks by a launch that gives up and by what the main loop spawns.
   */
  function Change(cfg: Config, s: State, op: Op): int {
    match op
    case Launch(_) => if Spawns(s) && !s.closed then 0 else 1
    case Crashes(_) => 1
    case InitFails(_) => 1
    case Closes => if s.closed then 0 else |NotLetIn(s.procs.tasks)|
    case Cancels(_) => -1
    case Tick(target) => if ToSpawn(cfg, s, target) > 0 then -ToSpawn(cfg, s, target) else 0
    case _ => 0
  }

  lemma ComingMoved(tasks: map<nat, Step>, closed: bool, t: nat, step: Step)
    requires t in tasks
    ensures |Coming(tasks[t := step], closed)| ==
      |Coming(tasks, closed)| + (if Comes(step, closed) then 1 else 0) - (if Comes(tasks[t], closed) then 1 else 0)
  {
    var before, after := Coming(tasks, closed), Coming(tasks[t := step], closed);
    assert after == if Comes(step, closed) then (before - {t}) + {t} else before - {t};
  }

  lemma ComingDiscarded(tasks: map<nat, Step>, closed: bool, t: nat)
    requires t in tasks && tasks[t] == Ended
    ensures Coming(tasks - {t}, closed) == Coming(tasks, closed)
  {
  }

  lemma ComingClosed(tasks: map<nat, Step>)
    ensures |Coming(tasks, true)| == |Coming(tasks, false)| - |NotLetIn(tasks)|
  {
    assert Coming(tasks, false) == Coming(tasks, true) + NotLetIn(tasks);
    assert Coming(tasks, true) !! NotLetIn(tasks);
  }

  lemma {:induction false} ComingSpawned(p: Procs, n: nat, closed: bool)
    requires forall t :: t in p.tasks ==> t < p.nextTask
    ensures |Coming(Spawned(p, n).tasks, closed)| == |Coming(p.tasks, closed)| + if closed then 0 else n
    decreases n
  {
    if n > 0 {
      var p1 := p.(tasks := p.tasks[p.nextTask := Created], nextTask := p.nextTask + 1);
      assert Coming(p1.tasks, closed) ==
        if closed then Coming(p.tasks, closed) else Coming(p.tasks, closed) + {p.nextTask};
      ComingSpawned(p1, n - 1, closed);
    }
  }

  lemma ShortageSpawned(cfg: Config, s: State, op: Op)
    requires Inv(cfg, s) && Enabled(cfg, s, op) && (op.Tick? || op.Launch?)
    ensures Shortage(Do(cfg, s, op)) == Shortage(s) + Change(cfg, s, op)
  {
    hide Inv, Coming, Spawned;
    InvMeans(cfg, s);
    var n := if op.Launch? then (if Spawns(s) then 1 else 0) else ToSpawn(cfg, s, op.target);
    if n > 0 {
      ComingSpawned(s.procs, n, s.closed);
    }
  }

  /** A step that moves one task on, or discards it. */
  lemma ShortageMoved(cfg: Config, s: State, op: Op)
    requires Enabled(cfg, s, op)
    requires op.Runs? || op.Acquires? || op.Crashes? || op.InitFails? || op.InitSucceeds? || op.Discards?
    ensures Shortage(Do(cfg, s, op)) == Shortage(s) + Change(cfg, s, op)
  {
    hide Coming, Starters, Without;
    var tasks := s.procs.tasks;
    if op.Discards? {
      ComingDiscarded(tasks, s.closed, op.t);
    } else {
      var step := if op.Runs? then Queued else if op.Acquires? && !s.closed then Starting else Ended;
      ComingMoved(tasks, s.closed, op.t, step);
    }
  }

  /** The shortage changes exactly so. */
  lemma ShortageStep(cfg: Config, s: State, op: Op)
    requires Inv(cfg, s) && Enabled(cfg, s, op)
    ensures Shortage(Do(cfg, s, op)) == Shortage(s) + Change(cfg, s, op)
  {
    hide Inv, Coming, NotLetIn, Starters, Without, Spawned;
    if op.Tick? || op.Launch? {
      ShortageSpawned(cfg, s, op);
    } else if op.Takes? || op.Cancels? || op.Exits? {
      assert Coming(Do(cfg, s, op).procs.tasks, s.closed) == Coming(s.procs.tasks, s.closed);
    } else if op.Closes? {
      ComingClosed(s.procs.tasks);
    } else {
      hide Shortage, Change, Do, Enabled;
      ShortageMoved(cfg, s, op);
    }
  }

  lemma InvMeans(cfg: Config, s: State)
    requires Inv(cfg, s)
    ensures forall t :: t in s.procs.tasks ==> t < s.procs.nextTask
    ensures s.waits.count >= |s.waits.waiting|
  {
  }

  ghost function Changes(cfg: Config, ops: seq<Op>): int
    requires Possible(cfg, ops)
    decreases |ops|
  {
    if ops == [] then 0
    else
      var front := ops[..|ops| - 1];
      Changes(cfg, front) + Change(cfg, Run(cfg, front), ops[|ops| - 1])
  }

  /** In every run the shortage is the sum of the changes. */
  lemma {:induction false} ShortageOfRun(cfg: Config, ops: seq<Op>)
    requires Possible(cfg, ops)
    ensures Shortage(Run(cfg, ops)) == Changes(cfg, ops)
    decreases |ops|
  {
    if ops == [] {
      assert Coming(map[], false) == {};
    } else {
      var front := ops[..|ops| - 1];
      ShortageOfRun(cfg, front);
      RunKeeps(cfg, front);
      ShortageStep(cfg, Run(cfg, front), ops[|ops| - 1]);
      hide Inv, Enabled, Do, Shortage, Change;
    }
  }

  // ------------------------------------- exactly when all waiting can be served

  /** The main loop spawns nothing, and nobody gives up. */
  ghost predicate Unaided(ops: seq<Op>) {
    forall k :: 0 <= k < |ops| ==> !ops[k].Tick? && !ops[k].Cancels?
  }

  /** The run can go on, unaided, to a state with no launch waiting. */
  ghost predicate CanServeAll(cfg: Config, ops: seq<Op>) {
    exists more :: Unaided(more) && Possible(cfg, ops + more) && Run(cfg, ops + more).waits.waiting == {}
  }

  /** Unaided, a shortage never shrinks: that many launches wait from then on. */
  lemma {:induction false} ShortageStays(cfg: Config, ops: seq<Op>, more: seq<Op>)
    requires Possible(cfg, ops + more) && Unaided(more)
    ensures Possible(cfg, ops) && Shortage(Run(cfg, ops)) <= Shortage(Run(cfg, ops + more))
    ensures Shortage(Run(cfg, ops)) <= |Run(cfg, ops + more).waits.waiting|
    decreases |more|
  {
    AtMostWaiting(Run(cfg, ops + more));
    if more == [] {
      assert ops + more == ops;
    } else {
      var n := |more| - 1;
      assert ops + more == ops + more[..n] + [more[n]];
      ShortageGoesOn(cfg, ops + more[..n], more[n]);
      ShortageStays(cfg, ops, more[..n]);
    }
  }

  lemma ShortageGoesOn(cfg: Config, ops: seq<Op>, op: Op)
    requires Possible(cfg, ops + [op]) && !op.Tick? && !op.Cancels?
    ensures Possible(cfg, ops) && Shortage(Run(cfg, ops)) <= Shortage(Run(cfg, ops + [op]))
  {
    assert (ops + [op])[..|ops + [op]| - 1] == ops;
    RunKeeps(cfg, ops);
    ShortageStep(cfg, Run(cfg, ops), op);
    hide Inv, Enabled, Do, Shortage;
  }

  lemma AtMostWaiting(s: State)
    ensures Shortage(s) <= |s.waits.waiting|
  {
  }

  /** One such step at the end of a run. */
  lemma ServesOn(cfg: Config, ops: seq<Op>) returns (op: Op)
    requires cfg.permits > 0 && Possible(cfg, ops)
    requires Shortage(Run(cfg, ops)) <= 0 && Run(cfg, ops).waits.waiting != {}
    ensures !op.Tick? && !op.Cancels? && Possible(cfg, ops + [op])
    ensures Shortage(Run(cfg, ops + [op])) <= 0 && Work(Run(cfg, ops + [op])) < Work(Run(cfg, ops))
  {
    hide Inv, Enabled, Do, Possible, Run, Shortage, Work;
    RunKeeps(cfg, ops);
    op := NextStep(cfg, Run(cfg, ops));
    RunSnoc(cfg, ops, op);
    ShortageStep(cfg, Run(cfg, ops), op);
  }

  /** Without a shortage: whatever is on its way succeeds, and each waiting launch takes its executor. */
  lemma {:induction false} NoShortageServes(cfg: Config, ops: seq<Op>) returns (more: seq<Op>)
    requires cfg.permits > 0 && Possible(cfg, ops) && Shortage(Run(cfg, ops)) <= 0
    ensures Unaided(more) && Possible(cfg, ops + more) && Run(cfg, ops + more).waits.waiting == {}
    decreases Work(Run(cfg, ops))
  {
    if Run(cfg, ops).waits.waiting == {} {
      more := [];
      assert ops + more == ops;
    } else {
      var op := ServesOn(cfg, ops);
      hide Possible, Run, Shortage, Work, Unaided;
      var rest := NoShortageServes(cfg, ops + [op]);
      more := [op] + rest;
      OneMore(ops, op, rest);
    }
  }

  lemma OneMore(ops: seq<Op>, op: Op, rest: seq<Op>)
    requires Unaided(rest) && !op.Tick? && !op.Cancels?
    ensures Unaided([op] + rest) && ops + [op] + rest == ops + ([op] + rest)
  {
  }

  function CreatedOnes(tasks: map<nat, Step>): set<nat> {
    set t | t in tasks && tasks[t] == Created
  }

  /** How many steps the waiting launches are away from being served. */
  function Work(s: State): nat {
    var tasks := s.procs.tasks;
    |s.waits.waiting| + |Coming(tasks, s.closed)| + |NotLetIn(tasks)| + |CreatedOnes(tasks)|
  }

  /** A step that brings the waiting launches closer to being served, at no cost. */
  lemma NextStep(cfg: Config, s: State) returns (op: Op)
    requires cfg.permits > 0 && Inv(cfg, s) && Shortage(s) <= 0 && s.waits.waiting != {}
    ensures Enabled(cfg, s, op) && !op.Tick? && !op.Cancels? && Change(cfg, s, op) == 0
    ensures Work(Do(cfg, s, op)) < Work(s)
  {
    hide Inv;
    InvMeans(cfg, s);
    var tasks := s.procs.tasks;
    if s.line.queue != [] {
      var job :| job in s.waits.waiting;
      op := Takes(job);
    } else {
      assert |Coming(tasks, s.closed)| > 0;
      assert Coming(tasks, s.closed) != {};
      if Starters(s.procs) != {} {
        var t :| t in Starters(s.procs);
        op := InitSucceeds(t);
        StartingEnds(tasks, s.closed, t);
      } else {
        assert !s.closed;
        assert |Starters(s.procs)| == 0;
        var t :| t in Coming(tasks, s.closed);
        assert t !in Starters(s.procs);
        op := if tasks[t] == Queued then Acquires(t) else Runs(t);
        LetInMoved(tasks, t, if tasks[t] == Queued then Starting else Queued);
      }
    }
  }

  lemma StartingEnds(tasks: map<nat, Step>, closed: bool, t: nat)
    requires t in tasks && tasks[t] == Starting
    ensures |Coming(tasks[t := Ended], closed)| < |Coming(tasks, closed)|
    ensures NotLetIn(tasks[t := Ended]) == NotLetIn(tasks) && CreatedOnes(tasks[t := Ended]) == CreatedOnes(tasks)
  {
    ComingMoved(tasks, closed, t, Ended);
  }

  /** Moving a task on that has not been let in. */
  lemma LetInMoved(tasks: map<nat, Step>, t: nat, step: Step)
    requires t in tasks
    requires (tasks[t] == Created && step == Queued) || (tasks[t] == Queued && step == Starting)
    ensures |Coming(tasks[t := step], false)| == |Coming(tasks, false)|
    ensures var after := tasks[t := step];
      |NotLetIn(after)| + |CreatedOnes(after)| < |NotLetIn(tasks)| + |CreatedOnes(tasks)|
  {
    ComingMoved(tasks, false, t, step);
    if step == Starting {
      assert NotLetIn(tasks) == NotLetIn(tasks[t := step]) + {t} && t !in NotLetIn(tasks[t := step]);
      assert CreatedOnes(tasks) == CreatedOnes(tasks[t := step]);
    } else {
      assert NotLetIn(tasks) == NotLetIn(tasks[t := step]);
      assert CreatedOnes(tasks) == CreatedOnes(tasks[t := step]) + {t} && t !in CreatedOnes(tasks[t := step]);
    }
  }

  /**
    At every point of every run the launches waiting, and those still to come,
    can all be served unaided exactly if there is no shortage.
   */
  lemma AllServedIffNoShortage(cfg: Config, ops: seq<Op>)
    requires cfg.permits > 0 && Possible(cfg, ops)
    ensures CanServeAll(cfg, ops) <==> Shortage(Run(cfg, ops)) <= 0
  {
    if Shortage(Run(cfg, ops)) <= 0 {
      var more := NoShortageServes(cfg, ops);
    }
    if CanServeAll(cfg, ops) {
      var more :| Unaided(more) && Possible(cfg, ops + more) && Run(cfg, ops + more).waits.waiting == {};
      ShortageStays(cfg, ops, more);
    }
  }

  // ------------------------------------------------------- nothing on its way

  /** Nothing queued and no task. */
  predicate Dry(s: State) {
    s.line.queue == [] && s.procs.tasks == map[]
  }

  /** Launches wait, and nothing is queued or on its way. */
  predicate Stranded(s: State) {
    s.waits.waiting != {} && Dry(s)
  }

  /** In a dry pool the launches waiting are exactly the shortage: what the run has lost and not made up for. */
  lemma StrandedAreTheShortage(cfg: Config, ops: seq<Op>)
    requires Possible(cfg, ops) && Dry(Run(cfg, ops))
    ensures |Run(cfg, ops).waits.waiting| == Changes(cfg, ops)
    ensures Stranded(Run(cfg, ops)) <==> Changes(cfg, ops) > 0
  {
    ShortageOfRun(cfg, ops);
    hide Run, Possible, Changes;
    assert Coming(map[], Run(cfg, ops).closed) == {};
  }

  /**
    The steps that strand launches: the last task of an empty queue is discarded,
    or, without any task, one launch takes the last executor from the others.
   */
  lemma StrandedBy(cfg: Config, s: State, op: Op)
    requires Inv(cfg, s) && Enabled(cfg, s, op) && !Stranded(s)
    ensures Stranded(Do(cfg, s, op)) <==>
      || (op.Discards? && s.waits.waiting != {} && s.line.queue == [] && s.procs.tasks.Keys == {op.t})
      || (op.Takes? && |s.line.queue| == 1 && s.procs.tasks == map[] && s.waits.waiting != {op.job})
  {
    hide Inv;
    if Dry(s) {
      DryStays(cfg, s, op);
    } else if op.Launch? || op.Tick? {
      StaysUndry(cfg, s, op);
    } else if op.Discards? {
      assert s.procs.tasks - {op.t} == map[] <==> s.procs.tasks.Keys == {op.t} by {
        assert (s.procs.tasks - {op.t}).Keys == s.procs.tasks.Keys - {op.t};
        assert s.procs.tasks - {op.t} == map[] <==> (s.procs.tasks - {op.t}).Keys == {};
      }
    } else if op.Takes? {
      assert s.waits.waiting - {op.job} == {} <==> s.waits.waiting == {op.job};
    }
  }

  lemma StaysUndry(cfg: Config, s: State, op: Op)
    requires !Dry(s) && Enabled(cfg, s, op) && (op.Launch? || op.Tick?)
    ensures !Dry(Do(cfg, s, op))
  {
    if s.line.queue == [] {
      var t :| t in s.procs.tasks;
      if op.Tick? && ToSpawn(cfg, s, op.target) > 0 {
        SpawnedStay(s.procs, ToSpawn(cfg, s, op.target), t);
      } else if op.Launch? {
        SpawnedStay(s.procs, 1, t);
      }
    }
  }

  /** And those that help: a new launch, a tick with idle processes wanted, or the last one giving up. */
  lemma StrandedUntil(cfg: Config, s: State, op: Op)
    requires Stranded(s) && Enabled(cfg, s, op)
    ensures !Stranded(Do(cfg, s, op)) <==>
      || op.Launch?
      || (op.Tick? && op.target > 0 && cfg.idle > 0)
      || (op.Cancels? && s.waits.waiting == {op.job})
  {
    DryStays(cfg, s, op);
    if op.Cancels? {
      assert s.waits.waiting - {op.job} == {} <==> s.waits.waiting == {op.job};
    }
  }

  /** A dry pool stays dry until another launch comes, or the main loop ticks with idle processes wanted. */
  lemma DryStays(cfg: Config, s: State, op: Op)
    requires Dry(s) && Enabled(cfg, s, op)
    ensures Dry(Do(cfg, s, op)) <==> !op.Launch? && !(op.Tick? && op.target > 0 && cfg.idle > 0)
  {
    if op.Launch? || (op.Tick? && ToSpawn(cfg, s, op.target) > 0) {
      SomethingSpawned(s.procs, if op.Launch? then 1 else ToSpawn(cfg, s, op.target));
    }
  }

  lemma {:induction false} SomethingSpawned(p: Procs, n: nat)
    requires n > 0
    ensures p.nextTask in Spawned(p, n).tasks
    decreases n
  {
    var p1 := p.(tasks := p.tasks[p.nextTask := Created], nextTask := p.nextTask + 1);
    SpawnedStay(p1, n - 1, p.nextTask);
  }

  lemma {:induction false} SpawnedStay(p: Procs, n: nat, t: nat)
    requires t in p.tasks
    ensures t in Spawned(p, n).tasks
    decreases n
  {
    if n > 0 {
      SpawnedStay(p.(tasks := p.tasks[p.nextTask := Created], nextTask := p.nextTask + 1), n - 1, t);
    }
  }

  /** How a task that is starting its executor fails. */
  predicate IsFailure(op: Op, t: nat) {
    op == InitFails(t) || op == Crashes(t)
  }

  /**
    A failed start or initialisation is not made up for: afterwards there is one
    less executor on its way, and the launches wait as before.
   */
  lemma FailureIsNotMadeUpFor(cfg: Config, s: State, op: Op, t: nat)
    requires Inv(cfg, s) && Enabled(cfg, s, op) && IsFailure(op, t)
    ensures var s1 := Do(cfg, s, op);
      Enabled(cfg, s1, Discards(t))
      && var s2 := Do(cfg, s1, Discards(t));
      && s2.procs.tasks == s.procs.tasks - {t} && s2.line == s.line && s2.waits == s.waits
      && Pending(s2) == Pending(s) - 1
  {
    hide Inv, Starters;
    OneTaskLess(s.procs.tasks, t);
  }

  lemma OneTaskLess(tasks: map<nat, Step>, t: nat)
    requires t in tasks
    ensures tasks[t := Ended] - {t} == tasks - {t} && |tasks - {t}| == |tasks| - 1
  {
    assert tasks.Keys == (tasks - {t}).Keys + {t};
    assert |tasks| == |tasks.Keys| && |tasks - {t}| == |(tasks - {t}).Keys|;
  }

  /**
    If it was the last task and nothing is queued, the pool is dry with the
    launches still waiting, and the next tick helps them exactly if idle processes are wanted.
   */
  lemma FailureStrandsUnlessIdleWanted(cfg: Config, s: State, op: Op, t: nat, target: nat)
    requires Inv(cfg, s) && !s.closed && Enabled(cfg, s, op) && IsFailure(op, t)
    requires s.line.queue == [] && s.procs.tasks.Keys == {t}
    ensures var s1 := Do(cfg, s, op);
      Enabled(cfg, s1, Discards(t))
      && var s2 := Do(cfg, s1, Discards(t));
      && Dry(s2) && !s2.closed && s2.waits == s.waits
      && (Dry(Do(cfg, s2, Tick(target))) <==> target == 0 || cfg.idle == 0)
  {
    FailureIsNotMadeUpFor(cfg, s, op, t);
    var s2 := Do(cfg, Do(cfg, s, op), Discards(t));
    assert s2.procs.tasks == map[] by {
      assert s2.procs.tasks.Keys == {};
    }
    DryStays(cfg, s2, Tick(target));
  }

  // ---------------------------------------------------------------- two runs

  /** A pool whose one task, for the first launch, has come to a step. */
  function FirstTask(job: nat, step: Step): State {
    State(Procs(if step == Created then [] else [0], map[0 := step], 1, {}, {}),
          Line([], {}, map[], [], [], 0), Waits(1, {job}, [], 0), false, false)
  }

  /** The step is enabled, and leads from one state to the other. */
  predicate Leads(cfg: Config, s: State, op: Op, s': State) {
    Enabled(cfg, s, op) && Do(cfg, s, op) == s'
  }

  lemma RunLeads(cfg: Config, ops: seq<Op>, s: State, op: Op, s': State)
    requires Possible(cfg, ops) && Run(cfg, ops) == s && Leads(cfg, s, op, s')
    ensures Possible(cfg, ops + [op]) && Run(cfg, ops + [op]) == s'
  {
    hide Enabled, Do;
    RunSnoc(cfg, ops, op);
  }

  lemma FirstLaunches(cfg: Config, job: nat)
    ensures Leads(cfg, Initial, Launch(job), FirstTask(job, Created))
  {
    assert Spawned(Initial.procs, 1) == FirstTask(job, Created).procs;
    assert {} + {job} == {job};
  }

  lemma FirstGoesOn(cfg: Config, job: nat)
    requires cfg.permits > 0
    ensures Leads(cfg, FirstTask(job, Created), Runs(0), FirstTask(job, Queued))
    ensures Leads(cfg, FirstTask(job, Queued), Acquires(0), FirstTask(job, Starting))
  {
    assert [] + [0] == [0] && map[0 := Created][0 := Queued] == map[0 := Queued];
    assert map[0 := Queued][0 := Starting] == map[0 := Starting];
    assert Starters(FirstTask(job, Queued).procs) == {};
  }

  function FirstOps(job: nat): seq<Op> {
    [] + [Launch(job)] + [Runs(0)] + [Acquires(0)]
  }

  lemma FirstLaunchIsReached(cfg: Config, job: nat)
    requires cfg.permits > 0
    ensures Possible(cfg, FirstOps(job)) && Run(cfg, FirstOps(job)) == FirstTask(job, Starting)
  {
    hide Leads, Run, Possible, FirstTask, Initial;
    EmptyRun(cfg);
    FirstLaunches(cfg, job);
    FirstGoesOn(cfg, job);
    RunLeads(cfg, [], Initial, Launch(job), FirstTask(job, Created));
    RunLeads(cfg, [] + [Launch(job)], FirstTask(job, Created), Runs(0), FirstTask(job, Queued));
    RunLeads(cfg, [] + [Launch(job)] + [Runs(0)], FirstTask(job, Queued), Acquires(0), FirstTask(job, Starting));
  }

  lemma EmptyRun(cfg: Config)
    ensures Possible(cfg, []) && Run(cfg, []) == Initial
  {
  }

  /**
    The first launch of a pool can be left waiting with nothing on its way,
    and a tick changes that exactly if idle processes are wanted.
   */
  lemma FirstLaunchCanBeStranded(cfg: Config, job: nat, op: Op)
    requires cfg.permits > 0 && IsFailure(op, 0)
    ensures var ops := FirstOps(job) + [op] + [Discards(0)];
      Possible(cfg, ops)
      && var s := Run(cfg, ops);
      && Stranded(s) && !s.closed && job in s.waits.waiting
      && (forall target :: Dry(Do(cfg, s, Tick(target))) <==> target == 0 || cfg.idle == 0)
  {
    var ops := FirstOps(job);
    FirstLaunchIsReached(cfg, job);
    RunKeeps(cfg, ops);
    var s := Run(cfg, ops);
    FailureStrandsUnlessIdleWanted(cfg, s, op, 0, 0);
    RunSnoc(cfg, ops, op);
    RunSnoc(cfg, ops + [op], Discards(0));
    var s2 := Run(cfg, ops + [op] + [Discards(0)]);
    hide Run, Possible, Inv;
    forall target: nat
      ensures Dry(Do(cfg, s2, Tick(target))) <==> target == 0 || cfg.idle == 0
    {
      DryStays(cfg, s2, Tick(target));
    }
  }

  /** The first executor is warmed; which launches wait, and whether one was served. */
  function Warm(cfg: Config, waiting: set<nat>, jobs: seq<nat>, discarded: bool): State {
    State(Procs([0], if discarded then map[] else map[0 := Ended], 1, {0}, {}),
          if jobs == [] then Line([0], {0}, map[], [0], [], 0) else Line([], {0}, map[0 := jobs[0]], [0], [0], 0),
          Waits(|waiting|, waiting, jobs, 0), 1 >= cfg.idle, false)
  }

  lemma FirstIsWarmed(cfg: Config, first: nat)
    ensures Leads(cfg, FirstTask(first, Starting), InitSucceeds(0), Warm(cfg, {first}, [], false))
  {
    assert map[0 := Starting][0 := Ended] == map[0 := Ended] && {} + {0} == {0} && [] + [0] == [0];
  }

  lemma NewcomerTakes(cfg: Config, first: nat, second: nat)
    requires first != second
    ensures Leads(cfg, Warm(cfg, {first}, [], false), Launch(second), Warm(cfg, {first, second}, [], false))
    ensures Leads(cfg, Warm(cfg, {first, second}, [], false), Takes(second), Warm(cfg, {first}, [second], false))
    ensures Leads(cfg, Warm(cfg, {first}, [second], false), Discards(0), Warm(cfg, {first}, [second], true))
  {
    assert {first} + {second} == {first, second} && {first, second} - {second} == {first};
    assert |{first, second}| == 2;
    assert [0][1..] == [] && [] + [0] == [0] && [] + [second] == [second];
    assert map[][0 := second] == map[0 := second] && map[0 := Ended] - {0} == map[];
  }

  /**
    Nothing fails, nobody gives up and the pool stays open: a second launch finds
    the first one's executor queued, spawns nothing and takes it. The first waits
    on with nothing on its way.
   */
  lemma NewcomerStrands(cfg: Config, first: nat, second: nat)
    requires cfg.permits > 0 && first != second
    ensures var ops := FirstOps(first) + [InitSucceeds(0)] + [Launch(second)] + [Takes(second)] + [Discards(0)];
      Possible(cfg, ops)
      && var s := Run(cfg, ops);
      Stranded(s) && !s.closed && s.waits.waiting == {first} && s.waits.jobs == [second] && s.waits.cancelled == 0
  {
    hide Leads, Run, Possible, FirstOps, FirstTask;
    FirstLaunchIsReached(cfg, first);
    FirstIsWarmed(cfg, first);
    NewcomerTakes(cfg, first, second);
    var s0, s1 := Warm(cfg, {first}, [], false), Warm(cfg, {first, second}, [], false);
    var s2, s3 := Warm(cfg, {first}, [second], false), Warm(cfg, {first}, [second], true);
    var ops := FirstOps(first);
    RunLeads(cfg, ops, FirstTask(first, Starting), InitSucceeds(0), s0);
    RunLeads(cfg, ops + [InitSucceeds(0)], s0, Launch(second), s1);
    RunLeads(cfg, ops + [InitSucceeds(0)] + [Launch(second)], s1, Takes(second), s2);
    RunLeads(cfg, ops + [InitSucceeds(0)] + [Launch(second)] + [Takes(second)], s2, Discards(0), s3);
  }
}
