/**
  What `ConnectionPool` promises about its connections, over every interleaving
  of its callers. One `Op` is what happens between two awaits: closing the
  queued connections awaits once per connection, so other calls run meanwhile.
 */
module Pool {
  import opened Wrappers
  import opened Sequences

  type Conn = nat

  /** `mark_refreshed_on_get` and `max_session_duration`. */
  datatype Config = Config(maxDuration: Option<real>, refreshOnGet: bool)

  /** One `_drain_to_close`: the connections listed when it began, and how many of them it has closed. */
  datatype Drain = Drain(listed: seq<Conn>, done: nat)

  /** `created`, `closed` (in the order the close callback was called) and `out` are history. */
  datatype State = State(live: map<Conn, real>, available: set<Conn>, toClose: set<Conn>, drains: map<nat, Drain>,
                         created: set<Conn>, closed: seq<Conn>, out: set<Conn>)

  const Initial := State(map[], {}, {}, map[], {}, [], {})

  datatype Op =
    | Connected(c: Conn, now: real)        // `get` had nothing to reuse and its callback returned c
    | Prewarmed(c: Conn, now: real)
    | Take(c: Conn, now: real)             // `get` pops c from the available ones
    | Put(c: Conn)
    | Remove(c: Conn)
    | Invalidate
    | DrainBegins(t: nat, listed: seq<Conn>)
    | DrainCloses(t: nat)
    | DrainClears(t: nat)
    | DrainAborts(t: nat)                  // the callback raised, or the caller was cancelled in it

  function Elements(cs: seq<Conn>): set<Conn> {
    set c | c in cs
  }

  predicate Expired(cfg: Config, since: real, now: real) {
    cfg.maxDuration.Some? && now - since > cfg.maxDuration.value
  }

  /**
    The callback opens a new connection each time; a drain lists the queued ones
    in some order, and one with nothing to list has nothing to await or to clear.
   */
  ghost predicate Enabled(s: State, op: Op) {
    match op
    case Connected(c, _) => c !in s.created
    case Prewarmed(c, _) => c !in s.created
    case Take(c, _) => c in s.available && c in s.live
    case DrainBegins(t, listed) => t !in s.drains && listed != [] && Distinct(listed) && Elements(listed) == s.toClose
    case DrainCloses(t) => t in s.drains && s.drains[t].done < |s.drains[t].listed|
    case DrainAborts(t) => t in s.drains && s.drains[t].done < |s.drains[t].listed|
    case DrainClears(t) => t in s.drains && s.drains[t].done == |s.drains[t].listed|
    case _ => true
  }

  function Removed(s: State, c: Conn): State {
    if c in s.live then
      s.(available := s.available - {c}, toClose := s.toClose + {c}, live := s.live - {c}, out := s.out - {c})
    else s.(available := s.available - {c}, out := s.out - {c})
  }

  function Invalidated(s: State): State {
    s.(toClose := s.toClose + s.live.Keys, live := map[], available := {})
  }

  ghost function Do(cfg: Config, s: State, op: Op): State
    requires Enabled(s, op)
  {
    match op
    case Connected(c, now) => s.(live := s.live[c := now], created := s.created + {c}, out := s.out + {c})
    case Prewarmed(c, now) => s.(live := s.live[c := now], created := s.created + {c}, available := s.available + {c})
    case Take(c, now) =>
      if Expired(cfg, s.live[c], now) then Removed(s, c)
      else s.(available := s.available - {c}, out := s.out + {c},
              live := if cfg.refreshOnGet then s.live[c := now] else s.live)
    case Put(c) => s.(available := if c in s.live then s.available + {c} else s.available, out := s.out - {c})
    case Remove(c) => Removed(s, c)
    case Invalidate => Invalidated(s)
    case DrainBegins(t, listed) => s.(drains := s.drains[t := Drain(listed, 0)])
    case DrainCloses(t) =>
      var d := s.drains[t];
      s.(closed := s.closed + [d.listed[d.done]], drains := s.drains[t := d.(done := d.done + 1)])
    case DrainClears(t) => s.(toClose := {}, drains := s.drains - {t})
    case DrainAborts(t) =>
      var d := s.drains[t];
      s.(closed := s.closed + [d.listed[d.done]], drains := s.drains - {t})
  }

  ghost predicate Possible(cfg: Config, s: State, ops: seq<Op>)
    decreases |ops|
  {
    ops == [] || (Enabled(s, ops[0]) && Possible(cfg, Do(cfg, s, ops[0]), ops[1..]))
  }

  ghost function Run(cfg: Config, s: State, ops: seq<Op>): State
    requires Possible(cfg, s, ops)
    decreases |ops|
  {
    if ops == [] then s else Run(cfg, Do(cfg, s, ops[0]), ops[1..])
  }

  // ------------------------------------------------------- every interleaving

  /** Listed by some drain and not yet closed by it. */
  ghost predicate Pending(s: State, c: Conn) {
    exists t :: t in s.drains && IsLeft(s.drains[t], c)
  }

  predicate IsLeft(d: Drain, c: Conn) {
    d.done <= |d.listed| && c in d.listed[d.done..]
  }

  /** Opened, but neither live, nor queued, nor about to be closed, nor closed: nobody will close it. */
  ghost predicate Lost(s: State, c: Conn) {
    c in s.created && c !in s.live && c !in s.toClose && !Pending(s, c) && c !in s.closed
  }

  /** Live connections are not on the way out, and available ones are live and held by no caller. */
  ghost predicate Inv(s: State) {
    SetsInv(s) && DrainsInv(s)
  }

  ghost predicate SetsInv(s: State) {
    && s.available <= s.live.Keys <= s.created
    && s.toClose <= s.created && s.out <= s.created
    && s.live.Keys !! s.toClose && s.available !! s.out
  }

  /** What a drain lists, and what was closed, is not live. */
  ghost predicate DrainsInv(s: State) {
    && (forall c :: c in s.closed ==> c in s.created && c !in s.live)
    && (forall t :: t in s.drains ==> DrainOk(s, s.drains[t]))
  }

  /** A drain lists connections that are not live any more, and has closed the first `done`. */
  ghost predicate DrainOk(s: State, d: Drain) {
    && d.done <= |d.listed| && Distinct(d.listed)
    && (forall c :: c in d.listed ==> c in s.created && c !in s.live)
    && (forall k :: 0 <= k < d.done ==> d.listed[k] in s.closed)
  }

  lemma StepKeeps(cfg: Config, s: State, op: Op)
    requires Inv(s) && Enabled(s, op)
    ensures Inv(Do(cfg, s, op))
  {
    hide DrainsInv;
    DrainsKept(cfg, s, op);
  }

  lemma DrainsKept(cfg: Config, s: State, op: Op)
    requires Inv(s) && Enabled(s, op)
    ensures DrainsInv(Do(cfg, s, op))
  {
    var s' := Do(cfg, s, op);
    hide Distinct, Expired;
    NothingRevived(cfg, s, op);
    hide DrainOk;
    forall t | t in s'.drains
      ensures DrainOk(s', s'.drains[t])
    {
      if t !in s.drains {
        NewDrainOk(s, s', op);
      } else if op.DrainCloses? && t == op.t {
        NextCloseOk(s, s', s.drains[t]);
      } else {
        OldDrainOk(s, s', s.drains[t]);
      }
    }
  }

  /** Nothing that was created earlier comes to life, and the record of closings grows. */
  lemma NothingRevived(cfg: Config, s: State, op: Op)
    requires Inv(s) && Enabled(s, op)
    ensures var s' := Do(cfg, s, op);
      && s.created <= s'.created && s.closed <= s'.closed
      && (forall c :: c in s.created && c !in s.live ==> c !in s'.live)
      && (forall c :: c in s'.closed ==> c in s'.created && c !in s'.live)
  {
    hide Distinct, Expired;
    if op.DrainCloses? || op.DrainAborts? {
      var d := s.drains[op.t];
      assert d.listed[d.done] in d.listed && DrainOk(s, d);
    }
  }

  lemma OldDrainOk(s: State, s': State, d: Drain)
    requires DrainOk(s, d) && s.created <= s'.created && s.closed <= s'.closed
    requires forall c :: c in s.created && c !in s.live ==> c !in s'.live
    ensures DrainOk(s', d)
  {
    forall k | 0 <= k < d.done
      ensures d.listed[k] in s'.closed
    {
      assert d.listed[k] in s.closed;
    }
  }

  lemma NextCloseOk(s: State, s': State, d: Drain)
    requires DrainOk(s, d) && s'.created == s.created && s'.live == s.live
    requires d.done < |d.listed| && s'.closed == s.closed + [d.listed[d.done]]
    ensures DrainOk(s', d.(done := d.done + 1))
  {
    assert s'.closed[|s.closed|] == d.listed[d.done];
    forall k | 0 <= k < d.done
      ensures d.listed[k] in s'.closed
    {
      assert d.listed[k] in s.closed;
    }
  }

  lemma NewDrainOk(s: State, s': State, op: Op)
    requires SetsInv(s) && op.DrainBegins? && Enabled(s, op) && s'.created == s.created && s'.live == s.live
    ensures DrainOk(s', Drain(op.listed, 0))
  {
    hide Distinct;
    assert forall c :: c in op.listed ==> c in Elements(op.listed);
  }

  lemma {:induction false} RunKeeps(cfg: Config, s: State, ops: seq<Op>)
    requires Inv(s) && Possible(cfg, s, ops)
    ensures Inv(Run(cfg, s, ops))
    decreases |ops|
  {
    if ops != [] {
      hide Inv, Enabled, Do;
      StepKeeps(cfg, s, ops[0]);
      RunKeeps(cfg, Do(cfg, s, ops[0]), ops[1..]);
    }
  }

  /**
    Whatever the interleaving, `get` hands out a connection only if it is open,
    on no list to be closed, held by no other caller, and not too old.
   */
  lemma TakesAreSafe(cfg: Config, ops: seq<Op>, c: Conn, now: real)
    requires Possible(cfg, Initial, ops + [Take(c, now)])
    ensures Possible(cfg, Initial, ops)
    ensures var s, s' := Run(cfg, Initial, ops), Run(cfg, Initial, ops + [Take(c, now)]);
      c in s.live &&
      if cfg.maxDuration.Some? && now - s.live[c] > cfg.maxDuration.value
      then c !in s'.live && c !in s'.out && c in s'.toClose
      else c in s'.live && c in s'.out && c !in s.out && c !in s.closed && c !in s.toClose && !Pending(s, c)
  {
    PossibleSnoc(cfg, Initial, ops, Take(c, now));
    RunKeeps(cfg, Initial, ops);
    RunKeeps(cfg, Initial, ops + [Take(c, now)]);
    hide Run, Possible, Distinct;
  }

  lemma {:induction false} PossibleSnoc(cfg: Config, s: State, ops: seq<Op>, op: Op)
    requires Possible(cfg, s, ops + [op])
    ensures Possible(cfg, s, ops) && Enabled(Run(cfg, s, ops), op)
    ensures Run(cfg, s, ops + [op]) == Do(cfg, Run(cfg, s, ops), op)
    decreases |ops|
  {
    hide Do, Enabled;
    if ops == [] {
      assert ops + [op] == [op] && [op][1..] == [];
    } else {
      assert (ops + [op])[0] == ops[0] && (ops + [op])[1..] == ops[1..] + [op];
      PossibleSnoc(cfg, Do(cfg, s, ops[0]), ops[1..], op);
    }
  }

  // ------------------------------------------------------------ what is lost

  /** A lost connection stays lost: no later step closes it, queues it or hands it out. */
  lemma LostStays(cfg: Config, s: State, op: Op, c: Conn)
    requires Inv(s) && Enabled(s, op) && Lost(s, c)
    ensures Lost(Do(cfg, s, op), c)
  {
    hide Distinct, Expired;
    var s' := Do(cfg, s, op);
    forall t | t in s'.drains
      ensures !IsLeft(s'.drains[t], c)
    {
      if t in s.drains {
        assert !IsLeft(s.drains[t], c);
      } else {
        assert s'.drains[t].listed == op.listed && Elements(op.listed) == s.toClose;
        assert c !in Elements(op.listed);
      }
    }
  }

  lemma {:induction false} LostForever(cfg: Config, s: State, ops: seq<Op>, c: Conn)
    requires Inv(s) && Possible(cfg, s, ops) && Lost(s, c)
    ensures Lost(Run(cfg, s, ops), c) && c !in Run(cfg, s, ops).closed
    decreases |ops|
  {
    if ops != [] {
      LostStays(cfg, s, ops[0], c);
      StepKeeps(cfg, s, ops[0]);
      hide Inv, Enabled, Do, Lost;
      LostForever(cfg, Do(cfg, s, ops[0]), ops[1..], c);
    }
  }

  /** Nothing is queued for closing while a drain is under way. */
  predicate Quiet(cfg: Config, s: State, op: Op) {
    s.drains == map[] ||
    match op
    case Take(c, now) => c in s.live ==> !Expired(cfg, s.live[c], now)
    case Remove(c) => c !in s.live
    case Invalidate => s.live == map[]
    case _ => true
  }

  ghost predicate AlwaysQuiet(cfg: Config, s: State, ops: seq<Op>)
    requires Possible(cfg, s, ops)
    decreases |ops|
  {
    ops == [] || (Quiet(cfg, s, ops[0]) && AlwaysQuiet(cfg, Do(cfg, s, ops[0]), ops[1..]))
  }

  ghost predicate NothingLost(s: State) {
    && Inv(s)
    && (forall c :: c in s.created ==> !Lost(s, c))
    && (forall t, c :: t in s.drains && c in s.toClose ==> c in s.drains[t].listed)
    && (forall t, c :: t in s.drains && c in s.drains[t].listed ==> c in s.toClose || c in s.closed)
  }

  lemma QuietStepLosesNothing(cfg: Config, s: State, op: Op)
    requires NothingLost(s) && Enabled(s, op) && Quiet(cfg, s, op)
    ensures NothingLost(Do(cfg, s, op))
  {
    StepKeeps(cfg, s, op);
    var s' := Do(cfg, s, op);
    hide Distinct, Expired, Inv;
    QuietLists(cfg, s, op);
    forall c | c in s'.created
      ensures !Lost(s', c)
    {
      StillAccounted(cfg, s, op, c);
    }
  }

  lemma QuietLists(cfg: Config, s: State, op: Op)
    requires NothingLost(s) && Enabled(s, op) && Quiet(cfg, s, op)
    ensures var s' := Do(cfg, s, op);
      && (forall t, c :: t in s'.drains && c in s'.toClose ==> c in s'.drains[t].listed)
      && (forall t, c :: t in s'.drains && c in s'.drains[t].listed ==> c in s'.toClose || c in s'.closed)
  {
    hide Distinct, Lost;
    if op.DrainBegins? {
      assert forall c :: c in op.listed <==> c in Elements(op.listed);
    }
  }

  lemma StillAccounted(cfg: Config, s: State, op: Op, c: Conn)
    requires NothingLost(s) && Enabled(s, op) && Quiet(cfg, s, op) && c in Do(cfg, s, op).created
    ensures !Lost(Do(cfg, s, op), c)
  {
    hide Distinct, Expired;
    var s' := Do(cfg, s, op);
    if c in s.created && Pending(s, c) && c !in s.toClose {
      var t :| t in s.drains && IsLeft(s.drains[t], c);
      assert c in s.drains[t].listed;
    }
    if op.DrainClears? && c in s.toClose {
      assert c in s.drains[op.t].listed;
    }
  }

  /** If nothing is queued while a drain is under way, nothing is ever lost. */
  lemma {:induction false} QuietRunsLoseNothing(cfg: Config, s: State, ops: seq<Op>)
    requires NothingLost(s) && Possible(cfg, s, ops) && AlwaysQuiet(cfg, s, ops)
    ensures NothingLost(Run(cfg, s, ops))
    decreases |ops|
  {
    if ops != [] {
      hide NothingLost, Enabled, Do, Quiet;
      QuietStepLosesNothing(cfg, s, ops[0]);
      QuietRunsLoseNothing(cfg, Do(cfg, s, ops[0]), ops[1..]);
    }
  }

  // -------------------------------------------------------- closed only once

  /** One drain after another, each run to its end. */
  predicate Orderly(s: State, op: Op) {
    !op.DrainAborts? && (op.DrainBegins? ==> s.drains == map[])
  }

  ghost predicate AlwaysOrderly(cfg: Config, s: State, ops: seq<Op>)
    requires Possible(cfg, s, ops)
    decreases |ops|
  {
    ops == [] || (Orderly(s, ops[0]) && AlwaysOrderly(cfg, Do(cfg, s, ops[0]), ops[1..]))
  }

  /** At most one drain, what it has yet to close is queued and was not closed, and nothing queued was, except by it. */
  ghost predicate ClosedOnce(s: State) {
    && Inv(s) && Distinct(s.closed)
    && (forall t, u :: t in s.drains && u in s.drains ==> t == u)
    && (forall t :: t in s.drains ==> RestUnclosed(s, s.drains[t]))
    && (s.drains == map[] ==> forall c :: c in s.toClose ==> c !in s.closed)
  }

  ghost predicate RestUnclosed(s: State, d: Drain) {
    && (forall k :: d.done <= k < |d.listed| && 0 <= k ==> d.listed[k] !in s.closed && d.listed[k] in s.toClose)
    && (forall c :: c in s.toClose && c in s.closed ==> c in d.listed)
  }

  lemma OrderlyStepClosesOnce(cfg: Config, s: State, op: Op)
    requires ClosedOnce(s) && Enabled(s, op) && Orderly(s, op)
    ensures ClosedOnce(Do(cfg, s, op))
  {
    if op.DrainCloses? {
      OrderlyCloseClosesOnce(cfg, s, op.t);
    } else if op.DrainBegins? {
      OrderlyBeginClosesOnce(cfg, s, op.t, op.listed);
    } else {
      StepKeeps(cfg, s, op);
      hide Expired, Distinct;
      forall t | t in s.drains
        ensures op.DrainClears? || RestUnclosed(Do(cfg, s, op), s.drains[t])
      {
        assert RestUnclosed(s, s.drains[t]);
      }
    }
  }

  lemma OrderlyCloseClosesOnce(cfg: Config, s: State, t: nat)
    requires ClosedOnce(s) && Enabled(s, DrainCloses(t))
    ensures ClosedOnce(Do(cfg, s, DrainCloses(t)))
  {
    StepKeeps(cfg, s, DrainCloses(t));
    assert DrainOk(s, s.drains[t]) && RestUnclosed(s, s.drains[t]);
    NextCloseOnce(s, Do(cfg, s, DrainCloses(t)), s.drains[t]);
    assert t in Do(cfg, s, DrainCloses(t)).drains;
    hide RestUnclosed, Distinct, Inv;
  }

  lemma OrderlyBeginClosesOnce(cfg: Config, s: State, t: nat, listed: seq<Conn>)
    requires ClosedOnce(s) && Enabled(s, DrainBegins(t, listed)) && s.drains == map[]
    ensures ClosedOnce(Do(cfg, s, DrainBegins(t, listed)))
  {
    StepKeeps(cfg, s, DrainBegins(t, listed));
    hide Distinct, Inv;
    assert forall c :: c in listed <==> c in Elements(listed);
  }

  lemma NextCloseOnce(s: State, s': State, d: Drain)
    requires Distinct(s.closed) && Distinct(d.listed) && RestUnclosed(s, d) && d.done < |d.listed|
    requires s'.closed == s.closed + [d.listed[d.done]] && s'.toClose == s.toClose
    ensures Distinct(s'.closed) && RestUnclosed(s', d.(done := d.done + 1))
  {
    assert forall c :: c in s'.closed <==> c in s.closed || c == d.listed[d.done];
  }

  /** Drains that neither overlap nor abort close every connection at most once. */
  lemma {:induction false} OrderlyRunsCloseOnce(cfg: Config, s: State, ops: seq<Op>)
    requires ClosedOnce(s) && Possible(cfg, s, ops) && AlwaysOrderly(cfg, s, ops)
    ensures ClosedOnce(Run(cfg, s, ops))
    decreases |ops|
  {
    if ops != [] {
      hide ClosedOnce, Enabled, Do, Orderly;
      OrderlyStepClosesOnce(cfg, s, ops[0]);
      OrderlyRunsCloseOnce(cfg, Do(cfg, s, ops[0]), ops[1..]);
    }
  }

  /**
    Exactly what the end of an orderly drain loses: the connections queued after
    it began, which its `clear` takes off the list unclosed.
   */
  lemma ClearLosesWhatCameMeanwhile(cfg: Config, s: State, t: nat, c: Conn)
    requires ClosedOnce(s) && Enabled(s, DrainClears(t)) && !Lost(s, c)
    ensures Lost(Do(cfg, s, DrainClears(t)), c) <==> c in s.toClose && c !in s.drains[t].listed
  {
    var d, s' := s.drains[t], Do(cfg, s, DrainClears(t));
    assert s'.drains == map[];
    if c in d.listed {
      var k :| 0 <= k < |d.listed| && d.listed[k] == c;
      assert d.listed[k] in s.closed;
    }
  }

  /** Queued while drain t was already under way: t has not listed it. */
  ghost predicate Meanwhile(s: State, t: nat, c: Conn) {
    && ClosedOnce(s) && t in s.drains
    && c in s.created && c in s.toClose && c !in s.drains[t].listed && c !in s.live && c !in s.closed
  }

  lemma MeanwhileStays(cfg: Config, s: State, op: Op, t: nat, c: Conn)
    requires Meanwhile(s, t, c) && Enabled(s, op) && Orderly(s, op) && op != DrainClears(t)
    ensures Meanwhile(Do(cfg, s, op), t, c)
  {
    OrderlyStepClosesOnce(cfg, s, op);
    assert forall u :: u in s.drains ==> u == t by {
      assert ClosedOnce(s);
    }
    hide ClosedOnce, Expired;
  }

  /** Nobody closes it: once the orderly run has ended drain t, it is lost. */
  lemma {:induction false} MeanwhileIsLost(cfg: Config, s: State, ops: seq<Op>, t: nat, c: Conn)
    requires Meanwhile(s, t, c) && Possible(cfg, s, ops) && AlwaysOrderly(cfg, s, ops) && t !in Run(cfg, s, ops).drains
    ensures Lost(Run(cfg, s, ops), c)
    decreases |ops|
  {
    if ops != [] {
      var s' := Do(cfg, s, ops[0]);
      if ops[0] == DrainClears(t) {
        ClearLosesWhatCameMeanwhile(cfg, s, t, c);
        StepKeeps(cfg, s, ops[0]);
        hide Do, Enabled, Inv, Lost;
        LostForever(cfg, s', ops[1..], c);
      } else {
        hide Meanwhile, Do, Enabled, Lost;
        MeanwhileStays(cfg, s, ops[0], t, c);
        MeanwhileIsLost(cfg, s', ops[1..], t, c);
      }
    }
  }

  /**
    So a live connection removed while a drain is under way is lost, whatever
    the drain still has to close, once the drain is over: where drains run one
    after the other to their ends.
   */
  lemma RemovalDuringADrainLoses(cfg: Config, s: State, ops: seq<Op>, t: nat, c: Conn)
    requires ClosedOnce(s) && t in s.drains && c in s.live
    requires Possible(cfg, Do(cfg, s, Remove(c)), ops) && AlwaysOrderly(cfg, Do(cfg, s, Remove(c)), ops)
    requires t !in Run(cfg, Do(cfg, s, Remove(c)), ops).drains
    ensures Lost(Run(cfg, Do(cfg, s, Remove(c)), ops), c)
  {
    QueuedMeanwhile(cfg, s, Remove(c), t, c);
    MeanwhileIsLost(cfg, Do(cfg, s, Remove(c)), ops, t, c);
  }

  lemma QueuedMeanwhile(cfg: Config, s: State, op: Op, t: nat, c: Conn)
    requires ClosedOnce(s) && t in s.drains && Enabled(s, op) && Orderly(s, op)
    requires c in s.live && c in Do(cfg, s, op).toClose
    ensures Meanwhile(Do(cfg, s, op), t, c)
  {
    OrderlyStepClosesOnce(cfg, s, op);
    assert DrainOk(s, s.drains[t]);
    hide ClosedOnce, Expired;
  }

  /** A step that is not quiet queues something while a drain is under way. */
  lemma UnquietQueues(cfg: Config, s: State, op: Op) returns (t: nat, c: Conn)
    requires ClosedOnce(s) && Enabled(s, op) && Orderly(s, op) && !Quiet(cfg, s, op)
    ensures Meanwhile(Do(cfg, s, op), t, c)
  {
    t :| t in s.drains;
    if op.Invalidate? {
      c :| c in s.live;
    } else {
      c := op.c;
    }
    QueuedMeanwhile(cfg, s, op, t, c);
  }

  /** Over orderly runs with no drain left under way, nothing is lost exactly if every step was quiet. */
  lemma {:induction false} NothingIsLostIffQuiet(cfg: Config, s: State, ops: seq<Op>)
    requires NothingLost(s) && ClosedOnce(s) && Possible(cfg, s, ops) && AlwaysOrderly(cfg, s, ops)
    requires Run(cfg, s, ops).drains == map[]
    ensures (forall c :: !Lost(Run(cfg, s, ops), c)) <==> AlwaysQuiet(cfg, s, ops)
    decreases |ops|
  {
    hide NothingLost, ClosedOnce, Do, Enabled, Quiet, Lost;
    if ops == [] {
      AtFirstNothing(s);
    } else if Quiet(cfg, s, ops[0]) {
      QuietStepLosesNothing(cfg, s, ops[0]);
      OrderlyStepClosesOnce(cfg, s, ops[0]);
      NothingIsLostIffQuiet(cfg, Do(cfg, s, ops[0]), ops[1..]);
    } else {
      var t, c := UnquietQueues(cfg, s, ops[0]);
      MeanwhileIsLost(cfg, Do(cfg, s, ops[0]), ops[1..], t, c);
    }
  }

  lemma AtFirstNothing(s: State)
    requires NothingLost(s)
    ensures forall c :: !Lost(s, c)
  {
  }

  // ------------------------------------------- exactly when closed only once

  ghost predicate Twice(closed: seq<Conn>, c: Conn) {
    exists i, j :: 0 <= i < j < |closed| && closed[i] == c && closed[j] == c
  }

  /** Closed twice, or bound to be by the drains under way if they run to their ends. */
  ghost predicate Doomed(s: State, c: Conn) {
    || Twice(s.closed, c)
    || (c in s.closed && Pending(s, c))
    || (exists t, u :: t in s.drains && u in s.drains && t != u && IsLeft(s.drains[t], c) && IsLeft(s.drains[u], c))
  }

  /** A drain begins only when nothing queued was closed before or is still listed by another drain. */
  ghost predicate Clean(s: State, op: Op) {
    op.DrainBegins? ==> forall c :: c in s.toClose ==> c !in s.closed && !Pending(s, c)
  }

  ghost predicate AlwaysClean(cfg: Config, s: State, ops: seq<Op>)
    requires Possible(cfg, s, ops)
    decreases |ops|
  {
    ops == [] || (Clean(s, ops[0]) && AlwaysClean(cfg, Do(cfg, s, ops[0]), ops[1..]))
  }

  /** What a drain has left shrinks by what it closes. */
  lemma LeftAfterClose(d: Drain, c: Conn)
    requires d.done < |d.listed| && Distinct(d.listed)
    ensures IsLeft(d.(done := d.done + 1), c) <==> IsLeft(d, c) && c != d.listed[d.done]
  {
    assert d.listed[d.done..] == [d.listed[d.done]] + d.listed[d.done + 1..];
  }

  lemma ClosedOnceMore(closed: seq<Conn>, x: Conn, c: Conn)
    ensures Twice(closed + [x], c) <==> Twice(closed, c) || (c == x && c in closed)
    ensures c in closed + [x] <==> c in closed || c == x
  {
    var after := closed + [x];
    if Twice(closed, c) {
      var i, j :| 0 <= i < j < |closed| && closed[i] == c && closed[j] == c;
      assert after[i] == c && after[j] == c;
    } else if c == x && c in closed {
      var i :| 0 <= i < |closed| && closed[i] == c;
      assert after[i] == c && after[|closed|] == c;
    }
  }

  /** Where c is left after a closing: where it was, except with the drain that closed it. */
  lemma LeftsAfterClose(cfg: Config, s: State, t: nat, c: Conn)
    requires Inv(s) && Enabled(s, DrainCloses(t))
    ensures var s' := Do(cfg, s, DrainCloses(t));
      && s'.drains.Keys == s.drains.Keys
      && (forall u :: u in s.drains ==>
            (IsLeft(s'.drains[u], c) <==>
               IsLeft(s.drains[u], c) && !(u == t && c == s.drains[t].listed[s.drains[t].done])))
  {
    assert DrainOk(s, s.drains[t]);
    LeftAfterClose(s.drains[t], c);
    hide IsLeft, DrainOk;
  }

  lemma CloseKeepsDoom(cfg: Config, s: State, t: nat, c: Conn)
    requires Inv(s) && Enabled(s, DrainCloses(t))
    ensures Doomed(Do(cfg, s, DrainCloses(t)), c) <==> Doomed(s, c)
  {
    var x, s' := s.drains[t].listed[s.drains[t].done], Do(cfg, s, DrainCloses(t));
    assert IsLeft(s.drains[t], x);
    LeftsAfterClose(cfg, s, t, c);
    ClosedOnceMore(s.closed, x, c);
    hide IsLeft, Inv, Twice;
    assert s'.drains.Keys == s.drains.Keys && s'.closed == s.closed + [x];
    if c == x && Pending(s', c) {
      var u :| u in s'.drains && IsLeft(s'.drains[u], c);
      assert u != t;
    }
  }

  lemma AbortOnlyLifts(cfg: Config, s: State, t: nat, c: Conn)
    requires Inv(s) && Enabled(s, DrainAborts(t)) && Doomed(Do(cfg, s, DrainAborts(t)), c)
    ensures Doomed(s, c)
  {
    var x := s.drains[t].listed[s.drains[t].done];
    assert IsLeft(s.drains[t], x);
    ClosedOnceMore(s.closed, x, c);
    hide IsLeft, Inv, Twice;
  }

  lemma BeginDooms(cfg: Config, s: State, t: nat, listed: seq<Conn>, c: Conn)
    requires Inv(s) && Enabled(s, DrainBegins(t, listed))
    ensures Doomed(Do(cfg, s, DrainBegins(t, listed)), c)
      <==> Doomed(s, c) || (c in s.toClose && (c in s.closed || Pending(s, c)))
  {
    var s' := Do(cfg, s, DrainBegins(t, listed));
    assert listed[0..] == listed && (c in Elements(listed) <==> c in listed);
    assert IsLeft(s'.drains[t], c) <==> c in s.toClose;
    hide IsLeft, Inv, Twice, Distinct;
    assert forall u :: u in s.drains ==> u in s'.drains && s'.drains[u] == s.drains[u];
    if Pending(s, c) {
      var u :| u in s.drains && IsLeft(s.drains[u], c);
      assert u != t && IsLeft(s'.drains[u], c);
    }
  }

  /** Other steps doom nothing and save nothing. */
  lemma OthersKeepDoom(cfg: Config, s: State, op: Op, c: Conn)
    requires Inv(s) && Enabled(s, op) && !op.DrainBegins? && !op.DrainCloses? && !op.DrainAborts?
    ensures Doomed(Do(cfg, s, op), c) <==> Doomed(s, c)
  {
    var s' := Do(cfg, s, op);
    if op.DrainClears? {
      assert !IsLeft(s.drains[op.t], c);
    } else {
      assert s'.drains == s.drains;
    }
    hide IsLeft, Inv, Twice, Expired;
    assert s'.closed == s.closed;
    assert forall u :: u in s.drains && IsLeft(s.drains[u], c) ==> u in s'.drains && s'.drains[u] == s.drains[u];
  }

  lemma StepDooms(cfg: Config, s: State, op: Op, c: Conn)
    requires Inv(s) && Enabled(s, op)
    ensures !op.DrainBegins? && Doomed(Do(cfg, s, op), c) ==> Doomed(s, c)
    ensures !op.DrainAborts? && Doomed(s, c) ==> Doomed(Do(cfg, s, op), c)
    ensures op.DrainBegins? ==> (Doomed(Do(cfg, s, op), c)
      <==> Doomed(s, c) || (c in s.toClose && (c in s.closed || Pending(s, c))))
  {
    hide Doomed, Inv, Pending, Do;
    match op
    case DrainBegins(t, listed) => BeginDooms(cfg, s, t, listed, c);
    case DrainCloses(t) => CloseKeepsDoom(cfg, s, t, c);
    case DrainAborts(t) =>
      if Doomed(Do(cfg, s, op), c) { AbortOnlyLifts(cfg, s, t, c); }
    case _ => OthersKeepDoom(cfg, s, op, c);
  }

  ghost predicate NoneDoomed(s: State) {
    Inv(s) && forall c :: !Doomed(s, c)
  }

  lemma CleanStepDoomsNone(cfg: Config, s: State, op: Op)
    requires NoneDoomed(s) && Enabled(s, op)
    ensures NoneDoomed(Do(cfg, s, op)) <==> Clean(s, op)
  {
    StepKeeps(cfg, s, op);
    hide Doomed, Inv, Pending, Do, Enabled;
    forall c
      ensures Doomed(Do(cfg, s, op), c) <==> op.DrainBegins? && c in s.toClose && (c in s.closed || Pending(s, c))
    {
      StepDooms(cfg, s, op, c);
    }
  }

  lemma UndoomedIsOnce(s: State)
    ensures NoneDoomed(s) ==> Distinct(s.closed)
    ensures s.drains == map[] && Distinct(s.closed) ==> forall c :: !Doomed(s, c)
  {
    if NoneDoomed(s) {
      forall i, j | 0 <= i < j < |s.closed|
        ensures s.closed[i] != s.closed[j]
      {
        assert !Doomed(s, s.closed[i]);
      }
    }
  }

  /** In every run with clean beginnings, aborted drains included, each connection is closed at most once. */
  lemma {:induction false} CleanRunsCloseOnce(cfg: Config, s: State, ops: seq<Op>)
    requires NoneDoomed(s) && Possible(cfg, s, ops) && AlwaysClean(cfg, s, ops)
    ensures NoneDoomed(Run(cfg, s, ops)) && Distinct(Run(cfg, s, ops).closed)
    decreases |ops|
  {
    hide NoneDoomed, Clean, Do, Enabled;
    UndoomedIsOnce(s);
    if ops != [] {
      CleanStepDoomsNone(cfg, s, ops[0]);
      CleanRunsCloseOnce(cfg, Do(cfg, s, ops[0]), ops[1..]);
    }
  }

  ghost predicate NoAborts(ops: seq<Op>) {
    forall k :: 0 <= k < |ops| ==> !ops[k].DrainAborts?
  }

  /** Doom comes true when the drains run to their ends. */
  lemma {:induction false} DoomComesTrue(cfg: Config, s: State, ops: seq<Op>, c: Conn)
    requires Inv(s) && Possible(cfg, s, ops) && NoAborts(ops) && Run(cfg, s, ops).drains == map[] && Doomed(s, c)
    ensures !Distinct(Run(cfg, s, ops).closed)
    decreases |ops|
  {
    hide Doomed, Inv, Do, Enabled;
    if ops == [] {
      UndoomedIsOnce(s);
    } else {
      StepDooms(cfg, s, ops[0], c);
      StepKeeps(cfg, s, ops[0]);
      DoomComesTrue(cfg, Do(cfg, s, ops[0]), ops[1..], c);
    }
  }

  /**
    From any state in which nothing is closed twice or bound to be, with any
    drains under way: if all drains run to their ends, each connection is closed
    at most once exactly if every drain that began did so cleanly.
   */
  lemma {:induction false} ClosedOnceIffClean(cfg: Config, s: State, ops: seq<Op>)
    requires NoneDoomed(s) && Possible(cfg, s, ops) && NoAborts(ops) && Run(cfg, s, ops).drains == map[]
    ensures Distinct(Run(cfg, s, ops).closed) <==> AlwaysClean(cfg, s, ops)
    decreases |ops|
  {
    hide Clean, Do, Enabled, Doomed, Inv;
    if ops == [] {
      UndoomedIsOnce(s);
    } else {
      var s' := Do(cfg, s, ops[0]);
      CleanStepDoomsNone(cfg, s, ops[0]);
      StepKeeps(cfg, s, ops[0]);
      if Clean(s, ops[0]) {
        ClosedOnceIffClean(cfg, s', ops[1..]);
      } else {
        var c :| Doomed(s', c);
        DoomComesTrue(cfg, s', ops[1..], c);
      }
    }
  }

  /** A drain that aborts leaves what it closed in the queue: the next one cannot begin cleanly. */
  lemma AbortedDrainIsRepeated(cfg: Config, s: State, t: nat, u: nat, listed: seq<Conn>)
    requires ClosedOnce(s) && Enabled(s, DrainAborts(t))
    ensures !Clean(Do(cfg, s, DrainAborts(t)), DrainBegins(u, listed))
  {
    var d := s.drains[t];
    var c, s' := d.listed[d.done], Do(cfg, s, DrainAborts(t));
    assert c in d.listed && c !in s.closed && s'.closed[|s.closed|] == c;
  }

  /** A new pool, from which the run theorems start. */
  lemma NewPool()
    ensures NoneDoomed(Initial) && NothingLost(Initial) && ClosedOnce(Initial)
  {
  }

  /** A connection, opened and removed, which a drain has begun to close. */
  const Closing := State(map[], {}, {0}, map[0 := Drain([0], 0)], {0}, [], {})

  lemma ClosingIsReached(cfg: Config)
    ensures var ops := [Connected(0, 0.0), Remove(0), DrainBegins(0, [0])];
      Possible(cfg, Initial, ops) && Run(cfg, Initial, ops) == Closing
  {
    var s1 := Do(cfg, Initial, Connected(0, 0.0));
    var s2 := Do(cfg, s1, Remove(0));
    assert s2 == State(map[], {}, {0}, map[], {0}, [], {});
    RunThree(cfg, Initial, Connected(0, 0.0), Remove(0), DrainBegins(0, [0]));
  }

  /** Then a second drain, overlapping the first, closes it a second time. */
  lemma OverlappingDrainsCloseTwice(cfg: Config)
    ensures Closes(cfg, Closing, [DrainBegins(1, [0]), DrainCloses(0), DrainCloses(1)], [0, 0])
  {
    RunThree(cfg, Closing, DrainBegins(1, [0]), DrainCloses(0), DrainCloses(1));
  }

  /** And so does one that begins after the first has aborted. */
  lemma DrainAfterAbortClosesTwice(cfg: Config)
    ensures Closes(cfg, Closing, [DrainAborts(0), DrainBegins(1, [0]), DrainCloses(1)], [0, 0])
  {
    RunThree(cfg, Closing, DrainAborts(0), DrainBegins(1, [0]), DrainCloses(1));
  }

  ghost predicate Closes(cfg: Config, s: State, ops: seq<Op>, closed: seq<Conn>) {
    Possible(cfg, s, ops) && Run(cfg, s, ops).closed == closed
  }

  lemma RunThree(cfg: Config, s: State, a: Op, b: Op, c: Op)
    requires Enabled(s, a) && Enabled(Do(cfg, s, a), b) && Enabled(Do(cfg, Do(cfg, s, a), b), c)
    ensures Possible(cfg, s, [a, b, c]) && Run(cfg, s, [a, b, c]) == Do(cfg, Do(cfg, Do(cfg, s, a), b), c)
  {
    hide Enabled, Do;
    var s1 := Do(cfg, s, a);
    var s2 := Do(cfg, s1, b);
    assert [a, b, c][1..] == [b, c] && [b, c][1..] == [c] && [c][1..] == [];
    assert Possible(cfg, s2, [c]) && Run(cfg, s2, [c]) == Do(cfg, s2, c);
    assert Possible(cfg, s1, [b, c]) && Run(cfg, s1, [b, c]) == Run(cfg, s2, [c]);
  }
}
