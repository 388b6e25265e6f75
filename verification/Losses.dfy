/**
  Exactly which steps of a `ConnectionPool` lose a connection, in every
  interleaving: overlapping drains and aborted ones included.
 */
module Losses {
  import opened Sequences
  import opened Pool

  /**
    This step loses c: the `clear` of a drain takes it off the queue, though it
    was not closed and no drain lists it still; or a drain aborts that had it
    left, though it is not queued any more and no other drain has it left.
   */
  ghost predicate Loses(s: State, op: Op, c: Conn)
    requires Enabled(s, op)
  {
    match op
    case DrainClears(t) => c in s.toClose && c !in s.closed && !Pending(s, c)
    case DrainAborts(t) =>
      && IsLeft(s.drains[t], c) && c != s.drains[t].listed[s.drains[t].done]
      && c !in s.toClose && c !in s.closed && !LeftElsewhere(s, t, c)
    case _ => false
  }

  /** Another drain than t has yet to close c. */
  ghost predicate LeftElsewhere(s: State, t: nat, c: Conn) {
    exists u :: u in s.drains && u != t && IsLeft(s.drains[u], c)
  }

  /** Some step of the run loses c. */
  ghost predicate LosesAlong(cfg: Config, s: State, ops: seq<Op>, c: Conn)
    requires Possible(cfg, s, ops)
    decreases |ops|
  {
    ops != [] && (Loses(s, ops[0], c) || LosesAlong(cfg, Do(cfg, s, ops[0]), ops[1..], c))
  }

  lemma StepLoses(cfg: Config, s: State, op: Op, c: Conn)
    requires Inv(s) && Enabled(s, op) && !Lost(s, c)
    ensures Lost(Do(cfg, s, op), c) <==> Loses(s, op, c)
  {
    if op.DrainCloses? {
      CloseLosesNothing(cfg, s, op.t, c);
    } else if op.DrainBegins? {
      BeginLosesNothing(cfg, s, op.t, op.listed, c);
    } else if op.DrainClears? {
      ClearLoses(cfg, s, op.t, c);
    } else if op.DrainAborts? {
      AbortLoses(cfg, s, op.t, c);
    } else {
      hide Distinct, Expired, DrainOk, IsLeft;
    }
  }

  lemma CloseLosesNothing(cfg: Config, s: State, t: nat, c: Conn)
    requires Inv(s) && Enabled(s, DrainCloses(t)) && !Lost(s, c)
    ensures !Lost(Do(cfg, s, DrainCloses(t)), c)
  {
    var s' := Do(cfg, s, DrainCloses(t));
    LeftsAfterClose(cfg, s, t, c);
    hide Distinct, Inv, IsLeft;
    if Pending(s, c) && c != s.drains[t].listed[s.drains[t].done] {
      var u :| u in s.drains && IsLeft(s.drains[u], c);
      assert IsLeft(s'.drains[u], c);
    } else if Pending(s, c) {
      assert s'.closed[|s.closed|] == c;
    }
  }

  lemma BeginLosesNothing(cfg: Config, s: State, t: nat, listed: seq<Conn>, c: Conn)
    requires Enabled(s, DrainBegins(t, listed)) && !Lost(s, c)
    ensures !Lost(Do(cfg, s, DrainBegins(t, listed)), c)
  {
    hide Distinct, IsLeft;
    if Pending(s, c) {
      var u :| u in s.drains && IsLeft(s.drains[u], c);
      assert Do(cfg, s, DrainBegins(t, listed)).drains[u] == s.drains[u];
    }
  }

  lemma ClearLoses(cfg: Config, s: State, t: nat, c: Conn)
    requires Inv(s) && Enabled(s, DrainClears(t)) && !Lost(s, c)
    ensures Lost(Do(cfg, s, DrainClears(t)), c) <==> Loses(s, DrainClears(t), c)
  {
    hide Distinct, DrainOk;
    var s' := Do(cfg, s, DrainClears(t));
    assert !IsLeft(s.drains[t], c);
    assert forall u :: u in s'.drains <==> u in s.drains && u != t;
    assert Pending(s', c) <==> Pending(s, c) by {
      if Pending(s, c) {
        var u :| u in s.drains && IsLeft(s.drains[u], c);
        assert u in s'.drains && IsLeft(s'.drains[u], c);
      }
    }
  }

  lemma AbortLoses(cfg: Config, s: State, t: nat, c: Conn)
    requires Inv(s) && Enabled(s, DrainAborts(t)) && !Lost(s, c)
    ensures Lost(Do(cfg, s, DrainAborts(t)), c) <==> Loses(s, DrainAborts(t), c)
  {
    var d, s' := s.drains[t], Do(cfg, s, DrainAborts(t));
    assert DrainOk(s, d);
    hide Distinct, DrainOk;
    assert c in s'.closed <==> c in s.closed || c == d.listed[d.done] by {
      assert s'.closed[|s.closed|] == d.listed[d.done];
    }
    assert Pending(s', c) <==> LeftElsewhere(s, t, c) by {
      if LeftElsewhere(s, t, c) {
        var u :| u in s.drains && u != t && IsLeft(s.drains[u], c);
        assert IsLeft(s'.drains[u], c);
      }
    }
    assert Pending(s, c) <==> IsLeft(d, c) || LeftElsewhere(s, t, c);
  }

  /** In every run a connection is lost exactly if one of its steps loses it. */
  lemma {:induction false} LostIffAStepLosesIt(cfg: Config, s: State, ops: seq<Op>, c: Conn)
    requires Inv(s) && Possible(cfg, s, ops) && !Lost(s, c)
    ensures Lost(Run(cfg, s, ops), c) <==> LosesAlong(cfg, s, ops, c)
    decreases |ops|
  {
    if ops != [] {
      hide Inv, Do, Enabled, Lost, Loses;
      StepLoses(cfg, s, ops[0], c);
      StepKeeps(cfg, s, ops[0]);
      if Loses(s, ops[0], c) {
        LostForever(cfg, Do(cfg, s, ops[0]), ops[1..], c);
      } else {
        LostIffAStepLosesIt(cfg, Do(cfg, s, ops[0]), ops[1..], c);
      }
    }
  }

  // ---------------------------------------------------- handed out, given back

  /**
    A live connection given back can be handed out next, to one caller only; how old it
    then counts as is what `mark_refreshed_on_get` says. One removed meanwhile cannot.
   */
  lemma GivenBackIsReused(cfg: Config, s: State, c: Conn, now: real)
    requires Inv(s)
    ensures var s1 := Do(cfg, s, Put(c));
      && c !in s1.out
      && (Enabled(s1, Take(c, now)) <==> c in s.live)
      && (c in s.live && (cfg.maxDuration.None? || now - s.live[c] <= cfg.maxDuration.value) ==>
            var s2 := Do(cfg, s1, Take(c, now));
            && c in s2.out && !Enabled(s2, Take(c, now))
            && c in s2.live && s2.live[c] == if cfg.refreshOnGet then now else s.live[c])
  {
    hide DrainsInv;
  }

  /** A prewarmed connection can be handed out at once. */
  lemma PrewarmedIsReady(cfg: Config, s: State, c: Conn, since: real, now: real)
    requires Inv(s) && Enabled(s, Prewarmed(c, since))
    ensures Enabled(Do(cfg, s, Prewarmed(c, since)), Take(c, now))
  {
    hide DrainsInv;
  }

  /** What was removed is queued to be closed, and never handed out again. */
  lemma RemovedIsNotHandedOut(cfg: Config, s: State, op: Op, ops: seq<Op>, c: Conn, now: real)
    requires Inv(s) && c in s.live && (op == Op.Remove(c) || op == Invalidate)
    requires Possible(cfg, Do(cfg, s, op), ops)
    ensures c in Do(cfg, s, op).toClose
    ensures !Enabled(Run(cfg, Do(cfg, s, op), ops), Take(c, now))
  {
    StepKeeps(cfg, s, op);
    NotRevived(cfg, Do(cfg, s, op), ops, c);
    hide Run, Inv;
  }

  lemma {:induction false} NotRevived(cfg: Config, s: State, ops: seq<Op>, c: Conn)
    requires Inv(s) && Possible(cfg, s, ops) && c in s.created && c !in s.live
    ensures c !in Run(cfg, s, ops).live
    decreases |ops|
  {
    if ops != [] {
      NothingRevived(cfg, s, ops[0]);
      StepKeeps(cfg, s, ops[0]);
      hide Inv, Do, Enabled;
      NotRevived(cfg, Do(cfg, s, ops[0]), ops[1..], c);
    }
  }

  // ------------------------------------------------- two runs of a new pool

  lemma Prepend(cfg: Config, s: State, op: Op, ops: seq<Op>)
    requires Enabled(s, op) && Possible(cfg, Do(cfg, s, op), ops)
    ensures Possible(cfg, s, [op] + ops) && Run(cfg, s, [op] + ops) == Run(cfg, Do(cfg, s, op), ops)
  {
    assert ([op] + ops)[1..] == ops;
    hide Enabled, Do;
  }

  lemma {:induction false} RunsOn(cfg: Config, s: State, ops: seq<Op>, more: seq<Op>)
    requires Possible(cfg, s, ops) && Possible(cfg, Run(cfg, s, ops), more)
    ensures Possible(cfg, s, ops + more) && Run(cfg, s, ops + more) == Run(cfg, Run(cfg, s, ops), more)
    decreases |ops|
  {
    if ops == [] {
      assert ops + more == more;
    } else {
      assert ops + more == [ops[0]] + (ops[1..] + more);
      hide Enabled, Do;
      RunsOn(cfg, Do(cfg, s, ops[0]), ops[1..], more);
      Prepend(cfg, s, ops[0], ops[1..] + more);
    }
  }

  /** Two connections were opened, both were removed, and a drain that began in between is under way. */
  const RemovedMeanwhile := State(map[], {}, {0, 1}, map[0 := Drain([0], 0)], {0, 1}, [], {})

  const UpToRemoval :=
    [Connected(0, 0.0)] + ([Connected(1, 0.0)] + ([Op.Remove(0)] + ([DrainBegins(0, [0])] + [Op.Remove(1)])))

  lemma RemovalIsReached(cfg: Config)
    ensures Possible(cfg, Initial, UpToRemoval) && Run(cfg, Initial, UpToRemoval) == RemovedMeanwhile
  {
    var live := map[0 := 0.0, 1 := 0.0];
    var s1 := State(map[0 := 0.0], {}, {}, map[], {0}, [], {0});
    var s2 := State(live, {}, {}, map[], {0, 1}, [], {0, 1});
    var s3 := State(map[1 := 0.0], {}, {0}, map[], {0, 1}, [], {1});
    var s4 := s3.(drains := map[0 := Drain([0], 0)]);
    assert Do(cfg, Initial, Connected(0, 0.0)) == s1;
    assert Do(cfg, s1, Connected(1, 0.0)) == s2;
    assert Do(cfg, s2, Op.Remove(0)) == s3 by { assert live - {0} == map[1 := 0.0]; }
    assert Enabled(s3, DrainBegins(0, [0])) && Do(cfg, s3, DrainBegins(0, [0])) == s4;
    assert Do(cfg, s4, Op.Remove(1)) == RemovedMeanwhile;
    RunsToNext(cfg, s4, Op.Remove(1));
    Prepend(cfg, s3, DrainBegins(0, [0]), [Op.Remove(1)]);
    Prepend(cfg, s2, Op.Remove(0), [DrainBegins(0, [0])] + [Op.Remove(1)]);
    Prepend(cfg, s1, Connected(1, 0.0), [Op.Remove(0)] + ([DrainBegins(0, [0])] + [Op.Remove(1)]));
    Prepend(cfg, Initial, Connected(0, 0.0),
      [Connected(1, 0.0)] + ([Op.Remove(0)] + ([DrainBegins(0, [0])] + [Op.Remove(1)])));
  }

  lemma RunsToNext(cfg: Config, s: State, op: Op)
    requires Enabled(s, op)
    ensures Possible(cfg, s, [op]) && Run(cfg, s, [op]) == Do(cfg, s, op)
  {
    assert [op][1..] == [];
    hide Enabled, Do;
  }

  lemma AfterRemoval(cfg: Config, more: seq<Op>)
    requires Possible(cfg, RemovedMeanwhile, more)
    ensures Possible(cfg, Initial, UpToRemoval + more)
    ensures Run(cfg, Initial, UpToRemoval + more) == Run(cfg, RemovedMeanwhile, more)
  {
    RemovalIsReached(cfg);
    hide Possible, Run, UpToRemoval, RemovedMeanwhile;
    RunsOn(cfg, Initial, UpToRemoval, more);
  }

  /** The drain closes its one connection and clears the queue: the other is lost. */
  lemma ClearingLoses(cfg: Config)
    ensures var ops := [DrainCloses(0)] + [DrainClears(0)];
      Possible(cfg, Initial, UpToRemoval + ops) && Lost(Run(cfg, Initial, UpToRemoval + ops), 1)
  {
    var s1 := RemovedMeanwhile.(closed := [0], drains := map[0 := Drain([0], 1)]);
    assert Do(cfg, RemovedMeanwhile, DrainCloses(0)) == s1;
    RunsToNext(cfg, s1, DrainClears(0));
    Prepend(cfg, RemovedMeanwhile, DrainCloses(0), [DrainClears(0)]);
    assert Do(cfg, s1, DrainClears(0)).drains == map[];
    AfterRemoval(cfg, [DrainCloses(0)] + [DrainClears(0)]);
  }

  /**
    Or a second drain lists both, the first clears the queue, and closing the
    first connection again raises: the other is lost.
   */
  lemma AbortingLoses(cfg: Config)
    ensures var ops := [DrainBegins(1, [0, 1])] + ([DrainCloses(0)] + ([DrainClears(0)] + [DrainAborts(1)]));
      Possible(cfg, Initial, UpToRemoval + ops) && Lost(Run(cfg, Initial, UpToRemoval + ops), 1)
  {
    var both := Drain([0, 1], 0);
    var s1 := RemovedMeanwhile.(drains := map[0 := Drain([0], 0), 1 := both]);
    var s2 := s1.(closed := [0], drains := map[0 := Drain([0], 1), 1 := both]);
    var s3 := s2.(toClose := {}, drains := map[1 := both]);
    assert Elements([0, 1]) == {0, 1};
    assert Do(cfg, RemovedMeanwhile, DrainBegins(1, [0, 1])) == s1;
    assert Do(cfg, s1, DrainCloses(0)) == s2;
    assert Do(cfg, s2, DrainClears(0)) == s3 by { assert s2.drains - {0} == s3.drains; }
    assert Do(cfg, s3, DrainAborts(1)).drains == map[];
    RunsToNext(cfg, s3, DrainAborts(1));
    Prepend(cfg, s2, DrainClears(0), [DrainAborts(1)]);
    Prepend(cfg, s1, DrainCloses(0), [DrainClears(0)] + [DrainAborts(1)]);
    Prepend(cfg, RemovedMeanwhile, DrainBegins(1, [0, 1]), [DrainCloses(0)] + ([DrainClears(0)] + [DrainAborts(1)]));
    AfterRemoval(cfg, [DrainBegins(1, [0, 1])] + ([DrainCloses(0)] + ([DrainClears(0)] + [DrainAborts(1)])));
  }
}
