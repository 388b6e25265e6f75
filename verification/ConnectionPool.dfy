/** The `ConnectionPool` object, each method proved against the steps of `Pool`. */
module ConnectionPools {
  import opened Wrappers
  import opened Sequences
  import opened Pool

  datatype ConnectError = ConnectFailed

  class ConnectionPool {
    const cfg: Config
    var connections: map<Conn, real>
    var available: set<Conn>
    var toClose: set<Conn>
    /** Whether `_prewarm_task` was ever set. */
    var prewarmStarted: bool

    // History: drains under way, everything opened, closed, and handed out.
    ghost var drains: map<nat, Drain>
    ghost var created: set<Conn>
    ghost var closed: seq<Conn>
    ghost var out: set<Conn>

    ghost function Abs(): State
      reads this
    {
      State(connections, available, toClose, drains, created, closed, out)
    }

    /** Between calls that no drain of another caller disturbs. */
    ghost predicate Valid()
      reads this
    {
      NothingLost(Abs()) && ClosedOnce(Abs()) && drains == map[]
    }

    constructor (cfg: Config)
      ensures Valid() && Abs() == Initial && this.cfg == cfg
    {
      this.cfg := cfg;
      connections, available, toClose, prewarmStarted := map[], {}, {}, false;
      drains, created, closed, out := map[], {}, [], {};
    }

    /** A step outside any drain keeps what holds between calls. */
    lemma QuietStepKeeps(s: State, op: Op)
      requires NothingLost(s) && ClosedOnce(s) && s.drains == map[]
      requires Enabled(s, op) && !op.DrainBegins?
      ensures NothingLost(Do(cfg, s, op)) && ClosedOnce(Do(cfg, s, op)) && Do(cfg, s, op).drains == map[]
    {
      QuietStepLosesNothing(cfg, s, op);
      OrderlyStepClosesOnce(cfg, s, op);
      hide NothingLost, ClosedOnce;
    }

    /** `put`: available again, if it is still in the pool. */
    method Put(conn: Conn)
      modifies this`available, this`out
      ensures Abs() == Do(cfg, old(Abs()), Op.Put(conn))
    {
      if conn in connections {
        available := available + {conn};
      }
      out := out - {conn};
    }

    /** `remove`: out of the pool, to be closed by the next drain. */
    method Remove(conn: Conn)
      modifies this
      ensures Abs() == Do(cfg, old(Abs()), Op.Remove(conn))
    {
      available := available - {conn};
      if conn in connections {
        toClose := toClose + {conn};
        connections := connections - {conn};
      }
      out := out - {conn};
    }

    /** `invalidate`: the same for every connection, whoever holds it. */
    method Invalidate()
      modifies this`connections, this`available, this`toClose
      ensures Abs() == Do(cfg, old(Abs()), Op.Invalidate)
    {
      var keys := connections.Keys;
      while keys != {}
        invariant connections == old(connections) && available == old(available)
        invariant keys <= connections.Keys && toClose == old(toClose) + (connections.Keys - keys)
        decreases |keys|
      {
        var conn :| conn in keys;
        toClose, keys := toClose + {conn}, keys - {conn};
      }
      connections, available := map[], {};
    }

    /** `list(s)`: the elements in some order. */
    method ListOf(s: set<Conn>) returns (listed: seq<Conn>)
      ensures Distinct(listed) && Elements(listed) == s
    {
      listed := [];
      var rest := s;
      while rest != {}
        invariant Distinct(listed) && rest <= s && Elements(listed) == s - rest
        decreases |rest|
      {
        var conn :| conn in rest;
        assert Elements(listed + [conn]) == Elements(listed) + {conn};
        assert conn !in Elements(listed);
        listed, rest := listed + [conn], rest - {conn};
      }
    }

    /** `_drain_to_close`, undisturbed: every queued connection is closed, once, and none is queued any more. */
    method DrainToClose()
      requires Valid()
      modifies this`toClose, this`drains, this`closed
      ensures Valid() && toClose == {}
      ensures exists listed :: Elements(listed) == old(toClose) && closed == old(closed) + listed
    {
      var listed := ListOf(toClose);
      ghost var before := closed;
      if listed == [] {
        NothingListed(toClose);
        assert closed == before + listed;
        return;
      }
      Begin(listed);
      hide NothingLost, ClosedOnce, Distinct, Elements;
      for i := 0 to |listed|
        invariant drains == map[0 := Drain(listed, i)] && NothingLost(Abs()) && ClosedOnce(Abs())
        invariant closed == before + listed[..i] && toClose == old(toClose)
      {
        CloseConnection(listed, i);
        Regroup(before, listed, i);
      }
      Clear(listed);
      assert listed[..|listed|] == listed;
      assert Elements(listed) == old(toClose) && closed == before + listed;
    }

    lemma NothingListed(s: set<Conn>)
      requires Elements([]) == s
      ensures s == {}
    {
    }

    lemma Regroup(before: seq<Conn>, listed: seq<Conn>, i: nat)
      requires i < |listed|
      ensures before + listed[..i] + [listed[i]] == before + listed[..i + 1]
    {
    }

    ghost method Begin(listed: seq<Conn>)
      requires Valid() && listed != [] && Distinct(listed) && Elements(listed) == toClose
      modifies this`drains
      ensures drains == map[0 := Drain(listed, 0)] && NothingLost(Abs()) && ClosedOnce(Abs())
    {
      QuietStepLosesNothing(cfg, Abs(), DrainBegins(0, listed));
      OrderlyStepClosesOnce(cfg, Abs(), DrainBegins(0, listed));
      hide NothingLost, ClosedOnce, Distinct;
      drains := map[0 := Drain(listed, 0)];
    }

    lemma CloseKeeps(s: State, listed: seq<Conn>, i: nat)
      requires i < |listed| && s.drains == map[0 := Drain(listed, i)] && NothingLost(s) && ClosedOnce(s)
      ensures var s' := s.(closed := s.closed + [listed[i]], drains := map[0 := Drain(listed, i + 1)]);
        NothingLost(s') && ClosedOnce(s')
    {
      QuietStepLosesNothing(cfg, s, DrainCloses(0));
      OrderlyStepClosesOnce(cfg, s, DrainCloses(0));
      hide NothingLost, ClosedOnce;
      assert Do(cfg, s, DrainCloses(0)).drains == map[0 := Drain(listed, i + 1)];
    }

    /** `_maybe_close_connection` of the next listed connection. */
    method CloseConnection(listed: seq<Conn>, i: nat)
      requires i < |listed| && drains == map[0 := Drain(listed, i)] && NothingLost(Abs()) && ClosedOnce(Abs())
      modifies this`drains, this`closed
      ensures drains == map[0 := Drain(listed, i + 1)] && NothingLost(Abs()) && ClosedOnce(Abs())
      ensures closed == old(closed) + [listed[i]]
    {
      CloseKeeps(Abs(), listed, i);
      hide NothingLost, ClosedOnce;
      closed, drains := closed + [listed[i]], map[0 := Drain(listed, i + 1)];
    }

    method Clear(ghost listed: seq<Conn>)
      requires drains == map[0 := Drain(listed, |listed|)] && NothingLost(Abs()) && ClosedOnce(Abs())
      modifies this`drains, this`toClose
      ensures Valid() && toClose == {}
    {
      QuietStepLosesNothing(cfg, Abs(), DrainClears(0));
      OrderlyStepClosesOnce(cfg, Abs(), DrainClears(0));
      hide NothingLost, ClosedOnce;
      toClose, drains := {}, map[];
    }

    /**
      The loop of `get` over the available connections: the first that has not
      expired is handed out, the expired ones before it are removed; none is
      found only if all had expired.
     */
    method Reuse(now: real) returns (found: Option<Conn>, ghost skipped: set<Conn>)
      requires Valid()
      modifies this
      ensures Valid() && created == old(created) && closed == old(closed)
      ensures available == old(available) - skipped - (if found.Some? then {found.value} else {})
      ensures AllExpired(old(connections), skipped, now) && skipped <= old(available)
      ensures toClose == old(toClose) + skipped
      ensures found.None? ==> available == {} && out == old(out) && connections == old(connections) - skipped
      ensures found.Some? ==>
        && found.value in old(available) && found.value !in old(out)
        && found.value !in available && found.value !in skipped
        && out == old(out) + {found.value}
        && found.value in old(connections) && !Expired(cfg, old(connections)[found.value], now)
        && connections == Refreshed(old(connections) - skipped, found.value, now)
    {
      hide NothingLost, ClosedOnce, Do, AllExpired;
      skipped := {};
      ghost var before := connections;
      AllExpiredGrows(before, {}, now);
      while available != {}
        invariant Valid() && created == old(created) && closed == old(closed) && out == old(out)
        invariant available == old(available) - skipped && skipped <= old(available)
        invariant AllExpired(before, skipped, now)
        invariant toClose == old(toClose) + skipped && connections == before - skipped
        decreases |available|
      {
        var conn :| conn in available;
        AvailableAreLive(Abs(), conn);
        if cfg.maxDuration.None? || now - connections[conn] <= cfg.maxDuration.value {
          HandOut(conn, now);
          return Some(conn), skipped;
        }
        Drop(conn, now);
        AllExpiredGrows(before, skipped, now);
        OneMoreSkipped(before, old(available), old(toClose), skipped, conn);
        skipped := skipped + {conn};
      }
      return None, skipped;
    }

    lemma OneMoreSkipped(since: map<Conn, real>, free: set<Conn>, queued: set<Conn>, skipped: set<Conn>, c: Conn)
      ensures since - skipped - {c} == since - (skipped + {c})
      ensures free - skipped - {c} == free - (skipped + {c})
      ensures queued + skipped + {c} == queued + (skipped + {c})
    {
    }

    ghost predicate AllExpired(since: map<Conn, real>, cs: set<Conn>, now: real) {
      forall c :: c in cs ==> c in since && cfg.maxDuration.Some? && now - since[c] > cfg.maxDuration.value
    }

    lemma AllExpiredGrows(since: map<Conn, real>, cs: set<Conn>, now: real)
      ensures AllExpired(since, {}, now)
      ensures forall c :: AllExpired(since, cs, now) && c in since && Expired(cfg, since[c], now) ==>
        AllExpired(since, cs + {c}, now)
    {
    }

    /** With `mark_refreshed_on_get` a connection's age starts again. */
    function Refreshed(since: map<Conn, real>, c: Conn, now: real): map<Conn, real> {
      if cfg.refreshOnGet then since[c := now] else since
    }

    lemma AvailableAreLive(s: State, c: Conn)
      requires NothingLost(s) && c in s.available
      ensures c in s.live && c !in s.out && c in s.created
    {
    }

    method HandOut(conn: Conn, now: real)
      requires Valid() && conn in available && conn in connections && !Expired(cfg, connections[conn], now)
      modifies this`available, this`out, this`connections
      ensures Valid() && available == old(available) - {conn} && out == old(out) + {conn}
      ensures connections == Refreshed(old(connections), conn, now)
    {
      QuietStepKeeps(Abs(), Take(conn, now));
      hide NothingLost, ClosedOnce;
      available := available - {conn};
      if cfg.refreshOnGet {
        connections := connections[conn := now];
      }
      out := out + {conn};
    }

    /** An expired connection is removed instead. */
    method Drop(conn: Conn, now: real)
      requires Valid() && conn in available && conn !in out
      requires conn in connections && Expired(cfg, connections[conn], now)
      modifies this
      ensures Valid() && available == old(available) - {conn} && toClose == old(toClose) + {conn}
      ensures connections == old(connections) - {conn}
      ensures out == old(out) && created == old(created) && closed == old(closed)
    {
      QuietStepKeeps(Abs(), Take(conn, now));
      hide NothingLost, ClosedOnce;
      available := available - {conn};
      Remove(conn);
    }

    /**
      `get`: drain, reuse, or else connect; `connecting` is what the callback
      would return and the time just after, None if it would fail. What callers
      hold is left alone.
     */
    method Get(now: real, connecting: Option<(Conn, real)>) returns (r: Result<Conn, ConnectError>)
      requires Valid() && (connecting.Some? ==> connecting.value.0 !in created)
      modifies this
      ensures Valid()
      ensures r.Ok? ==>
        && r.value in connections && r.value !in closed && r.value !in old(out)
        && out == old(out) + {r.value}
        && (r.value in old(available) ==> r.value in old(connections) && !Expired(cfg, old(connections)[r.value], now))
        && (r.value !in old(available) ==> connecting == Some((r.value, connections[r.value])))
      ensures (r.Err? || r.value !in old(available)) ==> AllExpired(old(connections), old(available), now)
      ensures r.Err? ==> connecting.None? && out == old(out) && created == old(created)
      ensures forall c :: c in old(toClose) ==> c in closed
      ensures forall c :: c in old(connections) && c !in old(available) ==>
        c in connections && connections[c] == old(connections)[c]
    {
      var queued := toClose;
      DrainToClose();
      assert forall c :: c in queued ==> c in Elements(closed[|old(closed)|..]);
      ghost var before := connections;
      var found, skipped := Reuse(now);
      if found.Some? {
        HandedOutIsOpen(Abs(), found.value);
        return Ok(found.value);
      }
      match connecting
      case None =>
        return Err(ConnectFailed);
      case Some((conn, since)) =>
        ghost var s := Abs();
        QuietStepKeeps(s, Connected(conn, since));
        connections := connections[conn := since];
        created, out := created + {conn}, out + {conn};
        assert Abs() == Do(cfg, s, Connected(conn, since));
        HandedOutIsOpen(Abs(), conn);
        return Ok(conn);
    }

    lemma HandedOutIsOpen(s: State, c: Conn)
      requires NothingLost(s) && c in s.live
      ensures c !in s.closed
    {
    }

    /** `prewarm`: starts its task the first time it is called on an empty pool. */
    method Prewarm() returns (starts: bool)
      modifies this`prewarmStarted
      ensures starts == (!old(prewarmStarted) && connections == map[])
      ensures prewarmStarted == (old(prewarmStarted) || starts)
    {
      starts := !prewarmStarted && connections == map[];
      prewarmStarted := prewarmStarted || starts;
    }

    /**
      `_prewarm_impl`: on a pool still empty, one new connection, made available
      at once; nothing if connecting fails or the task is cancelled first.
     */
    method PrewarmTask(connecting: Option<(Conn, real)>)
      requires Valid() && (connecting.Some? ==> connecting.value.0 !in created)
      modifies this
      ensures Valid() && prewarmStarted == old(prewarmStarted)
      ensures Abs() == if old(connections) == map[] && connecting.Some?
        then Do(cfg, old(Abs()), Op.Prewarmed(connecting.value.0, connecting.value.1)) else old(Abs())
    {
      if connections != map[] || connecting.None? {
        return;
      }
      var (conn, since) := connecting.value;
      QuietStepKeeps(Abs(), Op.Prewarmed(conn, since));
      hide NothingLost, ClosedOnce;
      connections, available, created := connections[conn := since], available + {conn}, created + {conn};
    }

    /** `aclose`: then every connection ever opened has been closed, exactly once. */
    method Aclose()
      requires Valid()
      modifies this
      ensures Valid() && connections == map[] && toClose == {} && available == {}
      ensures created == old(created) && Distinct(closed) && Elements(closed) == created
    {
      QuietStepKeeps(Abs(), Op.Invalidate);
      Invalidate();
      DrainToClose();
      AllClosed(Abs());
    }

    lemma AllClosed(s: State)
      requires NothingLost(s) && ClosedOnce(s) && s.drains == map[] && s.live == map[] && s.toClose == {}
      ensures Distinct(s.closed) && Elements(s.closed) == s.created
    {
      forall c | c in s.created
        ensures c in s.closed
      {
        assert !Lost(s, c);
      }
    }
  }
}
