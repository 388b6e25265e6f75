/**
  What each step of the fallback adapters does to the recoveries and the flags:
  an instance left behind is being recovered, and only then.
 */
module Recoveries {
  import opened Wrappers
  import opened Fallback

  /** The step goes past instance i: it skips it, or its attempt has failed and the stream goes on. */
  ghost predicate LeavesBehind(s: State, op: Op, i: nat)
    requires Enabled(s, op)
  {
    match op
    case Visit(id, _) =>
      s.streams[id].pc.i == i && i < |s.status| && !s.status[i].available && !s.streams[id].allFailed
    case Fail(id, _) => s.streams[id].pc.i == i && !Audible(s.audio, s.streams[id])
    case _ => false
  }

  /** A streaming TTS that was given no text yet, with which it could probe the instance. */
  predicate NothingToProbeWith(s: State, op: Op)
    requires Enabled(s, op) && (op.Visit? || op.Fail?)
  {
    s.streams[op.id].kind.TtsStreaming? && !op.hasText
  }

  /** Task t is recovering instance i. */
  predicate Recovers(s: State, t: nat, i: nat) {
    t in s.recoveries && s.recoveries[t] == i
  }

  ghost predicate IsRecovering(s: State, i: nat) {
    exists t :: Recovers(s, t, i)
  }

  lemma TryRecoveryFlags(s: State, i: nat, k: nat)
    requires i < |s.status| && k < |s.status|
    ensures TryRecovery(s, i).status[k].available == s.status[k].available
  {
  }

  lemma TryRecoveryStarts(s: State, i: nat)
    requires RecoveryInv(s) && i < |s.status| && |s.events| == |s.status| && !s.status[i].available
    ensures var s' := TryRecovery(s, i);
      && IsRecovering(s', i)
      && s'.recoveries == (if IsRecovering(s, i) then s.recoveries else s.recoveries[s.nextTask := i])
      && s.nextTask !in s.recoveries
  {
    var s' := TryRecovery(s, i);
    if s'.recoveries != s.recoveries {
      assert Recovers(s', s.nextTask, i);
    } else {
      assert Recovers(s', s.status[i].recoveringTask.value, i);
    }
  }

  /**
    An instance left behind is unavailable and has a recovery pending: the one
    it had, or a new one if it had none. Only a streaming TTS without text starts nothing.
   */
  lemma LeftBehindIsRecovered(s: State, op: Op, i: nat)
    requires Inv(s) && Enabled(s, op) && LeavesBehind(s, op, i)
    ensures var s' := Do(s, op);
      && i < |s'.status| && !s'.status[i].available
      && if NothingToProbeWith(s, op) then s'.recoveries == s.recoveries
         else
           && IsRecovering(s', i)
           && s'.recoveries == (if IsRecovering(s, i) then s.recoveries else s.recoveries[s.nextTask := i])
           && s.nextTask !in s.recoveries
  {
    hide Audible, TryRecovery, StreamsInv;
    var s1 := if op.Fail? && s.status[i].available then Changed(s, i, false) else s;
    FailKeepsShared(s, i);
    assert IsRecovering(s1, i) <==> IsRecovering(s, i) by {
      assert s1.recoveries == s.recoveries;
      assert forall t :: Recovers(s1, t, i) <==> Recovers(s, t, i);
    }
    if !NothingToProbeWith(s, op) {
      TryRecoveryStarts(s1, i);
      TryRecoveryFlags(s1, i, i);
      var s2 := TryRecovery(s1, i);
      assert Do(s, op).recoveries == s2.recoveries;
      var t :| Recovers(s2, t, i);
      assert Recovers(Do(s, op), t, i);
    }
  }

  /** No other step starts a recovery; one is over only by its own end. */
  lemma OtherwiseNoneStarts(s: State, op: Op)
    requires Inv(s) && Enabled(s, op) && forall i: nat :: !LeavesBehind(s, op, i)
    ensures Do(s, op).recoveries ==
      match op
      case Recovered(t) => s.recoveries - {t}
      case RecoveryEnds(t) => s.recoveries - {t}
      case _ => s.recoveries
  {
    if op.Visit? || op.Fail? {
      assert !LeavesBehind(s, op, s.streams[op.id].pc.i);
    }
    hide Audible;
  }

  /**
    An instance becomes unavailable exactly by a failed attempt at it, and
    available exactly by a recovery of it that succeeds.
   */
  lemma FlagAfter(s: State, op: Op, k: nat)
    requires Inv(s) && Enabled(s, op) && k < |s.status|
    ensures var s' := Do(s, op);
      && |s'.status| == |s.status|
      && s'.status[k].available ==
        (if op.Fail? && s.streams[op.id].pc.i == k then false
         else s.status[k].available || (op.Recovered? && Recovers(s, op.task, k)))
  {
    hide Audible, TryRecovery, RecoveryInv, StreamsInv, Alternates, Passed, AllUnavailable;
    if op.Fail? {
      var i := s.streams[op.id].pc.i;
      TryRecoveryFlags(if s.status[i].available then Changed(s, i, false) else s, i, k);
    } else if op.Visit? && s.streams[op.id].pc.i < |s.status| {
      TryRecoveryFlags(s, s.streams[op.id].pc.i, k);
    }
  }

  /**
    A stream starts into a full retry exactly if all instances are unavailable;
    it attempts an instance exactly if that is available or it is on a full
    retry, skips it otherwise, and gives up exactly past the last one.
   */
  lemma AttemptedIff(s: State, op: Op)
    requires Inv(s) && Enabled(s, op)
    ensures op.Start? ==>
      (Do(s, op).streams[op.id].allFailed <==> forall k :: 0 <= k < |s.status| ==> !s.status[k].available)
    ensures op.Visit? ==>
      var st, st' := s.streams[op.id], Do(s, op).streams[op.id];
      var i := st.pc.i;
      && st'.allFailed == st.allFailed
      && (st'.pc == RaisedAllFailed <==> i == |s.status|)
      && (st'.pc == Trying(i) <==> i < |s.status| && (s.status[i].available || st.allFailed))
      && (st'.pc == Before(i + 1) <==> i < |s.status| && !s.status[i].available && !st.allFailed)
      && st'.attempts == st.attempts + if st'.pc.Trying? then [i] else []
  {
  }

  /**
    A failed attempt ends the stream exactly if something of it was heard: an LLM
    stream raises the error again, a TTS stream keeps what it has.
   */
  lemma HeardFailureEnds(s: State, op: Op)
    requires Inv(s) && Enabled(s, op) && op.Fail?
    ensures var st, st' := s.streams[op.id], Do(s, op).streams[op.id];
      && st'.output == st.output && st'.pieces == st.pieces && st'.attempts == st.attempts
      && st'.pc == (if !Audible(s.audio, st) then Before(st.pc.i + 1) else if st.kind.Llm? then Reraised else Returned)
  {
    hide Audible, Inv;
  }

  /** A stream whose attempt succeeded, or that was cancelled in one, is over: it takes no further step. */
  lemma OutcomeEndsStream(s: State, op: Op, next: Op)
    requires Inv(s) && Enabled(s, op) && (op.Succeed? || op.Cancel?)
    requires next.Visit? || next.Chunk? || next.Succeed? || next.Fail? || next.Cancel?
    ensures var s' := Do(s, op);
      && s'.streams[op.id].pc == (if op.Succeed? then Returned else Cancelled)
      && s'.streams[op.id].output == s.streams[op.id].output
      && (next.id == op.id ==> !Enabled(s', next))
  {
    hide Inv;
  }
}
