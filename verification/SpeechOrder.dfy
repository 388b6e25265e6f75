/**
  Which speech comes first, told from the calls that scheduled the speeches:
  the more urgent one, and of two as urgent the one scheduled first.
 */
module SpeechOrder {
  import opened Wrappers
  import opened Scheduler

  /** Step i of the run is a call that schedules h with this priority, and is not refused. */
  ghost predicate AcceptedAt(tr: seq<State>, i: nat, h: Handle, priority: int) {
    i + 1 < |tr| && exists op :: Enabled(tr[i], op) && tr[i + 1] == Do(tr[i], op) && Schedules(tr[i], op, h, priority)
  }

  predicate Schedules(s: State, op: Op, h: Handle, priority: int) {
    match op
    case Say(_, speech, p, _) => speech == h && p == priority && !s.draining
    case ToolReply(_, _, speech, p, _) => speech == h && p == priority
    case _ => false
  }

  /** The entry an accepted call leaves for the rest of the run. */
  ghost predicate Recorded(s: State, e: Entry, h: Handle, priority: int) {
    e in s.scheduled && e.speech == h && e.priority == priority
  }

  lemma AcceptedIsRecorded(tr: seq<State>, i: nat, h: Handle, priority: int) returns (e: Entry)
    requires Run(tr) && AcceptedAt(tr, i, h, priority)
    ensures Recorded(tr[i + 1], e, h, priority) && tr[i].clock < e.stamp
    ensures h !in tr[i].speeches
  {
    var op :| Enabled(tr[i], op) && tr[i + 1] == Do(tr[i], op) && Schedules(tr[i], op, h, priority);
    e := Entry(priority, op.stamp, h);
    assert e == tr[i + 1].scheduled[|tr[i].scheduled|];
  }

  lemma {:induction false} StaysRecorded(tr: seq<State>, i: nat, j: nat)
    requires Run(tr) && i <= j < |tr|
    ensures tr[i].scheduled <= tr[j].scheduled
    decreases j - i
  {
    hide *;
    if i < j {
      StaysRecorded(tr, i, j - 1);
      var op := LastStep(tr, j);
      RecordGrows(tr[j - 1], op);
    }
  }

  lemma RecordGrows(s: State, op: Op)
    requires Enabled(s, op)
    ensures s.scheduled <= Do(s, op).scheduled
  {
    hide RunMain;
    if op.Resume? {
      RunMainKeepsTasks(s.(currentSpeech := None));
    }
  }

  /** A handle has one entry, which is popped exactly when the handle has been authorised. */
  lemma AuthorisedIsPlayed(s: State, e: Entry)
    requires Inv(s) && e in s.scheduled
    ensures IsAuthorised(s, e.speech) <==> e in s.played
    ensures e in s.speechQ || e in s.played
    ensures e in s.speechQ ==> e !in s.played
  {
    assert e in multiset(s.scheduled);
    if IsAuthorised(s, e.speech) {
      var x :| x in s.played && x.speech == e.speech;
      assert x in multiset(s.played) && x in multiset(s.scheduled);
      assert x == e;
    }
  }

  /**
    Of two speeches the one scheduled first and at least as urgent is authorised
    first: whenever the other is, it has been.
   */
  lemma FirstAndAsUrgentIsFirst(tr: seq<State>, i: nat, j: nat, k: nat, g: Handle, h: Handle, p: int, q: int)
    requires Run(tr) && i < j < |tr| && AcceptedAt(tr, i, h, p) && AcceptedAt(tr, j, g, q) && q <= p
    requires k < |tr| && IsAuthorised(tr[k], g)
    ensures IsAuthorised(tr[k], h)
  {
    hide AcceptedAt, Inv, Run, Recorded, IsAuthorised;
    var a := AcceptedIsRecorded(tr, i, h, p);
    var b := AcceptedIsRecorded(tr, j, g, q);
    KnownWhenAuthorised(tr[k], g);
    KnownLater(tr, j, k, g);
    StillRecorded(tr, i + 1, j, a, h, p);
    StillRecorded(tr, j, k, a, h, p);
    StillRecorded(tr, j + 1, k, b, g, q);
    RunKeepsInv(tr, j);
    RunKeepsInv(tr, k);
    StampsBelowClock(tr[j], a, h, p);
    AheadIsPlayed(tr, k, a, b, g, h, p, q);
  }

  lemma KnownWhenAuthorised(s: State, g: Handle)
    requires IsAuthorised(s, g)
    ensures g in s.speeches
  {
  }

  lemma StillRecorded(tr: seq<State>, i: nat, j: nat, e: Entry, h: Handle, priority: int)
    requires Run(tr) && i <= j < |tr| && Recorded(tr[i], e, h, priority)
    ensures Recorded(tr[j], e, h, priority)
  {
    StaysRecorded(tr, i, j);
    hide Run;
  }

  lemma AheadIsPlayed(tr: seq<State>, k: nat, a: Entry, b: Entry, g: Handle, h: Handle, p: int, q: int)
    requires Run(tr) && k < |tr| && Inv(tr[k]) && Recorded(tr[k], a, h, p) && Recorded(tr[k], b, g, q)
    requires q <= p && a.stamp < b.stamp && IsAuthorised(tr[k], g)
    ensures IsAuthorised(tr[k], h)
  {
    hide Inv, Run;
    AuthorisedIsPlayed(tr[k], b);
    AuthorisedIsPlayed(tr[k], a);
    var l :| 0 <= l < |tr[k].played| && tr[k].played[l] == b;
    PlayOrder(tr, k, a, l);
  }

  lemma StampsBelowClock(s: State, e: Entry, h: Handle, priority: int)
    requires Inv(s) && Recorded(s, e, h, priority)
    ensures e.stamp <= s.clock
  {
  }

  /** A handle new at step j was not authorised before. */
  lemma {:induction false} KnownLater(tr: seq<State>, j: nat, k: nat, g: Handle)
    requires Run(tr) && j < |tr| && k < |tr| && g !in tr[j].speeches && g in tr[k].speeches
    ensures j < k
    decreases |tr| - k
  {
    if k <= j {
      StaysKnown(tr, k, j, g);
    }
  }

  lemma {:induction false} StaysKnown(tr: seq<State>, i: nat, j: nat, g: Handle)
    requires Run(tr) && i <= j < |tr| && g in tr[i].speeches
    ensures g in tr[j].speeches
    decreases j - i
  {
    hide *;
    if i < j {
      StaysKnown(tr, i, j - 1, g);
      var op := LastStep(tr, j);
    }
  }

  /** Both speeches were authorised, the first before the second. */
  ghost predicate PlayedBefore(s: State, h: Handle, g: Handle) {
    exists k, l :: 0 <= k < l < |s.played| && s.played[k].speech == h && s.played[l].speech == g
  }

  /**
    A more urgent speech goes first even if it was scheduled later: of all that were
    scheduled before a resumption, none is authorised by it before a more urgent one.
   */
  lemma MoreUrgentIsFirst(tr: seq<State>, i: nat, j: nat, m: nat, g: Handle, h: Handle, p: int, q: int)
    requires Run(tr) && AcceptedAt(tr, i, h, p) && AcceptedAt(tr, j, g, q) && q < p
    requires i < m && j < m && m + 1 < |tr| && CanResume(tr[m]) && tr[m + 1] == Do(tr[m], Resume)
    requires !IsAuthorised(tr[m], g) && IsAuthorised(tr[m + 1], g)
    ensures IsAuthorised(tr[m + 1], h) && PlayedBefore(tr[m + 1], h, g)
  {
    hide *;
    var a := AcceptedIsRecorded(tr, i, h, p);
    var b := AcceptedIsRecorded(tr, j, g, q);
    StillRecorded(tr, i + 1, m, a, h, p);
    StillRecorded(tr, j + 1, m, b, g, q);
    StillRecorded(tr, i + 1, m + 1, a, h, p);
    StillRecorded(tr, j + 1, m + 1, b, g, q);
    RunKeepsInv(tr, m);
    RunKeepsInv(tr, m + 1);
    var picked := ResumptionPicksLeast(tr, m);
    SegmentOrder(tr[m], tr[m + 1], picked, a, b, g, h, p, q);
  }

  lemma SegmentOrder(s: State, s1: State, picked: seq<Entry>, a: Entry, b: Entry, g: Handle, h: Handle, p: int, q: int)
    requires Inv(s) && Recorded(s, a, h, p) && Recorded(s, b, g, q) && q < p
    requires Inv(s1) && Recorded(s1, a, h, p) && Recorded(s1, b, g, q)
    requires s1.played == s.played + picked && multiset(s.speechQ) == multiset(picked) + multiset(s1.speechQ)
    requires forall e, x :: e in picked && x in s1.speechQ ==> !Sooner(x, e)
    requires forall k, l :: 0 <= k < l < |picked| ==> !Sooner(picked[l], picked[k])
    requires !IsAuthorised(s, g) && IsAuthorised(s1, g)
    ensures IsAuthorised(s1, h) && PlayedBefore(s1, h, g)
  {
    hide Inv, IsAuthorised;
    AuthorisedIsPlayed(s, a);
    AuthorisedIsPlayed(s, b);
    AuthorisedIsPlayed(s1, a);
    AuthorisedIsPlayed(s1, b);
    PickedInOrder(s.played, picked, s.speechQ, s1.speechQ, a, b);
    var k, l :| 0 <= k < l < |s.played + picked| && (s.played + picked)[k] == a && (s.played + picked)[l] == b;
    assert s1.played[k] == a && s1.played[l] == b;
  }

  lemma PickedInOrder(played: seq<Entry>, picked: seq<Entry>, q: seq<Entry>, rest: seq<Entry>, a: Entry, b: Entry)
    requires multiset(q) == multiset(picked) + multiset(rest) && Sooner(a, b)
    requires forall e, x :: e in picked && x in rest ==> !Sooner(x, e)
    requires forall k, l :: 0 <= k < l < |picked| ==> !Sooner(picked[l], picked[k])
    requires a in q || a in played
    requires b !in played && b in played + picked
    ensures exists k, l :: 0 <= k < l < |played + picked| && (played + picked)[k] == a && (played + picked)[l] == b
  {
    var all := played + picked;
    assert b in picked;
    var l :| 0 <= l < |picked| && picked[l] == b;
    assert all[|played| + l] == b;
    if a in played {
      var k :| 0 <= k < |played| && played[k] == a;
      assert all[k] == a;
    } else {
      assert a in multiset(q);
      assert a in picked;
      var k :| 0 <= k < |picked| && picked[k] == a;
      assert all[|played| + k] == a;
      assert k < l;
    }
  }
}
