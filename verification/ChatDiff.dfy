/**
  `compute_chat_ctx_diff`: the delete/insert script from one history to another,
  that it works, and that no script is shorter.
 */
module ChatDiff {
  import opened Wrappers
  import opened Sequences
  import opened Lcs

  datatype ChatItem = ChatItem(id: Id, content: string)

  datatype DiffOps = DiffOps(toRemove: seq<Id>, toCreate: seq<(Option<Id>, Id)>)

  function IdsOf(items: seq<ChatItem>): (ids: seq<Id>)
    ensures |ids| == |items| && forall k :: 0 <= k < |ids| ==> ids[k] == items[k].id
  {
    seq(|items|, k requires 0 <= k < |items| => items[k].id)
  }

  // ---------------------------------------------------------------- the diff

  ghost function Without(ids: seq<Id>, kept: set<Id>): seq<Id> {
    if ids == [] then []
    else (if ids[0] in kept then [] else [ids[0]]) + Without(ids[1..], kept)
  }

  ghost function Only(ids: seq<Id>, kept: set<Id>): seq<Id> {
    if ids == [] then []
    else (if ids[0] in kept then [ids[0]] else []) + Only(ids[1..], kept)
  }

  /** The insertions for `ids`, when `last` is the id already in place before them. */
  ghost function Creations(ids: seq<Id>, kept: set<Id>, last: Option<Id>): seq<(Option<Id>, Id)> {
    if ids == [] then []
    else (if ids[0] in kept then [] else [(last, ids[0])]) + Creations(ids[1..], kept, Some(ids[0]))
  }

  ghost function Kept(oldIds: seq<Id>, newIds: seq<Id>): set<Id> {
    set id | id in Longest(oldIds, newIds)
  }

  ghost function Diff(oldIds: seq<Id>, newIds: seq<Id>): DiffOps {
    var kept := Kept(oldIds, newIds);
    DiffOps(Without(oldIds, kept), Creations(newIds, kept, None))
  }

  lemma Regroup<T>(p: seq<T>, x: T, q: seq<T>)
    ensures p + [x] + q == p + ([x] + q)
    ensures [] + q == q
  {
  }

  /** The `to_remove` comprehension. */
  method CollectRemovals(oldCtx: seq<ChatItem>, lcsIds: set<Id>) returns (toRemove: seq<Id>)
    ensures toRemove == Without(IdsOf(oldCtx), lcsIds)
  {
    ghost var ids := IdsOf(oldCtx);
    toRemove := [];
    for i := 0 to |oldCtx|
      invariant toRemove + Without(ids[i..], lcsIds) == Without(ids, lcsIds)
    {
      assert ids[i..][0] == oldCtx[i].id && ids[i..][1..] == ids[i + 1..];
      Regroup(toRemove, oldCtx[i].id, Without(ids[i + 1..], lcsIds));
      if oldCtx[i].id !in lcsIds {
        toRemove := toRemove + [oldCtx[i].id];
      }
    }
  }

  /** The loop that builds `to_create`. */
  method CollectCreations(newCtx: seq<ChatItem>, lcsIds: set<Id>) returns (toCreate: seq<(Option<Id>, Id)>)
    ensures toCreate == Creations(IdsOf(newCtx), lcsIds, None)
  {
    ghost var ids := IdsOf(newCtx);
    toCreate := [];
    var lastIdInSequence: Option<Id> := None;
    for i := 0 to |newCtx|
      invariant toCreate + Creations(ids[i..], lcsIds, lastIdInSequence) == Creations(ids, lcsIds, None)
    {
      assert ids[i..][0] == newCtx[i].id && ids[i..][1..] == ids[i + 1..];
      Regroup(toCreate, (lastIdInSequence, newCtx[i].id), Creations(ids[i + 1..], lcsIds, Some(newCtx[i].id)));
      if newCtx[i].id in lcsIds {
        lastIdInSequence := Some(newCtx[i].id);
      } else {
        var prevId: Option<Id>;
        if lastIdInSequence.None? {
          prevId := None;
        } else {
          prevId := lastIdInSequence;
        }
        toCreate := toCreate + [(prevId, newCtx[i].id)];
        lastIdInSequence := Some(newCtx[i].id);
      }
    }
  }

  /** `compute_chat_ctx_diff`. */
  method ComputeChatCtxDiff(oldCtx: seq<ChatItem>, newCtx: seq<ChatItem>) returns (ops: DiffOps)
    ensures ops == Diff(IdsOf(oldCtx), IdsOf(newCtx))
  {
    var lcsList := ComputeLcs(IdsOf(oldCtx), IdsOf(newCtx));
    var lcsIds := set id | id in lcsList;
    var toRemove := CollectRemovals(oldCtx, lcsIds);
    var toCreate := CollectCreations(newCtx, lcsIds);
    ops := DiffOps(toRemove, toCreate);
  }

  // ------------------------------------------------- scripts over plain lists

  datatype Op = Remove(id: Id) | Create(after: Option<Id>, id: Id)

  function IndexOf(s: seq<Id>, id: Id): (k: nat)
    requires id in s
    ensures k < |s| && s[k] == id && id !in s[..k]
  {
    if s[0] == id then 0 else IndexOf(s[1..], id) + 1
  }

  function InsertAt<T>(s: seq<T>, k: nat, x: T): seq<T>
    requires k <= |s|
  {
    s[..k] + [x] + s[k..]
  }

  function DeleteAt<T>(s: seq<T>, k: nat): seq<T>
    requires k < |s|
  {
    s[..k] + s[k + 1..]
  }

  /** Where an item goes: at the head for None, else right after `after`. */
  function Slot(s: seq<Id>, after: Option<Id>): (k: nat)
    requires after.Some? ==> after.value in s
    ensures k <= |s|
  {
    if after.None? then 0 else IndexOf(s, after.value) + 1
  }

  predicate Applicable(s: seq<Id>, op: Op) {
    match op
    case Remove(id) => id in s
    case Create(after, id) => id !in s && (after.Some? ==> after.value in s)
  }

  function Apply(s: seq<Id>, op: Op): seq<Id>
    requires Applicable(s, op)
  {
    match op
    case Remove(id) => DeleteAt(s, IndexOf(s, id))
    case Create(after, id) => InsertAt(s, Slot(s, after), id)
  }

  /** Runs a script; None as soon as one operation is refused. */
  function Run(s: seq<Id>, ops: seq<Op>): Option<seq<Id>>
    decreases |ops|
  {
    if ops == [] then Some(s)
    else if Applicable(s, ops[0]) then Run(Apply(s, ops[0]), ops[1..])
    else None
  }

  ghost function Removes(ids: seq<Id>): (ops: seq<Op>)
    ensures |ops| == |ids|
  {
    seq(|ids|, k requires 0 <= k < |ids| => Remove(ids[k]))
  }

  ghost function Creates(cs: seq<(Option<Id>, Id)>): (ops: seq<Op>)
    ensures |ops| == |cs|
  {
    seq(|cs|, k requires 0 <= k < |cs| => Create(cs[k].0, cs[k].1))
  }

  ghost function Script(d: DiffOps): seq<Op> {
    Removes(d.toRemove) + Creates(d.toCreate)
  }

  lemma RemovesCons(id: Id, ids: seq<Id>)
    ensures Removes([id] + ids) == [Remove(id)] + Removes(ids)
  {
  }

  lemma CreatesCons(after: Option<Id>, id: Id, cs: seq<(Option<Id>, Id)>)
    ensures Creates([(after, id)] + cs) == [Create(after, id)] + Creates(cs)
  {
  }

  lemma {:induction false} RunAppend(s: seq<Id>, ops: seq<Op>, more: seq<Op>)
    ensures Run(s, ops + more) == (if Run(s, ops).Some? then Run(Run(s, ops).value, more) else None)
    decreases |ops|
  {
    if ops == [] {
      assert ops + more == more;
    } else {
      assert (ops + more)[1..] == ops[1..] + more;
      if Applicable(s, ops[0]) {
        RunAppend(Apply(s, ops[0]), ops[1..], more);
      }
    }
  }

  lemma ApplyKeepsNoDup(s: seq<Id>, op: Op)
    requires Distinct(s) && Applicable(s, op)
    ensures Distinct(Apply(s, op))
  {
  }

  lemma {:induction false} RunKeepsNoDup(s: seq<Id>, ops: seq<Op>)
    requires Distinct(s) && Run(s, ops).Some?
    ensures Distinct(Run(s, ops).value)
    decreases |ops|
  {
    if ops != [] {
      ApplyKeepsNoDup(s, ops[0]);
      hide Distinct;
      RunKeepsNoDup(Apply(s, ops[0]), ops[1..]);
    }
  }

  // ------------------------------------------------------- the script works

  /** Peeling the first element off a list peels it off an embedding, if it was used. */
  lemma EmbedsTail(a: seq<Id>, s: seq<Id>, f: seq<nat>) returns (g: seq<nat>)
    requires a != [] && Embeds(s, a, |a|, f)
    ensures (s != [] && s[0] == a[0] && Embeds(s[1..], a[1..], |a| - 1, g)) || Embeds(s, a[1..], |a| - 1, g)
  {
    if s != [] && f[0] == 0 {
      assert forall k :: 0 < k < |f| ==> f[0] < f[k];
      g := seq(|f| - 1, k requires 0 <= k < |f| - 1 => (f[k + 1] - 1) as nat);
      assert Embeds(s[1..], a[1..], |a| - 1, g);
    } else {
      assert forall k :: 0 < k < |f| ==> f[0] < f[k];
      g := seq(|f|, k requires 0 <= k < |f| => (f[k] - 1) as nat);
      assert Embeds(s, a[1..], |a| - 1, g);
    }
  }

  lemma EmbedsMembers(a: seq<Id>, s: seq<Id>, f: seq<nat>)
    requires Embeds(s, a, |a|, f)
    ensures |s| == |f| && forall x :: x in s ==> x in a
  {
  }

  /** A subsequence of a list without repeats is what is left when filtering by its members. */
  lemma {:induction false} OnlySubsequence(a: seq<Id>, s: seq<Id>, f: seq<nat>, kept: set<Id>)
    requires Distinct(a) && Embeds(s, a, |a|, f)
    requires forall x :: x in a ==> (x in kept <==> x in s)
    ensures Only(a, kept) == s
    ensures |Without(a, kept)| == |a| - |s|
    decreases |a|
  {
    EmbedsMembers(a, s, f);
    if a != [] {
      var g := EmbedsTail(a, s, f);
      hide Embeds;
      assert Distinct(a[1..]) && a[0] !in a[1..] && a[0] in a;
      hide Distinct;
      assert forall x :: x in a[1..] ==> x in a;
      if Embeds(s, a[1..], |a| - 1, g) {
        EmbedsMembers(a[1..], s, g);
        OnlySubsequence(a[1..], s, g, kept);
      } else {
        assert s == [s[0]] + s[1..];
        OnlySubsequence(a[1..], s[1..], g, kept);
      }
    } else {
      assert s == [];
    }
  }

  lemma KeptSplits(oldIds: seq<Id>, newIds: seq<Id>)
    ensures Distinct(oldIds) ==>
      Only(oldIds, Kept(oldIds, newIds)) == Longest(oldIds, newIds) &&
      |Without(oldIds, Kept(oldIds, newIds))| == |oldIds| - Len(oldIds, newIds, |oldIds|, |newIds|)
    ensures Distinct(newIds) ==>
      Only(newIds, Kept(oldIds, newIds)) == Longest(oldIds, newIds) &&
      |Without(newIds, Kept(oldIds, newIds))| == |newIds| - Len(oldIds, newIds, |oldIds|, |newIds|)
  {
    var f, g := BacktrackEmbeds(oldIds, newIds, |oldIds|, |newIds|);
    if Distinct(oldIds) {
      OnlySubsequence(oldIds, Longest(oldIds, newIds), f, Kept(oldIds, newIds));
    }
    if Distinct(newIds) {
      OnlySubsequence(newIds, Longest(oldIds, newIds), g, Kept(oldIds, newIds));
    }
  }

  lemma {:induction false} IndexAfterPrefix(p: seq<Id>, id: Id, rest: seq<Id>)
    requires id !in p
    ensures IndexOf(p + [id] + rest, id) == |p|
    decreases |p|
  {
    if p != [] {
      assert (p + [id] + rest)[1..] == p[1..] + [id] + rest;
      IndexAfterPrefix(p[1..], id, rest);
    }
  }

  lemma NoDupPieces(p: seq<Id>, id: Id, rest: seq<Id>)
    requires Distinct(p + [id] + rest)
    ensures Distinct(p) && id !in p && id !in rest && Distinct(p + rest)
  {
    var s, t := p + [id] + rest, p + rest;
    assert s[|p|] == id;
    assert forall k :: 0 <= k < |p| ==> p[k] == s[k];
    assert forall k :: 0 <= k < |rest| ==> rest[k] == s[|p| + 1 + k];
    forall i, j | 0 <= i < j < |t|
      ensures t[i] != t[j]
    {
      assert t[i] == s[if i < |p| then i else i + 1] && t[j] == s[if j < |p| then j else j + 1];
    }
  }

  /** Deleting the id that follows the prefix p. */
  lemma DeleteAfterPrefix(p: seq<Id>, id: Id, rest: seq<Id>)
    requires Distinct(p + [id] + rest)
    ensures IndexOf(p + [id] + rest, id) == |p|
    ensures Apply(p + [id] + rest, Remove(id)) == p + rest
    ensures Distinct(p + rest)
  {
    NoDupPieces(p, id, rest);
    hide Distinct;
    IndexAfterPrefix(p, id, rest);
    assert (p + [id] + rest)[|p|] == id;
    assert DeleteAt(p + [id] + rest, |p|) == p + rest;
  }

  lemma RunStep(s: seq<Id>, op: Op, ops: seq<Op>)
    requires Applicable(s, op)
    ensures Run(s, [op] + ops) == Run(Apply(s, op), ops)
  {
    assert ([op] + ops)[1..] == ops;
  }

  /** One deletion, then the deletions for what follows. */
  lemma RemovalStep(p: seq<Id>, id: Id, tail: seq<Id>, ids: seq<Id>)
    requires Distinct(p + [id] + tail)
    ensures Run(p + [id] + tail, Removes([id] + ids)) == Run(p + tail, Removes(ids))
  {
    DeleteAfterPrefix(p, id, tail);
    RemovesCons(id, ids);
    RunStep(p + [id] + tail, Remove(id), Removes(ids));
  }

  /** The deletions strip exactly the ids that are not kept. */
  lemma {:induction false} RemovalsRun(p: seq<Id>, rest: seq<Id>, kept: set<Id>)
    requires Distinct(p + rest)
    ensures Run(p + rest, Removes(Without(rest, kept))) == Some(p + Only(rest, kept))
    decreases |rest|
  {
    if rest == [] {
    } else {
      var id, tail := rest[0], rest[1..];
      assert p + rest == p + [id] + tail;
      if id in kept {
        assert Without(rest, kept) == Without(tail, kept);
        assert Only(rest, kept) == [id] + Only(tail, kept);
        Regroup(p, id, Only(tail, kept));
        RemovalsRun(p + [id], tail, kept);
      } else {
        DeleteAfterPrefix(p, id, tail);
        RemovalsRun(p, tail, kept);
        RemovalStep(p, id, tail, Without(tail, kept));
        assert Without(rest, kept) == [id] + Without(tail, kept);
        assert Only(rest, kept) == Only(tail, kept);
      }
    }
  }

  ghost function LastOf(p: seq<Id>): Option<Id> {
    if p == [] then None else Some(p[|p| - 1])
  }

  lemma {:induction false} OnlyMembers(ids: seq<Id>, kept: set<Id>)
    ensures forall x :: x in Only(ids, kept) <==> x in ids && x in kept
    decreases |ids|
  {
    if ids != [] {
      OnlyMembers(ids[1..], kept);
      assert ids == [ids[0]] + ids[1..];
    }
  }

  lemma SlotAfterPrefix(p: seq<Id>, tail: seq<Id>)
    requires Distinct(p)
    ensures p != [] ==> p[|p| - 1] in p + tail
    ensures Slot(p + tail, LastOf(p)) == |p|
  {
    if p != [] {
      var n := |p| - 1;
      assert p + tail == p[..n] + [p[n]] + tail;
      IndexAfterPrefix(p[..n], p[n], tail);
    }
  }

  /** One insertion after the prefix p, then the insertions for what follows. */
  lemma CreationStep(p: seq<Id>, id: Id, tail: seq<Id>, more: seq<(Option<Id>, Id)>)
    requires Distinct(p) && id !in p && id !in tail
    ensures Run(p + tail, Creates([(LastOf(p), id)] + more)) == Run(p + [id] + tail, Creates(more))
  {
    var op := Create(LastOf(p), id);
    SlotAfterPrefix(p, tail);
    hide Distinct, Slot;
    CreatesCons(LastOf(p), id, more);
    hide Creates;
    RunStep(p + tail, op, Creates(more));
    hide Run;
    assert InsertAt(p + tail, |p|, id) == p + [id] + tail;
  }

  /** The insertions put each missing id right after its predecessor. */
  lemma {:induction false} CreationsRun(p: seq<Id>, rest: seq<Id>, kept: set<Id>)
    requires Distinct(p + rest)
    ensures Run(p + Only(rest, kept), Creates(Creations(rest, kept, LastOf(p)))) == Some(p + rest)
    decreases |rest|
  {
    if rest == [] {
    } else {
      var id, tail := rest[0], rest[1..];
      assert p + rest == p + [id] + tail;
      CreationsRun(p + [id], tail, kept);
      var more := Creations(tail, kept, Some(id));
      if id in kept {
        assert Creations(rest, kept, LastOf(p)) == more;
        assert Only(rest, kept) == [id] + Only(tail, kept);
        Regroup(p, id, Only(tail, kept));
      } else {
        assert Only(rest, kept) == Only(tail, kept);
        InsertionFits(p, id, tail, kept);
        CreationStep(p, id, Only(tail, kept), more);
        assert Creations(rest, kept, LastOf(p)) == [(LastOf(p), id)] + more;
      }
    }
  }

  lemma InsertionFits(p: seq<Id>, id: Id, tail: seq<Id>, kept: set<Id>)
    requires Distinct(p + [id] + tail)
    ensures Distinct(p) && id !in p && id !in Only(tail, kept)
  {
    NoDupPieces(p, id, tail);
    OnlyMembers(tail, kept);
  }

  /**
    Diff then patch: for a history without repeated ids (the only kind a
    RemoteChatContext can hold) the script is accepted and reaches the new list
    exactly when the new list has no repeated id.
   */
  lemma DiffReachesTarget(oldIds: seq<Id>, newIds: seq<Id>)
    requires Distinct(oldIds)
    ensures Run(oldIds, Script(Diff(oldIds, newIds))) == Some(newIds) <==> Distinct(newIds)
  {
    var d, kept := Diff(oldIds, newIds), Kept(oldIds, newIds);
    hide Distinct, Longest;
    if Distinct(newIds) {
      KeptSplits(oldIds, newIds);
      assert [] + oldIds == oldIds && [] + newIds == newIds;
      RemovalsRun([], oldIds, kept);
      CreationsRun([], newIds, kept);
      assert [] + Only(oldIds, kept) == [] + Only(newIds, kept) == Longest(oldIds, newIds);
      RunAppend(oldIds, Removes(d.toRemove), Creates(d.toCreate));
    } else if Run(oldIds, Script(d)) == Some(newIds) {
      RunKeepsNoDup(oldIds, Script(d));
    }
  }

  // ----------------------------------------------------- and it is minimal

  lemma {:induction false} LenPrefixAgrees(s: seq<Id>, t: seq<Id>, b: seq<Id>, i: nat, j: nat)
    requires i <= |s| && i <= |t| && j <= |b| && s[..i] == t[..i]
    ensures Len(s, b, i, j) == Len(t, b, i, j)
    decreases i + j
  {
    if i > 0 && j > 0 {
      assert s[i - 1] == s[..i][i - 1] == t[..i][i - 1] == t[i - 1];
      assert s[..i - 1] == s[..i][..i - 1] == t[..i][..i - 1] == t[..i - 1];
      LenPrefixAgrees(s, t, b, i - 1, j - 1);
      LenPrefixAgrees(s, t, b, i - 1, j);
      LenPrefixAgrees(s, t, b, i, j - 1);
    }
  }

  /** One extra element changes the common length by zero or one. */
  lemma {:induction false} LenInsert(s: seq<Id>, k: nat, x: Id, b: seq<Id>, i: nat, j: nat)
    requires k <= i <= |s| && j <= |b|
    ensures Len(s, b, i, j) <= Len(InsertAt(s, k, x), b, i + 1, j) <= Len(s, b, i, j) + 1
    decreases i + j
  {
    var t := InsertAt(s, k, x);
    if i == k {
      assert t[..i] == s[..i];
      LenPrefixAgrees(s, t, b, i, j);
      LenStep(t, b, i + 1, j);
    } else if j > 0 {
      assert t[i] == s[i - 1];
      LenInsert(s, k, x, b, i - 1, j - 1);
      LenInsert(s, k, x, b, i - 1, j);
      LenInsert(s, k, x, b, i, j - 1);
    }
  }

  ghost function Distance(s: seq<Id>, target: seq<Id>): int {
    |s| + |target| - 2 * Len(s, target, |s|, |target|)
  }

  lemma OpMovesOne(s: seq<Id>, op: Op, target: seq<Id>)
    requires Applicable(s, op)
    ensures Distance(s, target) <= Distance(Apply(s, op), target) + 1
  {
    var t := Apply(s, op);
    match op
    case Remove(id) =>
      var k := IndexOf(s, id);
      assert InsertAt(t, k, id) == s;
      LenInsert(t, k, id, target, |t|, |target|);
    case Create(after, id) =>
      LenInsert(s, Slot(s, after), id, target, |s|, |target|);
  }

  lemma {:induction false} LenSelf(s: seq<Id>, i: nat)
    requires i <= |s|
    ensures Len(s, s, i, i) == i
  {
    if i > 0 { LenSelf(s, i - 1); }
  }

  /** Every accepted script needs at least `Distance` operations. */
  lemma {:induction false} ScriptsAreLong(s: seq<Id>, ops: seq<Op>, target: seq<Id>)
    requires Run(s, ops) == Some(target)
    ensures |ops| >= Distance(s, target)
    decreases |ops|
  {
    if ops == [] {
      LenSelf(s, |s|);
    } else {
      OpMovesOne(s, ops[0], target);
      ScriptsAreLong(Apply(s, ops[0]), ops[1..], target);
    }
  }

  lemma {:induction false} CreationsCount(ids: seq<Id>, kept: set<Id>, last: Option<Id>)
    ensures |Creations(ids, kept, last)| == |Without(ids, kept)|
    decreases |ids|
  {
    if ids != [] { CreationsCount(ids[1..], kept, Some(ids[0])); }
  }

  /** No delete/insert script from the old ids to the new ones is shorter than the diff. */
  lemma DiffIsMinimal(oldIds: seq<Id>, newIds: seq<Id>, ops: seq<Op>)
    requires Distinct(oldIds) && Distinct(newIds)
    requires Run(oldIds, ops) == Some(newIds)
    ensures |Script(Diff(oldIds, newIds))| <= |ops|
  {
    KeptSplits(oldIds, newIds);
    CreationsCount(newIds, Kept(oldIds, newIds), None);
    ScriptsAreLong(oldIds, ops, newIds);
  }
}
