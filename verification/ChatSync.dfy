/**
  Bringing the remote history in line with a new one: compute the diff, delete,
  then insert. The linked list ends with the new history, item by item.
 */
module ChatSync {
  import opened Wrappers
  import opened Sequences
  import opened Lcs
  import opened ChatDiff
  import opened RemoteChat

  lemma IdsAfterEdit(items: seq<ChatItem>, k: nat, item: ChatItem)
    requires k <= |items|
    ensures IdsOf(InsertAt(items, k, item)) == InsertAt(IdsOf(items), k, item.id)
    ensures k < |items| ==> IdsOf(DeleteAt(items, k)) == DeleteAt(IdsOf(items), k)
  {
  }

  lemma RunTail(ids: seq<Id>, ops: seq<Op>)
    requires ops != []
    ensures Run(ids, ops) == if Applicable(ids, ops[0]) then Run(Apply(ids, ops[0]), ops[1..]) else None
  {
  }

  /** Every item is one of the others. */
  ghost predicate Among(items: seq<ChatItem>, others: seq<ChatItem>) {
    forall m :: m in items ==> m in others
  }

  /** One `insert`, seen as an operation on the list of ids. */
  method InsertOp(ctx: RemoteChatContext, op: Op, message: ChatItem) returns (accepted: bool)
    requires ctx.Valid() && op.Create? && message.id == op.id
    modifies ctx, ctx.nodes
    ensures ctx.Valid() && forall n :: n in ctx.nodes ==> n in old(ctx.nodes) || fresh(n)
    ensures accepted <==> Applicable(old(ctx.Ids()), op)
    ensures accepted ==> ctx.Ids() == Apply(old(ctx.Ids()), op)
    ensures accepted ==> Among(ctx.Contents(), old(ctx.Contents()) + [message])
  {
    hide Among;
    ghost var before := ctx.Contents();
    var error := ctx.Insert(op.after, message);
    if error.None? {
      IdsAfterEdit(before, Slot(IdsOf(before), op.after), message);
      OneMoreItem(before, Slot(IdsOf(before), op.after), message);
    }
    accepted := error.None?;
  }

  lemma FewerItems(items: seq<ChatItem>, k: nat)
    requires k < |items|
    ensures Among(DeleteAt(items, k), items)
  {
  }

  lemma OneMoreItem(items: seq<ChatItem>, k: nat, item: ChatItem)
    requires k <= |items|
    ensures Among(InsertAt(items, k, item), items + [item])
  {
  }

  /** One `delete`, seen as an operation on the list of ids. */
  method DeleteOp(ctx: RemoteChatContext, op: Op) returns (accepted: bool)
    requires ctx.Valid() && op.Remove?
    modifies ctx, ctx.nodes
    ensures ctx.Valid() && forall n :: n in ctx.nodes ==> n in old(ctx.nodes)
    ensures accepted <==> Applicable(old(ctx.Ids()), op)
    ensures accepted ==> ctx.Ids() == Apply(old(ctx.Ids()), op)
    ensures accepted ==> Among(ctx.Contents(), old(ctx.Contents()))
  {
    hide Among;
    ghost var before := ctx.Contents();
    var error := ctx.Delete(op.id);
    if error.None? {
      var k := IndexOf(IdsOf(before), op.id);
      IdsAfterEdit(before, k, before[k]);
      FewerItems(before, k);
    }
    accepted := error.None?;
  }

  /** Every `to_remove` id, in order, stopping at the first refusal. */
  method ApplyRemovals(ctx: RemoteChatContext, toRemove: seq<Id>) returns (accepted: bool)
    requires ctx.Valid()
    modifies ctx, ctx.nodes
    ensures ctx.Valid() && forall n :: n in ctx.nodes ==> n in old(ctx.nodes)
    ensures accepted <==> Run(old(ctx.Ids()), Removes(toRemove)).Some?
    ensures accepted ==> Run(old(ctx.Ids()), Removes(toRemove)) == Some(ctx.Ids())
    ensures accepted ==> Among(ctx.Contents(), old(ctx.Contents()))
  {
    for i := 0 to |toRemove|
      invariant ctx.Valid() && forall n :: n in ctx.nodes ==> n in old(ctx.nodes)
      invariant Run(old(ctx.Ids()), Removes(toRemove)) == Run(ctx.Ids(), Removes(toRemove[i..]))
      invariant Among(ctx.Contents(), old(ctx.Contents()))
    {
      RunTail(ctx.Ids(), Removes(toRemove[i..]));
      assert Removes(toRemove[i..])[1..] == Removes(toRemove[i + 1..]);
      accepted := DeleteOp(ctx, Op.Remove(toRemove[i]));
      if !accepted {
        return;
      }
    }
    accepted := true;
  }

  /** An item there before, or the new one of an id to create. */
  ghost predicate OldOrCreated(items: seq<ChatItem>, before: seq<ChatItem>, toCreate: seq<(Option<Id>, Id)>,
                               newCtx: seq<ChatItem>) {
    forall m :: m in items ==> m in before || (m in newCtx && m.id in CreatedIds(toCreate))
  }

  function CreatedIds(toCreate: seq<(Option<Id>, Id)>): set<Id> {
    set c | c in toCreate :: c.1
  }

  /** Every `to_create` item, in order, stopping at the first refusal. */
  method ApplyCreations(ctx: RemoteChatContext, toCreate: seq<(Option<Id>, Id)>, newCtx: seq<ChatItem>)
    returns (accepted: bool)
    requires ctx.Valid()
    requires forall c :: c in toCreate ==> c.1 in IdsOf(newCtx)
    modifies ctx, ctx.nodes
    ensures ctx.Valid()
    ensures accepted <==> Run(old(ctx.Ids()), Creates(toCreate)).Some?
    ensures accepted ==> Run(old(ctx.Ids()), Creates(toCreate)) == Some(ctx.Ids())
    ensures accepted ==> OldOrCreated(ctx.Contents(), old(ctx.Contents()), toCreate, newCtx)
  {
    for i := 0 to |toCreate|
      invariant ctx.Valid() && forall n :: n in ctx.nodes ==> n in old(ctx.nodes) || fresh(n)
      invariant Run(old(ctx.Ids()), Creates(toCreate)) == Run(ctx.Ids(), Creates(toCreate[i..]))
      invariant OldOrCreated(ctx.Contents(), old(ctx.Contents()), toCreate, newCtx)
    {
      RunTail(ctx.Ids(), Creates(toCreate[i..]));
      assert Creates(toCreate[i..])[1..] == Creates(toCreate[i + 1..]);
      var (after, id) := toCreate[i];
      ghost var before := ctx.Contents();
      var message := newCtx[IndexOf(IdsOf(newCtx), id)];
      accepted := InsertOp(ctx, Op.Create(after, id), message);
      if !accepted {
        return;
      }
      CreatedOnesToo(ctx.Contents(), before, message, toCreate, i);
    }
    accepted := true;
  }

  lemma CreatedOnesToo(items: seq<ChatItem>, before: seq<ChatItem>, message: ChatItem,
                       toCreate: seq<(Option<Id>, Id)>, i: nat)
    requires Among(items, before + [message]) && i < |toCreate| && message.id == toCreate[i].1
    ensures forall m :: m in items ==> m in before || m == message
    ensures message.id in CreatedIds(toCreate)
  {
    assert toCreate[i] in toCreate;
  }

  lemma {:induction false} CreationsComeFrom(ids: seq<Id>, kept: set<Id>, last: Option<Id>)
    ensures forall c :: c in Creations(ids, kept, last) ==> c.1 in ids && c.1 !in kept
    decreases |ids|
  {
    if ids != [] {
      CreationsComeFrom(ids[1..], kept, Some(ids[0]));
      assert forall x :: x in ids[1..] ==> x in ids;
    }
  }

  /** The new history as it should be held: items that stay are the old ones, the others the new. */
  ghost function Merged(oldCtx: seq<ChatItem>, newCtx: seq<ChatItem>): (items: seq<ChatItem>)
    ensures |items| == |newCtx|
  {
    seq(|newCtx|, k requires 0 <= k < |newCtx| =>
      if newCtx[k].id in Kept(IdsOf(oldCtx), IdsOf(newCtx)) && newCtx[k].id in IdsOf(oldCtx)
      then oldCtx[IndexOf(IdsOf(oldCtx), newCtx[k].id)] else newCtx[k])
  }

  /** Where an id occurs once, it determines the item. */
  lemma SameItem(items: seq<ChatItem>, m: ChatItem, k: nat)
    requires Distinct(IdsOf(items)) && m in items && k < |items| && m.id == items[k].id
    ensures m == items[k]
  {
    var i :| 0 <= i < |items| && items[i] == m;
    assert IdsOf(items)[i] == IdsOf(items)[k];
  }

  lemma ContentsAreMerged(items: seq<ChatItem>, middle: seq<ChatItem>, oldCtx: seq<ChatItem>, newCtx: seq<ChatItem>)
    requires Distinct(IdsOf(oldCtx)) && Distinct(IdsOf(newCtx)) && IdsOf(items) == IdsOf(newCtx)
    requires var kept := Kept(IdsOf(oldCtx), IdsOf(newCtx));
      && Among(middle, oldCtx) && (forall m :: m in middle ==> m.id in kept)
      && OldOrCreated(items, middle, Creations(IdsOf(newCtx), kept, None), newCtx)
    ensures items == Merged(oldCtx, newCtx)
  {
    var kept := Kept(IdsOf(oldCtx), IdsOf(newCtx));
    CreationsComeFrom(IdsOf(newCtx), kept, None);
    hide Distinct;
    assert |items| == |IdsOf(items)| == |newCtx|;
    forall k | 0 <= k < |items|
      ensures items[k] == Merged(oldCtx, newCtx)[k]
    {
      var m := items[k];
      assert m in items && m.id == IdsOf(items)[k] == newCtx[k].id;
      if m.id in kept {
        assert m in middle && m in oldCtx;
        var i :| 0 <= i < |oldCtx| && oldCtx[i] == m;
        assert IdsOf(oldCtx)[i] == m.id;
        SameItem(oldCtx, m, IndexOf(IdsOf(oldCtx), m.id));
      } else {
        SameItem(newCtx, m, k);
      }
    }
  }

  /**
    The whole round: whatever it held, the remote context ends with the new
    ids, in order, exactly if these do not repeat; the items it held and keeps
    are unchanged, the others are those of the new history.
   */
  method Synchronise(ctx: RemoteChatContext, newCtx: seq<ChatItem>) returns (accepted: bool)
    requires ctx.Valid()
    modifies ctx, ctx.nodes
    ensures ctx.Valid()
    ensures Distinct(IdsOf(newCtx)) <==> accepted && ctx.Ids() == IdsOf(newCtx)
    ensures Distinct(IdsOf(newCtx)) ==> ctx.Contents() == Merged(old(ctx.Contents()), newCtx)
  {
    var oldCtx := ctx.ToChatCtx();
    IndexAnswers(ctx.nodes, ctx.idToItem, "");
    var ops := ComputeChatCtxDiff(oldCtx, newCtx);
    ghost var kept := Kept(IdsOf(oldCtx), IdsOf(newCtx));
    CreationsComeFrom(IdsOf(newCtx), kept, None);
    DiffReachesTarget(IdsOf(oldCtx), IdsOf(newCtx));
    RunAppend(ctx.Ids(), Removes(ops.toRemove), Creates(ops.toCreate));
    KeptRemain(IdsOf(oldCtx), kept);
    hide Among, OldOrCreated, Distinct, Kept, Run;
    accepted := ApplyRemovals(ctx, ops.toRemove);
    if accepted {
      ghost var middle := ctx.Contents();
      KeptItems(middle, kept);
      accepted := ApplyCreations(ctx, ops.toCreate, newCtx);
      if accepted && ctx.Ids() == IdsOf(newCtx) && Distinct(IdsOf(newCtx)) {
        ContentsAreMerged(ctx.Contents(), middle, oldCtx, newCtx);
      }
    }
  }

  /** What the removals leave is kept. */
  lemma KeptRemain(oldIds: seq<Id>, kept: set<Id>)
    requires Distinct(oldIds)
    ensures Run(oldIds, Removes(Without(oldIds, kept))) == Some(Only(oldIds, kept))
    ensures forall id :: id in Only(oldIds, kept) ==> id in kept
  {
    RemovalsRun([], oldIds, kept);
    OnlyMembers(oldIds, kept);
    assert [] + oldIds == oldIds && [] + Only(oldIds, kept) == Only(oldIds, kept);
  }

  lemma KeptItems(items: seq<ChatItem>, kept: set<Id>)
    requires forall id :: id in IdsOf(items) ==> id in kept
    ensures forall m :: m in items ==> m.id in kept
  {
    forall m | m in items
      ensures m.id in kept
    {
      var k :| 0 <= k < |items| && items[k] == m;
      assert IdsOf(items)[k] == m.id;
    }
  }
}
