/**
  `RemoteChatContext`: a doubly linked list of chat items indexed by id.
  `nodes` is the list the links are meant to spell out.
 */
module RemoteChat {
  import opened Wrappers
  import opened Sequences
  import opened Lcs
  import opened ChatDiff

  datatype ContextError = AlreadyExists(id: Id) | PreviousNotFound(id: Id) | NotFound(id: Id)

  class RemoteChatItem {
    const item: ChatItem
    var prev: RemoteChatItem?
    var next: RemoteChatItem?

    constructor (item: ChatItem)
      ensures this.item == item && prev == null && next == null
    {
      this.item := item;
      prev, next := null, null;
    }
  }

  function Items(nodes: seq<RemoteChatItem>): (items: seq<ChatItem>)
    ensures |items| == |nodes| && forall k :: 0 <= k < |items| ==> items[k] == nodes[k].item
  {
    seq(|nodes|, k requires 0 <= k < |nodes| => nodes[k].item)
  }

  function NodeIds(nodes: seq<RemoteChatItem>): seq<Id> {
    IdsOf(Items(nodes))
  }

  /** The map holds exactly the listed nodes, each under its own id, and no id is listed twice. */
  ghost predicate Indexed(nodes: seq<RemoteChatItem>, index: map<Id, RemoteChatItem>) {
    && (forall i, j :: 0 <= i < j < |nodes| ==> nodes[i].item.id != nodes[j].item.id)
    && (forall i :: 0 <= i < |nodes| ==> nodes[i].item.id in index && index[nodes[i].item.id] == nodes[i])
    && (forall id :: id in index ==> index[id] in nodes && index[id].item.id == id)
  }

  /** The map answers for the list of ids: same members, and the node at the id's position. */
  lemma IndexAnswers(nodes: seq<RemoteChatItem>, index: map<Id, RemoteChatItem>, id: Id)
    requires Indexed(nodes, index)
    ensures id in index <==> id in NodeIds(nodes)
    ensures id in index ==> index[id] == nodes[IndexOf(NodeIds(nodes), id)]
    ensures Distinct(NodeIds(nodes))
    ensures forall i, j :: 0 <= i < j < |nodes| ==> nodes[i] != nodes[j]
  {
    var ids := NodeIds(nodes);
    assert forall i :: 0 <= i < |nodes| ==> ids[i] == nodes[i].item.id;
    if id in index {
      var i :| 0 <= i < |nodes| && nodes[i] == index[id];
      assert ids[i] == id;
    }
  }

  lemma DistinctNodes(nodes: seq<RemoteChatItem>, index: map<Id, RemoteChatItem>)
    requires Indexed(nodes, index)
    ensures forall i, j :: 0 <= i < j < |nodes| ==> nodes[i] != nodes[j]
  {
  }

  lemma InsertMembers<T>(s: seq<T>, k: nat, x: T)
    requires k <= |s|
    ensures forall y :: y in InsertAt(s, k, x) <==> y == x || y in s
  {
    var t := InsertAt(s, k, x);
    assert t[k] == x;
    forall y | y in s
      ensures y in t
    {
      var i :| 0 <= i < |s| && s[i] == y;
      assert t[if i < k then i else i + 1] == y;
    }
  }

  lemma DeleteMembers<T>(s: seq<T>, k: nat)
    requires k < |s|
    ensures forall y :: y in DeleteAt(s, k) ==> y in s
    ensures forall y :: y in s && y != s[k] ==> y in DeleteAt(s, k)
  {
    var t := DeleteAt(s, k);
    forall y | y in s && y != s[k]
      ensures y in t
    {
      var i :| 0 <= i < |s| && s[i] == y;
      assert t[if i < k then i else i - 1] == y;
    }
  }

  lemma InsertKeepsDistinct(nodes: seq<RemoteChatItem>, k: nat, node: RemoteChatItem)
    requires k <= |nodes|
    requires forall i, j :: 0 <= i < j < |nodes| ==> nodes[i].item.id != nodes[j].item.id
    requires forall i :: 0 <= i < |nodes| ==> nodes[i].item.id != node.item.id
    ensures var after := InsertAt(nodes, k, node);
      forall i, j :: 0 <= i < j < |after| ==> after[i].item.id != after[j].item.id
  {
    var after := InsertAt(nodes, k, node);
    forall i, j | 0 <= i < j < |after|
      ensures after[i].item.id != after[j].item.id
    {
      if i != k && j != k {
        assert after[i] == nodes[if i < k then i else i - 1] && after[j] == nodes[if j < k then j else j - 1];
      }
    }
  }

  lemma IndexedInsert(nodes: seq<RemoteChatItem>, index: map<Id, RemoteChatItem>, k: nat, node: RemoteChatItem)
    requires Indexed(nodes, index) && k <= |nodes| && node.item.id !in index
    ensures Indexed(InsertAt(nodes, k, node), index[node.item.id := node])
  {
    var after := InsertAt(nodes, k, node);
    InsertKeepsDistinct(nodes, k, node);
    forall i | 0 <= i < |after|
      ensures after[i] != node ==>
        after[i].item.id != node.item.id && after[i].item.id in index && index[after[i].item.id] == after[i]
    {
      assert after[i] == node || after[i] == nodes[if i < k then i else i - 1];
    }
    InsertMembers(nodes, k, node);
  }

  lemma IndexedDelete(nodes: seq<RemoteChatItem>, index: map<Id, RemoteChatItem>, k: nat)
    requires Indexed(nodes, index) && k < |nodes|
    ensures Indexed(DeleteAt(nodes, k), index - {nodes[k].item.id})
  {
    DeleteMembers(nodes, k);
    var after := DeleteAt(nodes, k);
    assert forall i :: 0 <= i < |after| ==> after[i] == nodes[if i < k then i else i + 1];
  }

  lemma ItemsAfterEdit(nodes: seq<RemoteChatItem>, k: nat, node: RemoteChatItem)
    requires k <= |nodes|
    ensures Items(InsertAt(nodes, k, node)) == InsertAt(Items(nodes), k, node.item)
    ensures k < |nodes| ==> Items(DeleteAt(nodes, k)) == DeleteAt(Items(nodes), k)
  {
  }

  class RemoteChatContext {
    var head: RemoteChatItem?
    var tail: RemoteChatItem?
    var idToItem: map<Id, RemoteChatItem>
    ghost var nodes: seq<RemoteChatItem>

    ghost predicate Valid()
      reads this, nodes
    {
      Indexed(nodes, idToItem) && Linked()
    }

    /** Next-links from head spell `nodes`, prev-links from tail spell its reverse. */
    ghost predicate Linked()
      reads this`head, this`tail, this`nodes, nodes
    {
      && head == (if nodes == [] then null else nodes[0])
      && tail == (if nodes == [] then null else nodes[|nodes| - 1])
      && (forall i {:trigger nodes[i].prev} :: 0 <= i < |nodes| ==>
            nodes[i].prev == if i == 0 then null else nodes[i - 1])
      && (forall i {:trigger nodes[i].next} :: 0 <= i < |nodes| ==>
            nodes[i].next == if i == |nodes| - 1 then null else nodes[i + 1])
    }

    /** The history, oldest first: what the rest of the program sees. */
    ghost function Contents(): seq<ChatItem>
      reads this`nodes
    {
      Items(nodes)
    }

    ghost function Ids(): seq<Id>
      reads this`nodes
    {
      NodeIds(nodes)
    }

    constructor ()
      ensures Valid() && Contents() == []
    {
      head, tail, idToItem, nodes := null, null, map[], [];
    }

    /** `to_chat_ctx` walks the next-links to the end and returns the whole history. */
    method ToChatCtx() returns (items: seq<ChatItem>)
      requires Valid()
      ensures items == Contents()
    {
      items := [];
      var current := head;
      ghost var k := 0;
      while current != null
        invariant 0 <= k <= |nodes|
        invariant current == if k == |nodes| then null else nodes[k]
        invariant items == Contents()[..k]
        decreases |nodes| - k
      {
        items := items + [current.item];
        current := current.next;
        k := k + 1;
      }
    }

    /** `get`. */
    method Get(itemId: Id) returns (node: RemoteChatItem?)
      requires Valid()
      ensures node == null <==> itemId !in Ids()
      ensures node != null ==> node in nodes && node.item.id == itemId
    {
      IndexAnswers(nodes, idToItem, itemId);
      if itemId in idToItem {
        node := idToItem[itemId];
      } else {
        node := null;
      }
    }

    /** The branch of `insert` that links a node in front of the head. */
    method LinkAtHead(node: RemoteChatItem)
      requires Linked() && forall i, j :: 0 <= i < j < |nodes| ==> nodes[i] != nodes[j]
      requires node !in nodes && node.prev == null && node.next == null
      modifies this`head, this`tail, this`nodes, nodes, node
      ensures Linked() && nodes == InsertAt(old(nodes), 0, node)
    {
      if head != null {
        node.next := head;
        head.prev := node;
      } else {
        tail := node;
      }
      head := node;
      nodes := [node] + nodes;
      assert nodes == InsertAt(old(nodes), 0, node);
    }

    /** The branch of `insert` that links a node after another one. */
    method LinkAfter(prevNode: RemoteChatItem, node: RemoteChatItem, ghost k: nat)
      requires Linked() && forall i, j :: 0 <= i < j < |nodes| ==> nodes[i] != nodes[j]
      requires k < |nodes| && nodes[k] == prevNode && node !in nodes
      modifies this`tail, this`nodes, nodes, node
      ensures Linked() && nodes == InsertAt(old(nodes), k + 1, node)
    {
      node.prev := prevNode;
      node.next := prevNode.next;
      prevNode.next := node;
      if node.next != null {
        node.next.prev := node;
      } else {
        tail := node;
      }
      nodes := InsertAt(nodes, k + 1, node);
      assert nodes[k] == prevNode && nodes[k + 1] == node && (k + 2 < |nodes| ==> nodes[k + 2] == node.next);
    }

    /** `insert` without a previous id: link at the head, then index. */
    method PlaceAtHead(node: RemoteChatItem)
      requires Valid() && node !in nodes && node.prev == null && node.next == null
      requires node.item.id !in idToItem
      modifies this, nodes, node
      ensures Valid() && nodes == InsertAt(old(nodes), 0, node)
    {
      hide Indexed, RemoteChatContext.Linked, InsertAt;
      IndexedInsert(nodes, idToItem, 0, node);
      DistinctNodes(nodes, idToItem);
      LinkAtHead(node);
      idToItem := idToItem[node.item.id := node];
    }

    /** `insert` after an item found by its id: link, then index. */
    method PlaceAfter(prevNode: RemoteChatItem, node: RemoteChatItem, ghost k: nat)
      requires Valid() && node !in nodes && node.item.id !in idToItem
      requires k < |nodes| && nodes[k] == prevNode
      modifies this, nodes, node
      ensures Valid() && nodes == InsertAt(old(nodes), k + 1, node)
    {
      hide Indexed, RemoteChatContext.Linked, InsertAt;
      IndexedInsert(nodes, idToItem, k + 1, node);
      DistinctNodes(nodes, idToItem);
      LinkAfter(prevNode, node, k);
      idToItem := idToItem[node.item.id := node];
    }

    /** `insert`: at the head for None, else right after the named item; refused without any change. */
    method Insert(previousItemId: Option<Id>, message: ChatItem) returns (error: Option<ContextError>)
      requires Valid()
      modifies this, nodes
      ensures Valid()
      ensures forall n :: n in nodes ==> n in old(nodes) || fresh(n)
      ensures error ==
        (if message.id in old(Ids()) then Some(AlreadyExists(message.id))
         else if previousItemId.Some? && previousItemId.value !in old(Ids()) then
           Some(PreviousNotFound(previousItemId.value))
         else None)
      ensures error.None? ==> Contents() == InsertAt(old(Contents()), Slot(old(Ids()), previousItemId), message)
      ensures error.Some? ==> nodes == old(nodes)
    {
      hide Indexed, RemoteChatContext.Linked;
      IndexAnswers(nodes, idToItem, message.id);
      if message.id in idToItem {
        return Some(AlreadyExists(message.id));
      }
      var newNode := new RemoteChatItem(message);
      ghost var slot :=
        if previousItemId.Some? && previousItemId.value !in Ids() then 0 else Slot(Ids(), previousItemId);
      ItemsAfterEdit(nodes, slot, newNode);
      InsertMembers(nodes, slot, newNode);
      if previousItemId.None? {
        PlaceAtHead(newNode);
        return None;
      }
      IndexAnswers(nodes, idToItem, previousItemId.value);
      if previousItemId.value !in idToItem {
        return Some(PreviousNotFound(previousItemId.value));
      }
      PlaceAfter(idToItem[previousItemId.value], newNode, slot - 1);
      return None;
    }

    /** The relinking part of `delete`. */
    method Unlink(node: RemoteChatItem, ghost k: nat)
      requires Linked() && forall i, j :: 0 <= i < j < |nodes| ==> nodes[i] != nodes[j]
      requires k < |nodes| && nodes[k] == node
      modifies this`head, this`tail, this`nodes, nodes
      ensures Linked() && nodes == DeleteAt(old(nodes), k)
    {
      var prevNode, nextNode := node.prev, node.next;
      if head == node {
        head := nextNode;
        if head != null {
          head.prev := null;
        }
      } else {
        if prevNode != null {
          prevNode.next := nextNode;
        }
      }
      if tail == node {
        tail := prevNode;
        if tail != null {
          tail.next := null;
        }
      } else {
        if nextNode != null {
          nextNode.prev := prevNode;
        }
      }
      nodes := DeleteAt(nodes, k);
    }

    /** The accepted part of `delete`: unlink the node and drop it from the index. */
    method Remove(node: RemoteChatItem, ghost k: nat)
      requires Valid() && k < |nodes| && nodes[k] == node
      modifies this, nodes
      ensures Valid() && nodes == DeleteAt(old(nodes), k)
    {
      hide Indexed, RemoteChatContext.Linked;
      IndexedDelete(nodes, idToItem, k);
      DistinctNodes(nodes, idToItem);
      Unlink(node, k);
      idToItem := idToItem - {node.item.id};
    }

    /** `delete`: unlinks the named item, or refuses without any change. */
    method Delete(itemId: Id) returns (error: Option<ContextError>)
      requires Valid()
      modifies this, nodes
      ensures Valid()
      ensures forall n :: n in nodes ==> n in old(nodes)
      ensures error == if itemId in old(Ids()) then None else Some(NotFound(itemId))
      ensures error.None? ==> Contents() == DeleteAt(old(Contents()), IndexOf(old(Ids()), itemId))
      ensures error.Some? ==> nodes == old(nodes)
    {
      IndexAnswers(nodes, idToItem, itemId);
      if itemId !in idToItem {
        return Some(NotFound(itemId));
      }
      var node := idToItem[itemId];
      ghost var k := IndexOf(Ids(), itemId);
      ItemsAfterEdit(nodes, k, node);
      DeleteMembers(nodes, k);
      Remove(node, k);
      return None;
    }
  }
}
