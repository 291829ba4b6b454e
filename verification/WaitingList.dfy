/** The waiting list of the event loop: a ring of items through a head, linked by pointers inside the items.
    A null pointer is an absent entry; an item counts as waiting when either of its pointers is set. */
module WaitingLists {
  import opened Lists

  datatype Ref = Head | Node(item: nat)

  /** The ring: position 0 and position |items| + 1 are the head, position k is the k-th item. */
  function Ring(items: seq<nat>, k: nat): Ref
    requires k <= |items| + 1
  {
    if 0 < k <= |items| then Node(items[k - 1]) else Head
  }

  /** Position `k` of the ring is linked to the next one, both ways. */
  ghost predicate LinkedAt(next: map<Ref, Ref>, prev: map<Ref, Ref>, items: seq<nat>, k: nat) {
    k <= |items| ==>
      && Ring(items, k) in next && next[Ring(items, k)] == Ring(items, k + 1)
      && Ring(items, k + 1) in prev && prev[Ring(items, k + 1)] == Ring(items, k)
  }

  /** The pointers make exactly this ring, and all other items' pointers are null. */
  ghost predicate Linked(next: map<Ref, Ref>, prev: map<Ref, Ref>, items: seq<nat>) {
    && Distinct(items)
    && (forall k: nat :: LinkedAt(next, prev, items, k))
    && (forall i :: Node(i) in next <==> i in items)
    && (forall i :: Node(i) in prev <==> i in items)
  }

  lemma LinkedAfterPush(next: map<Ref, Ref>, prev: map<Ref, Ref>, items: seq<nat>, i: nat)
    requires Linked(next, prev, items) && i !in items
    ensures Head in prev
    ensures var last := prev[Head];
      Linked(next[last := Node(i)][Node(i) := Head], prev[Node(i) := last][Head := Node(i)], items + [i])
  {
    var n := |items|;
    assert LinkedAt(next, prev, items, n);
    var last := prev[Head];
    var next', prev', items' := next[last := Node(i)][Node(i) := Head], prev[Node(i) := last][Head := Node(i)],
        items + [i];
    forall k: nat ensures LinkedAt(next', prev', items', k) {
      assert LinkedAt(next, prev, items, k);
    }
  }

  /** Item `k` of the list taken out. */
  function Cut(items: seq<nat>, k: nat): seq<nat>
    requires k < |items|
  {
    items[..k] + items[k + 1..]
  }

  lemma LinkedAfterUnlink(next: map<Ref, Ref>, prev: map<Ref, Ref>, items: seq<nat>, k: nat)
    requires Linked(next, prev, items) && k < |items|
    ensures var node := Node(items[k]);
      && node in next && node in prev
      && Linked(next[prev[node] := next[node]] - {node}, prev[next[node] := prev[node]] - {node}, Cut(items, k))
  {
    assert LinkedAt(next, prev, items, k) && LinkedAt(next, prev, items, k + 1);
    var node := Node(items[k]);
    var next', prev', items' := next[prev[node] := next[node]] - {node}, prev[next[node] := prev[node]] - {node},
        Cut(items, k);
    forall j: nat ensures LinkedAt(next', prev', items', j) {
      assert LinkedAt(next, prev, items, j) && LinkedAt(next, prev, items, j + 1);
    }
    forall i ensures i in items' <==> i in items && i != items[k] {
      if i in items' { var j :| 0 <= j < |items'| && items'[j] == i; }
    }
  }

  /** In a list without repetition, taking an item out is removing it wherever it is. */
  lemma {:induction false} CutIsWithout(items: seq<nat>, k: nat)
    requires Distinct(items) && k < |items|
    ensures Without(items, items[k]) == Cut(items, k)
  {
    if k == 0 {
      AbsentWithout(items[1..], items[0]);
    } else {
      CutIsWithout(items[1..], k - 1);
      assert Cut(items, k) == [items[0]] + Cut(items[1..], k - 1);
    }
  }

  class WaitingList {
    var next: map<Ref, Ref>
    var prev: map<Ref, Ref>
    /** The items in order. */
    ghost var items: seq<nat>

    ghost predicate Valid()
      reads this
    {
      Linked(next, prev, items)
    }

    /** WaitingList_init */
    constructor ()
      ensures Valid() && items == []
    {
      next, prev := map[Head := Head], map[Head := Head];
      items := [];
    }

    /** WaitingList_empty_p */
    predicate Empty()
      reads this
      requires Head in next
    {
      next[Head] == Head
    }

    lemma EmptyIffNoItems()
      requires Valid()
      ensures Head in next && (Empty() <==> items == [])
    {
      assert LinkedAt(next, prev, items, 0);
    }

    /** furi_event_loop_item_is_waiting: either pointer of the item is set. */
    predicate IsWaiting(i: nat)
      reads this
    {
      Node(i) in prev || Node(i) in next
    }

    lemma WaitingIffListed(i: nat)
      requires Valid()
      ensures IsWaiting(i) <==> i in items
    {}

    /** WaitingList_push_back */
    method PushBack(i: nat)
      requires Valid() && !IsWaiting(i)
      modifies this
      ensures Valid() && items == old(items) + [i]
    {
      LinkedAfterPush(next, prev, items, i);
      var last := prev[Head];
      prev := prev[Node(i) := last][Head := Node(i)];
      next := next[last := Node(i)][Node(i) := Head];
      items := items + [i];
    }

    /** WaitingList_unlink, which also clears the item's pointers. */
    method Unlink(i: nat)
      requires Valid() && IsWaiting(i)
      modifies this
      ensures Valid() && items == Without(old(items), i)
    {
      ghost var k :| 0 <= k < |items| && items[k] == i;
      LinkedAfterUnlink(next, prev, items, k);
      CutIsWithout(items, k);
      var p, n := prev[Node(i)], next[Node(i)];
      next := next[p := n] - {Node(i)};
      prev := prev[n := p] - {Node(i)};
      items := Cut(items, k);
    }

    /** WaitingList_pop_front */
    method PopFront() returns (i: nat)
      requires Valid() && items != []
      modifies this
      ensures Valid() && i == old(items)[0] && items == old(items)[1..]
    {
      assert LinkedAt(next, prev, items, 0);
      LinkedAfterUnlink(next, prev, items, 0);
      assert Cut(items, 0) == items[1..];
      i := next[Head].item;
      var n := next[Node(i)];
      next := next[Head := n] - {Node(i)};
      prev := prev[n := Head] - {Node(i)};
      items := items[1..];
    }
  }
}
