/**
 The intrusive doubly linked list of sherry.c. A list object holds only head and tail;
 the nodes carry prev and next. The ghost sequence `nodes` is what the list means, and
 the ghost field `home` of a node names the one list that holds it, so that two
 different valid lists can never share a node.
 */
module Lists {

  /** struct list_node; `item` stands for the structure the node is embedded in. */
  class Node<T> {
    const item: T
    var prev: Node?<T>
    var next: Node?<T>
    ghost var home: List?<T>

    constructor (item: T)
      ensures this.item == item
      ensures prev == null && next == null && home == null
    {
      this.item := item;
      prev, next, home := null, null, null;
    }
  }

  ghost predicate Distinct<T>(s: seq<T>) {
    forall i, j :: 0 <= i < j < |s| ==> s[i] != s[j]
  }

  lemma DistinctWithout<T>(s: seq<T>, k: nat)
    requires Distinct(s) && k < |s|
    ensures Distinct(s[..k] + s[k + 1..]) && s[k] !in s[..k] + s[k + 1..]
  {
  }

  lemma DistinctWith<T>(s: seq<T>, x: T, k: nat)
    requires Distinct(s) && k <= |s| && x !in s
    ensures Distinct(s[..k] + [x] + s[k..])
  {
  }

  /** The node at position i, or null outside the list. */
  ghost function At<T>(s: seq<Node<T>>, i: int): Node?<T> {
    if 0 <= i < |s| then s[i] else null
  }

  /** The node at position i points to its two neighbours. */
  ghost predicate Linked<T>(s: seq<Node<T>>, i: nat)
    requires i < |s|
    reads s`prev, s`next
  {
    s[i].prev == At(s, i - 1) && s[i].next == At(s, i + 1)
  }

  /** The node at position i points to its neighbours once `item` has been put before position k. */
  ghost predicate Spliced<T>(s: seq<Node<T>>, item: Node<T>, k: nat, i: nat)
    requires i < |s|
    reads s
  {
    && s[i].prev == (if i == k then item else At(s, i - 1))
    && s[i].next == (if i + 1 == k then item else At(s, i + 1))
  }

  /** The node at position i points to its neighbours once position k has been taken out. */
  ghost predicate Unspliced<T>(s: seq<Node<T>>, k: nat, i: nat)
    requires i < |s|
    reads s
  {
    && s[i].prev == At(s, if i == k + 1 then k - 1 else i - 1)
    && s[i].next == At(s, if i + 1 == k then k + 1 else i + 1)
  }

  lemma LinkedAfterSplice<T>(s: seq<Node<T>>, item: Node<T>, k: nat, i: nat)
    requires k <= |s| && i <= |s|
    requires item.prev == At(s, k - 1) && item.next == At(s, k)
    requires i != k ==> Spliced(s, item, k, if i < k then i else i - 1)
    ensures Linked(s[..k] + [item] + s[k..], i)
  {
  }

  lemma LinkedAfterUnsplice<T>(s: seq<Node<T>>, k: nat, i: nat)
    requires k < |s| && i < |s| - 1
    requires Unspliced(s, k, if i < k then i else i + 1)
    ensures Linked(s[..k] + s[k + 1..], i)
  {
  }

  class List<T> {
    var head: Node?<T>
    var tail: Node?<T>
    ghost var nodes: seq<Node<T>>

    ghost predicate Valid()
      reads this, nodes
    {
      && Distinct(nodes)
      && (forall i :: 0 <= i < |nodes| ==> nodes[i].home == this)
      && head == At(nodes, 0)
      && tail == At(nodes, |nodes| - 1)
      && (forall i :: 0 <= i < |nodes| ==> Linked(nodes, i))
    }

    /** list_init */
    constructor ()
      ensures Valid() && nodes == []
    {
      head, tail, nodes := null, null, [];
    }

    /** list_empty */
    predicate Empty()
      reads this
    {
      head == null
    }

    /** The pointer updates of list_insert, which leave a chain with `item` before `it`. */
    method Splice(item: Node<T>, it: Node?<T>, ghost k: nat)
      requires Valid()
      requires item.home == null
      requires k <= |nodes| && it == At(nodes, k)
      modifies this`head, this`tail, nodes`prev, nodes`next, item`prev, item`next
      ensures item.prev == At(nodes, k - 1) && item.next == At(nodes, k)
      ensures forall i :: 0 <= i < |nodes| ==> Spliced(nodes, item, k, i)
      ensures head == if k == 0 then item else At(nodes, 0)
      ensures tail == if k == |nodes| then item else At(nodes, |nodes| - 1)
    {
      assert k < |nodes| ==> Linked(nodes, k);
      assert k > 0 ==> Linked(nodes, k - 1);
      item.prev := if it != null then it.prev else tail;
      item.next := it;
      assert item.prev == At(nodes, k - 1);
      if item.prev != null {
        item.prev.next := item;
      }
      if item.next != null {
        item.next.prev := item;
      }
      if head == null || head == it {
        head := item;
      }
      if it == null {
        tail := item;
      }
      forall i | 0 <= i < |nodes|
        ensures Spliced(nodes, item, k, i)
      {
        assert old(Linked(nodes, i));
      }
    }

    /**
     list_insert: puts `item` right before `it`, or at the end when `it` is null.
     The ghost `k` names the position of `it`.
     */
    method Insert(item: Node<T>, it: Node?<T>, ghost k: nat)
      requires Valid()
      requires item.home == null
      requires k <= |nodes| && it == At(nodes, k)
      modifies this, nodes, item
      ensures Valid() && item.home == this
      ensures nodes == old(nodes)[..k] + [item] + old(nodes)[k..]
    {
      Splice(item, it, k);
      ghost var s := nodes;
      DistinctWith(s, item, k);
      ghost var longer := s[..k] + [item] + s[k..];
      forall i | 0 <= i < |longer|
        ensures Linked(longer, i)
      {
        LinkedAfterSplice(s, item, k, i);
      }
      nodes := longer;
      item.home := this;
    }

    /** The pointer updates of list_erase, which leave a chain without `item`. */
    method Unsplice(item: Node<T>, ghost k: nat) returns (next: Node?<T>)
      requires Valid()
      requires k < |nodes| && nodes[k] == item
      modifies this`head, this`tail, nodes`prev, nodes`next
      ensures item.prev == null && item.next == null && next == At(nodes, k + 1)
      ensures forall i :: 0 <= i < |nodes| && i != k ==> Unspliced(nodes, k, i)
      ensures head == At(nodes, if k == 0 then 1 else 0)
      ensures tail == At(nodes, if k == |nodes| - 1 then k - 1 else |nodes| - 1)
    {
      assert Linked(nodes, k);
      assert k > 0 ==> Linked(nodes, k - 1);
      assert k + 1 < |nodes| ==> Linked(nodes, k + 1);
      if item.prev != null {
        item.prev.next := item.next;
      } else {
        head := item.next;
      }
      if item.next != null {
        item.next.prev := item.prev;
      } else {
        tail := item.prev;
      }
      next := item.next;
      item.prev := null;
      item.next := null;
      forall i | 0 <= i < |nodes| && i != k
        ensures Unspliced(nodes, k, i)
      {
        assert old(Linked(nodes, i));
      }
    }

    /** list_erase: takes `item`, found at position `k`, out of this list; returns its successor. */
    method Erase(item: Node<T>, ghost k: nat) returns (next: Node?<T>)
      requires Valid()
      requires k < |nodes| && nodes[k] == item
      modifies this, nodes
      ensures Valid()
      ensures item.home == null && item.prev == null && item.next == null
      ensures nodes == old(nodes)[..k] + old(nodes)[k + 1..]
      ensures next == At(old(nodes), k + 1)
    {
      next := Unsplice(item, k);
      ghost var s := nodes;
      DistinctWithout(s, k);
      ghost var shorter := s[..k] + s[k + 1..];
      forall i | 0 <= i < |shorter|
        ensures Linked(shorter, i)
      {
        LinkedAfterUnsplice(s, k, i);
      }
      nodes := shorter;
      item.home := null;
    }

    /** list_enqueue */
    method Enqueue(node: Node<T>)
      requires Valid()
      requires node.home == null
      modifies this, nodes, node
      ensures Valid() && node.home == this
      ensures nodes == old(nodes) + [node]
    {
      Insert(node, null, |nodes|);
    }

    /** list_dequeue: null exactly when the list is empty. */
    method Dequeue() returns (node: Node?<T>)
      requires Valid()
      modifies this, nodes
      ensures Valid()
      ensures node == null <==> old(nodes) == []
      ensures node == null ==> nodes == old(nodes)
      ensures node != null ==>
                && node == old(nodes)[0] && nodes == old(nodes)[1..]
                && node.home == null && node.prev == null && node.next == null
    {
      node := head;
      if node == null {
        return;
      }
      var _ := Erase(node, 0);
    }
  }

  /**
   Walking the next pointers from the head, or the prev pointers from the tail, visits
   exactly the abstract sequence, forwards or backwards.
   */
  ghost function Forward<T>(n: Node?<T>, fuel: nat): (r: seq<Node<T>>)
    reads *
  {
    if n == null || fuel == 0 then [] else [n] + Forward(n.next, fuel - 1)
  }

  ghost function Backward<T>(n: Node?<T>, fuel: nat): (r: seq<Node<T>>)
    reads *
  {
    if n == null || fuel == 0 then [] else Backward(n.prev, fuel - 1) + [n]
  }

  lemma {:induction false} ForwardFrom<T>(l: List<T>, k: nat, fuel: nat)
    requires l.Valid() && k < |l.nodes| <= k + fuel
    ensures Forward(l.nodes[k], fuel) == l.nodes[k..]
    decreases fuel
  {
    assert Linked(l.nodes, k);
    if k + 1 < |l.nodes| {
      ForwardFrom(l, k + 1, fuel - 1);
    }
    assert l.nodes[k..] == [l.nodes[k]] + l.nodes[k + 1..];
  }

  lemma {:induction false} BackwardFrom<T>(l: List<T>, k: nat, fuel: nat)
    requires l.Valid() && k < |l.nodes| && k < fuel
    ensures Backward(l.nodes[k], fuel) == l.nodes[..k + 1]
    decreases fuel
  {
    assert Linked(l.nodes, k);
    if k > 0 {
      BackwardFrom(l, k - 1, fuel - 1);
    }
    assert l.nodes[..k + 1] == l.nodes[..k] + [l.nodes[k]];
  }

  /** Both walks stop by themselves: any larger number of steps sees the same nodes. */
  lemma WalksVisitNodes<T>(l: List<T>, fuel: nat)
    requires l.Valid() && |l.nodes| <= fuel
    ensures Forward(l.head, fuel) == l.nodes == Backward(l.tail, fuel)
  {
    if l.nodes != [] {
      ForwardFrom(l, 0, fuel);
      BackwardFrom(l, |l.nodes| - 1, fuel);
      assert l.nodes[0..] == l.nodes == l.nodes[..|l.nodes|];
    }
  }

  /** Two different lists have no node in common. */
  lemma DifferentListsAreDisjoint<T>(l: List<T>, m: List<T>)
    requires l.Valid() && m.Valid() && l != m
    ensures forall n :: n in l.nodes ==> n !in m.nodes
  {
    forall n | n in l.nodes
      ensures n !in m.nodes
    {
      assert n.home == l;
    }
  }

  // ---------------------------------------------------------------- a node among many lists

  ghost predicate AllValid<T>(ls: seq<List<T>>)
    reads *
  {
    Distinct(ls) && forall k :: 0 <= k < |ls| ==> ls[k].Valid()
  }

  /** Lists other than those numbered i and j hold the nodes they held before. */
  twostate predicate OthersSame<T>(ls: seq<List<T>>, i: int, j: int)
    reads ls
  {
    forall k :: 0 <= k < |ls| && k != i && k != j ==> ls[k].nodes == old(ls[k].nodes)
  }

  /** Enqueueing a node on one list leaves all other lists as they are. */
  method EnqueueAmong<T>(ls: seq<List<T>>, k: nat, node: Node<T>)
    requires AllValid(ls) && k < |ls| && node.home == null
    modifies ls[k], ls[k].nodes, node
    ensures AllValid(ls) && OthersSame(ls, k, k)
    ensures ls[k].nodes == old(ls[k].nodes) + [node]
  {
    ls[k].Enqueue(node);
  }

  /** So does erasing a node from one of them. */
  method EraseAmong<T>(ls: seq<List<T>>, k: nat, node: Node<T>, ghost i: nat)
    requires AllValid(ls) && k < |ls| && i < |ls[k].nodes| && ls[k].nodes[i] == node
    modifies ls[k], ls[k].nodes
    ensures AllValid(ls) && OthersSame(ls, k, k) && node.home == null
    ensures ls[k].nodes == old(ls[k].nodes[..i] + ls[k].nodes[i + 1..])
  {
    var _ := ls[k].Erase(node, i);
  }
}
