/**
 The queues of the scheduler as one family of intrusive lists. Every element owns one node
 (`&actor->node`), which is on at most one of the lists; get_cont is `item`. What the
 family means is `contents`: the sequence of elements on each list.
 */
module Queues {
  import opened Lists

  ghost predicate In<T>(qs: seq<seq<T>>, a: T) {
    exists k :: 0 <= k < |qs| && a in qs[k]
  }

  lemma InMore<T>(qs: seq<seq<T>>, a: T)
    requires In(qs, a)
    ensures In(qs + [[]], a)
  {
    var k :| 0 <= k < |qs| && a in qs[k];
    assert a in (qs + [[]])[k];
  }

  lemma InAppended<T>(qs: seq<seq<T>>, k: nat, x: T, a: T)
    requires k < |qs| && (In(qs, a) || a == x)
    ensures In(qs[k := qs[k] + [x]], a)
  {
    var now := qs[k := qs[k] + [x]];
    if a == x {
      assert a in now[k];
    } else {
      var j :| 0 <= j < |qs| && a in qs[j];
      assert a in now[j];
    }
  }

  lemma InErased<T>(qs: seq<seq<T>>, k: nat, i: nat, a: T)
    requires k < |qs| && i < |qs[k]| && In(qs, a) && a != qs[k][i]
    ensures In(qs[k := qs[k][..i] + qs[k][i + 1..]], a)
  {
    var now := qs[k := qs[k][..i] + qs[k][i + 1..]];
    var j :| 0 <= j < |qs| && a in qs[j];
    assert a in now[j] by {
      if j == k {
        assert qs[k] == qs[k][..i] + [qs[k][i]] + qs[k][i + 1..];
      }
    }
  }

  /** The nodes are those of the elements of q, in the same order. */
  ghost predicate Match<T>(nodes: seq<Node<T>>, q: seq<T>, nodeOf: map<T, Node<T>>) {
    |nodes| == |q| && forall i :: 0 <= i < |q| ==> q[i] in nodeOf && nodes[i] == nodeOf[q[i]]
  }

  lemma MatchMoreNodes<T>(nodes: seq<Node<T>>, q: seq<T>, nodeOf: map<T, Node<T>>, a: T, n: Node<T>)
    requires Match(nodes, q, nodeOf) && a !in nodeOf
    ensures Match(nodes, q, nodeOf[a := n])
  {
  }

  lemma MatchAppended<T>(nodes: seq<Node<T>>, q: seq<T>, nodeOf: map<T, Node<T>>, a: T)
    requires Match(nodes, q, nodeOf) && a in nodeOf
    ensures Match(nodes + [nodeOf[a]], q + [a], nodeOf)
  {
  }

  lemma MatchErased<T>(nodes: seq<Node<T>>, q: seq<T>, nodeOf: map<T, Node<T>>, i: nat)
    requires Match(nodes, q, nodeOf) && i < |q|
    ensures Match(nodes[..i] + nodes[i + 1..], q[..i] + q[i + 1..], nodeOf)
  {
  }

  ghost function MovedOne<T>(qs: seq<seq<T>>, from: nat, to: nat): (r: seq<seq<T>>)
    requires from < |qs| && to < |qs| && qs[from] != []
    ensures |r| == |qs|
  {
    qs[from := qs[from][1..]][to := qs[to] + [qs[from][0]]]
  }

  /** The queues when the first n elements of one queue have been moved to another. */
  ghost function Moved<T>(qs: seq<seq<T>>, from: nat, to: nat, n: nat): (r: seq<seq<T>>)
    requires from < |qs| && to < |qs| && from != to && n <= |qs[from]|
    ensures |r| == |qs|
  {
    qs[from := qs[from][n..]][to := qs[to] + qs[from][..n]]
  }

  lemma MovedEnds<T>(qs: seq<seq<T>>, from: nat, to: nat)
    requires from < |qs| && to < |qs| && from != to
    ensures Moved(qs, from, to, 0) == qs
    ensures Moved(qs, from, to, |qs[from]|) == qs[from := []][to := qs[to] + qs[from]]
  {
    var q := qs[from];
    assert q[0..] == q && q[..|q|] == q && q[|q|..] == [];
    assert qs[to] + q[..0] == qs[to];
  }

  lemma MovedNext<T>(qs: seq<seq<T>>, from: nat, to: nat, n: nat)
    requires from < |qs| && to < |qs| && from != to && n < |qs[from]|
    ensures Moved(qs, from, to, n)[from] != []
    ensures MovedOne(Moved(qs, from, to, n), from, to) == Moved(qs, from, to, n + 1)
  {
    var q := qs[from];
    assert q[n..][1..] == q[n + 1..];
    assert qs[to] + q[..n] + [q[n]] == qs[to] + q[..n + 1];
  }

  class QueueSet<T(==)> {
    var lists: seq<List<T>>
    var nodeOf: map<T, Node<T>>
    ghost var contents: seq<seq<T>>
    ghost var pool: set<Node<T>>  // the nodes of all elements

    /** Every element has its own node, and lists are made of such nodes. */
    ghost predicate Owned()
      reads this`lists, this`nodeOf, this`pool, lists`nodes
    {
      && (forall a :: a in nodeOf ==> nodeOf[a] in pool && nodeOf[a].item == a)
      && (forall n :: n in pool ==> n.item in nodeOf && nodeOf[n.item] == n)
      && (forall k, i :: 0 <= k < |lists| && 0 <= i < |lists[k].nodes| ==> lists[k].nodes[i] in pool)
    }

    /** The lists hold the elements of qs. */
    ghost predicate Hold(qs: seq<seq<T>>)
      reads this`lists, this`nodeOf, lists`nodes
    {
      |qs| == |lists| && forall k :: 0 <= k < |lists| ==> Match(lists[k].nodes, qs[k], nodeOf)
    }

    ghost predicate Listed(a: T)
      reads this`contents
    {
      In(contents, a)
    }

    /** A node whose element is on no queue is free to be enqueued. */
    ghost predicate Free()
      reads this`contents, this`pool, pool`home
    {
      forall n :: n in pool && n.home != null ==> Listed(n.item)
    }

    ghost predicate Linked()
      requires Owned()
      reads this`lists, this`nodeOf, this`pool, lists, pool
    {
      Distinct(lists) && forall k :: 0 <= k < |lists| ==> lists[k].Valid()
    }

    ghost predicate Valid()
      reads this, lists, pool
    {
      Owned() && Hold(contents) && Free() && Linked()
    }

    constructor ()
      ensures Valid() && contents == [] && lists == [] && nodeOf == map[] && pool == {}
    {
      lists, nodeOf, contents, pool := [], map[], [], {};
    }

    /** list_init for one more list; the queues are not told of it yet. */
    method NewList()
      requires Owned() && Linked() && Hold(contents)
      modifies this`lists
      ensures Owned() && Linked() && Hold(contents + [[]])
      ensures |lists| == old(|lists|) + 1 && old(lists) <= lists && fresh(lists[old(|lists|)])
    {
      var l := new List<T>();
      ghost var was := lists;
      lists := lists + [l];
      assert forall k :: 0 <= k < |lists| ==> lists[k] == if k < |was| then was[k] else l;
    }

    /** list_init for one more queue */
    method AddList()
      requires Valid()
      modifies this`lists, this`contents
      ensures Valid() && contents == old(contents) + [[]]
      ensures |lists| == old(|lists|) + 1 && old(lists) <= lists && fresh(lists[old(|lists|)])
    {
      ghost var was := contents;
      NewList();
      contents := was + [[]];
      FreeAfterMore(was);
    }

    lemma FreeAfterMore(was: seq<seq<T>>)
      requires contents == was + [[]]
      requires forall n :: n in pool && n.home != null ==> In(was, n.item)
      ensures Free()
    {
      forall n | n in pool && n.home != null
        ensures Listed(n.item)
      {
        InMore(was, n.item);
      }
    }

    lemma NotListed(a: T)
      requires Hold(contents) && a !in nodeOf
      ensures !Listed(a)
    {
      forall k | 0 <= k < |contents|
        ensures a !in contents[k]
      {
        assert Match(lists[k].nodes, contents[k], nodeOf);
      }
    }

    lemma HoldMoreNodes(a: T, n: Node<T>)
      requires Hold(contents) && a !in nodeOf
      ensures forall k :: 0 <= k < |lists| ==> Match(lists[k].nodes, contents[k], nodeOf[a := n])
    {
      forall k | 0 <= k < |lists|
        ensures Match(lists[k].nodes, contents[k], nodeOf[a := n])
      {
        MatchMoreNodes(lists[k].nodes, contents[k], nodeOf, a, n);
      }
    }

    /** The node of a new element, on no list. */
    method Adopt(a: T)
      requires Valid() && a !in nodeOf
      modifies this`nodeOf, this`pool
      ensures Valid() && nodeOf.Keys == old(nodeOf.Keys) + {a} && !Listed(a)
      ensures old(pool) <= pool && fresh(pool - old(pool))
    {
      NotListed(a);
      var n := new Node<T>(a);
      HoldMoreNodes(a, n);
      nodeOf := nodeOf[a := n];
      pool := pool + {n};
    }

    /** list_enqueue on list k, without the abstraction. */
    method Link(k: nat, a: T)
      requires Owned() && Linked() && k < |lists| && a in nodeOf && nodeOf[a].home == null
      modifies lists[k], pool
      ensures Owned() && Linked()
      ensures OthersSame(lists, k, k) && lists[k].nodes == old(lists[k].nodes) + [nodeOf[a]]
      ensures forall n :: n in pool && n != nodeOf[a] && n.home != null ==> old(n.home) != null
    {
      EnqueueAmong(lists, k, nodeOf[a]);
    }

    /** list_erase of the node at position i of list k, without the abstraction. */
    method Unlink(k: nat, node: Node<T>, ghost i: nat)
      requires Owned() && Linked() && k < |lists| && i < |lists[k].nodes| && lists[k].nodes[i] == node
      modifies lists[k], pool
      ensures Owned() && Linked()
      ensures OthersSame(lists, k, k)
      ensures lists[k].nodes == old(lists[k].nodes[..i] + lists[k].nodes[i + 1..])
      ensures node.home == null
      ensures forall n :: n in pool && n.home != null ==> old(n.home) != null
    {
      EraseAmong(lists, k, node, i);
    }

    method LinkElement(k: nat, a: T)
      requires Owned() && Linked() && Hold(contents) && k < |lists| && a in nodeOf && nodeOf[a].home == null
      modifies lists[k], pool
      ensures Owned() && Linked() && Hold(contents[k := contents[k] + [a]])
      ensures forall n :: n in pool && n != nodeOf[a] && n.home != null ==> old(n.home) != null
    {
      Link(k, a);
      MatchAppended(old(lists[k].nodes), contents[k], nodeOf, a);
    }

    method UnlinkElement(k: nat, a: T, ghost i: nat, ghost rest: seq<T>)
      requires Owned() && Linked() && Hold(contents) && k < |lists| && i < |contents[k]| && contents[k][i] == a
      requires rest == contents[k][..i] + contents[k][i + 1..]
      modifies lists[k], pool
      ensures Owned() && Linked() && Hold(contents[k := rest])
      ensures a in nodeOf && nodeOf[a].home == null
      ensures forall n :: n in pool && n.home != null ==> old(n.home) != null
    {
      assert Match(lists[k].nodes, contents[k], nodeOf);
      Unlink(k, nodeOf[a], i);
      MatchErased(old(lists[k].nodes), contents[k], nodeOf, i);
    }

    /** list_enqueue(queue k, &a->node) */
    method Enqueue(k: nat, a: T)
      requires Valid() && k < |lists| && a in nodeOf && !Listed(a)
      modifies this`contents, lists, pool
      ensures Valid()
      ensures contents == old(contents)[k := old(contents)[k] + [a]]
    {
      ghost var was := contents;
      LinkElement(k, a);
      contents := was[k := was[k] + [a]];
      FreeAfterEnqueue(was, k, a);
    }

    lemma FreeAfterEnqueue(was: seq<seq<T>>, k: nat, a: T)
      requires k < |was| && contents == was[k := was[k] + [a]]
      requires forall n :: n in pool && n.item != a && n.home != null ==> In(was, n.item)
      ensures Free()
    {
      forall n | n in pool && n.home != null
        ensures Listed(n.item)
      {
        InAppended(was, k, a, n.item);
      }
    }

    /** list_erase(queue k, &a->node); a is at position i, and then on no queue: `rest` stays on queue k. */
    method Erase(k: nat, a: T, ghost i: nat, ghost rest: seq<T>)
      requires Valid() && k < |lists| && i < |contents[k]| && contents[k][i] == a
      requires rest == contents[k][..i] + contents[k][i + 1..]
      modifies this`contents, lists, pool
      ensures Valid() && !Listed(a) && a in nodeOf
      ensures contents == old(contents)[k := rest]
    {
      TakeOut(k, a, i, rest);
      if Listed(a) {
        ListedIsLinked(a);
      }
    }

    method TakeOut(k: nat, a: T, ghost i: nat, ghost rest: seq<T>)
      requires Valid() && k < |lists| && i < |contents[k]| && contents[k][i] == a
      requires rest == contents[k][..i] + contents[k][i + 1..]
      modifies this`contents, lists, pool
      ensures Valid() && a in nodeOf && nodeOf[a].home == null
      ensures contents == old(contents)[k := rest]
    {
      ghost var was := contents;
      UnlinkElement(k, a, i, rest);
      contents := was[k := rest];
      FreeAfterErase(was, k, i);
    }

    lemma FreeAfterErase(was: seq<seq<T>>, k: nat, i: nat)
      requires k < |was| && i < |was[k]| && contents == was[k := was[k][..i] + was[k][i + 1..]]
      requires forall n :: n in pool && n.home != null ==> n.item != was[k][i] && In(was, n.item)
      ensures Free()
    {
      forall n | n in pool && n.home != null
        ensures Listed(n.item)
      {
        InErased(was, k, i, n.item);
      }
    }

    /** An element on a queue has a node on a list. */
    lemma ListedIsLinked(a: T)
      requires Owned() && Hold(contents) && Linked() && Listed(a)
      ensures a in nodeOf && nodeOf[a].home != null
    {
      var k :| 0 <= k < |contents| && a in contents[k];
      assert Match(lists[k].nodes, contents[k], nodeOf) && lists[k].Valid();
      var i :| 0 <= i < |contents[k]| && contents[k][i] == a;
      assert lists[k].nodes[i].home == lists[k];
    }

    /** Every element is on at most one queue, and there once. */
    lemma OnOneQueue(j: nat, k: nat, p: nat, q: nat)
      requires Valid() && j < |contents| && k < |contents| && p < |contents[j]| && q < |contents[k]|
      requires contents[j][p] == contents[k][q]
      ensures j == k && p == q
    {
      assert Match(lists[j].nodes, contents[j], nodeOf) && Match(lists[k].nodes, contents[k], nodeOf);
      assert lists[j].Valid() && lists[k].Valid();
      assert lists[j].nodes[p] == lists[k].nodes[q];
      assert lists[j].nodes[p].home == lists[j] && lists[k].nodes[q].home == lists[k];
    }

    lemma Sizes()
      requires Valid()
      ensures |contents| == |lists|
    {
    }

    /** get_cont(list_begin(queue k)) */
    method First(k: nat) returns (a: T)
      requires Valid() && k < |lists| && contents[k] != []
      ensures a == contents[k][0]
    {
      assert Match(lists[k].nodes, contents[k], nodeOf);
      a := lists[k].head.item;
    }

    lemma DropFirst(q: seq<T>)
      requires q != []
      ensures q[1..] == q[..0] + q[0 + 1..]
    {
    }

    /** list_dequeue(queue k), on a queue that is not empty, and get_cont. */
    method Dequeue(k: nat) returns (a: T)
      requires Valid() && k < |lists| && contents[k] != []
      modifies this`contents, lists, pool
      ensures Valid() && !Listed(a) && a in nodeOf
      ensures a == old(contents)[k][0]
      ensures contents == old(contents)[k := old(contents)[k][1..]]
    {
      a := First(k);
      DropFirst(contents[k]);
      Erase(k, a, 0, contents[k][1..]);
    }

    method MoveFirst(from: nat, to: nat)
      requires Valid() && from < |lists| && to < |lists| && from != to && contents[from] != []
      modifies this`contents, lists, pool
      ensures Valid() && contents == MovedOne(old(contents), from, to)
    {
      var a := Dequeue(from);
      Enqueue(to, a);
    }

    /** One turn of the loop in unblock_all. */
    method MoveOne(from: nat, to: nat) returns (done: bool)
      requires Valid() && from < |lists| && to < |lists| && from != to
      modifies this`contents, lists, pool
      ensures Valid()
      ensures done <==> old(contents)[from] == []
      ensures contents == if done then old(contents) else MovedOne(old(contents), from, to)
    {
      done := IsEmpty(from);
      if !done {
        MoveFirst(from, to);
      }
    }

    /** unblock_all: everything on queue `from` goes, in order, to the end of queue `to`. */
    method MoveAll(from: nat, to: nat)
      requires Valid() && from < |lists| && to < |lists| && from != to
      modifies this`contents, lists, pool
      ensures Valid()
      ensures contents == old(contents)[from := []][to := old(contents)[to] + old(contents)[from]]
    {
      ghost var was, n := contents, 0;
      MovedEnds(was, from, to);
      var done := false;
      while !done
        invariant Valid() && n <= |was[from]|
        invariant contents == Moved(was, from, to, n)
        invariant done ==> n == |was[from]|
        decreases |was[from]| - n, !done
      {
        if n < |was[from]| {
          MovedNext(was, from, to, n);
        }
        done := MoveOne(from, to);
        n := if done then n else n + 1;
      }
    }

    /** list_empty(queue k) */
    method IsEmpty(k: nat) returns (empty: bool)
      requires Valid() && k < |lists|
      ensures empty <==> contents[k] == []
    {
      assert Match(lists[k].nodes, contents[k], nodeOf);
      empty := lists[k].Empty();
    }
  }
}
