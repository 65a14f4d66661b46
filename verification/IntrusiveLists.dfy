/** The kernel's own lists, on nodes. The classes of the scheduler and of the processes keep the
    ids of the threads or processes on a list in a sequence; the kernel keeps a ring of the nodes
    inside their control blocks. Each operation on such a ring is proved here to do to the ids what
    those classes do to the sequence. */
module IntrusiveLists {
  import opened ListSpec
  import opened SchedModel
  import Rings

  type Id = nat

  /** The node of each control block that has one for the lists in question. */
  ghost predicate Nodes(node: map<Id, Rings.Node>)
    reads node.Values
  {
    && (forall t :: t in node ==> node[t].key == t)
    && forall t, u :: t in node && u in node && t != u ==> node[t] != node[u]
  }

  ghost function NodesOf(ids: seq<Id>, node: map<Id, Rings.Node>): (x: seq<Rings.Node>)
    requires forall i :: 0 <= i < |ids| ==> ids[i] in node
    ensures |x| == |ids|
  {
    seq(|ids|, i requires 0 <= i < |ids| => node[ids[i]])
  }

  /** The list with this head holds the control blocks `ids`, in this order. */
  ghost predicate Holds(list: Rings.Node, ids: seq<Id>, node: map<Id, Rings.Node>)
    reads list, node.Values
  {
    && (forall i :: 0 <= i < |ids| ==> ids[i] in node)
    && list !in node.Values && Nodes(node)
    && Rings.IsList(list, NodesOf(ids, node))
  }

  /** The control block is on no list. */
  ghost predicate Free(t: Id, node: map<Id, Rings.Node>)
    reads node.Values
  {
    t in node && Rings.Ring([node[t]])
  }

  /** A list holds a control block once. */
  lemma HoldsOnce(list: Rings.Node, ids: seq<Id>, node: map<Id, Rings.Node>)
    requires Holds(list, ids, node)
    ensures NoDup(ids)
  {
    var x := NodesOf(ids, node);
    forall i, j | 0 <= i < j < |ids| ensures ids[i] != ids[j] {
      assert ([list] + x)[i + 1] != ([list] + x)[j + 1];
    }
  }

  lemma Apart(list: Rings.Node, ids: seq<Id>, node: map<Id, Rings.Node>, t: Id)
    requires Holds(list, ids, node) && t in node && t !in ids
    ensures NoDup([list] + NodesOf(ids, node) + [node[t]])
  {
    forall i | 0 <= i < |ids| ensures NodesOf(ids, node)[i] != node[t] {
      assert ids[i] in ids;
    }
    NoDupJoins([list] + NodesOf(ids, node), [node[t]]);
  }

  // ----- the operations -----

  /** `sched_queue_add`: to the back of a list. */
  method PushBack(list: Rings.Node, t: Id, node: map<Id, Rings.Node>, ghost ids: seq<Id>)
    requires Holds(list, ids, node) && Free(t, node) && t !in ids
    modifies list`prev, list.prev`next, node[t]
    ensures Holds(list, ids + [t], node)
  {
    Apart(list, ids, node, t);
    ghost var x := NodesOf(ids, node);
    var n := node[t];
    assert [n] + [] == [n] && x + [] + [n] == NodesOf(ids + [t], node);
    Rings.PushBack(list, n, x, []);
  }

  /** A new child, or one handed over by the reparenting loop: to the front of a list. */
  method PushFront(list: Rings.Node, t: Id, node: map<Id, Rings.Node>, ghost ids: seq<Id>)
    requires Holds(list, ids, node) && Free(t, node) && t !in ids
    modifies list`next, list.next`prev, node[t]
    ensures Holds(list, [t] + ids, node)
  {
    Apart(list, ids, node, t);
    ghost var x := NodesOf(ids, node);
    var n := node[t];
    assert [n] + [] == [n] && [] + [n] + x == NodesOf([t] + ids, node);
    assert [list] + x + [n] == [list] + x + ([n] + []);
    Rings.PushFront(list, n, x, []);
  }

  /** The choice of a thread, and the reparenting loop: the first one leaves. */
  method PopFront(list: Rings.Node, node: map<Id, Rings.Node>, ghost ids: seq<Id>) returns (t: Id)
    requires Holds(list, ids, node) && ids != []
    modifies list`next, list.next`next, list.next`prev, list.next.next`prev
    ensures t == ids[0] && Holds(list, ids[1..], node) && Free(t, node)
  {
    ghost var x := NodesOf(ids, node);
    assert x[1..] == NodesOf(ids[1..], node);
    var n := Rings.PopFront(list, x);
    t := n.key;
  }

  /** A thread off the timeout list, or a child off the lists of its parent: the control block
      leaves the list wherever it is on it. */
  method Remove(n: Rings.Node, ghost t: Id, ghost node: map<Id, Rings.Node>, ghost list: Rings.Node, ghost ids: seq<Id>)
    requires Holds(list, ids, node) && t in ids && n == node[t]
    modifies n`next, n.next`prev, n.prev`next, n`prev
    ensures Holds(list, ListSpec.Remove(ids, t), node) && Free(t, node)
  {
    ghost var k := RemoveSplits(ids, t);
    ghost var p, q := NodesOf(ids[..k], node), NodesOf(ids[k + 1..], node);
    assert [list] + NodesOf(ids, node) == ([list] + p) + [node[t]] + q;
    assert [list] + NodesOf(ids[..k] + ids[k + 1..], node) == ([list] + p) + q;
    Rings.RemoveAt(n, [list] + p, q);
  }

  /** Exited children handed over to init: one list goes to the end of another. */
  method Append(ldest: Rings.Node, lsrc: Rings.Node, node: map<Id, Rings.Node>, ghost ids: seq<Id>, ghost ids2: seq<Id>)
    requires Holds(ldest, ids, node) && Holds(lsrc, ids2, node) && ldest != lsrc && forall t :: t in ids ==> t !in ids2
    modifies ldest`prev, ldest`next, lsrc`prev, lsrc`next, ldest.prev`next, lsrc.next`prev, lsrc.prev`next
    ensures Holds(ldest, ids + ids2, node) && Holds(lsrc, [], node)
  {
    ghost var x, y := NodesOf(ids, node), NodesOf(ids2, node);
    forall i, j | 0 <= i < |x| && 0 <= j < |y| ensures x[i] != y[j] {
      assert ids[i] in ids && ids2[j] in ids2;
    }
    NoDupJoins([ldest] + x, [lsrc] + y);
    assert x + y == NodesOf(ids + ids2, node);
    Rings.Append(ldest, lsrc, x, y);
  }

  /** `sched_register_timeout`: the scan for the first later wake-up time, and the splice before the
      node where it stops. The thread enters the list exactly where the model has it. */
  method Register(list: Rings.Node, t: Id, w: Time, tcb: map<Tid, Thread>, node: map<Id, Rings.Node>, ghost ids: seq<Id>)
    requires Holds(list, ids, node) && Free(t, node) && t !in ids
    requires forall i :: 0 <= i < |ids| ==> ids[i] in tcb
    modifies list, node.Values
    ensures var k := InsertionPoint(ids, tcb, w);
      Holds(list, ids[..k] + [t] + ids[k..], node)
  {
    ghost var x, k := NodesOf(ids, node), 0;
    Rings.NodeAt(list, x, 0);
    var n := list.next;
    while n != list
      invariant Holds(list, ids, node) && Free(t, node) && k <= |ids| && n == (x + [list])[k]
      invariant forall i :: 0 <= i < k ==> tcb[ids[i]].wakeup <= w
      decreases |ids| - k
    {
      Rings.NodeAt(list, x, k);
      assert n == node[ids[k]] && n.key == ids[k];
      if w < tcb[n.key].wakeup {
        break;
      }
      Rings.NodeAt(list, x, k + 1);
      n := n.next;
      k := k + 1;
    }
    Rings.NodeAt(list, x, k);
    InsertionPointUnique(ids, tcb, w, k);
    InsertAt(list, n, t, node, ids, k);
  }

  method InsertAt(list: Rings.Node, n: Rings.Node, t: Id, node: map<Id, Rings.Node>, ghost ids: seq<Id>, ghost k: nat)
    requires Holds(list, ids, node) && Free(t, node) && t !in ids
    requires k <= |ids| && n == (NodesOf(ids, node) + [list])[k]
    modifies list, node.Values
    ensures Holds(list, ids[..k] + [t] + ids[k..], node)
  {
    ghost var p, q := NodesOf(ids[..k], node), NodesOf(ids[k..], node);
    Apart(list, ids, node, t);
    assert NodesOf(ids, node) == p + q && NodesOf(ids, node) + [list] == p + (q + [list]);
    assert NodesOf(ids[..k] + [t] + ids[k..], node) == p + [node[t]] + q;
    Rings.NeighboursOn([list] + NodesOf(ids, node), n);
    Rings.InsertBefore(n, node[t], list, p, q);
  }
}
