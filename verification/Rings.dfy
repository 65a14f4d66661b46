/** The intrusive ring lists of util.h, on the heap. A list is a ring of nodes entered at its
    head; every operation but two is one or two pointer swaps. The sequences that a method
    takes as ghost parameters name the rings it is applied to. */
module Rings {
  import opened ListSpec

  class Node {
    var key: int
    var prev: Node
    var next: Node

    /** A singleton ring. */
    constructor (key: int)
      ensures this.key == key && prev == this && next == this
      ensures Ring([this])
    {
      this.key := key;
      prev, next := this, this;
    }
  }

  ghost predicate Link(m: Node, n: Node)
    reads m, n
  {
    m.next == n && n.prev == m
  }

  ghost predicate Path(s: seq<Node>)
    reads s
  {
    forall i :: 0 <= i < |s| - 1 ==> Link(s[i], s[i + 1])
  }

  /** The nodes of `s`, in this order, form a ring. */
  ghost predicate Ring(s: seq<Node>)
    reads s
  {
    s != [] && NoDup(s) && Path(s) && Link(s[|s| - 1], s[0])
  }

  lemma PathConcat(s: seq<Node>, t: seq<Node>)
    ensures Path(s + t) <==> Path(s) && Path(t) && (s != [] && t != [] ==> Link(s[|s| - 1], t[0]))
  {
    var r := s + t;
    if Path(r) {
      forall i | 0 <= i < |s| - 1 ensures Link(s[i], s[i + 1]) {
        assert Link(r[i], r[i + 1]);
      }
      forall i | 0 <= i < |t| - 1 ensures Link(t[i], t[i + 1]) {
        assert Link(r[|s| + i], r[|s| + i + 1]);
      }
      if s != [] && t != [] {
        assert Link(r[|s| - 1], r[|s|]);
      }
    }
  }

  /** A ring seen from one of its nodes. */
  lemma RingFrom(a: Node, x: seq<Node>)
    ensures Ring([a] + x) <==> NoDup([a] + x) && Path(x) && Link(a, (x + [a])[0]) && Link(([a] + x)[|x|], a)
  {
    PathConcat([a], x);
  }

  lemma PathAround(y: seq<Node>, b: Node, x: seq<Node>)
    ensures Path(y + [b] + x) <==> Path(y) && Path(x) && (y != [] ==> Link(y[|y| - 1], b)) && (x != [] ==> Link(b, x[0]))
  {
    PathConcat(y, [b]);
    PathConcat(y + [b], x);
  }

  /** Swaps the `next` pointers of two nodes and the `prev` pointers of their successors. Nodes
      whose pointers were mutually inverse stay so, whatever the rest of the heap looks like. */
  method Splice(a: Node, b: Node) returns (r: Node)
    requires a.next.prev == a && b.next.prev == b
    modifies a`next, b`next, a.next`prev, b.next`prev
    ensures r == b
    ensures a.next == old(b.next) && b.next == old(a.next)
    ensures a.next.prev == a && b.next.prev == b
    ensures forall n: Node {:trigger n.next} | old(allocated(n)) ::
      (old(n.next.prev) == n ==> n.next.prev == n) && (old(n.prev.next) == n ==> n.prev.next == n)
  {
    a.next.prev, b.next.prev := b.next.prev, a.next.prev;
    a.next, b.next := b.next, a.next;
    r := b;
  }

  /** A splice undoes itself. */
  method SpliceTwice(a: Node, b: Node)
    requires a.next.prev == a && b.next.prev == b
    modifies a`next, b`next, a.next`prev, b.next`prev
    ensures forall n: Node {:trigger n.next} | old(allocated(n)) :: n.next == old(n.next) && n.prev == old(n.prev)
  {
    var _ := Splice(a, b);
    var _ := Splice(a, b);
  }

  lemma Separate(a: Node, b: Node, x: seq<Node>, y: seq<Node>)
    requires NoDup([a] + x + ([b] + y))
    ensures NoDup(x) && NoDup(y) && a != b
    ensures a !in x && a !in y && b !in x && b !in y
    ensures forall n :: n in x ==> n !in y
  {
    NoDupConcat([a] + x, [b] + y);
    NoDupConcat([a], x);
    NoDupConcat([b], y);
    assert a in [a] + x && b in [b] + y && a in [a] && b in [b];
    assert forall n :: n in x ==> n in [a] + x;
    assert forall n :: n in y ==> n in [b] + y;
  }

  /** Two rings, one through `a` and one through `b`. */
  ghost predicate Joinable(a: Node, b: Node, x: seq<Node>, y: seq<Node>)
    reads [a] + x, [b] + y
  {
    Ring([a] + x) && Ring([b] + y) && NoDup([a] + x + ([b] + y))
  }

  /** One ring through both. */
  ghost predicate Splittable(a: Node, b: Node, x: seq<Node>, y: seq<Node>)
    reads [a] + (y + [b] + x)
  {
    Ring([a] + (y + [b] + x))
  }

  /** The links that make `Joinable`. */
  lemma JoinableLinks(a: Node, b: Node, x: seq<Node>, y: seq<Node>)
    requires NoDup([a] + x + ([b] + y))
    ensures Joinable(a, b, x, y) <==>
      && Path(x) && Link(a, (x + [a])[0]) && Link(([a] + x)[|x|], a)
      && Path(y) && Link(b, (y + [b])[0]) && Link(([b] + y)[|y|], b)
  {
    NoDupConcat([a] + x, [b] + y);
    RingFrom(a, x);
    RingFrom(b, y);
  }

  /** The links that make `Splittable`. */
  lemma SplittableLinks(a: Node, b: Node, x: seq<Node>, y: seq<Node>)
    requires NoDup([a] + x + ([b] + y))
    ensures Splittable(a, b, x, y) <==>
      && Path(x) && Link(a, (y + [b])[0]) && Link(([b] + x)[|x|], a)
      && Path(y) && Link(b, (x + [a])[0]) && Link(([a] + y)[|y|], b)
  {
    NoDupPermuted([a] + x + ([b] + y), [a] + (y + [b] + x));
    RingFrom(a, y + [b] + x);
    PathAround(y, b, x);
  }

  lemma RingsApart(a: Node, b: Node, x: seq<Node>, y: seq<Node>)
    requires Joinable(a, b, x, y) || Splittable(a, b, x, y)
    ensures NoDup([a] + x + ([b] + y)) && Path(x) && Path(y)
    ensures NoDup(x) && NoDup(y) && a !in x + y && b !in x + y && a != b
  {
    if Splittable(a, b, x, y) {
      NoDupPermuted([a] + (y + [b] + x), [a] + x + ([b] + y));
    }
    Separate(a, b, x, y);
    JoinableLinks(a, b, x, y);
    SplittableLinks(a, b, x, y);
  }

  /** The successors of the spliced nodes lead the stretches between them. */
  lemma SuccessorsLead(a: Node, b: Node, x: seq<Node>, y: seq<Node>)
    requires Joinable(a, b, x, y) || Splittable(a, b, x, y)
    ensures a.next.prev == a && b.next.prev == b
    ensures forall i :: 0 < i < |x| ==> x[i] != a.next && x[i] != b.next
    ensures forall i :: 0 < i < |y| ==> y[i] != a.next && y[i] != b.next
  {
    RingsApart(a, b, x, y);
    Separate(a, b, x, y);
    JoinableLinks(a, b, x, y);
    SplittableLinks(a, b, x, y);
    hide Joinable, Splittable;
    var x0, y0 := if x == [] then a else x[0], if y == [] then b else y[0];
    assert (a.next == x0 && b.next == y0) || (a.next == y0 && b.next == x0);
    assert x != [] ==> x[0] in x;
    assert y != [] ==> y[0] in y;
    forall i | 0 < i < |x| ensures x[i] != x0 && x[i] != y0 {
      assert x[i] in x && x[i] in x + y;
    }
    forall i | 0 < i < |y| ensures y[i] != x0 && y[i] != y0 {
      assert y[i] in y && y[i] in x + y;
    }
  }

  /** On rings, a splice of nodes of different rings joins them, [a, x..] and [b, y..] becoming
      [a, y.., b, x..]; a splice of nodes of one ring splits it the other way; and a splice of a
      node with itself changes nothing. */
  method SpliceRings(a: Node, b: Node, ghost x: seq<Node>, ghost y: seq<Node>)
    requires Joinable(a, b, x, y) || Splittable(a, b, x, y) || (a == b && Ring([a] + x))
    modifies a`next, b`next, a.next`prev, b.next`prev
    ensures old(Joinable(a, b, x, y)) ==> Splittable(a, b, x, y)
    ensures old(Splittable(a, b, x, y)) ==> Joinable(a, b, x, y)
    ensures a == b ==> forall n: Node {:trigger n.next} | old(allocated(n)) :: n.next == old(n.next) && n.prev == old(n.prev)
  {
    ghost var apart := Joinable(a, b, x, y) || Splittable(a, b, x, y);
    if apart {
      RingsApart(a, b, x, y);
      SuccessorsLead(a, b, x, y);
      JoinableLinks(a, b, x, y);
      SplittableLinks(a, b, x, y);
    } else {
      RingFrom(a, x);
    }
    hide Joinable, Splittable, NoDup, Ring;
    var _ := Splice(a, b);
    if apart {
      forall i | 0 <= i < |x| - 1 ensures Link(x[i], x[i + 1]) {
        assert old(Link(x[i], x[i + 1])) && x[i] in x + y;
      }
      forall i | 0 <= i < |y| - 1 ensures Link(y[i], y[i + 1]) {
        assert old(Link(y[i], y[i + 1])) && y[i] in x + y;
      }
      JoinableLinks(a, b, x, y);
      SplittableLinks(a, b, x, y);
    }
  }

  /** A ring may be entered anywhere. */
  lemma RingRotate(p: seq<Node>, q: seq<Node>)
    requires Ring(p + q)
    ensures Ring(q + p)
  {
    if p == [] || q == [] {
      assert p + q == q + p;
    } else {
      NoDupPermuted(p + q, q + p);
      PathConcat(p, q);
      PathConcat(q, p);
    }
  }

  // ----- the list operations -----

  /** The list with this head holds the nodes `x`. */
  ghost predicate IsList(list: Node, x: seq<Node>)
    reads [list] + x
  {
    Ring([list] + x)
  }

  method IsEmpty(list: Node, ghost x: seq<Node>) returns (empty: bool)
    requires IsList(list, x)
    ensures empty <==> x == []
  {
    RingFrom(list, x);
    empty := list == list.next;
  }

  /** Takes a node out of its ring and makes it a singleton. */
  method Remove(a: Node, ghost z: seq<Node>) returns (r: Node)
    requires Ring([a] + z)
    modifies a`next, a.next`prev, a.prev`next, a`prev
    ensures r == a && Ring([a]) && (z != [] ==> Ring(z))
  {
    RingFrom(a, z);
    ghost var y := if z == [] then [] else z[..|z| - 1];
    assert [a] + [] == [a];
    if z != [] {
      assert z == y + [a.prev] && [a] + z == [a] + (y + [a.prev] + []);
    }
    var p := a.prev;
    SpliceRings(a, p, [], y);
    if z != [] {
      RingRotate([p], y);
    }
    r := a;
  }

  /** Puts the ring of `node` at the head of the list. */
  method PushFront(list: Node, node: Node, ghost x: seq<Node>, ghost y: seq<Node>)
    requires IsList(list, x) && Ring([node] + y) && NoDup([list] + x + ([node] + y))
    modifies list`next, node`next, list.next`prev, node.next`prev
    ensures IsList(list, y + [node] + x)
  {
    SpliceRings(list, node, x, y);
  }

  /** The list without its tail, seen from the tail. */
  ghost function Front(list: Node, x: seq<Node>): seq<Node> {
    if x == [] then [] else [list] + x[..|x| - 1]
  }

  lemma FromTheTail(list: Node, node: Node, x: seq<Node>, y: seq<Node>)
    requires IsList(list, x) && Ring([node] + y) && NoDup([list] + x + ([node] + y))
    ensures Joinable(list.prev, node, Front(list, x), y)
  {
    RingFrom(list, x);
    var p, front := list.prev, Front(list, x);
    assert [list] + x == front + [p];
    NoDupPermuted([list] + x + ([node] + y), [p] + front + ([node] + y));
    RingRotate(front, [p]);
  }

  lemma BackToTheHead(list: Node, p: Node, node: Node, x: seq<Node>, y: seq<Node>)
    requires p == ([list] + x)[|x|] && Splittable(p, node, Front(list, x), y)
    ensures IsList(list, x + y + [node])
  {
    var front := Front(list, x);
    assert [list] + x == front + [p];
    assert [p] + (y + [node] + front) == ([p] + y + [node]) + front;
    RingRotate([p] + y + [node], front);
    assert front + ([p] + y + [node]) == [list] + (x + y + [node]);
  }

  /** Puts the ring of `node` at the tail of the list. */
  method PushBack(list: Node, node: Node, ghost x: seq<Node>, ghost y: seq<Node>)
    requires IsList(list, x) && Ring([node] + y) && NoDup([list] + x + ([node] + y))
    modifies list`prev, list.prev`next, node`next, node.next`prev
    ensures IsList(list, x + y + [node])
  {
    RingFrom(list, x);
    FromTheTail(list, node, x, y);
    hide Joinable, Splittable, IsList, Ring, NoDup, Front;
    var p := list.prev;
    SpliceRings(p, node, Front(list, x), y);
    BackToTheHead(list, p, node, x, y);
  }

  /** Removes and returns the head of the list, or returns the list itself when it is empty. */
  method PopFront(list: Node, ghost x: seq<Node>) returns (r: Node)
    requires IsList(list, x)
    modifies list`next, list.next`next, list.next`prev, list.next.next`prev
    ensures x == [] ==> r == list && IsList(list, x)
    ensures x != [] ==> r == x[0] && IsList(list, x[1..]) && Ring([r])
  {
    RingFrom(list, x);
    var n := list.next;
    ghost var rest := if x == [] then [] else x[1..];
    if x != [] {
      assert [list] + x == [list] + ([] + [n] + rest);
      assert [n] + [] == [n];
    }
    SpliceRings(list, n, rest, []);
    r := n;
  }

  /** What util.h says of `rlist_pop_back`: the tail leaves the list, and the list keeps the rest. */
  ghost predicate PopsTail(list: Node, front: seq<Node>, tail: Node)
    reads [list] + front, tail
  {
    IsList(list, front) && Ring([tail])
  }

  /** With the list empty and the rest in a ring with its tail, the description is met exactly if
      there is no rest. */
  lemma EmptiedUnlessShort(list: Node, front: seq<Node>, tail: Node)
    requires NoDup([list] + front + [tail])
    requires IsList(list, []) && IsList(tail, front)  // the state that PopBack leaves
    ensures PopsTail(list, front, tail) <==> front == []
  {
    RingFrom(list, []);
    assert [list] + [] == [list];
    if front == [] {
      assert [tail] + front == [tail] && [list] + front == [list];
    } else {
      RingFrom(list, front);
      assert ([list] + front + [tail])[0] == list && ([list] + front + [tail])[1] == front[0];
      assert list.next == list != front[0];
    }
  }

  /** As the code stands: the returned node is the tail, but it is the list that leaves the ring.
      The list ends up empty, and the other nodes stay with the returned one. The description of
      util.h is met exactly by the lists of one node, and by no longer one. */
  method PopBack(list: Node, ghost x: seq<Node>) returns (r: Node)
    requires IsList(list, x)
    modifies list`next, list`prev, list.next`prev, list.prev`next
    ensures IsList(list, [])
    ensures x == [] ==> r == list
    ensures x != [] ==> r == x[|x| - 1] && IsList(r, x[..|x| - 1])
    ensures x != [] ==> (PopsTail(list, x[..|x| - 1], r) <==> |x| == 1)
  {
    RingFrom(list, x);
    var p := list.prev;
    ghost var front := if x == [] then [] else x[..|x| - 1];
    assert [list] + [] == [list];
    if x != [] {
      assert [list] + x == [list] + (front + [p] + []);
    }
    SpliceRings(list, p, [], front);
    r := p;
    if x != [] {
      assert [list] + front + [p] == [list] + x;
      EmptiedUnlessShort(list, front, p);
    }
  }

  /** The shortest list that shows it holds two nodes: none of them is left on it. */
  method PopBackExample(list: Node, m: Node, n: Node) returns (r: Node)
    requires IsList(list, [m, n])
    modifies list`next, list`prev, m`prev, n`next
    ensures r == n && IsList(list, []) && !PopsTail(list, [m], n)
  {
    RingFrom(list, [m, n]);
    assert [m, n] == [m] + [n] && [list] + [m, n] == [list] + [m] + [n];
    r := PopBack(list, [m, n]);
    assert [m, n][..1] == [m];
  }

  /** [ldest, x..] and [lsrc, y..] become [ldest, x.., y..] and [lsrc]. */
  method Append(ldest: Node, lsrc: Node, ghost x: seq<Node>, ghost y: seq<Node>)
    requires IsList(ldest, x) && IsList(lsrc, y) && NoDup([ldest] + x + ([lsrc] + y))
    modifies ldest`prev, ldest`next, lsrc`prev, lsrc`next, ldest.prev`next, lsrc.next`prev, lsrc.prev`next
    ensures IsList(ldest, x + y) && IsList(lsrc, [])
  {
    RingFrom(ldest, x);
    RingFrom(lsrc, y);
    PushBack(ldest, lsrc, x, y);
    ghost var z := [ldest] + x + y;
    assert [ldest] + (x + y + [lsrc]) == z + [lsrc];
    RingRotate(z, [lsrc]);
    RingFrom(lsrc, z);
    assert lsrc.prev == z[|z| - 1];
    var _ := Remove(lsrc, z);
    assert z == [ldest] + (x + y) && [lsrc] + [] == [lsrc];
  }

  /** [ldest, x..] and [lsrc, y..] become [ldest, y.., x..] and [lsrc]. */
  method Prepend(ldest: Node, lsrc: Node, ghost x: seq<Node>, ghost y: seq<Node>)
    requires IsList(ldest, x) && IsList(lsrc, y) && NoDup([ldest] + x + ([lsrc] + y))
    modifies ldest`next, ldest`prev, lsrc`prev, lsrc`next, ldest.next`prev, lsrc.next`prev, lsrc.prev`next
    ensures IsList(ldest, y + x) && IsList(lsrc, [])
  {
    RingFrom(ldest, x);
    RingFrom(lsrc, y);
    PushFront(ldest, lsrc, x, y);
    ghost var z := x + ([ldest] + y);
    assert [ldest] + (y + [lsrc] + x) == ([ldest] + y) + ([lsrc] + x);
    RingRotate([ldest] + y, [lsrc] + x);
    assert ([lsrc] + x) + ([ldest] + y) == [lsrc] + z;
    RingFrom(lsrc, z);
    assert lsrc.prev == z[|z| - 1] && lsrc.next == z[0];
    var _ := Remove(lsrc, z);
    RingRotate(x, [ldest] + y);
    assert ([ldest] + y) + x == [ldest] + (y + x) && [lsrc] + [] == [lsrc];
  }

  /** The node after the first `i` ones, which is the list itself at the end. */
  lemma NodeAt(list: Node, x: seq<Node>, i: nat)
    requires IsList(list, x) && i <= |x|
    ensures ([list] + x)[i].next == (x + [list])[i]
    ensures (x + [list])[i] == list <==> i == |x|
  {
    assert i < |x| ==> Link(([list] + x)[i], ([list] + x)[i + 1]);
    assert i < |x| ==> ([list] + x)[0] != ([list] + x)[i + 1];
  }

  method Len(list: Node, ghost x: seq<Node>) returns (count: nat)
    requires IsList(list, x)
    ensures count == |x|
  {
    count := 0;
    NodeAt(list, x, 0);
    var p := list.next;
    while p != list
      invariant count <= |x| && p == (x + [list])[count]
      decreases |x| - count
    {
      NodeAt(list, x, count);
      NodeAt(list, x, count + 1);
      p := p.next;
      count := count + 1;
    }
    NodeAt(list, x, count);
  }

  ghost function Keys(x: seq<Node>): seq<int>
    reads x
  {
    seq(|x|, i requires 0 <= i < |x| reads x => x[i].key)
  }

  /** Whether two lists hold the same keys in the same order. */
  method Equal(list1: Node, list2: Node, ghost x1: seq<Node>, ghost x2: seq<Node>) returns (r: bool)
    requires IsList(list1, x1) && IsList(list2, x2)
    ensures r <==> Keys(x1) == Keys(x2)
  {
    NodeAt(list1, x1, 0);
    NodeAt(list2, x2, 0);
    var i1, i2 := list1.next, list2.next;
    ghost var n := 0;
    while i1 != list1
      invariant n <= |x1| && n <= |x2| && i1 == (x1 + [list1])[n] && i2 == (x2 + [list2])[n]
      invariant forall k :: 0 <= k < n ==> x1[k].key == x2[k].key
      decreases |x1| - n
    {
      NodeAt(list1, x1, n);
      NodeAt(list2, x2, n);
      if i2 == list2 || i1.key != i2.key {
        assert n < |x2| ==> Keys(x1)[n] != Keys(x2)[n];
        return false;
      }
      NodeAt(list1, x1, n + 1);
      NodeAt(list2, x2, n + 1);
      i1 := i1.next;
      i2 := i2.next;
      n := n + 1;
    }
    NodeAt(list1, x1, n);
    NodeAt(list2, x2, n);
    return i2 == list2;
  }

  /** The first node with the given key, or `fail`. */
  method Find(list: Node, key: int, fail: Node?, ghost x: seq<Node>) returns (r: Node?)
    requires IsList(list, x)
    ensures key in Keys(x) ==> exists k :: 0 <= k < |x| && r == x[k] && x[k].key == key && key !in Keys(x[..k])
    ensures key !in Keys(x) ==> r == fail
  {
    NodeAt(list, x, 0);
    var i := list.next;
    ghost var n := 0;
    while i != list
      invariant n <= |x| && i == (x + [list])[n]
      invariant forall k :: 0 <= k < n ==> x[k].key != key
      decreases |x| - n
    {
      NodeAt(list, x, n);
      if i.key == key {
        assert Keys(x)[n] == key;
        return i;
      }
      NodeAt(list, x, n + 1);
      i := i.next;
      n := n + 1;
    }
    NodeAt(list, x, n);
    return fail;
  }

  /** Where the walk of `Reverse` is after `k` swaps: it goes round the ring backwards. */
  ghost function WalkAt(n: nat, k: nat): nat
    requires k <= n && 0 < n
  {
    if k == 0 || k == n then 0 else n - k
  }

  /** Position `i` of a ring of `n` nodes has been swapped within the first `k` steps. */
  ghost predicate Swapped(n: nat, k: nat, i: nat) {
    (i == 0 && 0 < k) || n - k < i
  }

  ghost predicate Forward(s: seq<Node>, i: nat)
    requires i < |s|
    reads s
  {
    s[i].next == s[if i + 1 < |s| then i + 1 else 0] && s[i].prev == s[if 0 < i then i - 1 else |s| - 1]
  }

  ghost predicate Backward(s: seq<Node>, i: nat)
    requires i < |s|
    reads s
  {
    s[i].prev == s[if i + 1 < |s| then i + 1 else 0] && s[i].next == s[if 0 < i then i - 1 else |s| - 1]
  }

  lemma RingNeighbours(s: seq<Node>)
    requires Ring(s)
    ensures forall i :: 0 <= i < |s| ==> Forward(s, i)
  {
    forall i | 0 <= i < |s| ensures Forward(s, i) {
      assert i + 1 < |s| ==> Link(s[i], s[i + 1]);
      assert 0 < i ==> Link(s[i - 1], s[i]);
    }
  }

  /** Once every node has its pointers exchanged, the ring runs the other way. */
  lemma ReversedRing(list: Node, x: seq<Node>, s: seq<Node>)
    requires s == [list] + x && NoDup(s)
    requires forall i :: 0 <= i < |s| ==> Backward(s, i)
    ensures IsList(list, ListSpec.Reverse(x))
  {
    var r := [list] + ListSpec.Reverse(x);
    forall j | 0 <= j < |r| ensures r[j] == s[if j == 0 then 0 else |s| - j] {
    }
    forall i, j | 0 <= i < j < |r| ensures r[i] != r[j] {
    }
    assert Backward(s, 0);
    forall j | 0 <= j < |r| - 1 ensures Link(r[j], r[j + 1]) {
      assert Backward(s, if j == 0 then 0 else |s| - j) && Backward(s, |s| - j - 1);
    }
    if |s| > 1 {
      assert Backward(s, 1);
    }
  }

  /** Reverses a list by exchanging the pointers of each node; until the walk is complete, the
      nodes form no ring at all. */
  method Reverse(l: Node, ghost x: seq<Node>)
    requires IsList(l, x)
    modifies ([l] + x)`prev, ([l] + x)`next
    ensures IsList(l, ListSpec.Reverse(x))
  {
    ghost var s := [l] + x;
    ghost var n := |s|;
    RingNeighbours(s);
    assert NoDup(s);
    hide Ring, IsList;
    var p := l;
    ghost var k := 0;
    while true
      invariant k < n && p == s[WalkAt(n, k)]
      invariant forall i :: 0 <= i < n ==> if Swapped(n, k, i) then Backward(s, i) else Forward(s, i)
      decreases n - k
    {
      ghost var w := WalkAt(n, k);
      assert Forward(s, w);
      label before:
      p.prev, p.next := p.next, p.prev;
      forall i | 0 <= i < n ensures if Swapped(n, k + 1, i) then Backward(s, i) else Forward(s, i) {
        if i != w {
          assert s[i] != p && (Swapped(n, k + 1, i) <==> Swapped(n, k, i));
          assert if Swapped(n, k, i) then old@before(Backward(s, i)) else old@before(Forward(s, i));
        }
      }
      p := p.next;
      k := k + 1;
      assert p == s[WalkAt(n, k)];
      if p == l {
        assert k == n;
        break;
      }
    }
    ReversedRing(l, x, s);
  }

  lemma SeenFrom(a: Node, p: seq<Node>, q: seq<Node>)
    requires Ring(p + [a] + q)
    ensures Ring([a] + (q + p))
  {
    assert p + [a] + q == p + ([a] + q) && ([a] + q) + p == [a] + (q + p);
    RingRotate(p, [a] + q);
  }

  /** Removal of a node from the middle of a ring. */
  method RemoveAt(a: Node, ghost p: seq<Node>, ghost q: seq<Node>)
    requires Ring(p + [a] + q)
    modifies a`next, a.next`prev, a.prev`next, a`prev
    ensures Ring([a]) && (p + q != [] ==> Ring(p + q))
  {
    SeenFrom(a, p, q);
    var _ := Remove(a, q + p);
    if q + p != [] {
      RingRotate(q, p);
    }
  }

  /** The nodes of the list [list, p.., q..] as seen from the first of `q`, or from the list. */
  ghost function Around(list: Node, p: seq<Node>, q: seq<Node>): seq<Node> {
    if q == [] then p else q[1..] + [list] + p
  }

  lemma SeenFromNext(list: Node, p: seq<Node>, q: seq<Node>, n: Node, node: Node)
    requires IsList(list, p + q) && n == (q + [list])[0] && NoDup([list] + (p + q) + [node])
    ensures IsList(n, Around(list, p, q)) && NoDup([n] + Around(list, p, q) + ([node] + []))
  {
    assert [node] + [] == [node];
    if q == [] {
      assert p + q == p;
    } else {
      assert q == [n] + q[1..] && [list] + (p + q) == ([list] + p) + ([n] + q[1..]);
      RingRotate([list] + p, [n] + q[1..]);
      assert ([n] + q[1..]) + ([list] + p) == [n] + Around(list, p, q);
      SamePermuted(list, p, q, n, node);
      NoDupPermuted([list] + (p + q) + [node], [n] + Around(list, p, q) + ([node] + []));
    }
  }

  lemma SamePermuted(list: Node, p: seq<Node>, q: seq<Node>, n: Node, node: Node)
    requires q != [] && n == q[0]
    ensures multiset([list] + (p + q) + [node]) == multiset([n] + Around(list, p, q) + ([node] + []))
  {
    assert q == [n] + q[1..] && [node] + [] == [node];
  }

  lemma BackToTheList(list: Node, p: seq<Node>, q: seq<Node>, n: Node, node: Node)
    requires n == (q + [list])[0] && IsList(n, Around(list, p, q) + [] + [node])
    ensures IsList(list, p + [node] + q)
  {
    if q == [] {
      assert p + [] + [node] == p + [node] + q;
    } else {
      assert q == [n] + q[1..];
      assert [n] + (Around(list, p, q) + [] + [node]) == ([n] + q[1..]) + ([list] + p + [node]);
      RingRotate([n] + q[1..], [list] + p + [node]);
      assert ([list] + p + [node]) + ([n] + q[1..]) == [list] + (p + [node] + q);
    }
  }

  /** Insertion before the node `n` of a list, or at its end when `n` is the list itself. */
  method InsertBefore(n: Node, node: Node, ghost list: Node, ghost p: seq<Node>, ghost q: seq<Node>)
    requires IsList(list, p + q) && n == (q + [list])[0]
    requires Ring([node]) && NoDup([list] + (p + q) + [node])
    modifies n`prev, n.prev`next, node`next, node.next`prev
    ensures IsList(list, p + [node] + q)
  {
    hide Around, IsList, NoDup;
    assert [node] + [] == [node];
    SeenFromNext(list, p, q, n, node);
    PushBack(n, node, Around(list, p, q), []);
    BackToTheList(list, p, q, n, node);
  }

  /** The neighbours of a node of a ring are on the ring. */
  lemma NeighboursOn(s: seq<Node>, n: Node)
    requires Ring(s) && n in s
    ensures n.next in s && n.prev in s
  {
    RingNeighbours(s);
    var i :| 0 <= i < |s| && s[i] == n;
    assert Forward(s, i);
  }

  /** What a move between two lists needs to know about who is where. */
  lemma MoveApart(lsrc: Node, ldest: Node, a: Node, p: seq<Node>, q: seq<Node>, y: seq<Node>)
    requires NoDup([lsrc] + (p + [a] + q) + ([ldest] + y))
    ensures NoDup([lsrc] + (p + q) + ([ldest] + (y + [a]))) && NoDup([ldest] + y + ([a] + []))
    ensures forall n :: n in [lsrc] + (p + [a] + q) ==> n !in [ldest] + y
    ensures forall n :: n in [lsrc] + (p + q) ==> n != a && n !in [ldest] + y
  {
    var src, dest := [lsrc] + (p + [a] + q), [ldest] + y;
    NoDupConcat(src, dest);
    NoDupPermuted(src + dest, [lsrc] + (p + q) + ([ldest] + (y + [a])));
    NoDupPermuted(src + dest, [lsrc] + (p + q) + (dest + ([a] + [])));
    NoDupConcat([lsrc] + (p + q), dest + ([a] + []));
    assert a in dest + ([a] + []) && forall n :: n in dest ==> n in dest + ([a] + []);
  }

  /** Moves a node from one list to the end of another. */
  method Move(lsrc: Node, ldest: Node, a: Node, ghost p: seq<Node>, ghost q: seq<Node>, ghost y: seq<Node>)
    requires IsList(lsrc, p + [a] + q) && IsList(ldest, y) && NoDup([lsrc] + (p + [a] + q) + ([ldest] + y))
    modifies a`next, a`prev, a.next`prev, a.prev`next, ldest`prev, ldest.prev`next
    ensures IsList(lsrc, p + q) && IsList(ldest, y + [a]) && NoDup([lsrc] + (p + q) + ([ldest] + (y + [a])))
  {
    ghost var src, dest := [lsrc] + (p + [a] + q), [ldest] + y;
    assert a in src by {
      assert src[1 + |p|] == a;
    }
    NeighboursOn(src, a);
    NeighboursOn(dest, ldest);
    MoveApart(lsrc, ldest, a, p, q, y);
    hide NoDup, Ring;
    assert ([lsrc] + p) + [a] + q == src && ([lsrc] + p) + q == [lsrc] + (p + q);
    RemoveAt(a, [lsrc] + p, q);
    assert [a] + [] == [a];
    PushBack(ldest, a, y, []);
    assert y + [] + [a] == y + [a];
  }

  ghost function Selected(x: seq<Node>, sel: set<Node>): seq<Node> {
    Filter(x, n => n in sel)
  }

  ghost function Others(x: seq<Node>, sel: set<Node>): seq<Node> {
    Filter(x, n => n !in sel)
  }

  ghost function Satisfying(x: seq<Node>, pred: (Node, int) -> bool): set<Node>
    reads x
  {
    set n | n in x && pred(n, n.key)
  }

  /** The two lists when the first `n` nodes of `x` have been looked at. */
  ghost predicate Midway(lsrc: Node, ldest: Node, x: seq<Node>, y: seq<Node>, sel: set<Node>, n: nat)
    requires n <= |x|
    reads [lsrc] + (Others(x[..n], sel) + x[n..]), [ldest] + (y + Selected(x[..n], sel))
  {
    var kept, moved := Others(x[..n], sel) + x[n..], y + Selected(x[..n], sel);
    IsList(lsrc, kept) && IsList(ldest, moved) && NoDup([lsrc] + kept + ([ldest] + moved))
  }

  lemma MidwaySplit(x: seq<Node>, y: seq<Node>, sel: set<Node>, n: nat)
    requires n < |x|
    ensures var kept, moved, a, rest := Others(x[..n], sel), y + Selected(x[..n], sel), x[n], x[n + 1..];
      && kept + x[n..] == kept + [a] + rest
      && Others(x[..n + 1], sel) == (if a in sel then kept else kept + [a])
      && y + Selected(x[..n + 1], sel) == (if a in sel then moved + [a] else moved)
  {
    var a := x[n];
    assert x[..n + 1] == x[..n] + [a] && x[n..] == [a] + x[n + 1..];
    FilterAppends(x[..n], [a], m => m in sel);
    FilterAppends(x[..n], [a], m => m !in sel);
  }

  /** The last node of a list, which is its head when it is empty. */
  ghost function Tail(list: Node, x: seq<Node>): Node {
    if x == [] then list else x[|x| - 1]
  }

  lemma TailNext(list: Node, x: seq<Node>, rest: seq<Node>)
    requires IsList(list, x + rest)
    ensures Tail(list, x).next == if rest == [] then list else rest[0]
    ensures rest != [] ==> rest[0] != list
  {
    NodeAt(list, x + rest, |x|);
    assert ([list] + (x + rest))[|x|] == Tail(list, x);
  }

  /** Only nodes of the two lists are touched. */
  lemma MidwayNodes(lsrc: Node, ldest: Node, x: seq<Node>, y: seq<Node>, sel: set<Node>, n: nat)
    requires n < |x| && Midway(lsrc, ldest, x, y, sel, n)
    ensures var a := x[n]; var src, dest := [lsrc] + x, [ldest] + y;
      && a in src && a.next in src && a.prev in src && ldest in dest && (ldest.prev in src || ldest.prev in dest)
  {
    var kept, moved := Others(x[..n], sel) + x[n..], y + Selected(x[..n], sel);
    FilterMembers(x[..n], m => m in sel);
    FilterMembers(x[..n], m => m !in sel);
    assert forall m :: m in x[..n] || m in x[n..] ==> m in x;
    assert x[n] == x[n..][0] && x[n] in [lsrc] + kept;
    NeighboursOn([lsrc] + kept, x[n]);
    NeighboursOn([ldest] + moved, ldest);
  }

  /** A node that stays is passed over. */
  lemma MidwayStays(lsrc: Node, ldest: Node, x: seq<Node>, y: seq<Node>, sel: set<Node>, n: nat)
    requires n < |x| && Midway(lsrc, ldest, x, y, sel, n) && x[n] !in sel
    ensures Midway(lsrc, ldest, x, y, sel, n + 1) && Tail(lsrc, Others(x[..n + 1], sel)) == x[n]
  {
    MidwaySplit(x, y, sel, n);
    assert Others(x[..n], sel) + [x[n]] + x[n + 1..] == Others(x[..n], sel) + x[n..];
  }

  /** A node that goes is moved. */
  method MoveSelected(lsrc: Node, ldest: Node, a: Node, ghost x: seq<Node>, ghost y: seq<Node>, ghost sel: set<Node>, ghost n: nat)
    requires n < |x| && Midway(lsrc, ldest, x, y, sel, n) && x[n] in sel && a == x[n]
    modifies a`next, a`prev, a.next`prev, a.prev`next, ldest`prev, ldest.prev`next
    ensures Midway(lsrc, ldest, x, y, sel, n + 1) && Others(x[..n + 1], sel) == Others(x[..n], sel)
  {
    MidwaySplit(x, y, sel, n);
    hide Ring, NoDup, Selected, Others, IsList;
    Move(lsrc, ldest, a, Others(x[..n], sel), x[n + 1..], y + Selected(x[..n], sel));
  }

  /** Moves the nodes that satisfy `pred`, which sees a node and its key, to the end of the other
      list. Both keep their order. */
  method Select(lsrc: Node, ldest: Node, pred: (Node, int) -> bool, ghost x: seq<Node>, ghost y: seq<Node>)
    requires IsList(lsrc, x) && IsList(ldest, y) && NoDup([lsrc] + x + ([ldest] + y))
    modifies ([lsrc] + x)`prev, ([lsrc] + x)`next, ([ldest] + y)`prev, ([ldest] + y)`next
    ensures IsList(lsrc, Others(x, Satisfying(x, pred)))
    ensures IsList(ldest, y + Selected(x, Satisfying(x, pred)))
  {
    ghost var sel := Satisfying(x, pred);
    ghost var n := 0;
    assert x[..0] == [] && Others(x[..0], sel) + x[0..] == x && y + Selected(x[..0], sel) == y;
    var i := lsrc;
    while i.next != lsrc
      invariant n <= |x| && Midway(lsrc, ldest, x, y, sel, n)
      invariant i == Tail(lsrc, Others(x[..n], sel))
      decreases |x| - n
    {
      TailNext(lsrc, Others(x[..n], sel), x[n..]);
      assert n < |x| && i.next == x[n];
      MidwayNodes(lsrc, ldest, x, y, sel, n);
      hide Midway, Others, Tail;
      if pred(i.next, i.next.key) {
        MoveSelected(lsrc, ldest, i.next, x, y, sel, n);
      } else {
        MidwayStays(lsrc, ldest, x, y, sel, n);
        i := i.next;
      }
      n := n + 1;
    }
    TailNext(lsrc, Others(x[..n], sel), x[n..]);
    assert n == |x| && x[..n] == x && Others(x, sel) + x[n..] == Others(x, sel);
    assert Satisfying(x, pred) == sel;
  }
}
