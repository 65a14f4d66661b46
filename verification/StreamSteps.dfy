/** The conservation of references, and its preservation by every step of the streams. */
module StreamSteps {
  import opened ListSpec
  import opened StreamModel

  // ----- the invariant -----

  /** An FCB on the free list is named by nobody; the count of any other one is the number of
      slots and pins that name it. */
  ghost predicate BalancedAt(s: Streams, f: Fcb)
    requires f < |s.refcount|
  {
    if f in s.free then Refs(s, f) == 0 else s.refcount[f] == Refs(s, f)
  }

  ghost predicate Balanced(s: Streams) {
    && Shape(s) && NoDup(s.free)
    && forall f :: 0 <= f < |s.refcount| ==> BalancedAt(s, f)
  }

  /** An FCB off the free list has been opened once more than closed, and is in use. */
  predicate LiveAt(s: Streams, f: Fcb)
    requires f < |s.refcount| && f < |s.opens| && f < |s.closes|
  {
    if f in s.free then s.opens[f] == s.closes[f] else s.opens[f] == s.closes[f] + 1 && s.refcount[f] > 0
  }

  ghost predicate Live(s: Streams) {
    |s.opens| == |s.refcount| == |s.closes| && forall f :: 0 <= f < |s.refcount| ==> LiveAt(s, f)
  }

  predicate NoFiles(t: seq<Slot>) {
    |t| == MAX_FILEID && forall i :: 0 <= i < |t| ==> t[i] == Empty
  }

  ghost predicate DeadAreEmpty(s: Streams) {
    forall p :: 0 <= p < |s.fidt| && p !in s.alive ==> NoFiles(s.fidt[p])
  }

  ghost predicate SInv(s: Streams) {
    Balanced(s) && Live(s) && DeadAreEmpty(s)
  }

  // ----- counting -----

  lemma {:induction false} CountUpdate(fidt: seq<seq<Slot>>, p: nat, t: seq<Slot>, f: Fcb)
    requires p < |fidt|
    ensures Count(fidt[p := t], f) == Count(fidt, f) - multiset(fidt[p])[Names(f)] + multiset(t)[Names(f)]
    ensures multiset(fidt[p])[Names(f)] <= Count(fidt, f)
  {
    var fidt' := fidt[p := t];
    if p == 0 {
      assert fidt'[1..] == fidt[1..];
    } else {
      assert fidt'[1..] == fidt[1..][p - 1 := t];
      CountUpdate(fidt[1..], p - 1, t, f);
    }
  }

  lemma SlotUpdate(t: seq<Slot>, i: nat, x: Slot, f: Fcb)
    requires i < |t|
    ensures multiset(t[i := x])[Names(f)] ==
      multiset(t)[Names(f)] - (if t[i] == Names(f) then 1 else 0) + (if x == Names(f) then 1 else 0)
    ensures t[i] == Names(f) ==> multiset(t)[Names(f)] > 0
  {
    assert t == t[..i] + [t[i]] + t[i + 1..];
    assert t[i := x] == t[..i] + [x] + t[i + 1..];
    assert multiset(t) == multiset(t[..i]) + multiset([t[i]]) + multiset(t[i + 1..]);
    assert multiset(t[i := x]) == multiset(t[..i]) + multiset([x]) + multiset(t[i + 1..]);
  }

  /** What a change of one slot does to the references of each FCB. */
  lemma RefsOfSlot(s: Streams, p: nat, i: nat, x: Slot, f: Fcb)
    requires p < |s.fidt| && i < |s.fidt[p]|
    ensures Refs(SetSlot(s, p, i, x), f) ==
      Refs(s, f) - (if s.fidt[p][i] == Names(f) then 1 else 0) + (if x == Names(f) then 1 else 0)
    ensures s.fidt[p][i] == Names(f) ==> Refs(s, f) > 0
  {
    CountUpdate(s.fidt, p, s.fidt[p][i := x], f);
    SlotUpdate(s.fidt[p], i, x, f);
  }

  // ----- binding, dropping, pinning -----

  /** Apart from files and counts, a change keeps a slot table and its shape. */
  lemma SetSlotShape(s: Streams, p: nat, i: nat, x: Slot)
    requires Shape(s) && p < |s.fidt| && i < |s.fidt[p]| && SlotOk(x, |s.refcount|)
    ensures Shape(SetSlot(s, p, i, x))
  {
  }

  lemma BindKeeps(s: Streams, p: nat, i: nat, f: Fcb)
    requires Balanced(s) && p < |s.fidt| && i < |s.fidt[p]| && s.fidt[p][i] == Empty
    requires f < |s.refcount| && f !in s.free
    ensures Balanced(Bind(s, p, i, f))
    ensures Live(s) ==> Live(Bind(s, p, i, f))
  {
    var s' := Bind(s, p, i, f);
    SetSlotShape(s, p, i, Names(f));
    forall g | 0 <= g < |s.refcount| ensures BalancedAt(s', g) && (Live(s) ==> LiveAt(s', g)) {
      assert BalancedAt(s, g) && (Live(s) ==> LiveAt(s, g));
      RefsOfSlot(s, p, i, Names(f), g);
    }
  }

  /** A slot, or a pin, gives up its reference to `f`. */
  lemma DropKeeps(s: Streams, s1: Streams, f: Fcb)
    requires Balanced(s) && Live(s) && Shape(s1) && f < |s.refcount| && f !in s.free && Refs(s, f) > 0
    requires s1 == s.(fidt := s1.fidt, pins := s1.pins)
    requires forall g: Fcb :: Refs(s1, g) == Refs(s, g) - if g == f then 1 else 0
    ensures Balanced(DecRef(s1, f)) && Live(DecRef(s1, f))
  {
    var s' := DecRef(s1, f);
    assert BalancedAt(s, f);
    assert forall g: Fcb :: Refs(s', g) == Refs(s1, g);
    assert Shape(s');
    forall g | 0 <= g < |s.refcount| ensures BalancedAt(s', g) && LiveAt(s', g) {
      assert BalancedAt(s, g) && LiveAt(s, g);
    }
  }

  lemma NamedIsUsed(s: Streams, p: nat, i: nat)
    requires Balanced(s) && p < |s.fidt| && i < |s.fidt[p]| && s.fidt[p][i].Names?
    ensures var f := s.fidt[p][i].fcb; f < |s.refcount| && f !in s.free && Refs(s, f) > 0 && s.refcount[f] > 0
  {
    var f := s.fidt[p][i].fcb;
    assert SlotOk(s.fidt[p][i], |s.refcount|);
    RefsOfSlot(s, p, i, Empty, f);
    assert BalancedAt(s, f);
  }

  lemma UnbindKeeps(s: Streams, p: nat, i: nat)
    requires Balanced(s) && Live(s) && p < |s.fidt| && i < |s.fidt[p]|
    ensures SlotOk(s.fidt[p][i], |s.refcount|) && Balanced(Unbind(s, p, i)) && Live(Unbind(s, p, i))
    ensures Unbind(s, p, i).fidt == s.fidt[p := s.fidt[p][i := Empty]] && Unbind(s, p, i).alive == s.alive
  {
    if s.fidt[p][i].Names? {
      var f, s1 := s.fidt[p][i].fcb, SetSlot(s, p, i, Empty);
      NamedIsUsed(s, p, i);
      SetSlotShape(s, p, i, Empty);
      forall g: Fcb ensures Refs(s1, g) == Refs(s, g) - if g == f then 1 else 0 {
        RefsOfSlot(s, p, i, Empty, g);
      }
      DropKeeps(s, s1, f);
    } else {
      assert s.fidt[p][i := Empty] == s.fidt[p];
      assert s.fidt[p := s.fidt[p]] == s.fidt;
    }
  }

  lemma PinKeeps(s: Streams, f: Fcb)
    requires Balanced(s) && Live(s) && f < |s.refcount| && f !in s.free
    ensures Balanced(Pin(s, f)) && Live(Pin(s, f))
  {
    var s' := Pin(s, f);
    forall g | 0 <= g < |s.refcount| ensures BalancedAt(s', g) && LiveAt(s', g) {
      assert BalancedAt(s, g) && LiveAt(s, g);
    }
  }

  lemma UnpinKeeps(s: Streams, f: Fcb)
    requires Balanced(s) && Live(s) && f in s.pins
    ensures f < |s.refcount| && Balanced(Unpin(s, f)) && Live(Unpin(s, f))
  {
    hide Balanced, Live, DecRef;
    var s1 := s.(pins := s.pins - multiset{f});
    PinnedShape(s, f);
    DropKeeps(s, s1, f);
    UnpinIsDrop(s, f);
  }

  lemma PinnedShape(s: Streams, f: Fcb)
    requires Balanced(s) && Live(s) && f in s.pins
    ensures Shape(s.(pins := s.pins - multiset{f})) && f < |s.refcount| == |s.closes| && f !in s.free && Refs(s, f) > 0
    ensures forall g: Fcb :: Refs(s.(pins := s.pins - multiset{f}), g) == Refs(s, g) - if g == f then 1 else 0
  {
    assert BalancedAt(s, f) && Refs(s, f) > 0;
  }

  lemma UnpinIsDrop(s: Streams, f: Fcb)
    requires f < |s.refcount| && f < |s.closes|
    ensures Unpin(s, f) == DecRef(s.(pins := s.pins - multiset{f}), f)
  {
  }

  // ----- opening -----

  /** A fresh FCB, with a slot bound to it, and an opening recorded. */
  lemma OpenKeeps(s: Streams, p: nat, works: bool)
    requires SInv(s) && p < |s.fidt| && p in s.alive
    ensures SInv(Open(s, p, works)) && Open(s, p, works).alive == s.alive
  {
    if CanReserve(s, p, 1) {
      OpenOk(s, p);
      var fid, f := EmptySlots(s.fidt[p], 0)[0], s.free[0];
      FreshKeeps(s, p, fid, f);
      if works {
        OpenedKeeps(s, p, fid, f);
      } else {
        UnopenedKeeps(s, p, fid, f);
      }
    } else {
      assert s.free == [] ==> Reverse(s.free) == s.free;
    }
  }

  lemma FreshKeeps(s: Streams, p: nat, i: nat, f: Fcb)
    requires SInv(s) && p < |s.fidt| && i < |s.fidt[p]| && s.fidt[p][i] == Empty && s.free != [] && f == s.free[0]
    ensures f < |s.refcount| && Balanced(Bind(Acquire(s), p, i, f))
  {
    var s1 := Acquire(s);
    assert s.free == [f] + s1.free;
    assert forall g: Fcb :: g in s1.free <==> g in s.free && g != f;
    forall g | 0 <= g < |s.refcount| ensures BalancedAt(s1, g) {
      assert BalancedAt(s, g);
    }
    BindKeeps(s1, p, i, f);
  }

  lemma OpenedKeeps(s: Streams, p: nat, i: nat, f: Fcb)
    requires SInv(s) && p in s.alive && p < |s.fidt| && i < |s.fidt[p]| && s.fidt[p][i] == Empty
    requires s.free != [] && f == s.free[0] && f < |s.refcount| && Balanced(Bind(Acquire(s), p, i, f))
    ensures var s1 := Bind(Acquire(s), p, i, f); SInv(s1.(opens := s1.opens[f := s1.opens[f] + 1]))
  {
    var s1 := Bind(Acquire(s), p, i, f);
    var s' := s1.(opens := s1.opens[f := s1.opens[f] + 1]);
    assert s.free == [f] + s'.free;
    assert forall g: Fcb :: g in s'.free <==> g in s.free && g != f;
    assert forall g: Fcb :: Refs(s', g) == Refs(s1, g);
    forall g | 0 <= g < |s.refcount| ensures BalancedAt(s', g) && LiveAt(s', g) {
      assert BalancedAt(s1, g) && LiveAt(s, g);
    }
  }

  lemma UnopenedKeeps(s: Streams, p: nat, i: nat, f: Fcb)
    requires SInv(s) && p in s.alive && p < |s.fidt| && i < |s.fidt[p]| && s.fidt[p][i] == Empty
    requires s.free != [] && f == s.free[0] && f < |s.refcount|
    ensures var s1 := Bind(Acquire(s), p, i, f); SInv(Unreserve(s1, p, [i], [f])) && Unreserve(s1, p, [i], [f]).alive == s.alive
  {
    var s1 := Bind(Acquire(s), p, i, f);
    var s' := Release(SetSlot(s1, p, i, Empty), f);
    assert Unreserve(s1, p, [i], [f]) == Unreserve(s', p, [], []) == s';
    assert s'.fidt[p] == s.fidt[p];
    assert s'.fidt == s.fidt;
    assert s.free == [f] + s.free[1..] && s'.free == s.free[1..] + [f];
    NoDupPermuted(s.free, s'.free);
    assert forall g: Fcb :: g in s'.free <==> g in s.free;
    forall g | 0 <= g < |s.refcount| ensures BalancedAt(s', g) && LiveAt(s', g) {
      assert BalancedAt(s, g) && LiveAt(s, g);
    }
  }

  // ----- the other calls -----

  lemma CloseKeeps(s: Streams, p: nat, fd: int)
    requires SInv(s) && p < |s.fidt| && p in s.alive
    ensures SInv(Close(s, p, fd))
  {
    if Named(s, p, fd) != Empty {
      UnbindKeeps(s, p, fd);
    }
  }

  /** The order in which the code updates counts and slots does not matter. */
  lemma Dup2Parts(s: Streams, p: nat, oldfd: nat, newfd: nat)
    requires Shape(s) && p < |s.fidt| && oldfd < MAX_FILEID && newfd < MAX_FILEID
    requires s.fidt[p][oldfd].Names? && s.fidt[p][oldfd] != s.fidt[p][newfd]
    ensures SlotOk(s.fidt[p][oldfd], |s.refcount|) && SlotOk(s.fidt[p][newfd], |s.refcount|)
    ensures Dup2(s, p, oldfd, newfd) == Bind(Unbind(s, p, newfd), p, newfd, s.fidt[p][oldfd].fcb)
  {
    var x, s1 := s.fidt[p][oldfd], Unbind(s, p, newfd);
    var s2, s' := Bind(s1, p, newfd, x.fcb), Dup2(s, p, oldfd, newfd);
    assert s2.fidt[p] == s.fidt[p][newfd := x];
    assert s2.fidt == s'.fidt;
  }

  lemma Dup2Keeps(s: Streams, p: nat, oldfd: int, newfd: int)
    requires SInv(s) && p < |s.fidt| && p in s.alive
    ensures SInv(Dup2(s, p, oldfd, newfd))
  {
    if InTable(oldfd) && InTable(newfd) && s.fidt[p][oldfd].Names? && s.fidt[p][oldfd] != s.fidt[p][newfd] {
      Dup2Parts(s, p, oldfd, newfd);
      UnbindKeeps(s, p, newfd);
      var s1 := Unbind(s, p, newfd);
      assert s1.fidt[p][oldfd] == s.fidt[p][oldfd];
      NamedIsUsed(s1, p, oldfd);
      BindKeeps(s1, p, newfd, s.fidt[p][oldfd].fcb);
    }
  }

  lemma BeginIoKeeps(s: Streams, p: nat, fd: int)
    requires SInv(s) && p < |s.fidt| && p in s.alive
    ensures SInv(BeginIo(s, p, fd))
  {
    if Named(s, p, fd) != Empty {
      NamedIsUsed(s, p, fd);
      PinKeeps(s, s.fidt[p][fd].fcb);
    }
  }

  lemma {:induction false} InheritKeeps(s: Streams, p: nat, c: nat, i: nat)
    requires Balanced(s) && Live(s) && p < |s.fidt| && c < |s.fidt| && p != c && i <= MAX_FILEID
    requires forall k :: i <= k < MAX_FILEID ==> s.fidt[c][k] == Empty
    ensures Balanced(Inherit(s, p, c, i)) && Live(Inherit(s, p, c, i))
    ensures var s' := Inherit(s, p, c, i);
      && s'.alive == s.alive && |s'.fidt| == |s.fidt|
      && (forall q :: 0 <= q < |s.fidt| && q != c ==> s'.fidt[q] == s.fidt[q])
      && forall k :: 0 <= k < MAX_FILEID ==> s'.fidt[c][k] == if k < i then s.fidt[c][k] else s.fidt[p][k]
    decreases MAX_FILEID - i
  {
    if i < MAX_FILEID {
      var x := s.fidt[p][i];
      if x == Empty {
        assert s.fidt[c][i := Empty] == s.fidt[c];
        assert SetSlot(s, c, i, Empty).fidt == s.fidt;
        assert SetSlot(s, c, i, Empty) == s;
        InheritKeeps(s, p, c, i + 1);
      } else {
        NamedIsUsed(s, p, i);
        BindKeeps(s, c, i, x.fcb);
        InheritKeeps(Bind(s, c, i, x.fcb), p, c, i + 1);
      }
    }
  }

  lemma {:induction false} CleanUpKeeps(s: Streams, p: nat, i: nat)
    requires Balanced(s) && Live(s) && p < |s.fidt| && i <= MAX_FILEID
    ensures Balanced(CleanUp(s, p, i)) && Live(CleanUp(s, p, i))
    ensures var s' := CleanUp(s, p, i);
      && s'.alive == s.alive && |s'.fidt| == |s.fidt|
      && (forall q :: 0 <= q < |s.fidt| && q != p ==> s'.fidt[q] == s.fidt[q])
      && forall k :: 0 <= k < MAX_FILEID ==> s'.fidt[p][k] == if k < i then s.fidt[p][k] else Empty
    decreases MAX_FILEID - i
  {
    if i < MAX_FILEID {
      UnbindKeeps(s, p, i);
      CleanUpKeeps(Unbind(s, p, i), p, i + 1);
    }
  }

  lemma SameButAlive(s: Streams, s': Streams)
    requires Balanced(s) && Live(s) && s' == s.(alive := s'.alive)
    ensures Balanced(s') && Live(s')
  {
    forall f | 0 <= f < |s.refcount| ensures BalancedAt(s', f) && LiveAt(s', f) {
      assert BalancedAt(s, f) && LiveAt(s, f);
    }
  }

  lemma ExecKeeps(s: Streams, p: nat, c: nat)
    requires SInv(s) && Enabled(s, DoExec(p, c))
    ensures SInv(Apply(s, DoExec(p, c)))
  {
    assert NoFiles(s.fidt[c]);
    InheritKeeps(s, p, c, 0);
    SameButAlive(Inherit(s, p, c, 0), Apply(s, DoExec(p, c)));
  }

  lemma ExitKeeps(s: Streams, p: nat)
    requires SInv(s) && Enabled(s, DoExit(p))
    ensures SInv(Apply(s, DoExit(p)))
  {
    CleanUpKeeps(s, p, 0);
    SameButAlive(CleanUp(s, p, 0), Apply(s, DoExit(p)));
    assert NoFiles(CleanUp(s, p, 0).fidt[p]);
  }

  lemma StartKeeps(s: Streams, c: nat)
    requires SInv(s) && Enabled(s, DoStart(c))
    ensures SInv(Apply(s, DoStart(c)))
  {
    SameButAlive(s, Apply(s, DoStart(c)));
  }

  lemma EndIoKeeps(s: Streams, f: Fcb)
    requires SInv(s) && Enabled(s, DoEndIo(f))
    ensures SInv(Apply(s, DoEndIo(f)))
  {
    UnpinKeeps(s, f);
  }

  /** Every step keeps the invariant. */
  lemma StepKeeps(s: Streams, a: Step)
    requires SInv(s) && Enabled(s, a)
    ensures SInv(Apply(s, a))
  {
    hide SInv, Open, Close, Dup2, BeginIo, Unpin, Inherit, CleanUp;
    match a
    case DoOpen(p, works) => OpenKeeps(s, p, works);
    case DoClose(p, fd) => CloseKeeps(s, p, fd);
    case DoDup2(p, oldfd, newfd) => Dup2Keeps(s, p, oldfd, newfd);
    case DoBeginIo(p, fd) => BeginIoKeeps(s, p, fd);
    case DoEndIo(f) => EndIoKeeps(s, f);
    case DoExec(p, c) => ExecKeeps(s, p, c);
    case DoStart(c) => StartKeeps(s, c);
    case DoExit(p) => ExitKeeps(s, p);
  }
}
