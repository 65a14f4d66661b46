/** The inductive invariant of the process table. */
module ProcInvariant {
  import opened ListSpec
  import opened ProcModel

  predicate Used(s: Procs, p: Pid) {
    p < |s.pt| && s.pt[p].pstate != FREE
  }

  predicate IsChild(s: Procs, c: Pid, p: Pid) {
    Used(s, c) && s.pt[c].parent == Child(p)
  }

  predicate IsExited(s: Procs, c: Pid, p: Pid) {
    IsChild(s, c, p) && s.pt[c].pstate == ZOMBIE
  }

  /** The free list has every free pid once, and `process_count` counts the others. */
  ghost predicate FreeOk(s: Procs) {
    && NoDup(s.free)
    && (forall p: Pid :: p in s.free <==> p < |s.pt| && !Used(s, p))
    && s.count == |s.pt| - |s.free|
  }

  /** Processes 0 and 1 have no parent and their pids are never free. */
  predicate RootsOk(s: Procs) {
    && |s.pt| >= 2 && |s.waiting| == |s.pt|
    && s.pt[0].pstate == ALIVE && s.pt[0].parent == NoParent && s.pt[0].id == 0 && s.pt[0].threadCount == 0
    && Used(s, INIT) && s.pt[INIT].parent == NoParent && s.pt[INIT].id == 1
  }

  /** Every other process has a parent that is alive, not the idle process, and older. */
  predicate ParentOk(s: Procs, p: Pid)
    requires p < |s.pt|
  {
    if Used(s, p)
    then
      && s.pt[p].parent.Child?
      && var q := s.pt[p].parent.of;
      && 1 <= q < |s.pt| && s.pt[q].pstate == ALIVE && s.pt[q].id < s.pt[p].id
    else s.pt[p].parent == NoParent
  }

  ghost predicate ParentsOk(s: Procs) {
    forall p :: 2 <= p < |s.pt| ==> ParentOk(s, p)
  }

  ghost predicate IdsOk(s: Procs) {
    && (forall p: Pid :: Used(s, p) ==> s.pt[p].id < s.clock)
    && (forall p: Pid, q: Pid :: Used(s, p) && Used(s, q) && p != q ==> s.pt[p].id != s.pt[q].id)
  }

  /** A process lists exactly its children, and exactly those of them that have exited. */
  ghost predicate ListsOf(s: Procs, p: Pid)
    requires p < |s.pt|
  {
    && NoDup(s.pt[p].children) && NoDup(s.pt[p].exited)
    && (forall c :: c in s.pt[p].children <==> IsChild(s, c, p))
    && (forall c :: c in s.pt[p].exited <==> IsExited(s, c, p))
  }

  ghost predicate ListsOk(s: Procs) {
    forall p :: 0 <= p < |s.pt| ==> ListsOf(s, p)
  }

  /** A waiting thread waits for something that can come, and sleeps only until it has. */
  predicate WaitOf(s: Procs, p: Pid)
    requires p < |s.pt| && p < |s.waiting|
  {
    var w := s.waiting[p];
    && (w != NotWaiting ==> s.pt[p].pstate == ALIVE && s.pt[p].threadCount > 0)
    && (w.ForAny? ==> s.pt[p].children != [] && (w.asleep ==> s.pt[p].exited == []))
    && (w.ForChild? ==> IsChild(s, w.child, p) && (w.asleep ==> s.pt[w.child].pstate == ALIVE))
  }

  ghost predicate WaitsOk(s: Procs) {
    |s.waiting| == |s.pt| && forall p :: 0 <= p < |s.pt| ==> WaitOf(s, p)
  }

  predicate ReapedAt(s: Procs, id: nat, i: nat) {
    i < |s.reaps| && s.reaps[i].0 == id
  }

  predicate ZombieAt(s: Procs, id: nat, p: Pid) {
    p < |s.pt| && s.pt[p].pstate == ZOMBIE && s.pt[p].id == id
  }

  /** An exit status is recorded for the executions that have ended: each one either awaits its
      report, as a zombie, or has been reported, once and with the status it ended with. */
  ghost predicate LogsOk(s: Procs) {
    && (forall p: Pid :: Used(s, p) ==> (s.pt[p].id in s.exits <==> s.pt[p].pstate == ZOMBIE))
    && (forall p: Pid :: Used(s, p) && s.pt[p].pstate == ZOMBIE ==> s.exits[s.pt[p].id] == s.pt[p].exitval)
    && (forall i, j :: 0 <= i < j < |s.reaps| ==> s.reaps[i].0 != s.reaps[j].0)
    && (forall i :: 0 <= i < |s.reaps| ==> s.reaps[i].0 in s.exits && s.exits[s.reaps[i].0] == s.reaps[i].1)
    && (forall i, p: Pid :: 0 <= i < |s.reaps| && Used(s, p) ==> s.reaps[i].0 != s.pt[p].id)
    && (forall id :: id in s.exits ==> id < s.clock && ((exists i :: ReapedAt(s, id, i)) || exists p :: ZombieAt(s, id, p)))
  }

  ghost predicate PInv(s: Procs) {
    && RootsOk(s)
    && FreeOk(s)
    && ParentsOk(s)
    && IdsOk(s)
    && ListsOk(s)
    && WaitsOk(s)
    && LogsOk(s)
  }

  // ----- consequences -----

  lemma PInvShape(s: Procs)
    requires PInv(s)
    ensures Shape(s)
  {
    forall i | 0 <= i < |s.free| ensures s.free[i] < |s.pt| {
      assert s.free[i] in s.free;
    }
  }

  lemma ParentLives(s: Procs, c: Pid, p: Pid)
    requires RootsOk(s) && ParentsOk(s) && IsChild(s, c, p)
    ensures 2 <= c && 1 <= p < |s.pt| && p != c && s.pt[p].pstate == ALIVE
  {
    assert 2 <= c ==> ParentOk(s, c);
  }

  /** The lists of a process that is not alive are empty. */
  lemma OnlyTheLiving(s: Procs, p: Pid)
    requires RootsOk(s) && ParentsOk(s) && ListsOk(s) && p < |s.pt| && s.pt[p].pstate != ALIVE
    ensures s.pt[p].children == [] && s.pt[p].exited == []
  {
    assert ListsOf(s, p);
    forall c: Pid ensures c !in s.pt[p].children && c !in s.pt[p].exited {
      if IsChild(s, c, p) {
        ParentLives(s, c, p);
      }
    }
    EmptyUnlessMember(s.pt[p].children);
    EmptyUnlessMember(s.pt[p].exited);
  }

  /** Following the parents from any process but the first two leads to init, which is alive. */
  lemma {:induction false} InitIsAlive(s: Procs, p: Pid)
    requires RootsOk(s) && ParentsOk(s) && 2 <= p && Used(s, p)
    ensures s.pt[INIT].pstate == ALIVE
    decreases s.pt[p].id
  {
    assert ParentOk(s, p);
    if s.pt[p].parent.of != INIT {
      InitIsAlive(s, s.pt[p].parent.of);
    }
  }

  /** Init is older than all of them. */
  lemma InitIsOldest(s: Procs, p: Pid)
    requires RootsOk(s) && IdsOk(s) && 2 <= p && Used(s, p)
    ensures s.pt[INIT].id < s.pt[p].id
  {
    assert Used(s, 0);
  }
}
