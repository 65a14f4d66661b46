/** Every step of the processes keeps the invariant. */
module ProcSteps {
  import opened ListSpec
  import opened ProcModel
  import opened ProcInvariant

  // ----- creation -----

  /** What a successful Exec leaves in the table: a new process with no children. */
  ghost predicate Created(s: Procs, s': Procs, p: Pid, q: Pid, hasTask: bool) {
    && p < |s.pt| && q < |s.pt| && p != q && |s'.pt| == |s.pt| && s.free != []
    && s' == s.(pt := s'.pt, free := s.free[1..], count := s.count + 1, clock := s.clock + 1)
    && s'.pt[q] == Pcb(ALIVE, Child(p), s.pt[q].exitval, if hasTask then 1 else 0, [], [], s.clock)
    && s'.pt[p] == s.pt[p].(children := [q] + s.pt[p].children)
    && forall x :: 0 <= x < |s.pt| && x != p && x != q ==> s'.pt[x] == s.pt[x]
  }

  lemma ExecCreates(s: Procs, p: Pid, hasTask: bool)
    requires PInv(s) && Shape(s) && Runs(s, p) && s.free != []
    ensures 2 <= s.free[0] && !Used(s, s.free[0]) && Created(s, Exec(s, p, hasTask), p, s.free[0], hasTask)
  {
    assert s.free[0] in s.free;
    OnlyTheLiving(s, s.free[0]);
  }

  lemma CreatedUse(s: Procs, s': Procs, p: Pid, q: Pid, hasTask: bool)
    requires Created(s, s', p, q, hasTask) && Used(s, p) && !Used(s, q)
    ensures forall x: Pid :: Used(s', x) <==> Used(s, x) || x == q
    ensures forall c: Pid, x: Pid :: IsChild(s', c, x) <==> IsChild(s, c, x) || (c == q && x == p)
    ensures forall c: Pid, x: Pid :: IsExited(s', c, x) <==> IsExited(s, c, x)
  {
  }

  lemma CreatedFree(s: Procs, s': Procs, p: Pid, q: Pid, hasTask: bool)
    requires FreeOk(s) && Created(s, s', p, q, hasTask) && Used(s, p) && s.free != [] && q == s.free[0] && !Used(s, q)
    ensures FreeOk(s')
  {
    CreatedUse(s, s', p, q, hasTask);
    assert s.free == [q] + s'.free;
    assert forall x :: x in s'.free <==> x in s.free && x != q;
  }

  lemma CreatedParents(s: Procs, s': Procs, p: Pid, q: Pid, hasTask: bool)
    requires RootsOk(s) && ParentsOk(s) && IdsOk(s) && Runs(s, p)
    requires Created(s, s', p, q, hasTask) && 2 <= q && !Used(s, q)
    ensures RootsOk(s') && ParentsOk(s') && IdsOk(s')
  {
    CreatedUse(s, s', p, q, hasTask);
    forall x | 2 <= x < |s'.pt| ensures ParentOk(s', x) {
      assert ParentOk(s, x);
    }
  }

  lemma CreatedLists(s: Procs, s': Procs, p: Pid, q: Pid, hasTask: bool)
    requires RootsOk(s) && ParentsOk(s) && ListsOk(s) && Runs(s, p)
    requires Created(s, s', p, q, hasTask) && 2 <= q && !Used(s, q)
    ensures ListsOk(s')
  {
    CreatedUse(s, s', p, q, hasTask);
    forall x | 0 <= x < |s'.pt| ensures ListsOf(s', x) {
      assert ListsOf(s, x);
      if x == q {
        forall c: Pid ensures !IsChild(s, c, q) {
          if IsChild(s, c, q) {
            ParentLives(s, c, q);
          }
        }
      }
      if x == p {
        assert !IsChild(s, q, p);
      }
    }
  }

  lemma CreatedRest(s: Procs, s': Procs, p: Pid, q: Pid, hasTask: bool)
    requires WaitsOk(s) && LogsOk(s) && IdsOk(s) && Runs(s, p)
    requires Created(s, s', p, q, hasTask) && 2 <= q && !Used(s, q)
    ensures WaitsOk(s') && LogsOk(s')
  {
    CreatedUse(s, s', p, q, hasTask);
    forall x | 0 <= x < |s'.pt| ensures WaitOf(s', x) {
      assert WaitOf(s, x);
    }
    forall id | id in s'.exits
      ensures id < s'.clock && ((exists i :: ReapedAt(s', id, i)) || exists x :: ZombieAt(s', id, x))
    {
      if x: Pid :| ZombieAt(s, id, x) {
        assert ZombieAt(s', id, x);
      } else {
        var i :| ReapedAt(s, id, i);
        assert ReapedAt(s', id, i);
      }
    }
  }

  lemma ExecKeeps(s: Procs, p: Pid, hasTask: bool)
    requires PInv(s) && PEnabled(s, DoExec(p, hasTask))
    ensures PInv(Exec(s, p, hasTask))
  {
    hide RootsOk, FreeOk, ParentsOk, IdsOk, ListsOk, WaitsOk, LogsOk, Created, Exec;
    if s.free == [] {
      ExecFails(s, p, hasTask);
    } else {
      var s', q := Exec(s, p, hasTask), s.free[0];
      ExecCreates(s, p, hasTask);
      CreatedFree(s, s', p, q, hasTask);
      CreatedParents(s, s', p, q, hasTask);
      CreatedLists(s, s', p, q, hasTask);
      CreatedRest(s, s', p, q, hasTask);
    }
  }

  lemma ExecFails(s: Procs, p: Pid, hasTask: bool)
    requires Shape(s) && p < |s.pt| && s.free == []
    ensures Exec(s, p, hasTask) == s
  {
  }

  // ----- threads and sleeping waits -----

  /** A change of the number of threads of one process, or of where its waiting thread is. */
  lemma OnlyWaits(s: Procs, s': Procs, p: Pid)
    requires PInv(s) && p < |s.pt| && |s'.pt| == |s.pt| && |s'.waiting| == |s.pt|
    requires s' == s.(pt := s'.pt, waiting := s'.waiting) && s'.pt == s.pt[p := s.pt[p].(threadCount := s'.pt[p].threadCount)]
    requires p == 0 ==> s'.pt[p].threadCount == 0
    requires WaitOf(s', p) && forall x :: 0 <= x < |s.pt| && x != p ==> s'.waiting[x] == s.waiting[x]
    ensures PInv(s')
  {
    assert forall x: Pid :: Used(s', x) <==> Used(s, x);
    assert forall c: Pid, x: Pid :: (IsChild(s', c, x) <==> IsChild(s, c, x)) && (IsExited(s', c, x) <==> IsExited(s, c, x));
    assert forall id: nat, x: Pid :: ZombieAt(s', id, x) <==> ZombieAt(s, id, x);
    assert forall id: nat, i: nat :: ReapedAt(s', id, i) <==> ReapedAt(s, id, i);
    forall x | 0 <= x < |s'.pt| ensures WaitOf(s', x) && ListsOf(s', x) && (2 <= x ==> ParentOk(s', x)) {
      assert WaitOf(s, x) && ListsOf(s, x) && (2 <= x ==> ParentOk(s, x));
    }
  }

  lemma CreateThreadKeeps(s: Procs, p: Pid)
    requires PInv(s) && PEnabled(s, DoCreateThread(p))
    ensures PInv(PApply(s, DoCreateThread(p)))
  {
    assert WaitOf(s, p);
    OnlyWaits(s, PApply(s, DoCreateThread(p)), p);
  }

  /** A thread that is not the last one leaves. */
  lemma LeaveKeeps(s: Procs, p: Pid, v: int)
    requires PInv(s) && PEnabled(s, DoThreadExit(p, v)) && s.pt[p].threadCount > 1
    ensures PInv(ThreadExit(s, p, v))
  {
    assert WaitOf(s, p);
    OnlyWaits(s, ThreadExit(s, p, v), p);
  }

  // ----- reaping -----

  lemma ReapedUse(s: Procs, p: Pid, c: Pid)
    requires Shape(s) && RootsOk(s) && ParentsOk(s) && IsExited(s, c, p)
    ensures p < |s.pt| && c != p
    ensures forall x: Pid :: Used(Reap(s, p, c), x) <==> Used(s, x) && x != c
    ensures forall d: Pid, x: Pid :: IsChild(Reap(s, p, c), d, x) <==> IsChild(s, d, x) && d != c
    ensures forall d: Pid, x: Pid :: IsExited(Reap(s, p, c), d, x) <==> IsExited(s, d, x) && d != c
  {
    ParentLives(s, c, p);
  }

  lemma ReapFree(s: Procs, p: Pid, c: Pid)
    requires Shape(s) && RootsOk(s) && ParentsOk(s) && FreeOk(s) && IsExited(s, c, p)
    ensures p < |s.pt| && FreeOk(Reap(s, p, c))
  {
    ReapedUse(s, p, c);
    var s' := Reap(s, p, c);
    assert c !in s.free;
    assert forall x :: x in s'.free <==> x in s.free || x == c;
  }

  lemma ReapParents(s: Procs, p: Pid, c: Pid)
    requires Shape(s) && RootsOk(s) && ParentsOk(s) && IdsOk(s) && IsExited(s, c, p)
    ensures p < |s.pt| && RootsOk(Reap(s, p, c)) && ParentsOk(Reap(s, p, c)) && IdsOk(Reap(s, p, c))
  {
    ParentLives(s, c, p);
    ReapedUse(s, p, c);
    var s' := Reap(s, p, c);
    forall x | 2 <= x < |s'.pt| ensures ParentOk(s', x) {
      assert ParentOk(s, x);
    }
  }

  lemma ReapLists(s: Procs, p: Pid, c: Pid)
    requires Shape(s) && RootsOk(s) && ParentsOk(s) && ListsOk(s) && IsExited(s, c, p)
    ensures p < |s.pt| && ListsOk(Reap(s, p, c))
  {
    ParentLives(s, c, p);
    ReapedUse(s, p, c);
    var s' := Reap(s, p, c);
    assert ListsOf(s, p);
    RemoveMembers(s.pt[p].children, c);
    RemoveMembers(s.pt[p].exited, c);
    forall x | 0 <= x < |s'.pt| ensures ListsOf(s', x) {
      assert ListsOf(s, x);
    }
  }

  lemma ReapWaits(s: Procs, p: Pid, c: Pid)
    requires Shape(s) && RootsOk(s) && ParentsOk(s) && WaitsOk(s) && IsExited(s, c, p)
    ensures p < |s.pt| && WaitsOk(Reap(s, p, c))
  {
    ParentLives(s, c, p);
    ReapedUse(s, p, c);
    var s' := Reap(s, p, c);
    forall x | 0 <= x < |s'.pt| ensures WaitOf(s', x) {
      assert WaitOf(s, x);
    }
  }

  lemma ReapLogs(s: Procs, p: Pid, c: Pid)
    requires Shape(s) && RootsOk(s) && ParentsOk(s) && LogsOk(s) && IdsOk(s) && IsExited(s, c, p)
    ensures p < |s.pt| && LogsOk(Reap(s, p, c))
  {
    ReapedUse(s, p, c);
    ReapRecords(s, p, c, Reap(s, p, c));
  }

  lemma ReapRecords(s: Procs, p: Pid, c: Pid, s': Procs)
    requires Shape(s) && LogsOk(s) && IdsOk(s) && IsExited(s, c, p)
    requires |s'.pt| == |s.pt| && s'.exits == s.exits && s'.clock == s.clock
    requires s'.reaps == s.reaps + [(s.pt[c].id, s.pt[c].exitval)]
    requires forall x: Pid :: Used(s', x) <==> Used(s, x) && x != c
    requires forall x: Pid :: Used(s', x) ==>
      s'.pt[x].id == s.pt[x].id && s'.pt[x].pstate == s.pt[x].pstate && s'.pt[x].exitval == s.pt[x].exitval
    ensures LogsOk(s')
  {
    forall id | id in s'.exits
      ensures id < s'.clock && ((exists i :: ReapedAt(s', id, i)) || exists x :: ZombieAt(s', id, x))
    {
      if id == s.pt[c].id {
        assert ReapedAt(s', id, |s.reaps|);
      } else if x: Pid :| ZombieAt(s, id, x) {
        assert ZombieAt(s', id, x);
      } else {
        var i :| ReapedAt(s, id, i);
        assert ReapedAt(s', id, i);
      }
    }
  }

  lemma ReapKeeps(s: Procs, p: Pid, c: Pid)
    requires PInv(s) && Shape(s) && p < |s.pt| && IsExited(s, c, p)
    ensures PInv(Reap(s, p, c))
  {
    hide RootsOk, FreeOk, ParentsOk, IdsOk, ListsOk, WaitsOk, LogsOk, Reap;
    ReapFree(s, p, c);
    ReapParents(s, p, c);
    ReapLists(s, p, c);
    ReapWaits(s, p, c);
    ReapLogs(s, p, c);
  }

  lemma AnyTurnKeeps(s: Procs, p: Pid)
    requires PInv(s) && Shape(s) && p < |s.pt| && s.pt[p].pstate == ALIVE && s.pt[p].threadCount > 0 && s.pt[p].children != []
    ensures PInv(AnyTurn(s, p))
  {
    assert ListsOf(s, p);
    assert |s.pt[p].exited| > 0 ==> s.pt[p].exited[0] in s.pt[p].exited;
    if HasExited(s, p) {
      ReapKeeps(s, p, s.pt[p].exited[0]);
    } else {
      OnlyWaits(s, AnyTurn(s, p), p);
    }
  }

  lemma ChildTurnKeeps(s: Procs, p: Pid, c: Pid)
    requires PInv(s) && Shape(s) && p < |s.pt| && s.pt[p].pstate == ALIVE && s.pt[p].threadCount > 0 && IsChild(s, c, p)
    ensures PInv(ChildTurn(s, p, c))
  {
    if s.pt[c].pstate == ALIVE {
      OnlyWaits(s, ChildTurn(s, p, c), p);
    } else {
      ReapKeeps(s, p, c);
    }
  }

  lemma WaitKeeps(s: Procs, p: Pid, cpid: int)
    requires PInv(s) && PEnabled(s, DoWait(p, cpid))
    ensures PInv(WaitChild(s, p, cpid))
  {
    hide PInv, AnyTurn, ChildTurn;
    if cpid == NOPROC {
      if s.pt[p].children != [] {
        AnyTurnKeeps(s, p);
      }
    } else if Legal(s, p, cpid) {
      ChildTurnKeeps(s, p, cpid);
    }
  }

  lemma GoOnKeeps(s: Procs, p: Pid)
    requires PInv(s) && PEnabled(s, DoGoOn(p))
    ensures PInv(GoOn(s, p))
  {
    WaiterFacts(s, p);
    hide PInv, AnyTurn, ChildTurn;
    match s.waiting[p]
    case ForAny(_) => AnyTurnKeeps(s, p);
    case ForChild(c, _) => ChildTurnKeeps(s, p, c);
    case _ =>
  }

  lemma WaiterFacts(s: Procs, p: Pid)
    requires PInv(s) && p < |s.pt|
    ensures WaitOf(s, p)
  {
  }

  // ----- the last thread leaves -----

  /** What the reparenting loop leaves of process `x`: every child of `p` goes to init, and the
      first one goes last. */
  function Given(s: Procs, p: Pid, x: Pid): Pcb
    requires p < |s.pt| && INIT < |s.pt| && x < |s.pt|
  {
    var l := s.pt[p].children;
    s.pt[x].(
      parent := if x in l then Child(INIT) else s.pt[x].parent,
      children := if x == p then [] else if x == INIT then Reverse(l) + s.pt[INIT].children else s.pt[x].children)
  }

  lemma MoveChildGiven(s: Procs, p: Pid, x: Pid)
    requires p < |s.pt| && INIT < |s.pt| && p != INIT && x < |s.pt|
    requires s.pt[p].children != [] && s.pt[p].children[0] < |s.pt|
    ensures var s' := MoveChild(s, p);
      && s'.pt[p].children == s.pt[p].children[1..]
      && Given(s', p, x) == Given(s, p, x)
  {
    var l, s' := s.pt[p].children, MoveChild(s, p);
    assert l == [l[0]] + l[1..];
    assert s'.pt[p].children == l[1..] && s'.pt[INIT].children == [l[0]] + s.pt[INIT].children;
    assert Reverse(l[1..]) + ([l[0]] + s.pt[INIT].children) == Reverse(l) + s.pt[INIT].children;
  }

  lemma {:induction false} ReparentEffect(s: Procs, p: Pid, x: Pid)
    requires p < |s.pt| && INIT < |s.pt| && p != INIT && x < |s.pt|
    requires forall i :: 0 <= i < |s.pt[p].children| ==> s.pt[p].children[i] < |s.pt|
    ensures |Reparent(s, p).pt| == |s.pt| && Reparent(s, p).pt[x] == Given(s, p, x)
    decreases |s.pt[p].children|
  {
    hide Given, MoveChild;
    if s.pt[p].children == [] {
      NothingGiven(s, p, x);
    } else {
      MoveChildGiven(s, p, x);
      MoveChildSize(s, p);
      ReparentEffect(MoveChild(s, p), p, x);
    }
  }

  lemma MoveChildSize(s: Procs, p: Pid)
    requires p < |s.pt| && INIT < |s.pt| && s.pt[p].children != [] && s.pt[p].children[0] < |s.pt|
    ensures |MoveChild(s, p).pt| == |s.pt|
  {
  }

  lemma NothingGiven(s: Procs, p: Pid, x: Pid)
    requires p < |s.pt| && INIT < |s.pt| && p != INIT && x < |s.pt| && s.pt[p].children == []
    ensures Given(s, p, x) == s.pt[x]
  {
  }

  /** For init itself a turn of that loop changes nothing, so that it would never end. */
  lemma ReparentToOneself(s: Procs)
    requires PInv(s) && s.pt[INIT].children != []
    ensures s.pt[INIT].children[0] < |s.pt| && MoveChild(s, INIT) == s
  {
    var c := s.pt[INIT].children[0];
    assert ListsOf(s, INIT) && c in s.pt[INIT].children;
    ParentLives(s, c, INIT);
    assert s.pt[INIT].children == [c] + s.pt[INIT].children[1..];
    assert MoveChild(s, INIT).pt == s.pt;
  }

  /** What the exit of the last thread of `p` leaves of process `x`. */
  function Terminated(s: Procs, p: Pid, v: int, x: Pid): Pcb
    requires p < |s.pt| && INIT < |s.pt| && x < |s.pt|
  {
    var b := s.pt[x];
    var reported := if s.pt[p].parent == Child(x) then [p] else [];
    b.(pstate := if x == p then ZOMBIE else b.pstate,
       exitval := if x == p then v else b.exitval,
       parent := if x in s.pt[p].children then Child(INIT) else b.parent,
       children := if x == p then [] else if x == INIT then Reverse(s.pt[p].children) + b.children else b.children,
       exited := reported + if x == p then [] else if x == INIT then b.exited + s.pt[p].exited else b.exited)
  }

  function Told(s: Procs, p: Pid, x: Pid): Waiting
    requires p < |s.pt| && x < |s.waiting|
  {
    if (x == INIT && s.pt[p].exited != []) || s.pt[p].parent == Child(x) then Awake(s.waiting[x]) else s.waiting[x]
  }

  /** What the lists of exited children become. */
  lemma ReportEffect(s: Procs, p: Pid, x: Pid)
    requires Shape(s) && p < |s.pt| && x < |s.pt| && (s.pt[p].parent.Child? ==> s.pt[p].parent.of < |s.pt|)
    requires s.pt[p].parent != Child(p) && (p == INIT ==> s.pt[p].exited == [])
    ensures var s' := Report(Inherit(s, p), p);
      && |s'.pt| == |s.pt| && |s'.waiting| == |s.waiting|
      && s' == s.(pt := s'.pt, waiting := s'.waiting)
      && s'.waiting[x] == Told(s, p, x)
      && s'.pt[x] == s.pt[x].(exited := (if s.pt[p].parent == Child(x) then [p] else []) +
           if x == p then [] else if x == INIT then s.pt[x].exited + s.pt[p].exited else s.pt[x].exited)
  {
    var s1 := Inherit(s, p);
    assert s1.pt[p].parent == s.pt[p].parent;
    assert s1.pt[x] == s.pt[x].(exited :=
      if x == p then [] else if x == INIT then s.pt[x].exited + s.pt[p].exited else s.pt[x].exited);
  }

  lemma TerminateEffect(s: Procs, p: Pid, v: int, x: Pid)
    requires Leavable(s, p) && x < |s.pt| && s.pt[p].parent != Child(p) && p !in s.pt[p].children
    requires p == INIT ==> s.pt[p].exited == []
    ensures var s' := Terminate(s, p, v);
      && |s'.pt| == |s.pt| && |s'.waiting| == |s.waiting|
      && s' == s.(pt := s'.pt, waiting := s'.waiting, exits := s.exits[s.pt[p].id := v])
      && s'.pt[x] == Terminated(s, p, v, x) && s'.waiting[x] == Told(s, p, x)
  {
    hide Report, Inherit, Reparent, Reverse;
    var s1 := SetPcb(s, p, s.pt[p].(exitval := v));
    ReparentShape(s1, p);
    var s2 := Reparent(s1, p);
    assert p == INIT ==> s2 == s1 by {
      NoReparent(s1, p);
    }
    if p != INIT {
      ReparentEffect(s1, p, x);
      ReparentEffect(s1, p, p);
    }
    assert s2.pt[p].parent == s.pt[p].parent && s2.pt[p].exited == s.pt[p].exited;
    ReportEffect(s2, p, x);
  }

  lemma NoReparent(s: Procs, p: Pid)
    requires p < |s.pt| && INIT < |s.pt|
    ensures s.pt[p].children == [] ==> Reparent(s, p) == s
  {
  }

  /** Process `p`, without threads and waits, has ended with status `v`. */
  ghost predicate Ended(s: Procs, s': Procs, p: Pid, v: int) {
    && 1 <= p < |s.pt| && s.pt[p].pstate == ALIVE && s.pt[p].threadCount == 0
    && |s.waiting| == |s.pt| && |s'.pt| == |s.pt| && |s'.waiting| == |s.pt|
    && s.waiting[p] == NotWaiting && (p == INIT ==> s.pt[p].children == [])
    && s' == s.(pt := s'.pt, waiting := s'.waiting, exits := s.exits[s.pt[p].id := v])
    && forall x :: 0 <= x < |s.pt| ==> s'.pt[x] == Terminated(s, p, v, x) && s'.waiting[x] == Told(s, p, x)
  }

  lemma EndedUse(s: Procs, s': Procs, p: Pid, v: int)
    requires ListsOk(s) && Ended(s, s', p, v)
    ensures forall x: Pid :: Used(s', x) <==> Used(s, x)
    ensures forall c: Pid, x: Pid ::
      IsChild(s', c, x) <==> (x != p && IsChild(s, c, x)) || (x == INIT && IsChild(s, c, p))
    ensures forall c: Pid, x: Pid ::
      IsExited(s', c, x) <==> IsChild(s', c, x) && (s.pt[c].pstate == ZOMBIE || c == p)
  {
    assert ListsOf(s, p);
    assert p == INIT ==> forall c: Pid :: !IsChild(s, c, INIT);
  }

  lemma EndedParents(s: Procs, s': Procs, p: Pid, v: int)
    requires RootsOk(s) && ParentsOk(s) && IdsOk(s) && ListsOk(s) && Ended(s, s', p, v)
    ensures RootsOk(s') && ParentsOk(s') && IdsOk(s')
  {
    EndedUse(s, s', p, v);
    assert ListsOf(s, p);
    forall x | 2 <= x < |s'.pt| ensures ParentOk(s', x) {
      assert ParentOk(s, x);
      if Used(s, x) {
        InitIsAlive(s, x);
        InitIsOldest(s, x);
      }
    }
  }

  lemma EndedLists(s: Procs, s': Procs, p: Pid, v: int)
    requires RootsOk(s) && ParentsOk(s) && ListsOk(s) && Ended(s, s', p, v)
    ensures ListsOk(s')
  {
    forall x | 0 <= x < |s'.pt| ensures ListsOf(s', x) {
      if x == INIT && x != p {
        InitLists(s, s', p, v);
      } else {
        OthersLists(s, s', p, v, x);
      }
    }
  }

  lemma InitLists(s: Procs, s': Procs, p: Pid, v: int)
    requires RootsOk(s) && ParentsOk(s) && ListsOk(s) && Ended(s, s', p, v) && p != INIT
    ensures ListsOf(s', INIT)
  {
    EndedUse(s, s', p, v);
    assert ListsOf(s, p) && ListsOf(s, INIT);
    assert s'.pt[INIT] == Terminated(s, p, v, INIT);
    var a, b := Reverse(s.pt[p].children), s.pt[INIT].children;
    ReverseMembers(s.pt[p].children);
    forall c | c in a ensures c !in b {
      assert IsChild(s, c, p);
    }
    NoDupJoins(a, b);
    var reported := if s.pt[p].parent == Child(INIT) then [p] else [];
    var e, f := s.pt[INIT].exited, s.pt[p].exited;
    forall c | c in e ensures c !in f {
      assert IsExited(s, c, INIT);
    }
    NoDupJoins(e, f);
    NoDupJoins(reported, e + f);
    assert s'.pt[INIT].exited == reported + (e + f);
    assert !IsChild(s, p, p) by {
      if IsChild(s, p, p) {
        ParentLives(s, p, p);
      }
    }
    forall c: Pid ensures c in s'.pt[INIT].exited <==> IsExited(s', c, INIT) {
      assert c in reported + (e + f) <==> c in reported || c in e || c in f;
    }
  }

  lemma OthersLists(s: Procs, s': Procs, p: Pid, v: int, x: Pid)
    requires RootsOk(s) && ParentsOk(s) && ListsOk(s) && Ended(s, s', p, v) && x < |s.pt| && (x != INIT || x == p)
    ensures ListsOf(s', x)
  {
    EndedUse(s, s', p, v);
    assert ListsOf(s, x) && s'.pt[x] == Terminated(s, p, v, x);
    if IsChild(s, p, x) {
      ParentLives(s, p, x);
      var e := s.pt[x].exited;
      assert s'.pt[x].exited == [p] + e;
      NoDupJoins([p], e);
      assert forall c :: c in [p] + e <==> c == p || c in e;
    } else {
      assert x == p ==> !IsChild(s', x, x);
    }
  }

  lemma EndedWaits(s: Procs, s': Procs, p: Pid, v: int)
    requires RootsOk(s) && ParentsOk(s) && ListsOk(s) && WaitsOk(s) && Ended(s, s', p, v)
    ensures WaitsOk(s')
  {
    EndedUse(s, s', p, v);
    forall x | 0 <= x < |s'.pt| ensures WaitOf(s', x) {
      assert WaitOf(s, x) && ListsOf(s, x);
      assert s'.pt[x] == Terminated(s, p, v, x) && s'.waiting[x] == Told(s, p, x);
    }
  }

  lemma EndedLogs(s: Procs, s': Procs, p: Pid, v: int)
    requires RootsOk(s) && IdsOk(s) && LogsOk(s) && ListsOk(s) && Ended(s, s', p, v)
    ensures LogsOk(s')
  {
    EndedUse(s, s', p, v);
    assert Used(s, p);
    forall id | id in s'.exits
      ensures id < s'.clock && ((exists i :: ReapedAt(s', id, i)) || exists x :: ZombieAt(s', id, x))
    {
      if id == s.pt[p].id {
        assert ZombieAt(s', id, p);
      } else if x: Pid :| ZombieAt(s, id, x) {
        assert ZombieAt(s', id, x);
      } else {
        var i :| ReapedAt(s, id, i);
        assert ReapedAt(s', id, i);
      }
    }
  }

  lemma EndedFree(s: Procs, s': Procs, p: Pid, v: int)
    requires FreeOk(s) && ListsOk(s) && Ended(s, s', p, v)
    ensures FreeOk(s')
  {
    EndedUse(s, s', p, v);
  }

  lemma TerminateEnds(s: Procs, p: Pid, v: int)
    requires PInv(s) && Leavable(s, p) && s.pt[p].pstate == ALIVE && s.pt[p].threadCount == 0
    requires 1 <= p && s.waiting[p] == NotWaiting
    ensures Ended(s, Terminate(s, p, v), p, v)
  {
    assert ListsOf(s, p) && !IsChild(s, p, p) by {
      if IsChild(s, p, p) {
        ParentLives(s, p, p);
      }
    }
    EmptyUnlessMember(s.pt[p].exited);
    TerminateEffect(s, p, v, p);
    forall x | 0 <= x < |s.pt|
      ensures Terminate(s, p, v).pt[x] == Terminated(s, p, v, x) && Terminate(s, p, v).waiting[x] == Told(s, p, x)
    {
      TerminateEffect(s, p, v, x);
    }
  }

  lemma TerminateKeeps(s: Procs, p: Pid, v: int)
    requires PInv(s) && Leavable(s, p) && s.pt[p].pstate == ALIVE && s.pt[p].threadCount == 0
    requires 1 <= p && s.waiting[p] == NotWaiting
    ensures PInv(Terminate(s, p, v))
  {
    hide RootsOk, FreeOk, ParentsOk, IdsOk, ListsOk, WaitsOk, LogsOk, Ended, Terminate;
    var s' := Terminate(s, p, v);
    TerminateEnds(s, p, v);
    EndedFree(s, s', p, v);
    EndedParents(s, s', p, v);
    EndedLists(s, s', p, v);
    EndedWaits(s, s', p, v);
    EndedLogs(s, s', p, v);
  }

  lemma ThreadExitKeeps(s: Procs, p: Pid, v: int)
    requires PInv(s) && PEnabled(s, DoThreadExit(p, v))
    ensures PInv(ThreadExit(s, p, v))
  {
    if s.pt[p].threadCount > 1 {
      LeaveKeeps(s, p, v);
    } else {
      var s1 := SetPcb(s, p, s.pt[p].(threadCount := 0));
      assert WaitOf(s, p) && p != 0;
      OnlyWaits(s, s1, p);
      TerminateKeeps(s1, p, v);
    }
  }

  /** Every step keeps the invariant. */
  lemma PStepKeeps(s: Procs, a: PStep)
    requires PInv(s) && PEnabled(s, a)
    ensures PInv(PApply(s, a))
  {
    hide PInv, Exec, ThreadExit, WaitChild, GoOn, Leavable;
    match a
    case DoExec(p, hasTask) => ExecKeeps(s, p, hasTask);
    case DoCreateThread(p) => CreateThreadKeeps(s, p);
    case DoThreadExit(p, v) => ThreadExitKeeps(s, p, v);
    case DoWait(p, cpid) => WaitKeeps(s, p, cpid);
    case DoGoOn(p) => GoOnKeeps(s, p);
  }
}
