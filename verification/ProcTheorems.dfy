/** What holds in every run of the processes. */
module ProcTheorems {
  import opened ListSpec
  import opened ProcModel
  import opened ProcInvariant
  import opened ProcSteps

  // ----- runs -----

  ghost predicate PRun(tr: seq<Procs>, steps: seq<PStep>, n: nat) {
    && n >= 2
    && |tr| == |steps| + 1
    && tr[0] == Booted(n)
    && forall i :: 0 <= i < |steps| ==> PEnabled(tr[i], steps[i]) && tr[i + 1] == PApply(tr[i], steps[i])
  }

  lemma BootedPcbs(n: nat)
    requires n >= 2
    ensures var s := Booted(n);
      && |s.pt| == n && |s.waiting| == n && |s.free| == n - 2 && s.count == 2
      && s.pt[0] == Pcb(ALIVE, NoParent, 0, 0, [], [], 0) && s.pt[1] == Pcb(ALIVE, NoParent, 0, 1, [], [], 1)
      && (forall p :: 2 <= p < n ==> s.pt[p] == InitialPcb())
      && (forall p :: 0 <= p < n ==> s.waiting[p] == NotWaiting)
      && (forall i :: 0 <= i < n - 2 ==> s.free[i] == i + 2)
      && s.clock == 2 && s.exits == map[] && s.reaps == []
  {
    var s0 := Empty(n);
    assert s0.free[0] == 0;
    var s1 := Exec(s0, 0, false);
    assert s1.free[0] == 1;
  }

  lemma BootedInv(n: nat)
    requires n >= 2
    ensures PInv(Booted(n))
  {
    BootedPcbs(n);
    hide Booted;
    var s := Booted(n);
    assert forall p: Pid :: Used(s, p) <==> p < 2;
    forall p: Pid | 2 <= p < n ensures p in s.free {
      assert s.free[p - 2] == p;
    }
  }

  lemma {:induction false} PRunInv(tr: seq<Procs>, steps: seq<PStep>, n: nat, k: nat)
    requires PRun(tr, steps, n) && k < |tr|
    ensures PInv(tr[k]) && |tr[k].pt| == n
  {
    if k == 0 {
      BootedInv(n);
      BootedPcbs(n);
    } else {
      PRunInv(tr, steps, n, k - 1);
      PStepKeeps(tr[k - 1], steps[k - 1]);
      PStepSize(tr[k - 1], steps[k - 1]);
    }
  }

  /** No step changes the size of the table, and exits are recorded by thread exits alone. */
  lemma PStepSize(s: Procs, a: PStep)
    requires PEnabled(s, a)
    ensures |PApply(s, a).pt| == |s.pt|
    ensures !a.DoThreadExit? ==> PApply(s, a).exits == s.exits
  {
    hide Reparent, Inherit, Report, Terminate;
    if a.DoThreadExit? && s.pt[a.p].threadCount == 1 {
      TerminateSize(SetPcb(s, a.p, s.pt[a.p].(threadCount := 0)), a.p, a.v);
    }
  }

  lemma TerminateSize(s: Procs, p: Pid, v: int)
    requires Leavable(s, p)
    ensures var s' := Terminate(s, p, v);
      |s'.pt| == |s.pt| && s'.exits == s.exits[s.pt[p].id := v] && s'.reaps == s.reaps
  {
    ReparentShape(SetPcb(s, p, s.pt[p].(exitval := v)), p);
  }

  // ----- the process tree -----

  /** In every run: the list of children of a process holds exactly the processes that have it as
      parent, each once; its list of exited children exactly the zombies among them, each once;
      and both are empty unless the process is alive. */
  lemma TreeTheorem(tr: seq<Procs>, steps: seq<PStep>, n: nat, k: nat, p: Pid)
    requires PRun(tr, steps, n) && k < |tr| && p < n
    ensures |tr[k].pt| == n && ListsOf(tr[k], p)
    ensures tr[k].pt[p].pstate != ALIVE ==> tr[k].pt[p].children == [] && tr[k].pt[p].exited == []
  {
    PRunInv(tr, steps, n, k);
    if tr[k].pt[p].pstate != ALIVE {
      OnlyTheLiving(tr[k], p);
    }
  }

  /** A chain of processes, each the parent of the one before. */
  predicate ParentChain(s: Procs, path: seq<Pid>) {
    && path != []
    && (forall i :: 0 <= i < |path| ==> Used(s, path[i]))
    && forall i :: 0 <= i < |path| - 1 ==> s.pt[path[i]].parent == Child(path[i + 1])
  }

  /** Every process but the first two is linked to init by a chain of parents, all of them alive
      and each older than the one before, so that there are no cycles. */
  lemma {:induction false} ChainToInit(s: Procs, p: Pid) returns (path: seq<Pid>)
    requires PInv(s) && 2 <= p && Used(s, p)
    ensures ParentChain(s, path) && path[0] == p && path[|path| - 1] == INIT
    ensures forall i :: 0 < i < |path| ==> s.pt[path[i]].pstate == ALIVE
    ensures forall i :: 0 < i < |path| ==> s.pt[path[i]].id < s.pt[path[i - 1]].id
    decreases s.pt[p].id
  {
    assert ParentOk(s, p);
    var q := s.pt[p].parent.of;
    if q == INIT {
      path := [p, INIT];
    } else {
      var rest := ChainToInit(s, q);
      path := [p] + rest;
      assert forall i :: 1 <= i < |path| ==> path[i] == rest[i - 1];
    }
  }

  /** The loop in `sys_Exit`: init's wait for any child returns NOPROC exactly when there is no
      process left but the idle process and init; and then init may leave, as the loop is there to
      ensure. */
  lemma InitWaitsForAll(tr: seq<Procs>, steps: seq<PStep>, n: nat, k: nat)
    requires PRun(tr, steps, n) && k < |tr|
    ensures Shape(tr[k]) && |tr[k].pt| == n
    ensures WaitOutcome(tr[k], INIT, NOPROC) == Returns(NOPROC) <==> forall p :: 2 <= p < n ==> tr[k].pt[p].pstate == FREE
    ensures WaitOutcome(tr[k], INIT, NOPROC) == Returns(NOPROC) ==> Leavable(tr[k], INIT)
  {
    var s := tr[k];
    PRunInv(tr, steps, n, k);
    PInvShape(s);
    assert ListsOf(s, INIT);
    if s.pt[INIT].children == [] {
      forall p | 2 <= p < n ensures s.pt[p].pstate == FREE {
        if Used(s, p) {
          var path := ChainToInit(s, p);
          assert IsChild(s, path[|path| - 2], INIT);
        }
      }
    } else {
      var c := s.pt[INIT].children[0];
      assert c in s.pt[INIT].children;
      ParentLives(s, c, INIT);
    }
  }

  // ----- pids -----

  /** In every run the free list holds exactly the free pids, each once, and its length and
      `process_count` add up to the size of the table. */
  lemma FreeListTheorem(tr: seq<Procs>, steps: seq<PStep>, n: nat, k: nat)
    requires PRun(tr, steps, n) && k < |tr|
    ensures |tr[k].pt| == n && NoDup(tr[k].free) && |tr[k].free| == n - tr[k].count
    ensures forall p: Pid :: p in tr[k].free <==> p < n && tr[k].pt[p].pstate == FREE
  {
    PRunInv(tr, steps, n, k);
    assert forall p: Pid :: p in tr[k].free <==> p < n && !Used(tr[k], p);
  }

  /** Exec fails exactly when every pid is in use; otherwise it returns the first pid of the free list,
      now that of a new child of the caller, alive and with its main thread, if it has one; and no
      other process changes but for the caller's list, which has the child in front. */
  lemma ExecTheorem(tr: seq<Procs>, steps: seq<PStep>, n: nat, k: nat)
    requires PRun(tr, steps, n) && k < |steps| && steps[k].DoExec?
    ensures var s, s' := tr[k], tr[k + 1];
      && |s.pt| == |s'.pt| == n
      && (ExecReturns(s) == NOPROC <==> s.count == n)
      && (s.count == n ==> s' == s)
      && (s.count < n ==>
            var q := ExecReturns(s);
            && 2 <= q < n && s.pt[q].pstate == FREE && IsChild(s', q, steps[k].p) && s'.pt[q].id == s.clock
            && s.free == [q] + s'.free && s'.clock == s.clock + 1
            && s'.pt[q].pstate == ALIVE && s'.pt[q].threadCount == (if steps[k].hasTask then 1 else 0)
            && s'.pt[q].children == [] && s'.pt[q].exited == []
            && s'.pt[steps[k].p] == s.pt[steps[k].p].(children := [q] + s.pt[steps[k].p].children)
            && forall x :: 0 <= x < n && x != q && x != steps[k].p ==> s'.pt[x] == s.pt[x])
  {
    hide PInv, Exec, Booted;
    var s := tr[k];
    PRunInv(tr, steps, n, k);
    PRunInv(tr, steps, n, k + 1);
    FreeCount(s);
    if s.free == [] {
      ExecFails(s, steps[k].p, steps[k].hasTask);
    } else {
      ExecCreates(s, steps[k].p, steps[k].hasTask);
    }
  }

  lemma FreeCount(s: Procs)
    requires PInv(s)
    ensures s.free == [] <==> s.count == |s.pt|
    ensures s.free != [] ==> s.count < |s.pt|
    ensures s.free != [] ==> s.free[0] < |s.pt| && !Used(s, s.free[0])
  {
    assert s.free != [] ==> s.free[0] in s.free;
  }

  // ----- waiting and reaping -----

  /** In every run: nobody sleeps in wait-any while it has an exited child to report, nor in a
      wait for a child that has exited; and a wait-any sleeps only while there is a child. */
  lemma NoSleepOnZombies(tr: seq<Procs>, steps: seq<PStep>, n: nat, k: nat, p: Pid)
    requires PRun(tr, steps, n) && k < |tr| && p < n
    ensures |tr[k].waiting| == n
    ensures var s := tr[k]; var w := s.waiting[p];
      && (w.ForAny? && w.asleep ==> (forall c: Pid :: !IsExited(s, c, p)) && exists c: Pid :: IsChild(s, c, p))
      && (w.ForChild? && w.asleep ==> IsChild(s, w.child, p) && !IsExited(s, w.child, p))
  {
    var s := tr[k];
    PRunInv(tr, steps, n, k);
    assert WaitOf(s, p) && ListsOf(s, p);
    var w := s.waiting[p];
    if w.ForAny? && w.asleep {
      assert s.pt[p].children[0] in s.pt[p].children;
      assert IsChild(s, s.pt[p].children[0], p);
    }
  }

  /** What WaitChild returns in a step, if it returns. */
  function StepOutcome(s: Procs, a: PStep): Outcome
    requires PEnabled(s, a)
  {
    match a
    case DoWait(p, cpid) => WaitOutcome(s, p, cpid)
    case DoGoOn(p) => GoOnOutcome(s, p)
    case _ => Sleeps
  }

  ghost predicate SomeChild(s: Procs, p: Pid) {
    exists c: Pid :: IsChild(s, c, p)
  }

  ghost predicate SomeExited(s: Procs, p: Pid) {
    exists c: Pid :: IsExited(s, c, p)
  }

  /** What a wait for a given process must come to: NOPROC for whatever is not a child of `p`, the pid
      of a child that has exited, and sleep as long as the child is alive. */
  ghost predicate AnswersChild(s: Procs, p: Pid, cpid: int, outcome: Outcome) {
    && (outcome == Returns(NOPROC) <==> !(0 <= cpid && IsChild(s, cpid, p)))
    && (outcome == Returns(cpid) <==> 0 <= cpid && IsExited(s, cpid, p))
    && (outcome == Sleeps <==> 0 <= cpid && IsChild(s, cpid, p) && s.pt[cpid].pstate == ALIVE)
  }

  /** What a wait for any child must come to: NOPROC if there is none, the first of the exited
      children if some have exited, and sleep otherwise. */
  ghost predicate AnswersAny(s: Procs, p: Pid, outcome: Outcome) {
    && p < |s.pt|
    && (outcome == Returns(NOPROC) <==> !SomeChild(s, p))
    && (SomeExited(s, p) ==> s.pt[p].exited != [] && outcome == Returns(s.pt[p].exited[0]))
    && (outcome == Sleeps <==> SomeChild(s, p) && !SomeExited(s, p))
  }

  /** What the call leaves of the waits: the thread sleeps, and remembers what for, if and only if it
      has not got an answer; and a call that returns NOPROC changes nothing. */
  predicate WaitLeaves(s: Procs, s': Procs, p: Pid, cpid: int, outcome: Outcome) {
    && p < |s.waiting|
    && (outcome == Returns(NOPROC) ==> s' == s)
    && (outcome.Returns? ==> p < |s'.waiting| && s'.waiting == s.waiting[p := NotWaiting])
    && (outcome == Sleeps ==>
          s' == s.(waiting := s.waiting[p := if 0 <= cpid then ForChild(cpid, true) else ForAny(true)]))
  }

  lemma ChildrenListed(s: Procs, p: Pid)
    requires PInv(s) && p < |s.pt|
    ensures SomeChild(s, p) <==> s.pt[p].children != []
    ensures SomeExited(s, p) <==> HasExited(s, p)
    ensures HasExited(s, p) ==> IsExited(s, s.pt[p].exited[0], p)
    ensures SomeExited(s, p) ==> SomeChild(s, p)
  {
    assert ListsOf(s, p);
    EmptyUnlessMember(s.pt[p].children);
    if s.pt[p].exited != [] {
      assert s.pt[p].exited[0] in s.pt[p].exited;
    }
    if SomeExited(s, p) {
      var c: Pid :| IsExited(s, c, p);
      assert c in s.pt[p].exited && IsChild(s, c, p);
    }
  }

  lemma AnyAnswers(s: Procs, p: Pid)
    requires PInv(s) && Shape(s) && p < |s.pt| && s.pt[p].children != []
    ensures AnswersAny(s, p, AnyOutcome(s, p))
  {
    hide PInv, SomeChild, SomeExited;
    ChildrenListed(s, p);
  }

  lemma ChildAnswers(s: Procs, p: Pid, c: Pid)
    requires p < |s.pt| && IsChild(s, c, p)
    ensures AnswersChild(s, p, c, ChildOutcome(s, c))
  {
  }

  lemma NotWaitingStays(s: Procs, p: Pid)
    requires p < |s.waiting| && s.waiting[p] == NotWaiting
    ensures s.waiting[p := NotWaiting] == s.waiting
  {
  }

  /** The answer of WaitChild, in every run. */
  lemma WaitTheorem(tr: seq<Procs>, steps: seq<PStep>, n: nat, k: nat)
    requires PRun(tr, steps, n) && k < |steps| && steps[k].DoWait?
    ensures PEnabled(tr[k], steps[k])
    ensures var s, p, cpid, outcome := tr[k], steps[k].p, steps[k].cpid, StepOutcome(tr[k], steps[k]);
      && (if cpid == NOPROC then AnswersAny(s, p, outcome) else AnswersChild(s, p, cpid, outcome))
      && WaitLeaves(s, tr[k + 1], p, cpid, outcome)
  {
    var s, p, cpid := tr[k], steps[k].p, steps[k].cpid;
    PRunInv(tr, steps, n, k);
    hide PInv, SomeChild, SomeExited, AnswersAny;
    NotWaitingStays(s, p);
    if cpid == NOPROC {
      ChildrenListed(s, p);
      if s.pt[p].children != [] {
        AnyAnswers(s, p);
      } else {
        NobodyAnswers(s, p);
      }
    }
  }

  lemma NobodyAnswers(s: Procs, p: Pid)
    requires PInv(s) && p < |s.pt| && s.pt[p].children == []
    ensures AnswersAny(s, p, Returns(NOPROC))
  {
    ChildrenListed(s, p);
  }

  /** The answer that a waiting thread gets when it goes on after a broadcast: the same as if it had
      called then, except that it has a child to wait for. */
  lemma GoOnTheorem(tr: seq<Procs>, steps: seq<PStep>, n: nat, k: nat)
    requires PRun(tr, steps, n) && k < |steps| && steps[k].DoGoOn?
    ensures PEnabled(tr[k], steps[k])
    ensures var s, p, outcome := tr[k], steps[k].p, StepOutcome(tr[k], steps[k]);
      && p < |s.waiting| && outcome != Returns(NOPROC)
      && match s.waiting[p] {
           case ForAny(_) => AnswersAny(s, p, outcome) && WaitLeaves(s, tr[k + 1], p, NOPROC, outcome)
           case ForChild(c, _) => AnswersChild(s, p, c, outcome) && WaitLeaves(s, tr[k + 1], p, c, outcome)
           case NotWaiting => false
         }
  {
    var s, p := tr[k], steps[k].p;
    PRunInv(tr, steps, n, k);
    hide PInv, SomeChild, SomeExited, AnswersAny;
    WaiterFacts(s, p);
    if s.waiting[p].ForAny? {
      AnyAnswers(s, p);
    }
  }

  /** Child `c` of `p` has exited; now its status is reported, for the first time, and it is gone. */
  ghost predicate ReportedNow(s: Procs, s': Procs, p: Pid, c: int) {
    && 0 <= c && IsExited(s, c, p) && s.pt[c].id in s.exits
    && s'.reaps == s.reaps + [(s.pt[c].id, s.exits[s.pt[c].id])]
    && (forall i :: 0 <= i < |s.reaps| ==> s.reaps[i].0 != s.pt[c].id)
    && c < |s'.pt| && s'.pt[c].pstate == FREE && s'.free == [c] + s.free
    && p < |s.pt| && p < |s'.pt|
    && LeftOut(s.pt[p].children, s'.pt[p].children, c) && LeftOut(s.pt[p].exited, s'.pt[p].exited, c)
  }

  /** `l'` is `l` without its element `c`, in the same order. */
  ghost predicate LeftOut(l: seq<Pid>, l': seq<Pid>, c: Pid) {
    exists k :: 0 <= k < |l| && l[k] == c && l' == l[..k] + l[k + 1..]
  }

  /** When WaitChild returns a pid, it is that of a child of the caller that has exited; what is
      reported is the status stored at its exit; that execution was never reported before; and
      its pid is free. No other step reports anything. */
  lemma ReapTheorem(tr: seq<Procs>, steps: seq<PStep>, n: nat, k: nat)
    requires PRun(tr, steps, n) && k < |steps|
    ensures var s, s', outcome := tr[k], tr[k + 1], StepOutcome(tr[k], steps[k]);
      if outcome.Returns? && outcome.value != NOPROC
      then ReportedNow(s, s', steps[k].p, outcome.value)
      else s'.reaps == s.reaps
  {
    var s, a := tr[k], steps[k];
    PRunInv(tr, steps, n, k);
    hide PInv, PApply, StepOutcome;
    match a
    case DoWait(_, _) => WaitReaps(s, a);
    case DoGoOn(_) => GoOnReaps(s, a);
    case _ => NoReap(s, a);
  }

  lemma NoReap(s: Procs, a: PStep)
    requires PEnabled(s, a) && !a.DoWait? && !a.DoGoOn?
    ensures PApply(s, a).reaps == s.reaps && StepOutcome(s, a) == Sleeps
  {
    hide Terminate;
    if a.DoThreadExit? && s.pt[a.p].threadCount == 1 {
      TerminateSize(SetPcb(s, a.p, s.pt[a.p].(threadCount := 0)), a.p, a.v);
    }
  }

  lemma ReapReports(s: Procs, p: Pid, c: Pid)
    requires PInv(s) && Shape(s) && IsExited(s, c, p)
    ensures p < |s.pt| && ReportedNow(s, Reap(s, p, c), p, c)
  {
    ParentLives(s, c, p);
    assert ListsOf(s, p);
    var i := RemoveSplits(s.pt[p].children, c);
    var j := RemoveSplits(s.pt[p].exited, c);
  }

  lemma AnyReaps(s: Procs, p: Pid)
    requires PInv(s) && Shape(s) && p < |s.pt|
    ensures var outcome := AnyOutcome(s, p);
      if outcome.Returns? then ReportedNow(s, AnyTurn(s, p), p, outcome.value) else AnyTurn(s, p).reaps == s.reaps
  {
    assert ListsOf(s, p);
    if HasExited(s, p) {
      assert s.pt[p].exited[0] in s.pt[p].exited;
      ReapReports(s, p, s.pt[p].exited[0]);
    }
  }

  lemma ChildReaps(s: Procs, p: Pid, c: Pid)
    requires PInv(s) && Shape(s) && p < |s.pt| && IsChild(s, c, p)
    ensures var outcome := ChildOutcome(s, c);
      if outcome.Returns? then ReportedNow(s, ChildTurn(s, p, c), p, outcome.value) else ChildTurn(s, p, c).reaps == s.reaps
  {
    if s.pt[c].pstate != ALIVE {
      ReapReports(s, p, c);
    }
  }

  lemma WaitReaps(s: Procs, a: PStep)
    requires PInv(s) && PEnabled(s, a) && a.DoWait?
    ensures var outcome := StepOutcome(s, a);
      if outcome.Returns? && outcome.value != NOPROC
      then ReportedNow(s, PApply(s, a), a.p, outcome.value)
      else PApply(s, a).reaps == s.reaps
  {
    hide PInv, AnyTurn, ChildTurn, ReportedNow;
    AnyReaps(s, a.p);
    if Legal(s, a.p, a.cpid) {
      ChildReaps(s, a.p, a.cpid);
    }
  }

  lemma GoOnReaps(s: Procs, a: PStep)
    requires PInv(s) && PEnabled(s, a) && a.DoGoOn?
    ensures var outcome := StepOutcome(s, a);
      if outcome.Returns? && outcome.value != NOPROC
      then ReportedNow(s, PApply(s, a), a.p, outcome.value)
      else PApply(s, a).reaps == s.reaps
  {
    hide PInv, AnyTurn, ChildTurn, ReportedNow;
    WaiterFacts(s, a.p);
    if s.waiting[a.p].ForChild? {
      ChildReaps(s, a.p, s.waiting[a.p].child);
    } else {
      AnyReaps(s, a.p);
    }
  }

  /** Every execution that has ended awaits its report as a zombie, or has been reported, but
      not both; reports are never repeated and carry the status stored at exit. */
  lemma ReportedOnce(tr: seq<Procs>, steps: seq<PStep>, n: nat, k: nat, id: nat)
    requires PRun(tr, steps, n) && k < |tr| && id in tr[k].exits
    ensures (exists i :: ReapedAt(tr[k], id, i)) <==> !(exists p :: ZombieAt(tr[k], id, p))
    ensures forall i, j :: ReapedAt(tr[k], id, i) && ReapedAt(tr[k], id, j) ==> i == j
    ensures forall i: nat :: ReapedAt(tr[k], id, i) ==> tr[k].reaps[i].1 == tr[k].exits[id]
    ensures forall p: Pid :: ZombieAt(tr[k], id, p) ==> tr[k].pt[p].exitval == tr[k].exits[id]
  {
    var s := tr[k];
    PRunInv(tr, steps, n, k);
    hide RootsOk, FreeOk, ParentsOk, IdsOk, ListsOk, WaitsOk;
    assert forall p: Pid :: ZombieAt(s, id, p) ==> Used(s, p);
  }

  /** The status stored at exit is the one given by the last thread, and stays for ever. */
  lemma ExitStatus(tr: seq<Procs>, steps: seq<PStep>, n: nat, k: nat, m: nat)
    requires PRun(tr, steps, n) && k < m < |tr| && steps[k].DoThreadExit?
    requires tr[k].pt[steps[k].p].threadCount == 1
    ensures var id := tr[k].pt[steps[k].p].id; id in tr[m].exits && tr[m].exits[id] == steps[k].v
    ensures Used(tr[k + 1], steps[k].p) && tr[k + 1].pt[steps[k].p].pstate == ZOMBIE
  {
    PRunInv(tr, steps, n, k);
    LastThreadExits(tr[k], steps[k]);
    ExitsStay(tr, steps, n, k + 1, m, tr[k].pt[steps[k].p].id);
  }

  /** When the exit of a thread ends its process with the status given, as the documentation of
      Exit promises of all of them: if and only if the thread is the last one. Otherwise the
      process lives on, and no status is stored. */
  lemma ExitIsExact(s: Procs, p: Pid, v: int)
    requires PInv(s) && PEnabled(s, DoThreadExit(p, v))
    ensures var s' := PApply(s, DoThreadExit(p, v)); var id := s.pt[p].id;
      && |s'.pt| == |s.pt|
      && (s'.pt[p].pstate == ZOMBIE <==> s.pt[p].threadCount == 1)
      && (s'.pt[p].pstate == ZOMBIE ==> s'.pt[p].exitval == v && s'.exits == s.exits[id := v])
      && (s'.pt[p].pstate != ZOMBIE ==> s'.pt[p].pstate == ALIVE && s'.exits == s.exits && id !in s'.exits)
  {
    var a := DoThreadExit(p, v);
    if s.pt[p].threadCount == 1 {
      LastThreadExits(s, a);
    } else {
      PStepSize(s, a);
      assert Used(s, p);
    }
  }

  /** The shortest run in which a process outlives an exit: init creates a second thread, and then
      one of the two exits with status 5. */
  lemma ExitExample(n: nat)
    requires n >= 2
    ensures var s0, a := Booted(n), DoCreateThread(INIT);
      PEnabled(s0, a) &&
      var s1, b := PApply(s0, a), DoThreadExit(INIT, 5);
      PEnabled(s1, b) && Used(PApply(s1, b), INIT) && PApply(s1, b).pt[INIT].pstate == ALIVE && PApply(s1, b).exits == map[]
  {
    BootedPcbs(n);
    BootedInv(n);
    PInvShape(Booted(n));
    hide Booted;
  }

  /** The threads of a process: one more when it creates one, one less when one exits, and those that
      Exec gives it. */
  lemma ThreadCounts(s: Procs, a: PStep, x: Pid)
    requires PInv(s) && PEnabled(s, a) && x < |s.pt|
    ensures |PApply(s, a).pt| == |s.pt|
    ensures PApply(s, a).pt[x].threadCount ==
      match a {
        case DoCreateThread(p) => s.pt[x].threadCount + if x == p then 1 else 0
        case DoThreadExit(p, _) => s.pt[x].threadCount - if x == p then 1 else 0
        case DoExec(_, hasTask) =>
          if s.free == [] || x != s.free[0] then s.pt[x].threadCount else if hasTask then 1 else 0
        case _ => s.pt[x].threadCount
      }
  {
    hide PInv, Terminate;
    if a.DoThreadExit? && s.pt[a.p].threadCount == 1 {
      WaiterFacts(s, a.p);
      ExitCounts(s, a, x);
    }
  }

  lemma ExitCounts(s: Procs, a: PStep, x: Pid)
    requires PInv(s) && PEnabled(s, a) && a.DoThreadExit? && s.pt[a.p].threadCount == 1 && x < |s.pt|
    ensures |PApply(s, a).pt| == |s.pt|
    ensures PApply(s, a).pt[x].threadCount == if x == a.p then 0 else s.pt[x].threadCount
  {
    WaiterFacts(s, a.p);
    var s1 := SetPcb(s, a.p, s.pt[a.p].(threadCount := 0));
    assert a.p != 0;
    OnlyWaits(s, s1, a.p);
    TerminateEnds(s1, a.p, a.v);
    assert PApply(s, a).pt[x] == Terminated(s1, a.p, a.v, x);
  }

  lemma LastThreadExits(s: Procs, a: PStep)
    requires PInv(s) && PEnabled(s, a) && a.DoThreadExit? && s.pt[a.p].threadCount == 1
    ensures PApply(s, a).exits == s.exits[s.pt[a.p].id := a.v]
    ensures Used(PApply(s, a), a.p) && PApply(s, a).pt[a.p].pstate == ZOMBIE && PApply(s, a).pt[a.p].exitval == a.v
    ensures |PApply(s, a).pt| == |s.pt|
  {
    WaiterFacts(s, a.p);
    var s1 := SetPcb(s, a.p, s.pt[a.p].(threadCount := 0));
    assert a.p != 0;
    OnlyWaits(s, s1, a.p);
    TerminateEnds(s1, a.p, a.v);
    assert PApply(s, a).pt[a.p] == Terminated(s1, a.p, a.v, a.p);
  }

  lemma ExitsKept(s: Procs, a: PStep, id: nat)
    requires PInv(s) && PEnabled(s, a) && id in s.exits
    ensures id in PApply(s, a).exits && PApply(s, a).exits[id] == s.exits[id]
  {
    hide RootsOk, FreeOk, ParentsOk, IdsOk, ListsOk, WaitsOk, Terminate;
    PStepSize(s, a);
    if a.DoThreadExit? {
      assert Used(s, a.p);
      if s.pt[a.p].threadCount == 1 {
        TerminateSize(SetPcb(s, a.p, s.pt[a.p].(threadCount := 0)), a.p, a.v);
      }
    }
  }

  lemma {:induction false} ExitsStay(tr: seq<Procs>, steps: seq<PStep>, n: nat, k: nat, m: nat, id: nat)
    requires PRun(tr, steps, n) && k <= m < |tr| && id in tr[k].exits
    ensures id in tr[m].exits && tr[m].exits[id] == tr[k].exits[id]
  {
    hide PInv, PApply, PEnabled;
    if k < m {
      ExitsStay(tr, steps, n, k, m - 1, id);
      PRunInv(tr, steps, n, m - 1);
      ExitsKept(tr[m - 1], steps[m - 1], id);
    }
  }

  /** What the proviso of one waiting thread is for: were the same child cleaned up a second time,
      its pid would be on the free list twice, and the free list a cycle. */
  lemma SecondReapBreaks(s: Procs, p: Pid, c: Pid)
    requires PInv(s) && IsExited(s, c, p)
    ensures p < |s.pt|
    ensures var s' := Cleanup(Cleanup(s, p, c), p, c); s'.free[0] == s'.free[1] == c && !FreeOk(s')
  {
    ParentLives(s, c, p);
    var s' := Cleanup(Cleanup(s, p, c), p, c);
    assert s'.free[0] == s'.free[1];
  }
}
