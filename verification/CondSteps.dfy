/** Every step keeps the invariant of the monitors and of the kernel semaphore. */
module CondSteps {
  import opened ListSpec
  import opened SchedModel
  import opened SchedInvariant
  import opened SchedSteps
  import opened SchedTheorems
  import opened CondModel
  import opened CondInvariant

  // ----- one thread moves, the others stay where they are -----

  function MovedLock(lock: map<CvId, Tid>, t: Tid, a: int, b: int): map<CvId, Tid> {
    var m := if a == b || a < 0 then lock else lock - {a};
    if a == b || b < 0 then m else m[b := t]
  }

  /** Thread `t` moves from `s` to `s'`, taking and dropping what its new place requires. */
  ghost predicate Shifts(s: Cc, s': Cc, t: Tid) {
    && t in s.local && t in s'.local && s'.local == s.local[t := s'.local[t]]
    && var l, l' := s.local[t], s'.local[t];
    && ShapeOk(l'.loc) && FlagsOk(l')
    // locks
    && s'.lock == MovedLock(s.lock, t, HeldLock(l.loc), HeldLock(l'.loc))
    && (HeldLock(l'.loc) == HeldLock(l.loc) || HeldLock(l'.loc) !in s.lock)
    // mutexes
    && (forall u, m :: u != t ==> (Owns(s', u, m) <==> Owns(s, u, m)))
    && (Owns(s', t, KERNEL_MUTEX) <==> HoldsKernelMutex(l'.loc))
    && (Committed(l'.loc) ==> Owns(s', t, l'.loc.mx))
    // the semaphore
    && 0 <= s'.sem
    && (s'.sem == s.sem || HoldsKernelMutex(l.loc) || KERNEL_MUTEX !in s.owner)
    && (Committed(l'.loc) && l'.loc.cv == KERNEL_SEM_CV ==> s'.sem <= 0)
    && s'.sem + (if HoldsToken(l'.loc) then 1 else 0) == s.sem + (if HoldsToken(l.loc) then 1 else 0)
  }

  ghost predicate Moves(s: Cc, s': Cc, t: Tid) {
    && Shifts(s, s', t)
    && !s'.local[t].loc.SigWoke?
    && (s.local[t].loc.WaitAsleep? ==> s.local[t].loc.cv !in s.lock)
  }

  lemma LocksMove(s: Cc, s': Cc, t: Tid)
    requires LocksOk(s) && Shifts(s, s', t)
    ensures LocksOk(s')
  {
  }

  lemma OwnersMove(s: Cc, s': Cc, t: Tid)
    requires OwnersOk(s) && Shifts(s, s', t)
    ensures OwnersOk(s')
  {
    forall u ensures Owns(s', u, KERNEL_MUTEX) <==> u in s'.local && HoldsKernelMutex(s'.local[u].loc) {
      assert u != t ==> (Owns(s', u, KERNEL_MUTEX) <==> Owns(s, u, KERNEL_MUTEX));
    }
  }

  lemma LocalsMove(s: Cc, s': Cc, t: Tid)
    requires LocalsOk(s) && Shifts(s, s', t)
    ensures LocalsOk(s')
  {
  }

  /** A waiter that a signaller is about to mark cannot move: its lock is taken. */
  lemma WokenMove(s: Cc, s': Cc, t: Tid)
    requires LocksOk(s) && WokenOk(s) && Moves(s, s', t)
    ensures WokenOk(s')
  {
    forall u | u in s'.local && s'.local[u].loc.SigWoke?
      ensures s'.local[u].loc.woken in s'.local && WokenMatch(s'.local[u], s'.local[s'.local[u].loc.woken])
    {
      var w := s.local[u].loc.woken;
      assert WokenMatch(s.local[u], s.local[w]);
      assert HeldLock(s.local[u].loc) in s.lock;
    }
  }

  lemma SemWaitMove(s: Cc, s': Cc, t: Tid)
    requires LocalsOk(s) && OwnersOk(s) && SemWaitOk(s) && Shifts(s, s', t)
    ensures SemWaitOk(s')
  {
    forall u | u in s'.local && u != t && Committed(s'.local[u].loc) && s'.local[u].loc.cv == KERNEL_SEM_CV
      ensures s'.sem <= 0
    {
      assert ShapeOk(s.local[u].loc);
      assert Owns(s, u, KERNEL_MUTEX);
    }
  }

  lemma TokenMove(s: Cc, s': Cc, t: Tid)
    requires TokenOk(s) && Shifts(s, s', t)
    ensures TokenOk(s')
  {
    var before, after := HoldsToken(s.local[t].loc), HoldsToken(s'.local[t].loc);
    if before && !after {
      assert Tokens(s'.local) == Tokens(s.local) - {t};
    } else if !before && after {
      assert Tokens(s'.local) == Tokens(s.local) + {t};
    } else {
      assert Tokens(s'.local) == Tokens(s.local);
    }
  }

  ghost predicate Framework(s: Cc) {
    LocalsOk(s) && LocksOk(s) && OwnersOk(s) && SemWaitOk(s) && TokenOk(s)
  }

  /** Everything the move itself settles. What remains to be shown of a step is that the rings,
      the scheduler states and the obligation towards the semaphore's waiters are right. */
  lemma ShiftKeeps(s: Cc, s': Cc, t: Tid)
    requires Framework(s) && Shifts(s, s', t)
    ensures Framework(s')
  {
    hide LocalsOk, LocksOk, OwnersOk, SemWaitOk, TokenOk, Shifts;
    LocalsMove(s, s', t);
    LocksMove(s, s', t);
    OwnersMove(s, s', t);
    SemWaitMove(s, s', t);
    TokenMove(s, s', t);
  }

  /** The rings are unchanged, and `t` is on the same ones as before. */
  lemma RingsMove(s: Cc, s': Cc, t: Tid)
    requires RingsOk(s) && s'.ring == s.ring && t in s.local && t in s'.local && s'.local == s.local[t := s'.local[t]]
    requires forall cv :: Enqueued(s'.local[t], cv) <==> Enqueued(s.local[t], cv)
    ensures RingsOk(s')
  {
    assert forall cv :: Ring(s', cv) == Ring(s, cv);
  }

  /** The running thread moves on without the scheduler's help. */
  lemma MatchMove(s: Cc, s': Cc, t: Tid)
    requires ThreadsMatch(s) && s'.sched == s.sched && t in s.local && t in s'.local
    requires s'.local == s.local[t := s'.local[t]] && t in s.sched.tcb && SchedMatch(s'.local[t], s.sched.tcb[t])
    ensures ThreadsMatch(s')
  {
  }

  /** `t` goes on serving the waiters of the semaphore, or leaves that to another. */
  lemma StrandMove(s: Cc, s': Cc, t: Tid)
    requires NotStranded(s) && Shifts(s, s', t)
    requires s'.sem > 0 && Ring(s', KERNEL_SEM_CV) != [] ==> s.sem > 0 && Ring(s, KERNEL_SEM_CV) != []
    requires Notified(s.local[t]) || (Owns(s, t, KERNEL_MUTEX) && WillServe(s.local[t].loc)) ==>
      || Notified(s'.local[t]) || (Owns(s', t, KERNEL_MUTEX) && WillServe(s'.local[t].loc))
      || s'.sem <= 0 || Ring(s', KERNEL_SEM_CV) == []
    ensures NotStranded(s')
  {
    if s'.sem > 0 && Ring(s', KERNEL_SEM_CV) != [] {
      if SomeNotified(s.local) {
        var u :| u in s.local && Notified(s.local[u]);
        assert u in s'.local && (u == t || Notified(s'.local[u]));
      } else {
        var u :| u in s.local && Owns(s, u, KERNEL_MUTEX) && WillServe(s.local[u].loc);
        assert u in s'.local && (u == t || Owns(s', u, KERNEL_MUTEX));
      }
    }
  }

  // ----- steps that touch neither the rings nor the scheduler -----

  lemma ActorRuns(s: Cc, c: nat)
    requires CInv(s) && Acts(s, c)
    ensures var t := s.sched.cores[c].current;
      && t in s.sched.tcb && s.sched.tcb[t].state == RUNNING && s.sched.tcb[t].kind == NORMAL_THREAD
      && s.local[t].loc != Dead && SchedMatch(s.local[t], s.sched.tcb[t])
  {
    assert CoreOk(s.sched, s.sched.cores[c]);
  }

  predicate Serving(s: Cc, t: Tid)
    requires t in s.local
  {
    Notified(s.local[t]) || (Owns(s, t, KERNEL_MUTEX) && WillServe(s.local[t].loc))
  }

  lemma QuietStep(s: Cc, s': Cc, t: Tid)
    requires CInv(s) && Moves(s, s', t) && s'.sched == s.sched && s'.ring == s.ring
    requires t in s.sched.tcb && SchedMatch(s'.local[t], s.sched.tcb[t])
    requires forall cv :: Enqueued(s'.local[t], cv) <==> Enqueued(s.local[t], cv)
    requires s.sem < s'.sem || (Serving(s, t) && 0 < s'.sem && Ring(s, KERNEL_SEM_CV) != []) ==> Serving(s', t)
    ensures CInv(s')
  {
    assert t in s.local && t in s'.local && s'.local == s.local[t := s'.local[t]];
    hide Inv, LocalsOk, LocksOk, OwnersOk, WokenOk, SemWaitOk, TokenOk, RingsOk, ThreadsMatch, Shifts;
    ShiftKeeps(s, s', t);
    WokenMove(s, s', t);
    RingsMove(s, s', t);
    MatchMove(s, s', t);
    assert Ring(s', KERNEL_SEM_CV) == Ring(s, KERNEL_SEM_CV);
    if s'.sem <= s.sem {
      StrandMove(s, s', t);
    }
  }

  /** What the invariant says about one thread and the locks around it. */
  ghost predicate Facts(s: Cc, t: Tid) {
    && t in s.local
    && var l := s.local[t];
    && ShapeOk(l.loc) && FlagsOk(l)
    && (Owns(s, t, KERNEL_MUTEX) <==> HoldsKernelMutex(l.loc))
    && (Committed(l.loc) ==> Owns(s, t, l.loc.mx))
    && (HeldLock(l.loc) != NO_LOCK ==> HeldLock(l.loc) in s.lock && s.lock[HeldLock(l.loc)] == t)
    && (HoldsToken(l.loc) ==> s.sem <= 0)
    && 0 <= s.sem <= 1
  }

  lemma ThreadFacts(s: Cc, t: Tid)
    requires CInv(s) && t in s.local
    ensures Facts(s, t)
  {
    if HoldsToken(s.local[t].loc) {
      assert t in Tokens(s.local);
    }
  }

  /** A thread that exists is where its scheduler state says. */
  lemma MatchFacts(s: Cc, t: Tid)
    requires CInv(s) && t in s.local && t in s.sched.tcb
    ensures SchedMatch(s.local[t], s.sched.tcb[t])
  {
  }

  lemma MutexMoves(s: Cc, a: CStep)
    requires (a.UserLock? || a.UserUnlock?) && CEnabled(s, a) && Facts(s, Actor(s, a))
    ensures Moves(s, CApply(s, a), Actor(s, a))
  {
  }

  lemma MonitorMoves(s: Cc, a: CStep)
    requires (a.UserWait? || a.Signal?) && CEnabled(s, a) && Facts(s, Actor(s, a))
    ensures Moves(s, CApply(s, a), Actor(s, a))
  {
  }

  lemma KernelMoves(s: Cc, a: CStep)
    requires (a.EnterKernel? || a.LeaveKernel?) && CEnabled(s, a) && Facts(s, Actor(s, a))
    ensures Moves(s, CApply(s, a), Actor(s, a))
  {
  }

  lemma MutexKeeps(s: Cc, a: CStep)
    requires CInv(s) && CEnabled(s, a) && (a.UserLock? || a.UserUnlock?)
    ensures CInv(CApply(s, a))
  {
    hide CInv, Moves;
    var t := Actor(s, a);
    ActorRuns(s, a.core);
    ThreadFacts(s, t);
    MutexMoves(s, a);
    QuietStep(s, CApply(s, a), t);
  }

  lemma MonitorKeeps(s: Cc, a: CStep)
    requires CInv(s) && CEnabled(s, a) && (a.UserWait? || a.Signal?)
    ensures CInv(CApply(s, a))
  {
    hide CInv, Moves;
    var t := Actor(s, a);
    ActorRuns(s, a.core);
    ThreadFacts(s, t);
    MonitorMoves(s, a);
    QuietStep(s, CApply(s, a), t);
  }

  lemma KernelKeeps(s: Cc, a: CStep)
    requires CInv(s) && CEnabled(s, a) && (a.EnterKernel? || a.LeaveKernel?)
    ensures CInv(CApply(s, a))
  {
    hide CInv, Moves;
    var t := Actor(s, a);
    ActorRuns(s, a.core);
    ThreadFacts(s, t);
    KernelMoves(s, a);
    QuietStep(s, CApply(s, a), t);
  }

  /** Locking and unlocking user mutexes, calling the monitor operations, entering the kernel
      and leaving it. */
  lemma CallKeeps(s: Cc, a: CStep)
    requires CInv(s) && CEnabled(s, a)
    requires a.UserLock? || a.UserUnlock? || a.UserWait? || a.Signal? || a.EnterKernel? || a.LeaveKernel?
    ensures CInv(CApply(s, a))
  {
    hide CInv, CApply, CEnabled;
    if a.UserLock? || a.UserUnlock? {
      MutexKeeps(s, a);
    } else if a.UserWait? || a.Signal? {
      MonitorKeeps(s, a);
    } else {
      KernelKeeps(s, a);
    }
  }

  predicate OnTheWayIn(loc: Loc) {
    loc.LockWant? || loc.SemTest? || loc.GiveWant? || (loc.GiveDone? && !loc.after.ThenExit?)
  }

  predicate OnTheWayOut(s: Cc, loc: Loc) {
    loc.WaitQueued? || loc.WaitRelock? || loc.SigWant? || (loc.SigLoop? && Ring(s, loc.cv) == [])
  }

  /** What `QuietStep` asks of a step. */
  ghost predicate Quiet(s: Cc, s': Cc, t: Tid, th: Thread) {
    && t in s.local && t in s'.local
    && s'.sched == s.sched && s'.ring == s.ring && SchedMatch(s'.local[t], th)
    && (forall cv :: Enqueued(s'.local[t], cv) <==> Enqueued(s.local[t], cv))
    && (s.sem < s'.sem || (Serving(s, t) && 0 < s'.sem && Ring(s, KERNEL_SEM_CV) != []) ==> Serving(s', t))
  }

  lemma AskMoves(s: Cc, c: nat, t: Tid, now: Clock)
    requires Facts(s, t) && (s.local[t].loc.LockWant? || s.local[t].loc.SemTest?) && CanAdvance(s, c, t, now)
    ensures Moves(s, AdvanceTo(s, c, t, now), t)
  {
  }

  lemma GiveMoves(s: Cc, c: nat, t: Tid, now: Clock)
    requires Facts(s, t) && CanAdvance(s, c, t, now)
    requires var l := s.local[t].loc; l.GiveWant? || (l.GiveDone? && !l.after.ThenExit?)
    ensures Moves(s, AdvanceTo(s, c, t, now), t)
  {
  }

  lemma WayInMoves(s: Cc, c: nat, t: Tid, now: Clock)
    requires t in s.local && Facts(s, t) && OnTheWayIn(s.local[t].loc) && CanAdvance(s, c, t, now)
    ensures Moves(s, AdvanceTo(s, c, t, now), t)
  {
    hide Facts, Moves, AdvanceTo, CanAdvance;
    if s.local[t].loc.LockWant? || s.local[t].loc.SemTest? {
      AskMoves(s, c, t, now);
    } else {
      GiveMoves(s, c, t, now);
    }
  }

  lemma WayInQuiet(s: Cc, c: nat, t: Tid, now: Clock, th: Thread)
    requires Facts(s, t) && OnTheWayIn(s.local[t].loc) && CanAdvance(s, c, t, now)
    requires SchedMatch(s.local[t], th) && th.state == RUNNING
    ensures Quiet(s, AdvanceTo(s, c, t, now), t, th)
  {
  }

  lemma WayOutMoves(s: Cc, c: nat, t: Tid, now: Clock)
    requires Facts(s, t) && OnTheWayOut(s, s.local[t].loc) && CanAdvance(s, c, t, now)
    ensures Moves(s, AdvanceTo(s, c, t, now), t)
  {
  }

  lemma WayOutQuiet(s: Cc, c: nat, t: Tid, now: Clock, th: Thread)
    requires Facts(s, t) && OnTheWayOut(s, s.local[t].loc) && CanAdvance(s, c, t, now)
    requires SchedMatch(s.local[t], th) && th.state == RUNNING
    ensures Quiet(s, AdvanceTo(s, c, t, now), t, th)
  {
  }

  lemma QuietKeeps(s: Cc, c: nat, t: Tid, now: Clock)
    requires CInv(s) && Acts(s, c) && t == s.sched.cores[c].current && CanAdvance(s, c, t, now)
    requires OnTheWayIn(s.local[t].loc) || OnTheWayOut(s, s.local[t].loc)
    ensures CInv(AdvanceTo(s, c, t, now))
  {
    hide CInv, Moves, AdvanceTo, CanAdvance, SchedMatch, Facts, Serving, Enqueued;
    ActorRuns(s, c);
    ThreadFacts(s, t);
    if OnTheWayIn(s.local[t].loc) {
      WayInMoves(s, c, t, now);
      WayInQuiet(s, c, t, now, s.sched.tcb[t]);
    } else {
      WayOutMoves(s, c, t, now);
      WayOutQuiet(s, c, t, now, s.sched.tcb[t]);
    }
    QuietStep(s, AdvanceTo(s, c, t, now), t);
  }

  // ----- waiting -----

  lemma BeginWaitMoves(s: Cc, t: Tid)
    requires Facts(s, t) && s.local[t].loc.WaitWant? && s.local[t].loc.cv !in s.lock
    requires s.local[t].loc.cv == KERNEL_SEM_CV ==> s.sem <= 0
    ensures Moves(s, BeginWait(s, t), t)
  {
  }

  lemma BeginWaitRings(s: Cc, t: Tid)
    requires RingsOk(s) && t in s.local && s.local[t].loc.WaitWant?
    ensures RingsOk(BeginWait(s, t))
  {
    var s', cv := BeginWait(s, t), s.local[t].loc.cv;
    assert t !in Ring(s, cv);
    assert Ring(s', cv) == Ring(s, cv) + [t];
    assert forall d :: d != cv ==> Ring(s', d) == Ring(s, d);
    assert forall u :: u in Ring(s', cv) <==> u in Ring(s, cv) || u == t;
  }

  lemma DownWhenCommitted(s: Cc, t: Tid)
    requires SemWaitOk(s) && t in s.local && Committed(s.local[t].loc) && s.local[t].loc.cv == KERNEL_SEM_CV
    ensures s.sem <= 0
  {
  }

  lemma BeginWaitKeeps(s: Cc, c: nat, t: Tid)
    requires CInv(s) && Acts(s, c) && t == s.sched.cores[c].current
    requires s.local[t].loc.WaitWant? && s.local[t].loc.cv !in s.lock
    ensures CInv(BeginWait(s, t))
  {
    hide LocalsOk, LocksOk, OwnersOk, SemWaitOk, TokenOk, WokenOk, Shifts, Facts, RingsOk, ThreadsMatch, Inv;
    var s' := BeginWait(s, t);
    ActorRuns(s, c);
    ThreadFacts(s, t);
    if s.local[t].loc.cv == KERNEL_SEM_CV {
      DownWhenCommitted(s, t);
    }
    BeginWaitMoves(s, t);
    BeginWaitRings(s, t);
    ShiftKeeps(s, s', t);
    WokenMove(s, s', t);
    MatchMove(s, s', t);
    StrandMove(s, s', t);
  }

  /** Going to sleep changes no other thread, and the sleeper has a wake-up time only if it
      asked for one. */
  lemma SleepEffect(s: Sched, c: nat, st: ThreadState, timeout: Time, now: Clock)
    requires Inv(s) && Enabled(s, DoSleep(c, st, timeout, now))
    ensures var s', t := Apply(s, DoSleep(c, st, timeout, now)), s.cores[c].current;
      && s'.tcb.Keys == s.tcb.Keys
      && (forall u :: u in s.tcb && u != t ==> s'.tcb[u] == s.tcb[u])
      && s'.tcb[t].state == st && s'.tcb[t].kind == s.tcb[t].kind
      && (timeout == NO_TIMEOUT ==> s'.tcb[t].wakeup == NO_TIMEOUT)
  {
    assert CoreOk(s, s.cores[c]) && ThreadOk(s.tcb[s.cores[c].current]);
  }

  lemma SleepInSched(s: Sched, c: nat, st: ThreadState, timeout: Time, now: Clock)
    requires Inv(s) && CanSleep(s, DoSleep(c, st, timeout, now))
    ensures var s', t := Apply(s, DoSleep(c, st, timeout, now)), s.cores[c].current;
      && Inv(s') && t in s'.tcb && t in s.tcb
      && s'.tcb.Keys == s.tcb.Keys
      && (forall u :: u in s.tcb && u != t ==> s'.tcb[u] == s.tcb[u])
      && s'.tcb[t].state == st && s'.tcb[t].kind == s.tcb[t].kind
      && (timeout == NO_TIMEOUT ==> s'.tcb[t].wakeup == NO_TIMEOUT)
  {
    StepKeeps(s, DoSleep(c, st, timeout, now));
    SleepEffect(s, c, st, timeout, now);
  }

  lemma MatchSleep(s: Cc, s': Cc, t: Tid)
    requires ThreadsMatch(s) && t in s.local && t in s'.local && s'.local == s.local[t := s'.local[t]]
    requires s'.sched.tcb.Keys == s.sched.tcb.Keys && t in s.sched.tcb
    requires forall u :: u in s.sched.tcb && u != t ==> s'.sched.tcb[u] == s.sched.tcb[u]
    requires s'.sched.tcb[t].kind == s.sched.tcb[t].kind && SchedMatch(s'.local[t], s'.sched.tcb[t])
    ensures ThreadsMatch(s')
  {
  }

  lemma FallAsleepMoves(s: Cc, c: nat, t: Tid, now: Clock)
    requires Facts(s, t) && s.local[t].loc.WaitReleased? && Enabled(s.sched, DoSleep(c, STOPPED, s.local[t].loc.timeout, now))
    ensures Moves(s, FallAsleep(s, c, t, now), t)
  {
  }

  lemma FallAsleepKeeps(s: Cc, c: nat, t: Tid, now: Clock)
    requires CInv(s) && Acts(s, c) && t == s.sched.cores[c].current
    requires s.local[t].loc.WaitReleased? && CanSleep(s.sched, DoSleep(c, STOPPED, s.local[t].loc.timeout, now))
    ensures CInv(FallAsleep(s, c, t, now))
  {
    hide LocalsOk;
    hide LocksOk, OwnersOk, SemWaitOk, TokenOk, WokenOk, Shifts, Facts, RingsOk, ThreadsMatch, Inv, Apply, Enabled, MarkerFree;
    var s' := FallAsleep(s, c, t, now);
    ActorRuns(s, c);
    ThreadFacts(s, t);
    assert FlagsOk(s.local[t]);
    SleepInSched(s.sched, c, STOPPED, s.local[t].loc.timeout, now);
    FallAsleepMoves(s, c, t, now);
    RingsMove(s, s', t);
    ShiftKeeps(s, s', t);
    WokenMove(s, s', t);
    MatchSleep(s, s', t);
    StrandMove(s, s', t);
  }

  lemma TidyUpMoves(s: Cc, t: Tid)
    requires Facts(s, t) && s.local[t].loc.WaitAsleep? && s.local[t].loc.cv !in s.lock
    ensures Moves(s, TidyUp(s, t), t)
  {
  }

  lemma TidyUpRings(s: Cc, t: Tid)
    requires RingsOk(s) && t in s.local && s.local[t].loc.WaitAsleep?
    ensures RingsOk(TidyUp(s, t))
  {
    var s', cv := TidyUp(s, t), s.local[t].loc.cv;
    assert forall d :: d != cv ==> Ring(s', d) == Ring(s, d);
    if !s.local[t].removed {
      RemoveMembers(Ring(s, cv), t);
      assert Ring(s', cv) == Remove(Ring(s, cv), t);
    } else {
      assert Ring(s', cv) == Ring(s, cv);
    }
  }

  lemma TidyUpKeeps(s: Cc, c: nat, t: Tid)
    requires CInv(s) && Acts(s, c) && t == s.sched.cores[c].current
    requires s.local[t].loc.WaitAsleep? && s.local[t].loc.cv !in s.lock
    ensures CInv(TidyUp(s, t))
  {
    hide LocalsOk, LocksOk, OwnersOk, SemWaitOk, TokenOk, WokenOk, Shifts, Facts, RingsOk, ThreadsMatch, Inv;
    var s' := TidyUp(s, t);
    ActorRuns(s, c);
    ThreadFacts(s, t);
    if Ring(s, KERNEL_SEM_CV) == [] {
      assert t !in Ring(s, KERNEL_SEM_CV);
    }
    TidyUpMoves(s, t);
    TidyUpRings(s, t);
    ShiftKeeps(s, s', t);
    WokenMove(s, s', t);
    MatchMove(s, s', t);
    StrandMove(s, s', t);
  }

  // ----- signalling -----

  /** The first waiter of a ring that `t` has locked. */
  lemma HeadWaits(s: Cc, t: Tid)
    requires LocalsOk(s) && LocksOk(s) && RingsOk(s) && ThreadsMatch(s)
    requires t in s.local && s.local[t].loc.SigLoop? && Ring(s, s.local[t].loc.cv) != []
    ensures var cv := s.local[t].loc.cv; var w := Ring(s, cv)[0];
      && w != t && w in s.local && w in s.sched.tcb && s.local[w].loc.WaitAsleep? && s.local[w].loc.cv == cv
      && !s.local[w].removed && !s.local[w].signalled && SchedMatch(s.local[w], s.sched.tcb[w])
  {
    var cv := s.local[t].loc.cv;
    var w := Ring(s, cv)[0];
    assert w in Ring(s, cv);
    assert Enqueued(s.local[w], cv) && FlagsOk(s.local[w]);
    assert HeldLock(s.local[t].loc) == cv && s.lock[cv] == t;
    assert HeldLock(s.local[w].loc) == NO_LOCK;
  }

  lemma SignalHead(s: Cc, t: Tid)
    requires CInv(s) && t in s.local && s.local[t].loc.SigLoop? && Ring(s, s.local[t].loc.cv) != []
    ensures var cv := s.local[t].loc.cv; var w := Ring(s, cv)[0];
      && w != t && w in s.local && w in s.sched.tcb && s.local[w].loc.WaitAsleep? && s.local[w].loc.cv == cv
      && !s.local[w].removed && !s.local[w].signalled && SchedMatch(s.local[w], s.sched.tcb[w])
  {
    hide Inv, LocalsOk, LocksOk, RingsOk, ThreadsMatch, Ring;
    HeadWaits(s, t);
  }

  /** The waiter's record after it has been taken off the ring and woken. */
  function Popped(s: Cc, t: Tid): Cc
    requires t in s.local && s.local[t].loc.SigLoop?
    requires var r := Ring(s, s.local[t].loc.cv); r != [] && r[0] in s.local && r[0] in s.sched.tcb
  {
    var cv := s.local[t].loc.cv;
    var w := Ring(s, cv)[0];
    s.(ring := s.ring[cv := Ring(s, cv)[1..]], local := s.local[w := s.local[w].(removed := true)],
       sched := Apply(s.sched, DoWakeup(w)))
  }

  lemma PoppedRings(s: Cc, t: Tid)
    requires RingsOk(s) && t in s.local && s.local[t].loc.SigLoop? && Ring(s, s.local[t].loc.cv) != []
    requires Ring(s, s.local[t].loc.cv)[0] in s.local && Ring(s, s.local[t].loc.cv)[0] in s.sched.tcb
    ensures RingsOk(Popped(s, t))
  {
    hide Apply;
    var s', cv := Popped(s, t), s.local[t].loc.cv;
    var r := Ring(s, cv);
    var w := r[0];
    assert NoDup(r) && r == [w] + r[1..];
    forall d, u ensures u in Ring(s', d) <==> u in s'.local && Enqueued(s'.local[u], d) {
      assert d != cv ==> Ring(s', d) == Ring(s, d);
      assert u in Ring(s, d) <==> u in s.local && Enqueued(s.local[u], d);
      if d == cv {
        assert u in r <==> u == w || u in r[1..];
      }
      assert w in Ring(s, cv);
    }
  }

  lemma WakeupEffect(s: Sched, w: Tid)
    requires Inv(s) && w in s.tcb
    ensures Inv(Apply(s, DoWakeup(w)))
    ensures var s' := Apply(s, DoWakeup(w));
      && s'.tcb.Keys == s.tcb.Keys
      && (forall u :: u in s.tcb && u != w ==> s'.tcb[u] == s.tcb[u])
      && s'.tcb[w].kind == s.tcb[w].kind
      && s'.tcb[w].state == if Wakeable(s.tcb[w]) then READY else s.tcb[w].state
  {
    StepKeeps(s, DoWakeup(w));
  }

  lemma PoppedShifts(s: Cc, t: Tid, w: Tid)
    requires t in s.local && s.local[t].loc.SigLoop? && Ring(s, s.local[t].loc.cv) != []
    requires w == Ring(s, s.local[t].loc.cv)[0] && w in s.sched.tcb && Facts(s, w) && s.local[w].loc.WaitAsleep?
    ensures Shifts(s, Popped(s, t), w)
  {
  }

  lemma PoppedWoken(s: Cc, t: Tid, w: Tid)
    requires LocksOk(s) && WokenOk(s) && t in s.local && s.local[t].loc.SigLoop? && Ring(s, s.local[t].loc.cv) != []
    requires w == Ring(s, s.local[t].loc.cv)[0] && w in s.sched.tcb && w in s.local && !s.local[w].removed
    ensures WokenOk(Popped(s, t))
  {
    var s' := Popped(s, t);
    forall u | u in s'.local && s'.local[u].loc.SigWoke?
      ensures s'.local[u].loc.woken in s'.local && WokenMatch(s'.local[u], s'.local[s'.local[u].loc.woken])
    {
      assert WokenMatch(s.local[u], s.local[s.local[u].loc.woken]);
    }
  }

  lemma PoppedKeeps(s: Cc, t: Tid)
    requires CInv(s) && t in s.local && s.local[t].loc.SigLoop? && Ring(s, s.local[t].loc.cv) != []
    requires var w := Ring(s, s.local[t].loc.cv)[0]; w in s.local && w in s.sched.tcb
    ensures CInv(Popped(s, t))
    ensures s.local[t].loc.cv == KERNEL_SEM_CV ==> SomeNotified(Popped(s, t).local)
  {
    hide Inv, LocalsOk, LocksOk, OwnersOk, WokenOk, SemWaitOk, TokenOk, ThreadsMatch, RingsOk, Apply, Shifts, Facts;
    var s', cv := Popped(s, t), s.local[t].loc.cv;
    var w := Ring(s, cv)[0];
    HeadWaits(s, t);
    ThreadFacts(s, w);
    WakeupEffect(s.sched, w);
    assert Notified(s'.local[w]) || cv != KERNEL_SEM_CV;
    PoppedRings(s, t);
    PoppedShifts(s, t, w);
    PoppedWoken(s, t, w);
    ShiftKeeps(s, s', w);
    MatchSleep(s, s', w);
    if cv != KERNEL_SEM_CV {
      StrandMove(s, s', w);
    }
  }

  lemma SignalTurnKeeps(s: Cc, t: Tid)
    requires CInv(s) && t in s.local && s.local[t].loc.SigLoop? && Ring(s, s.local[t].loc.cv) != []
    requires t in s.sched.tcb && s.sched.tcb[t].state == RUNNING
    requires var w := Ring(s, s.local[t].loc.cv)[0]; w in s.local && w in s.sched.tcb && w != t
    ensures CInv(SignalTurn(s, t))
  {
    var s1, s2 := Popped(s, t), SignalTurn(s, t);
    var w := Ring(s, s.local[t].loc.cv)[0];
    HeadWaits(s, t);
    PoppedKeeps(s, t);
    if Wakeable(s.sched.tcb[w]) {
      ThreadFacts(s1, t);
      WakeupEffect(s.sched, w);
      SigWokeKeeps(s1, s2, t, w);
    }
  }

  lemma SigWokeShifts(s: Cc, s': Cc, t: Tid, w: Tid)
    requires Facts(s, t) && s.local[t].loc.SigLoop? && w != t
    requires var l := s.local[t].loc; s' == At(s, t, SigWoke(l.cv, l.all, l.ret, w))
    ensures Shifts(s, s', t) && forall cv :: Enqueued(s'.local[t], cv) <==> Enqueued(s.local[t], cv)
  {
  }

  lemma SigWokeWoken(s: Cc, s': Cc, t: Tid, w: Tid)
    requires WokenOk(s) && t in s.local && s.local[t].loc.SigLoop?
    requires var l := s.local[t].loc; s' == At(s, t, SigWoke(l.cv, l.all, l.ret, w))
    requires w in s.local && w != t && s.local[w].loc.WaitAsleep? && s.local[w].loc.cv == s.local[t].loc.cv
    requires s.local[w].removed && !s.local[w].signalled
    ensures WokenOk(s')
  {
    forall u | u in s'.local && s'.local[u].loc.SigWoke?
      ensures s'.local[u].loc.woken in s'.local && WokenMatch(s'.local[u], s'.local[s'.local[u].loc.woken])
    {
      assert u != t ==> WokenMatch(s.local[u], s.local[s.local[u].loc.woken]);
    }
  }

  /** The signaller notes that its wakeup succeeded. */
  lemma SigWokeKeeps(s: Cc, s': Cc, t: Tid, w: Tid)
    requires CInv(s) && t in s.local && Facts(s, t) && s.local[t].loc.SigLoop? && t in s.sched.tcb && s.sched.tcb[t].state == RUNNING
    requires var l := s.local[t].loc; s' == At(s, t, SigWoke(l.cv, l.all, l.ret, w))
    requires w in s.local && w != t && s.local[w].loc.WaitAsleep? && s.local[w].loc.cv == s.local[t].loc.cv
    requires s.local[w].removed && !s.local[w].signalled
    ensures CInv(s')
  {
    hide Inv, LocalsOk, LocksOk, OwnersOk, WokenOk, SemWaitOk, TokenOk, ThreadsMatch, RingsOk, Shifts, Facts, Enqueued;
    MatchFacts(s, t);
    assert w in s'.local && (Notified(s'.local[w]) || s.local[t].loc.cv != KERNEL_SEM_CV);
    SigWokeShifts(s, s', t, w);
    SigWokeWoken(s, s', t, w);
    ShiftKeeps(s, s', t);
    RingsMove(s, s', t);
    MatchMove(s, s', t);
    if s.local[t].loc.cv != KERNEL_SEM_CV {
      StrandMove(s, s', t);
    }
  }

  /** The signaller's own move after a success; the woken waiter is marked afterwards. */
  function WithoutMark(s: Cc, t: Tid): Cc
    requires t in s.local && s.local[t].loc.SigWoke?
  {
    var l := s.local[t].loc;
    if l.all then At(s, t, SigLoop(l.cv, l.all, l.ret)) else SignalDone(s, t)
  }

  lemma WithoutMarkMoves(s: Cc, t: Tid)
    requires Facts(s, t) && s.local[t].loc.SigWoke?
    ensures Moves(s, WithoutMark(s, t), t)
    ensures forall cv :: Enqueued(WithoutMark(s, t).local[t], cv) <==> Enqueued(s.local[t], cv)
    ensures !Serving(s, t)
  {
  }

  lemma WithoutMarkKeeps(s: Cc, t: Tid)
    requires CInv(s) && t in s.local && s.local[t].loc.SigWoke? && t in s.sched.tcb && s.sched.tcb[t].state == RUNNING
    ensures CInv(WithoutMark(s, t))
  {
    hide CInv, Moves, Facts, Enqueued, Serving;
    ThreadFacts(s, t);
    MatchFacts(s, t);
    WithoutMarkMoves(s, t);
    QuietStep(s, WithoutMark(s, t), t);
  }

  /** The waiter that a signaller holds as woken; no other signaller holds it too. */
  lemma WokenIsOurs(s: Cc, t: Tid)
    requires LocksOk(s) && WokenOk(s) && t in s.local && s.local[t].loc.SigWoke?
    ensures var w := s.local[t].loc.woken;
      && w in s.local && w != t && WokenMatch(s.local[t], s.local[w])
      && forall u :: u in s.local && u != t && s.local[u].loc.SigWoke? ==> s.local[u].loc.woken != w
  {
    var w := s.local[t].loc.woken;
    assert WokenMatch(s.local[t], s.local[w]);
    forall u | u in s.local && u != t && s.local[u].loc.SigWoke? ensures s.local[u].loc.woken != w {
      assert WokenMatch(s.local[u], s.local[s.local[u].loc.woken]);
      assert HeldLock(s.local[u].loc) in s.lock && HeldLock(s.local[t].loc) in s.lock;
    }
  }

  lemma MarkShifts(s: Cc, s': Cc, w: Tid)
    requires Facts(s, w) && WokenOk(s) && s.local[w].removed && s.local[w].loc.WaitAsleep?
    requires s' == s.(local := s.local[w := s.local[w].(signalled := true)])
    requires forall u :: u in s.local && s.local[u].loc.SigWoke? ==> s.local[u].loc.woken != w
    ensures Shifts(s, s', w) && WokenOk(s')
  {
    forall u | u in s'.local && s'.local[u].loc.SigWoke?
      ensures s'.local[u].loc.woken in s'.local && WokenMatch(s'.local[u], s'.local[s'.local[u].loc.woken])
    {
      assert WokenMatch(s.local[u], s.local[s.local[u].loc.woken]);
    }
  }

  lemma MarkKeeps(s: Cc, s': Cc, w: Tid)
    requires CInv(s) && w in s.local && w in s.sched.tcb && s.local[w].removed && s.local[w].loc.WaitAsleep?
    requires s' == s.(local := s.local[w := s.local[w].(signalled := true)])
    requires forall u :: u in s.local && s.local[u].loc.SigWoke? ==> s.local[u].loc.woken != w
    ensures CInv(s')
  {
    hide Inv, LocalsOk, LocksOk, OwnersOk, WokenOk, SemWaitOk, TokenOk, ThreadsMatch, RingsOk, Shifts, Facts;
    ThreadFacts(s, w);
    MatchFacts(s, w);
    MarkShifts(s, s', w);
    ShiftKeeps(s, s', w);
    RingsMove(s, s', w);
    MatchMove(s, s', w);
    StrandMove(s, s', w);
  }

  lemma WaiterExists(s: Cc, w: Tid)
    requires CInv(s) && w in s.local && s.local[w].loc.WaitAsleep?
    ensures w in s.sched.tcb
  {
  }

  lemma MarkCommutes(s: Cc, t: Tid)
    requires t in s.local && s.local[t].loc.SigWoke? && s.local[t].loc.woken in s.local && s.local[t].loc.woken != t
    ensures var s1, w := WithoutMark(s, t), s.local[t].loc.woken;
      && w in s1.local && s1.local[w] == s.local[w]
      && s1.sched == s.sched
      && (forall u :: u in s1.local && s1.local[u].loc.SigWoke? ==> u != t && u in s.local && s1.local[u] == s.local[u])
      && MarkSignalled(s, t) == s1.(local := s1.local[w := s1.local[w].(signalled := true)])
  {
    var s1, w := WithoutMark(s, t), s.local[t].loc.woken;
    assert MarkSignalled(s, t).local == s1.local[w := s1.local[w].(signalled := true)];
  }

  lemma MarkSignalledKeeps(s: Cc, t: Tid)
    requires CInv(s) && t in s.local && s.local[t].loc.SigWoke? && t in s.sched.tcb && s.sched.tcb[t].state == RUNNING
    requires var w := s.local[t].loc.woken; w in s.local && w != t
    ensures CInv(MarkSignalled(s, t))
  {
    var w, s1 := s.local[t].loc.woken, WithoutMark(s, t);
    WokenIsOurs(s, t);
    WaiterExists(s, w);
    WithoutMarkKeeps(s, t);
    hide CInv, WithoutMark, MarkSignalled;
    MarkCommutes(s, t);
    MarkKeeps(s1, MarkSignalled(s, t), w);
  }

  // ----- leaving for good, and new threads -----

  lemma ExitMoves(s: Cc, c: nat, t: Tid, now: Clock)
    requires Facts(s, t) && s.local[t].loc == GiveDone(ThenExit) && Enabled(s.sched, DoSleep(c, EXITED, NO_TIMEOUT, now))
    ensures Moves(s, Exit(s, c, t, now), t)
  {
  }

  lemma ExitKeeps(s: Cc, c: nat, t: Tid, now: Clock)
    requires CInv(s) && Acts(s, c) && t == s.sched.cores[c].current
    requires s.local[t].loc == GiveDone(ThenExit) && CanSleep(s.sched, DoSleep(c, EXITED, NO_TIMEOUT, now))
    ensures CInv(Exit(s, c, t, now))
  {
    hide LocalsOk, LocksOk, OwnersOk, SemWaitOk, TokenOk, WokenOk, Shifts, Facts, RingsOk, ThreadsMatch, Inv, Apply, Enabled, MarkerFree;
    var s' := Exit(s, c, t, now);
    ActorRuns(s, c);
    ThreadFacts(s, t);
    SleepInSched(s.sched, c, EXITED, NO_TIMEOUT, now);
    ExitMoves(s, c, t, now);
    RingsMove(s, s', t);
    ShiftKeeps(s, s', t);
    WokenMove(s, s', t);
    MatchSleep(s, s', t);
    StrandMove(s, s', t);
  }

  /** A new thread, outside the kernel, on an address that nobody uses. */
  lemma NewLocalFrame(s: Cc, s': Cc, u: Tid)
    requires Framework(s) && RingsOk(s) && WokenOk(s) && NotStranded(s)
    requires u in s.local ==> s.local[u].loc == Dead
    requires s' == s.(sched := s'.sched, local := s.local[u := Local(Outside, false, false)])
    ensures LocalsOk(s') && LocksOk(s') && OwnersOk(s') && SemWaitOk(s')
  {
  }

  lemma NewLocalRest(s: Cc, s': Cc, u: Tid)
    requires Framework(s) && RingsOk(s) && NotStranded(s)
    requires u in s.local ==> s.local[u].loc == Dead
    requires s' == s.(sched := s'.sched, local := s.local[u := Local(Outside, false, false)])
    ensures TokenOk(s') && RingsOk(s') && NotStranded(s')
  {
    assert Tokens(s'.local) == Tokens(s.local);
    assert forall cv :: Ring(s', cv) == Ring(s, cv);
    if SomeNotified(s.local) {
      var v :| v in s.local && Notified(s.local[v]);
      assert v in s'.local && Notified(s'.local[v]);
    }
    if SomeServes(s) {
      var v :| v in s.local && Owns(s, v, KERNEL_MUTEX) && WillServe(s.local[v].loc);
      assert v in s'.local && Owns(s', v, KERNEL_MUTEX) && WillServe(s'.local[v].loc);
    }
  }

  lemma NewLocalWoken(s: Cc, s': Cc, u: Tid)
    requires WokenOk(s)
    requires u in s.local ==> s.local[u].loc == Dead
    requires s' == s.(sched := s'.sched, local := s.local[u := Local(Outside, false, false)])
    ensures WokenOk(s')
  {
    forall v | v in s'.local && s'.local[v].loc.SigWoke?
      ensures s'.local[v].loc.woken in s'.local && WokenMatch(s'.local[v], s'.local[s'.local[v].loc.woken])
    {
      assert WokenMatch(s.local[v], s.local[s.local[v].loc.woken]);
    }
  }

  lemma CreateMatch(s: Cc, c: nat, u: Tid)
    requires Inv(s.sched) && ThreadsMatch(s) && Enabled(s.sched, DoSpawn(c, u))
    ensures Inv(Apply(s.sched, DoSpawn(c, u))) && (u in s.local ==> s.local[u].loc == Dead)
    ensures ThreadsMatch(s.(sched := Apply(s.sched, DoSpawn(c, u)), local := s.local[u := Local(Outside, false, false)]))
  {
    hide Inv;
    ExecutingStays(s.sched, c);
    SpawnKeeps(s.sched, u);
  }

  lemma CreateKeeps(s: Cc, c: nat, u: Tid)
    requires CInv(s) && CEnabled(s, CreateThread(c, u))
    ensures CInv(CApply(s, CreateThread(c, u)))
  {
    hide Inv, LocalsOk, LocksOk, OwnersOk, WokenOk, SemWaitOk, TokenOk, ThreadsMatch, RingsOk, NotStranded, Apply;
    var s' := CApply(s, CreateThread(c, u));
    CreateMatch(s, c, u);
    NewLocalFrame(s, s', u);
    NewLocalWoken(s, s', u);
    NewLocalRest(s, s', u);
  }

  /** Only the scheduler has moved. */
  lemma SchedOnlyKeeps(s: Cc, s': Cc)
    requires CInv(s) && s' == s.(sched := s'.sched) && Inv(s'.sched) && ThreadsMatch(s')
    ensures CInv(s')
  {
    hide Inv, ThreadsMatch;
    assert forall cv :: Ring(s', cv) == Ring(s, cv);
    assert forall t, m :: Owns(s', t, m) == Owns(s, t, m);
    if SomeServes(s) {
      var v :| v in s.local && Owns(s, v, KERNEL_MUTEX) && WillServe(s.local[v].loc);
      assert v in s'.local && Owns(s', v, KERNEL_MUTEX) && WillServe(s'.local[v].loc);
    }
  }

  lemma StartMatch(s: Cc, u: Tid)
    requires Inv(s.sched) && ThreadsMatch(s) && u in s.sched.tcb && s.sched.tcb[u].state == INIT
    ensures ThreadsMatch(s.(sched := Apply(s.sched, DoWakeup(u)))) && Inv(Apply(s.sched, DoWakeup(u)))
  {
    assert ThreadOk(s.sched.tcb[u]);
    hide Inv, Apply;
    WakeupEffect(s.sched, u);
    assert u in s.local && SchedMatch(s.local[u], s.sched.tcb[u]);
  }

  lemma StartKeeps(s: Cc, c: nat, u: Tid)
    requires CInv(s) && CEnabled(s, StartThread(c, u))
    ensures CInv(CApply(s, StartThread(c, u)))
  {
    hide Inv, ThreadsMatch, LocksOk, OwnersOk, WokenOk, SemWaitOk, TokenOk, RingsOk, NotStranded, LocalsOk, Apply;
    StartMatch(s, u);
    SchedOnlyKeeps(s, CApply(s, StartThread(c, u)));
  }

  lemma SchedStepThread(s: Cc, a: Step, t: Tid)
    requires CInv(s) && CEnabled(s, SchedStep(a)) && t in s.local
    ensures var tcb' := Apply(s.sched, a).tcb;
      if t in tcb' then t in s.sched.tcb && SchedMatch(s.local[t], tcb'[t]) else s.local[t].loc == Dead
  {
    if t in s.sched.tcb {
      StepThreads(s.sched, a, t);
      assert SchedMatch(s.local[t], s.sched.tcb[t]) && ThreadOk(s.sched.tcb[t]);
      if !a.DoSwap? && !a.DoLeave? {
        assert CoreOk(s.sched, s.sched.cores[a.core]);
      }
    } else {
      StepBirths(s.sched, a, t);
    }
  }

  lemma SchedStepKeeps(s: Cc, a: Step)
    requires CInv(s) && CEnabled(s, SchedStep(a))
    ensures CInv(CApply(s, SchedStep(a)))
  {
    var s' := CApply(s, SchedStep(a));
    StepKeeps(s.sched, a);
    forall t ensures t in s'.sched.tcb && s'.sched.tcb[t].kind == NORMAL_THREAD ==> t in s'.local {
      if t in s.sched.tcb {
        StepThreads(s.sched, a, t);
      } else {
        StepBirths(s.sched, a, t);
      }
    }
    forall t | t in s'.local
      ensures s'.local[t].loc != Dead ==> t in s'.sched.tcb
      ensures t in s'.sched.tcb ==> SchedMatch(s'.local[t], s'.sched.tcb[t])
    {
      SchedStepThread(s, a, t);
    }
    SchedOnlyKeeps(s, s');
  }

  // ----- all steps -----

  lemma AdvanceKeeps(s: Cc, c: nat, t: Tid, now: Clock)
    requires CInv(s) && Acts(s, c) && t == s.sched.cores[c].current && CanAdvance(s, c, t, now)
    ensures CInv(AdvanceTo(s, c, t, now))
  {
    hide CInv;
    ActorRuns(s, c);
    match s.local[t].loc
    case WaitWant(_, _, _, _) => BeginWaitKeeps(s, c, t);
    case WaitReleased(_, _, _, _) => FallAsleepKeeps(s, c, t, now);
    case WaitAsleep(_, _, _, _) => TidyUpKeeps(s, c, t);
    case SigLoop(cv, _, _) =>
      if Ring(s, cv) == [] {
        QuietKeeps(s, c, t, now);
      } else {
        SignalTurnKeeps(s, t);
      }
    case SigWoke(_, _, _, _) => MarkSignalledKeeps(s, t);
    case GiveDone(ThenExit) => ExitKeeps(s, c, t, now);
    case _ => QuietKeeps(s, c, t, now);
  }

  /** Every step keeps the invariant. */
  lemma CStepKeeps(s: Cc, a: CStep)
    requires CInv(s) && CEnabled(s, a)
    ensures CInv(CApply(s, a))
  {
    hide CInv, AdvanceTo;
    match a
    case SchedStep(b) => SchedStepKeeps(s, b);
    case CreateThread(c, u) => CreateKeeps(s, c, u);
    case StartThread(c, u) => StartKeeps(s, c, u);
    case Advance(c, now) => AdvanceKeeps(s, c, Actor(s, a), now);
    case _ => CallKeeps(s, a);
  }
}
