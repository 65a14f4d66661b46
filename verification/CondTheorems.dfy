/** What holds in every run of the monitors and of the kernel semaphore. */
module CondTheorems {
  import opened ListSpec
  import opened SchedModel
  import opened SchedInvariant
  import opened SchedTheorems
  import opened CondModel
  import opened CondInvariant
  import opened CondSteps

  // ----- waits without a timeout end only by a signal -----

  ghost predicate BeingMarked(s: Cc, t: Tid) {
    exists u :: u in s.local && s.local[u].loc.SigWoke? && s.local[u].loc.woken == t
  }

  /** Woken for good: taken off the ring without a timeout that could have been the reason. */
  predicate Chosen(l: Local) {
    (l.loc.WaitRelock? || (l.loc.WaitAsleep? && l.removed)) && l.loc.timeout == NO_TIMEOUT
  }

  ghost predicate MarkedOk(s: Cc) {
    forall t :: t in s.local && Chosen(s.local[t]) ==>
      s.local[t].signalled || (s.local[t].loc.WaitAsleep? && BeingMarked(s, t))
  }

  lemma MarkedMove(s: Cc, s': Cc, t: Tid)
    requires MarkedOk(s) && t in s'.local && s'.local == s.local[t := s'.local[t]]
    requires t in s.local ==> !s.local[t].loc.SigWoke?
    requires Chosen(s'.local[t]) ==> s'.local[t].signalled
    ensures MarkedOk(s')
  {
    forall u | u in s.local && BeingMarked(s, u) ensures BeingMarked(s', u) {
      var v :| v in s.local && s.local[v].loc.SigWoke? && s.local[v].loc.woken == u;
      assert v in s'.local && s'.local[v] == s.local[v];
    }
  }

  lemma MarkedTurn(s: Cc, t: Tid)
    requires CInv(s) && MarkedOk(s) && t in s.local && s.local[t].loc.SigLoop? && Ring(s, s.local[t].loc.cv) != []
    requires var w := Ring(s, s.local[t].loc.cv)[0]; w in s.local && w in s.sched.tcb && w != t
    ensures MarkedOk(SignalTurn(s, t))
  {
    hide CInv, Apply, Ring;
    var s' := SignalTurn(s, t);
    var w := Ring(s, s.local[t].loc.cv)[0];
    SignalHead(s, t);
    assert Chosen(s'.local[w]) ==> s'.local[t].loc.SigWoke? && s'.local[t].loc.woken == w;
    forall u | u in s'.local && Chosen(s'.local[u])
      ensures s'.local[u].signalled || (s'.local[u].loc.WaitAsleep? && BeingMarked(s', u))
    {
      if u != w && BeingMarked(s, u) {
        var v :| v in s.local && s.local[v].loc.SigWoke? && s.local[v].loc.woken == u;
        assert v in s'.local && s'.local[v].loc == s.local[v].loc;
      }
    }
  }

  lemma MarkedMark(s: Cc, t: Tid)
    requires MarkedOk(s) && t in s.local && s.local[t].loc.SigWoke? && s.local[t].loc.woken in s.local && s.local[t].loc.woken != t
    ensures MarkedOk(MarkSignalled(s, t))
  {
    var s', w := MarkSignalled(s, t), s.local[t].loc.woken;
    assert s'.local[w] == s.local[w].(signalled := true);
    forall u | u in s.local && u != w && BeingMarked(s, u) ensures BeingMarked(s', u) {
      var v :| v in s.local && s.local[v].loc.SigWoke? && s.local[v].loc.woken == u;
      assert v in s'.local && s'.local[v].loc == s.local[v].loc;
    }
  }

  lemma BeingMarkedIsLocked(s: Cc, t: Tid)
    requires LocksOk(s) && WokenOk(s) && BeingMarked(s, t)
    ensures t in s.local && s.local[t].loc.WaitAsleep? && s.local[t].loc.cv in s.lock
  {
    var u :| u in s.local && s.local[u].loc.SigWoke? && s.local[u].loc.woken == t;
    assert WokenMatch(s.local[u], s.local[t]);
    assert HeldLock(s.local[u].loc) in s.lock;
  }

  /** A waiter without a timeout that runs again has been signalled. */
  lemma AwakeIsSignalled(s: Cc, c: nat)
    requires CInv(s) && MarkedOk(s) && Acts(s, c)
    requires var l := s.local[s.sched.cores[c].current]; l.loc.WaitAsleep? && l.loc.timeout == NO_TIMEOUT && l.loc.cv !in s.lock
    ensures s.local[s.sched.cores[c].current].signalled
  {
    var t := s.sched.cores[c].current;
    ActorRuns(s, c);
    if BeingMarked(s, t) {
      BeingMarkedIsLocked(s, t);
    }
  }

  /** The sections that leave the other threads' flags alone. */
  lemma MarkedElsewhere(s: Cc, c: nat, t: Tid, now: Clock)
    requires t in s.local && FlagsOk(s.local[t]) && CanAdvance(s, c, t, now) && (Chosen(s.local[t]) ==> s.local[t].signalled)
    requires !s.local[t].loc.SigWoke? && (s.local[t].loc.SigLoop? ==> Ring(s, s.local[t].loc.cv) == [])
    requires s.local[t].loc.WaitAsleep? && s.local[t].loc.timeout == NO_TIMEOUT ==> s.local[t].signalled
    ensures var s' := AdvanceTo(s, c, t, now);
      t in s'.local && s'.local == s.local[t := s'.local[t]] && (Chosen(s'.local[t]) ==> s'.local[t].signalled)
  {
    hide AdvanceTo, CanAdvance, FlagsOk;
    if Waiting(s.local[t].loc) {
      MarkedWaiting(s, c, t, now);
    } else {
      MarkedAwake(s, c, t, now);
    }
  }

  lemma MarkedWaiting(s: Cc, c: nat, t: Tid, now: Clock)
    requires t in s.local && FlagsOk(s.local[t]) && CanAdvance(s, c, t, now) && (Chosen(s.local[t]) ==> s.local[t].signalled)
    requires Waiting(s.local[t].loc)
    requires s.local[t].loc.WaitAsleep? && s.local[t].loc.timeout == NO_TIMEOUT ==> s.local[t].signalled
    ensures var s' := AdvanceTo(s, c, t, now);
      t in s'.local && s'.local == s.local[t := s'.local[t]] && (Chosen(s'.local[t]) ==> s'.local[t].signalled)
  {
    hide Apply, Enabled;
  }

  lemma MarkedAwake(s: Cc, c: nat, t: Tid, now: Clock)
    requires t in s.local && CanAdvance(s, c, t, now) && !Waiting(s.local[t].loc)
    requires !s.local[t].loc.SigWoke? && (s.local[t].loc.SigLoop? ==> Ring(s, s.local[t].loc.cv) == [])
    ensures var s' := AdvanceTo(s, c, t, now);
      t in s'.local && s'.local == s.local[t := s'.local[t]] && !s'.local[t].loc.WaitAsleep? && !s'.local[t].loc.WaitRelock?
  {
    hide Apply, Enabled;
    match s.local[t].loc {
      case GiveDone(after) =>
      case SigLoop(_, _, _) =>
      case _ =>
    }
  }

  lemma AdvancingIsMarked(s: Cc, c: nat)
    requires CInv(s) && MarkedOk(s) && Acts(s, c)
    ensures var l := s.local[s.sched.cores[c].current];
      && FlagsOk(l)
      && (l.loc.WaitAsleep? && l.loc.timeout == NO_TIMEOUT && l.loc.cv !in s.lock ==> l.signalled)
      && (Chosen(l) && (l.loc.WaitAsleep? ==> l.loc.cv !in s.lock) ==> l.signalled)
  {
    hide Inv;
    var t := s.sched.cores[c].current;
    if s.local[t].loc.WaitAsleep? && s.local[t].loc.timeout == NO_TIMEOUT && s.local[t].loc.cv !in s.lock {
      AwakeIsSignalled(s, c);
    }
  }

  lemma MarkedAdvance(s: Cc, c: nat, t: Tid, now: Clock)
    requires CInv(s) && MarkedOk(s) && Acts(s, c) && t == s.sched.cores[c].current && CanAdvance(s, c, t, now)
    ensures MarkedOk(AdvanceTo(s, c, t, now))
  {
    hide CInv, MarkedOk, Chosen;
    AdvancingIsMarked(s, c);
    if s.local[t].loc.SigWoke? {
      MarkedMark(s, t);
    } else if s.local[t].loc.SigLoop? && Ring(s, s.local[t].loc.cv) != [] {
      MarkedTurn(s, t);
    } else {
      MarkedElsewhere(s, c, t, now);
      MarkedMove(s, AdvanceTo(s, c, t, now), t);
    }
  }

  lemma MarkedStep(s: Cc, a: CStep)
    requires CInv(s) && MarkedOk(s) && CEnabled(s, a)
    ensures MarkedOk(CApply(s, a))
  {
    hide CInv, MarkedOk, Apply, AdvanceTo, CanAdvance;
    match a
    case Advance(c, now) => MarkedAdvance(s, c, Actor(s, a), now);
    case CreateThread(c, u) =>
      NewThreadIsNew(s, a);
      MarkedMove(s, CApply(s, a), u);
    case SchedStep(_) => SameMarks(s, CApply(s, a));
    case StartThread(_, _) => SameMarks(s, CApply(s, a));
    case UserLock(_, _) => SameMarks(s, CApply(s, a));
    case UserUnlock(_, _) => SameMarks(s, CApply(s, a));
    case _ => MarkedMove(s, CApply(s, a), Actor(s, a));
  }

  lemma SameMarks(s: Cc, s': Cc)
    requires MarkedOk(s) && s'.local == s.local
    ensures MarkedOk(s')
  {
    assert forall t :: BeingMarked(s, t) <==> BeingMarked(s', t);
  }

  // ----- runs -----

  ghost predicate CBoot(s: Cc, init: Tid) {
    && Boot(s.sched, init)
    && s.local == map[init := Local(Outside, false, false)]
    && s.owner == map[] && s.lock == map[] && s.ring == map[]
    && s.sem == 1
  }

  ghost predicate CRun(tr: seq<Cc>, steps: seq<CStep>, init: Tid) {
    && |tr| == |steps| + 1
    && CBoot(tr[0], init)
    && forall i :: 0 <= i < |steps| ==> CEnabled(tr[i], steps[i]) && tr[i + 1] == CApply(tr[i], steps[i])
  }

  lemma CBootInv(s: Cc, init: Tid)
    requires CBoot(s, init)
    ensures CInv(s) && MarkedOk(s)
  {
    hide Inv;
    BootInv(s.sched, init);
    assert Tokens(s.local) == {};
    assert forall t :: t in s.sched.tcb ==> t == init || s.sched.tcb[t] == NEW_IDLE;
  }

  lemma {:induction false} CRunInv(tr: seq<Cc>, steps: seq<CStep>, init: Tid, n: nat)
    requires CRun(tr, steps, init) && n < |tr|
    ensures CInv(tr[n]) && MarkedOk(tr[n])
  {
    hide CInv, MarkedOk;
    if n == 0 {
      CBootInv(tr[0], init);
    } else {
      CRunInv(tr, steps, init, n - 1);
      CStepKeeps(tr[n - 1], steps[n - 1]);
      MarkedStep(tr[n - 1], steps[n - 1]);
    }
  }

  // ----- no lost wakeup -----

  /** The thread has released its mutex in `cv_wait`, and nobody has taken it off the ring. */
  predicate WaitsUnnoticed(l: Local, cv: CvId) {
    (l.loc.WaitReleased? || l.loc.WaitAsleep?) && l.loc.cv == cv && !l.removed
  }

  /** Thread `t` sleeps on a condition variable before the step, and is awake and still on the
      ring after it. */
  predicate WakesOnRing(s: Cc, s': Cc, t: Tid) {
    && t in s.local && t in s.sched.tcb && s.local[t].loc.WaitAsleep? && s.sched.tcb[t].state == STOPPED
    && t in s'.local && t in s'.sched.tcb && s'.local[t].loc.WaitAsleep? && !s'.local[t].removed
    && s'.sched.tcb[t].state != STOPPED
  }

  predicate ExpiresAt(s: Cc, a: CStep, t: Tid) {
    a.SchedStep? && a.a.DoYield? && t in s.sched.tcb && Due(s.sched.tcb[t], a.a.now)
  }

  /** What a section of another thread does to a thread: nothing, unless it takes it off a ring. */
  lemma OthersAsleep(s: Cc, c: nat, u: Tid, now: Clock, t: Tid)
    requires c < |s.sched.cores| && u == s.sched.cores[c].current && u in s.local && CanAdvance(s, c, u, now)
    requires t != u && t in s.local && t in s.sched.tcb
    ensures var s' := AdvanceTo(s, c, u, now);
      && t in s'.local && s'.local[t].loc == s.local[t].loc
      && (s'.local[t].removed
          || (!s.local[t].removed && t in s'.sched.tcb && s'.sched.tcb[t] == s.sched.tcb[t]))
  {
    hide InsertionPoint, Remove;
    match s.local[u].loc {
      case SigLoop(_, _, _) =>
      case SigWoke(_, _, _, _) =>
      case WaitReleased(_, _, _, _) =>
      case GiveDone(_) =>
      case _ =>
    }
  }

  /** A sleeper that wakes while still on the ring is woken by the expiry of its timeout, in a
      yield at or after its wake-up time. */
  lemma OnlyTimeoutsWake(s: Cc, a: CStep, t: Tid)
    requires CInv(s) && CEnabled(s, a) && WakesOnRing(s, CApply(s, a), t)
    ensures ExpiresAt(s, a, t) && CApply(s, a).sched.tcb[t].state == READY
  {
    hide InsertionPoint, Remove, YieldLocked, AdvanceTo, CanAdvance;
    match a
    case StartThread(_, u) =>
      StepThreads(s.sched, DoWakeup(u), t);
    case SchedStep(b) =>
      StepThreads(s.sched, b, t);
      if b.DoGain? {
        GainThreads(s.sched, b.core);
      }
    case Advance(c, now) =>
      ActorRuns(s, c);
      OthersAsleep(s, c, Actor(s, a), now, t);
    case CreateThread(_, u) =>
      NewThreadIsNew(s, a);
    case _ =>
  }

  /** Asleep, or awake, on the ring: then it was on the ring in the same wait before the step,
      unless the step has just put it to sleep. */
  predicate OnRing(s: Cc, t: Tid) {
    t in s.local && t in s.sched.tcb && s.local[t].loc.WaitAsleep? && !s.local[t].removed
  }

  lemma OnRingBefore(s: Cc, a: CStep, t: Tid)
    requires CInv(s) && CEnabled(s, a) && OnRing(CApply(s, a), t) && CApply(s, a).sched.tcb[t].state != STOPPED
    ensures OnRing(s, t) && s.local[t].loc == CApply(s, a).local[t].loc
  {
    hide CInv, InsertionPoint, Remove, YieldLocked, MakeReady, AdvanceTo, CanAdvance;
    match a
    case SchedStep(b) =>
      if t !in s.sched.tcb {
        StepBirths(s.sched, b, t);
      }
    case StartThread(_, u) =>
      if t !in s.sched.tcb {
        StepBirths(s.sched, DoWakeup(u), t);
      }
    case Advance(c, now) =>
      ActorRuns(s, c);
      var u := Actor(s, a);
      if t == u {
        OwnSection(s, c, u, now);
      } else {
        OthersLocal(s, c, u, now, t);
        OthersExist(s, c, u, now, t);
      }
    case CreateThread(_, u) =>
      NewThreadIsNew(s, a);
    case _ =>
  }

  /** A thread's own section leaves it asleep on a ring only by putting it to sleep. */
  lemma OwnSection(s: Cc, c: nat, t: Tid, now: Clock)
    requires c < |s.sched.cores| && t == s.sched.cores[c].current && t in s.local && CanAdvance(s, c, t, now)
    ensures var s' := AdvanceTo(s, c, t, now);
      t in s'.local && s'.local[t].loc.WaitAsleep? ==> t in s'.sched.tcb && s'.sched.tcb[t].state == STOPPED
  {
    hide InsertionPoint, Remove, MakeReady;
    match s.local[t].loc {
      case WaitReleased(_, _, _, _) =>
      case SigLoop(_, _, _) =>
      case _ =>
    }
  }

  lemma OthersLocal(s: Cc, c: nat, u: Tid, now: Clock, t: Tid)
    requires c < |s.sched.cores| && u == s.sched.cores[c].current && u in s.local && CanAdvance(s, c, u, now) && t != u
    ensures var s' := AdvanceTo(s, c, u, now);
      && (t in s'.local <==> t in s.local)
      && (t in s'.local ==> s'.local[t].loc == s.local[t].loc && (s'.local[t].removed || !s.local[t].removed))
  {
    hide Apply, Enabled;
    match s.local[u].loc {
      case SigLoop(_, _, _) =>
      case SigWoke(_, _, _, _) =>
      case _ =>
    }
  }

  lemma OthersExist(s: Cc, c: nat, u: Tid, now: Clock, t: Tid)
    requires c < |s.sched.cores| && u == s.sched.cores[c].current && u in s.local && CanAdvance(s, c, u, now)
    ensures t in AdvanceTo(s, c, u, now).sched.tcb <==> t in s.sched.tcb
  {
    hide InsertionPoint, Remove;
    match s.local[u].loc {
      case SigLoop(_, _, _) =>
      case WaitReleased(_, _, _, _) =>
      case GiveDone(_) =>
      case _ =>
    }
  }

  predicate AwakeOnRing(s: Cc, t: Tid) {
    OnRing(s, t) && s.sched.tcb[t].state != STOPPED
  }

  /** The timeout of `t` expired in step `k`, in the wait that it is in at `n`: it has been awake on
      the ring ever since. */
  ghost predicate TimedOut(tr: seq<Cc>, steps: seq<CStep>, k: nat, n: nat, t: Tid) {
    && k < n < |tr| && k < |steps|
    && OnRing(tr[k], t) && OnRing(tr[n], t) && tr[k].local[t].loc == tr[n].local[t].loc
    && tr[k].sched.tcb[t].state == STOPPED && ExpiresAt(tr[k], steps[k], t)
    && forall j :: k < j <= n ==> AwakeOnRing(tr[j], t)
  }

  /** In every run, whoever is awake and still on the ring has been woken by its own timeout. */
  lemma {:induction false} AwakeByTimeout(tr: seq<Cc>, steps: seq<CStep>, init: Tid, n: nat, t: Tid) returns (k: nat)
    requires CRun(tr, steps, init) && n < |tr| && OnRing(tr[n], t) && tr[n].sched.tcb[t].state != STOPPED
    ensures TimedOut(tr, steps, k, n, t)
  {
    hide CInv, MarkedOk, CApply, CEnabled;
    k := n - 1;
    CRunInv(tr, steps, init, k);
    OnRingBefore(tr[k], steps[k], t);
    if tr[k].sched.tcb[t].state == STOPPED {
      OnlyTimeoutsWake(tr[k], steps[k], t);
    } else {
      k := AwakeByTimeout(tr, steps, init, k, t);
    }
  }

  /** In every run: a waiter that has released its mutex is on the ring until somebody takes it
      off. Whenever the lock of the ring is free, everybody on it is asleep, or awake by its own
      timeout. And every sleeping thread is on the ring that it waits on, so that the next
      signal or broadcast finds it. */
  lemma NoLostWakeup(tr: seq<Cc>, steps: seq<CStep>, init: Tid, n: nat, cv: CvId, t: Tid)
    requires CRun(tr, steps, init) && n < |tr|
    ensures var s := tr[n];
      t in s.local && WaitsUnnoticed(s.local[t], cv) ==> t in Ring(s, cv)
    ensures var s := tr[n];
      cv !in s.lock && t in Ring(s, cv) ==>
        && t in s.local && t in s.sched.tcb && s.local[t].loc.WaitAsleep?
        && (s.sched.tcb[t].state == STOPPED ||
            (s.local[t].loc.timeout != NO_TIMEOUT && exists k :: TimedOut(tr, steps, k, n, t)))
    ensures var s := tr[n];
      t in s.local && t in s.sched.tcb && s.sched.tcb[t].state == STOPPED ==>
        s.local[t].loc.WaitAsleep? && t in Ring(s, s.local[t].loc.cv)
  {
    hide Inv, OwnersOk, WokenOk, SemWaitOk, TokenOk, NotStranded, MarkedOk, CRun;
    var s := tr[n];
    CRunInv(tr, steps, init, n);
    if t in s.local {
      assert FlagsOk(s.local[t]);
      assert HeldLock(s.local[t].loc) != NO_LOCK ==> HeldLock(s.local[t].loc) in s.lock;
    }
    if OnRing(s, t) && s.sched.tcb[t].state != STOPPED {
      var k := AwakeByTimeout(tr, steps, init, n, t);
    }
  }

  /** In every run: a signalled waiter has been removed, a removed one is on no ring and awake
      (so the assertion in `cv_wait` holds), and a wait without a timeout is over only when it
      has been signalled. */
  lemma FlagsTheorem(tr: seq<Cc>, steps: seq<CStep>, init: Tid, n: nat, t: Tid)
    requires CRun(tr, steps, init) && n < |tr| && t in tr[n].local
    ensures var s := tr[n]; var l := s.local[t];
      && (l.signalled ==> l.removed)
      && (l.removed ==> forall cv :: t !in Ring(s, cv))
      && (l.loc.WaitAsleep? && l.removed ==> t in s.sched.tcb && s.sched.tcb[t].state != STOPPED)
      && (l.loc.WaitRelock? && l.loc.timeout == NO_TIMEOUT ==> l.signalled)
  {
    CRunInv(tr, steps, init, n);
    assert FlagsOk(tr[n].local[t]);
  }

  /** One turn of a signal: the first waiter of the ring is taken off. If it was still asleep it
      is ready now and the signal is spent on it; if its timeout had woken it before, nothing
      else happens to it and the signal goes on to the next. */
  lemma SignalTurnTheorem(tr: seq<Cc>, steps: seq<CStep>, init: Tid, n: nat)
    requires CRun(tr, steps, init) && n < |steps| && steps[n].Advance?
    requires var t := Actor(tr[n], steps[n]); tr[n].local[t].loc.SigLoop? && Ring(tr[n], tr[n].local[t].loc.cv) != []
    ensures var s, s', t := tr[n], tr[n + 1], Actor(tr[n], steps[n]);
      var cv := s.local[t].loc.cv; var w := Ring(s, cv)[0];
      && Ring(s', cv) == Ring(s, cv)[1..]
      && w in s.sched.tcb && w in s'.sched.tcb && s'.local[w] == s.local[w].(removed := true)
      && if s.sched.tcb[w].state == STOPPED
         then s'.sched.tcb[w].state == READY && s'.local[t].loc.SigWoke? && s'.local[t].loc.woken == w
         else s'.sched.tcb == s.sched.tcb && s'.local[t] == s.local[t]
  {
    hide CInv, MarkedOk;
    var s, t := tr[n], Actor(tr[n], steps[n]);
    CRunInv(tr, steps, init, n);
    SignalHead(s, t);
    assert tr[n + 1] == SignalTurn(s, t);
  }

  // ----- the kernel's waits are atomic -----

  /** Between raising the semaphore and releasing the kernel mutex, on the way out of the kernel: to
      unlock it, to wait on a condition of the kernel, or to exit. */
  predicate GivesUpKernel(loc: Loc) {
    || ((loc.SigWant? || loc.SigLoop? || loc.SigWoke?) && loc.ret.ToGive?)
    || loc.GiveDone?
    || (Committed(loc) && loc.mx == KERNEL_MUTEX && loc.cv != KERNEL_SEM_CV)
  }

  ghost predicate HandoverOk(s: Cc) {
    forall t :: t in s.local && GivesUpKernel(s.local[t].loc) ==> s.sem == 1
  }

  /** Two threads do not hold the kernel mutex together. */
  lemma OneMutexHolder(s: Cc, t: Tid, u: Tid)
    requires CInv(s) && t in s.local && u in s.local
    requires HoldsKernelMutex(s.local[t].loc) && HoldsKernelMutex(s.local[u].loc)
    ensures t == u
  {
    assert Owns(s, t, KERNEL_MUTEX) && Owns(s, u, KERNEL_MUTEX);
  }

  lemma HandoverSection(s: Cc, c: nat, t: Tid, now: Clock)
    requires t in s.local && Facts(s, t) && CanAdvance(s, c, t, now) && (GivesUpKernel(s.local[t].loc) ==> s.sem == 1)
    ensures var s' := AdvanceTo(s, c, t, now);
      && t in s'.local && (GivesUpKernel(s'.local[t].loc) ==> s'.sem == 1)
      && (s'.sem == s.sem || HoldsKernelMutex(s.local[t].loc) || KERNEL_MUTEX !in s.owner)
      && (s'.sem != s.sem ==> !GivesUpKernel(s.local[t].loc))
  {
    hide AdvanceTo, CanAdvance, GivesUpKernel, Facts;
    if s.local[t].loc.SigWant? || s.local[t].loc.SigLoop? || s.local[t].loc.SigWoke? {
      HandoverSignal(s, c, t, now);
    } else {
      HandoverOther(s, c, t, now);
    }
  }

  lemma HandoverSignal(s: Cc, c: nat, t: Tid, now: Clock)
    requires t in s.local && CanAdvance(s, c, t, now) && (GivesUpKernel(s.local[t].loc) ==> s.sem == 1)
    requires s.local[t].loc.SigWant? || s.local[t].loc.SigLoop? || s.local[t].loc.SigWoke?
    ensures var s' := AdvanceTo(s, c, t, now);
      t in s'.local && s'.sem == s.sem && (GivesUpKernel(s'.local[t].loc) ==> s'.sem == 1)
  {
    hide Apply, Enabled;
  }

  lemma HandoverOther(s: Cc, c: nat, t: Tid, now: Clock)
    requires Facts(s, t) && CanAdvance(s, c, t, now) && (GivesUpKernel(s.local[t].loc) ==> s.sem == 1)
    requires !s.local[t].loc.SigWant? && !s.local[t].loc.SigLoop? && !s.local[t].loc.SigWoke?
    ensures var s' := AdvanceTo(s, c, t, now);
      && t in s'.local && (GivesUpKernel(s'.local[t].loc) ==> s'.sem == 1)
      && (s'.sem == s.sem || HoldsKernelMutex(s.local[t].loc) || KERNEL_MUTEX !in s.owner)
      && (s'.sem != s.sem ==> !GivesUpKernel(s.local[t].loc))
  {
    hide Apply, Enabled;
    match s.local[t].loc {
      case GiveWant(_) =>
      case GiveDone(_) =>
      case _ =>
    }
  }

  lemma HandoverAdvance(s: Cc, c: nat, t: Tid, now: Clock)
    requires CInv(s) && HandoverOk(s) && Acts(s, c) && t == s.sched.cores[c].current && CanAdvance(s, c, t, now)
    ensures HandoverOk(AdvanceTo(s, c, t, now))
  {
    hide CInv, Facts, CanAdvance, AdvanceTo;
    var s' := AdvanceTo(s, c, t, now);
    ThreadFacts(s, t);
    HandoverSection(s, c, t, now);
    forall u | u in s'.local && GivesUpKernel(s'.local[u].loc) ensures s'.sem == 1 {
      if u != t {
        OthersLocal(s, c, t, now, u);
        GiverHoldsMutex(s, u);
        if s'.sem != s.sem && HoldsKernelMutex(s.local[t].loc) {
          OneMutexHolder(s, t, u);
        }
      }
    }
  }

  lemma GiverHoldsMutex(s: Cc, t: Tid)
    requires CInv(s) && t in s.local && GivesUpKernel(s.local[t].loc)
    ensures HoldsKernelMutex(s.local[t].loc) && KERNEL_MUTEX in s.owner
  {
    hide Inv;
    assert Owns(s, t, KERNEL_MUTEX) <==> HoldsKernelMutex(s.local[t].loc);
  }

  lemma HandoverStep(s: Cc, a: CStep)
    requires CInv(s) && HandoverOk(s) && CEnabled(s, a)
    ensures HandoverOk(CApply(s, a))
  {
    hide CInv, AdvanceTo, CanAdvance, Apply, Enabled;
    match a
    case Advance(c, now) => HandoverAdvance(s, c, Actor(s, a), now);
    case _ =>
  }

  lemma {:induction false} HandoverRun(tr: seq<Cc>, steps: seq<CStep>, init: Tid, n: nat)
    requires CRun(tr, steps, init) && n < |tr|
    ensures HandoverOk(tr[n])
  {
    hide CInv, MarkedOk, HandoverOk, CApply, CEnabled;
    if n == 0 {
      HandoverBoot(tr[0], init);
    } else {
      HandoverRun(tr, steps, init, n - 1);
      CRunInv(tr, steps, init, n - 1);
      HandoverStep(tr[n - 1], steps[n - 1]);
    }
  }

  lemma HandoverBoot(s: Cc, init: Tid)
    requires CBoot(s, init)
    ensures HandoverOk(s)
  {
  }

  /** A wait of the kernel tests and falls asleep in one step, as far as the kernel can see. In
      every run, from the moment that the waiting thread raises the semaphore, nobody is inside the
      kernel until it has released the kernel mutex; and from then on it is on the ring of its
      condition until somebody takes it off. So whoever gets inside finds it there. */
  lemma KernelWaitIsAtomic(tr: seq<Cc>, steps: seq<CStep>, init: Tid, n: nat, t: Tid, u: Tid, cv: CvId)
    requires CRun(tr, steps, init) && n < |tr| && t in tr[n].local && u in tr[n].local
    ensures GivesUpKernel(tr[n].local[t].loc) ==> tr[n].sem == 1 && !HoldsToken(tr[n].local[u].loc)
    ensures WaitsUnnoticed(tr[n].local[t], cv) ==> t in Ring(tr[n], cv)
  {
    hide CRun, CInv, MarkedOk, GivesUpKernel, HoldsToken, WaitsUnnoticed;
    HandoverRun(tr, steps, init, n);
    SemaphoreTheorem(tr, steps, init, n, u, u);
    NoLostWakeup(tr, steps, init, n, cv, t);
  }

  // ----- the order of the locks -----

  /** The one proviso of a thread about to sleep in the kernel: its wake-up time must not be the
      marker. Waits of user code cannot reach it. */
  predicate MaySleep(s: Cc, c: nat, t: Tid, now: Clock)
    requires t in s.local
  {
    var loc := s.local[t].loc;
    loc.WaitReleased? && loc.mx == KERNEL_MUTEX ==> MarkerFree(DoSleep(c, STOPPED, loc.timeout, now))
  }

  lemma SleepEnabled(s: Cc, c: nat, st: ThreadState, timeout: Time, now: Clock)
    requires CInv(s) && Acts(s, c) && (st == STOPPED || st == EXITED)
    ensures Enabled(s.sched, DoSleep(c, st, timeout, now))
  {
    assert Inv(s.sched);
    var sched := s.sched;
    forall i | 0 <= i < |sched.timeouts| ensures sched.timeouts[i] in sched.tcb {
      assert sched.timeouts[i] in sched.timeouts;
    }
  }

  /** Whoever holds the lock of a ring can always go on: it never waits for another lock. */
  lemma RingHolderNeverStuck(s: Cc, c: nat, now: Clock)
    requires CInv(s) && Acts(s, c)
    requires var t := s.sched.cores[c].current; HeldLock(s.local[t].loc) != NO_LOCK && MaySleep(s, c, t, now)
    ensures CEnabled(s, Advance(c, now))
  {
    hide Inv, LocalsOk, ThreadsMatch, LocksOk, OwnersOk, RingsOk, WokenOk, SemWaitOk, TokenOk, NotStranded, Enabled, MarkerFree;
    var t := s.sched.cores[c].current;
    var loc := s.local[t].loc;
    ThreadFacts(s, t);
    if loc.SigWoke? {
      WokenIsOurs(s, t);
    } else if loc.SigLoop? {
      if Ring(s, loc.cv) != [] {
        SignalHead(s, t);
      }
    } else if loc.WaitReleased? {
      SleepEnabled(s, c, STOPPED, loc.timeout, now);
      if loc.mx != KERNEL_MUTEX {
        MillisecondsAreMarkerFree(DoSleep(c, STOPPED, loc.timeout, now));
      }
    }
  }

  /** The ring lock that a thread is about to take. */
  function WantedLock(loc: Loc): int {
    if loc.WaitWant? || loc.WaitAsleep? || loc.SigWant? then loc.cv else NO_LOCK
  }

  predicate HeldByAnother(s: Cc, cv: int, t: Tid) {
    && 0 <= cv && cv in s.lock && s.lock[cv] != t && s.lock[cv] in s.local
    && HeldLock(s.local[s.lock[cv]].loc) == cv
  }

  /** Whoever holds the kernel mutex can go on, or wants the lock of a ring that another thread
      holds. As the holder of that lock can go on, and no holder of a ring lock wants the kernel
      mutex, there is no circular wait among these locks. */
  lemma KernelMutexHolderWaits(s: Cc, c: nat, now: Clock)
    requires CInv(s) && Acts(s, c) && Owns(s, s.sched.cores[c].current, KERNEL_MUTEX)
    ensures var t := s.sched.cores[c].current;
      CEnabled(s, Advance(c, now)) || HeldByAnother(s, WantedLock(s.local[t].loc), t)
  {
    hide Inv;
    var t := s.sched.cores[c].current;
    var loc := s.local[t].loc;
    assert HoldsKernelMutex(loc);
    if HeldLock(loc) != NO_LOCK {
      RingHolderNeverStuck(s, c, now);
    } else if loc.GiveDone? && loc.after.ThenExit? {
      SleepEnabled(s, c, EXITED, NO_TIMEOUT, now);
    }
  }

  /** When a broadcast finds the ring empty and leaves, nobody sleeps on the condition. */
  lemma BroadcastWakesAll(tr: seq<Cc>, steps: seq<CStep>, init: Tid, n: nat, u: Tid)
    requires CRun(tr, steps, init) && n < |steps| && steps[n].Advance?
    requires var l := tr[n].local[Actor(tr[n], steps[n])].loc; l.SigLoop? && Ring(tr[n], l.cv) == []
    requires u in tr[n + 1].local && u in tr[n + 1].sched.tcb
    ensures var cv := tr[n].local[Actor(tr[n], steps[n])].loc.cv;
      tr[n + 1].local[u].loc.WaitAsleep? && tr[n + 1].local[u].loc.cv == cv ==> tr[n + 1].sched.tcb[u].state != STOPPED
  {
    var t := Actor(tr[n], steps[n]);
    assert Ring(tr[n + 1], tr[n].local[t].loc.cv) == [];
    NoLostWakeup(tr, steps, init, n + 1, tr[n].local[t].loc.cv, u);
  }

  // ----- the kernel semaphore -----

  /** In every run the semaphore and the threads inside the kernel share one token: at most one
      thread is inside, and one is exactly when the semaphore is down. */
  lemma SemaphoreTheorem(tr: seq<Cc>, steps: seq<CStep>, init: Tid, n: nat, t: Tid, u: Tid)
    requires CRun(tr, steps, init) && n < |tr| && t in tr[n].local && u in tr[n].local
    ensures tr[n].sem + |Tokens(tr[n].local)| == 1 && 0 <= tr[n].sem <= 1
    ensures HoldsToken(tr[n].local[t].loc) && HoldsToken(tr[n].local[u].loc) ==> t == u
    ensures HoldsToken(tr[n].local[t].loc) ==> tr[n].sem == 0
  {
    hide CRun, Inv, LocalsOk, ThreadsMatch, LocksOk, OwnersOk, RingsOk, WokenOk, SemWaitOk, NotStranded, MarkedOk;
    CRunInv(tr, steps, init, n);
    OneToken(tr[n], t, u);
  }

  lemma OneToken(s: Cc, t: Tid, u: Tid)
    requires TokenOk(s) && t in s.local && u in s.local
    ensures 0 <= s.sem <= 1
    ensures HoldsToken(s.local[t].loc) && HoldsToken(s.local[u].loc) ==> t == u
    ensures HoldsToken(s.local[t].loc) ==> s.sem == 0
  {
    var T := Tokens(s.local);
    assert HoldsToken(s.local[t].loc) <==> t in T;
    assert HoldsToken(s.local[u].loc) <==> u in T;
    if t in T && u in T {
      assert T == {t, u} + (T - {t, u});
    }
  }

  /** Signalled on the semaphore's condition, awake, and not yet back at the test. */
  predicate OnItsWay(s: Cc, t: Tid) {
    && t in s.local && t in s.sched.tcb && Notified(s.local[t])
    && s.local[t].signalled && s.sched.tcb[t].state in {READY, RUNNING}
  }

  /** The token is never stranded: whenever the kernel mutex is free, the semaphore up and
      somebody on its ring, some thread has been signalled, is awake, and has not been back at
      the test yet. */
  lemma TokenNotStranded(tr: seq<Cc>, steps: seq<CStep>, init: Tid, n: nat)
    requires CRun(tr, steps, init) && n < |tr|
    requires KERNEL_MUTEX !in tr[n].owner && tr[n].sem > 0 && Ring(tr[n], KERNEL_SEM_CV) != []
    ensures exists t :: OnItsWay(tr[n], t)
  {
    var s := tr[n];
    CRunInv(tr, steps, init, n);
    assert !SomeServes(s);
    var t :| t in s.local && Notified(s.local[t]);
    assert ShapeOk(s.local[t].loc) && SchedMatch(s.local[t], s.sched.tcb[t]);
    if BeingMarked(s, t) {
      MarkerServes(s, t);
    }
    assert OnItsWay(s, t);
  }

  /** Whoever is about to mark a waiter of the semaphore holds the kernel mutex. */
  lemma MarkerServes(s: Cc, t: Tid)
    requires CInv(s) && BeingMarked(s, t) && t in s.local && s.local[t].loc.WaitAsleep? && s.local[t].loc.cv == KERNEL_SEM_CV
    ensures KERNEL_MUTEX in s.owner
  {
    var u :| u in s.local && s.local[u].loc.SigWoke? && s.local[u].loc.woken == t;
    assert WokenMatch(s.local[u], s.local[t]) && ShapeOk(s.local[u].loc);
    assert Owns(s, u, KERNEL_MUTEX);
  }

  // ----- a broadcast ends -----

  predicate Signalling(s: Cc, t: Tid)
    requires t in s.local
  {
    s.local[t].loc.SigLoop? || s.local[t].loc.SigWoke?
  }

  /** Turns that a signaller has still to make. */
  function TurnsLeft(s: Cc, t: Tid): nat
    requires t in s.local && Signalling(s, t)
  {
    2 * |Ring(s, s.local[t].loc.cv)| + if s.local[t].loc.SigWoke? then 2 else 1
  }

  lemma OwnTurn(s: Cc, c: nat, t: Tid, now: Clock)
    requires t in s.local && Signalling(s, t) && CanAdvance(s, c, t, now)
    ensures var s' := AdvanceTo(s, c, t, now);
      t in s'.local && (Signalling(s', t) ==> TurnsLeft(s', t) < TurnsLeft(s, t))
  {
  }

  predicate LocksItsRing(s: Cc, t: Tid)
    requires t in s.local && Signalling(s, t)
  {
    s.local[t].loc.cv in s.lock && s.lock[s.local[t].loc.cv] == t
  }

  lemma OthersTurn(s: Cc, c: nat, u: Tid, now: Clock, t: Tid)
    requires u in s.local && CanAdvance(s, c, u, now) && t in s.local && u != t
    requires Signalling(s, t) && LocksItsRing(s, t) && (Signalling(s, u) ==> LocksItsRing(s, u))
    ensures var s' := AdvanceTo(s, c, u, now);
      t in s'.local && s'.local[t].loc == s.local[t].loc && TurnsLeft(s', t) == TurnsLeft(s, t)
  {
    hide Apply, Enabled, CanSleep;
    match s.local[u].loc {
      case SigLoop(_, _, _) =>
      case WaitAsleep(_, _, _, _) =>
      case WaitWant(_, _, _, _) =>
      case _ =>
    }
  }

  /** While `t` signals, every section of its own brings it nearer the end, and nothing that
      another thread does, or the scheduler, sets it back. */
  lemma SignalEnds(s: Cc, a: CStep, t: Tid)
    requires CInv(s) && CEnabled(s, a) && t in s.local && Signalling(s, t)
    ensures t in CApply(s, a).local
    ensures if !a.SchedStep? && Actor(s, a) == t
      then Signalling(CApply(s, a), t) ==> TurnsLeft(CApply(s, a), t) < TurnsLeft(s, t)
      else CApply(s, a).local[t].loc == s.local[t].loc && TurnsLeft(CApply(s, a), t) == TurnsLeft(s, t)
  {
    hide CInv, AdvanceTo, TurnsLeft, LocksItsRing;
    SignallerLocks(s, t);
    if a.Advance? {
      var u := Actor(s, a);
      if u == t {
        OwnTurn(s, a.core, t, a.now);
      } else {
        if Signalling(s, u) {
          SignallerLocks(s, u);
        }
        OthersTurn(s, a.core, u, a.now, t);
      }
    } else if a.CreateThread? {
      NewThreadIsNew(s, a);
      SameTurns(s, CApply(s, a), t);
    } else {
      SameTurns(s, CApply(s, a), t);
    }
  }

  lemma SignallerLocks(s: Cc, t: Tid)
    requires CInv(s) && t in s.local && Signalling(s, t)
    ensures LocksItsRing(s, t)
  {
    hide Inv;
    assert HeldLock(s.local[t].loc) == s.local[t].loc.cv;
  }

  lemma NewThreadIsNew(s: Cc, a: CStep)
    requires CInv(s) && a.CreateThread? && CEnabled(s, a)
    ensures a.tid in s.local ==> s.local[a.tid].loc == Dead
  {
    hide Inv;
  }

  lemma SameTurns(s: Cc, s': Cc, t: Tid)
    requires t in s.local && Signalling(s, t)
    requires t in s'.local && s'.local[t].loc == s.local[t].loc && s'.ring == s.ring
    ensures TurnsLeft(s', t) == TurnsLeft(s, t)
  {
  }
}
