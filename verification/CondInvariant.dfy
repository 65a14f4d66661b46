/** The inductive invariant of the monitors and of the kernel semaphore. */
module CondInvariant {
  import opened ListSpec
  import opened SchedModel
  import opened SchedInvariant
  import opened CondModel

  // ----- what a thread holds at each point of the code -----

  const NO_LOCK: int := -1

  /** The condition variable whose waitset_lock the thread holds there, if any. */
  function HeldLock(loc: Loc): int {
    if loc.WaitQueued? || loc.WaitReleased? || loc.SigLoop? || loc.SigWoke? then loc.cv else NO_LOCK
  }

  predicate HoldsKernelMutex(loc: Loc) {
    || loc.SemTest? || loc.GiveDone?
    || ((loc.WaitWant? || loc.WaitQueued?) && loc.mx == KERNEL_MUTEX)
    || ((loc.SigWant? || loc.SigLoop? || loc.SigWoke?) && loc.ret.ToGive?)
  }

  /** The kernel semaphore has been taken, and not raised again. */
  predicate HoldsToken(loc: Loc) {
    loc.Inside? || loc.GiveWant? || ((loc.SigWant? || loc.SigLoop? || loc.SigWoke?) && loc.ret.ToInside?)
  }

  predicate Waiting(loc: Loc) {
    loc.WaitWant? || loc.WaitQueued? || loc.WaitReleased? || loc.WaitAsleep? || loc.WaitRelock?
  }

  predicate Enqueued(l: Local, cv: CvId) {
    (l.loc.WaitQueued? || l.loc.WaitReleased? || l.loc.WaitAsleep?) && l.loc.cv == cv && !l.removed
  }

  // ----- the parts of the invariant -----

  predicate AfterOk(after: After) {
    after.ThenWait? ==> after.cv != KERNEL_SEM_CV
  }

  /** The kernel mutex goes with the kernel's waits, the semaphore's condition with its own. */
  predicate ShapeOk(loc: Loc) {
    && (Waiting(loc) ==>
          && (if loc.mx == KERNEL_MUTEX then loc.ret == ToSemTest else loc.ret == ToOutside && loc.cv != KERNEL_SEM_CV)
          && (loc.cv == KERNEL_SEM_CV ==> loc.timeout == NO_TIMEOUT)
          && (loc.mx != KERNEL_MUTEX ==> loc.timeout == NO_TIMEOUT || OnGrid(loc.timeout)))
    && (loc.GiveWant? || loc.GiveDone? ==> AfterOk(loc.after))
    && (loc.SigWant? || loc.SigLoop? || loc.SigWoke? ==>
          && loc.ret != ToSemTest
          && (loc.cv == KERNEL_SEM_CV <==> loc.ret.ToGive?)
          && (loc.ret.ToGive? ==> !loc.all && AfterOk(loc.ret.after)))
  }

  predicate FlagsOk(l: Local) {
    && (l.signalled ==> l.removed)
    && (l.loc.WaitQueued? || l.loc.WaitReleased? ==> !l.removed)
  }

  ghost predicate LocalsOk(s: Cc) {
    forall t :: t in s.local ==> ShapeOk(s.local[t].loc) && FlagsOk(s.local[t])
  }

  /** A thread's code and its scheduler state agree. A stopped thread is a waiter; a waiter that
      has been taken off its ring is awake; one without a timeout is awake only for that reason. */
  predicate SchedMatch(l: Local, th: Thread) {
    if l.loc == Dead then th.state == EXITED
    else
      && th.kind == NORMAL_THREAD && th.state != EXITED
      && (th.state == STOPPED ==> l.loc.WaitAsleep?)
      && (th.state == INIT ==> l.loc == Outside)
      && (l.loc.WaitAsleep? && l.removed ==> th.state != STOPPED)
      && (l.loc.WaitAsleep? && l.loc.timeout == NO_TIMEOUT ==>
            && (th.state == STOPPED ==> th.wakeup == NO_TIMEOUT)
            && (!l.removed ==> th.state == STOPPED))
  }

  ghost predicate ThreadsMatch(s: Cc) {
    && (forall t :: t in s.sched.tcb && s.sched.tcb[t].kind == NORMAL_THREAD ==> t in s.local)
    && (forall t :: t in s.local && s.local[t].loc != Dead ==> t in s.sched.tcb)
    && (forall t :: t in s.local && t in s.sched.tcb ==> SchedMatch(s.local[t], s.sched.tcb[t]))
  }

  ghost predicate LocksOk(s: Cc) {
    && (forall cv :: cv in s.lock ==> s.lock[cv] in s.local && HeldLock(s.local[s.lock[cv]].loc) == cv)
    && (forall t :: t in s.local && HeldLock(s.local[t].loc) != NO_LOCK ==>
          HeldLock(s.local[t].loc) in s.lock && s.lock[HeldLock(s.local[t].loc)] == t)
  }

  predicate Owns(s: Cc, t: Tid, mx: MutexId) {
    mx in s.owner && s.owner[mx] == t
  }

  predicate Committed(loc: Loc) {
    loc.WaitWant? || loc.WaitQueued?
  }

  ghost predicate OwnersOk(s: Cc) {
    && (forall t :: Owns(s, t, KERNEL_MUTEX) <==> t in s.local && HoldsKernelMutex(s.local[t].loc))
    && (forall t :: t in s.local && Committed(s.local[t].loc) ==> Owns(s, t, s.local[t].loc.mx))
  }

  /** The ring of a condition variable holds, each once, exactly the waiters enqueued on it. */
  ghost predicate RingsOk(s: Cc) {
    && (forall cv :: cv in s.ring ==> NoDup(s.ring[cv]))
    && (forall cv, t :: t in Ring(s, cv) <==> t in s.local && Enqueued(s.local[t], cv))
  }

  /** A signaller whose wakeup succeeded still has that waiter off the ring and unmarked. */
  predicate WokenMatch(l: Local, w: Local) {
    l.loc.SigWoke? ==> w.loc.WaitAsleep? && w.loc.cv == l.loc.cv && w.removed && !w.signalled
  }

  ghost predicate WokenOk(s: Cc) {
    forall t :: t in s.local && s.local[t].loc.SigWoke? ==>
      s.local[t].loc.woken in s.local && WokenMatch(s.local[t], s.local[s.local[t].loc.woken])
  }

  /** Threads decide to wait for the semaphore, and enter its ring, only while it is down. */
  ghost predicate SemWaitOk(s: Cc) {
    forall t :: t in s.local && Committed(s.local[t].loc) && s.local[t].loc.cv == KERNEL_SEM_CV ==> s.sem <= 0
  }

  ghost function Tokens(local: map<Tid, Local>): set<Tid> {
    set t | t in local && HoldsToken(local[t].loc)
  }

  /** The semaphore and the threads that hold it share one token. */
  ghost predicate TokenOk(s: Cc) {
    0 <= s.sem && s.sem + |Tokens(s.local)| == 1
  }

  /** Taken off the semaphore's ring, and not yet back at the test. */
  predicate Notified(l: Local) {
    (l.loc.WaitAsleep? && l.loc.cv == KERNEL_SEM_CV && l.removed) || (l.loc.WaitRelock? && l.loc.cv == KERNEL_SEM_CV)
  }

  /** About to take the token, or to signal that it is there. */
  predicate WillServe(loc: Loc) {
    loc.SemTest? || ((loc.SigWant? || loc.SigLoop?) && loc.cv == KERNEL_SEM_CV)
  }

  ghost predicate SomeNotified(local: map<Tid, Local>) {
    exists t :: t in local && Notified(local[t])
  }

  ghost predicate SomeServes(s: Cc) {
    exists t :: t in s.local && Owns(s, t, KERNEL_MUTEX) && WillServe(s.local[t].loc)
  }

  ghost predicate NotStranded(s: Cc) {
    s.sem > 0 && Ring(s, KERNEL_SEM_CV) != [] ==> SomeNotified(s.local) || SomeServes(s)
  }

  ghost predicate CInv(s: Cc) {
    && Inv(s.sched)
    && LocalsOk(s)
    && ThreadsMatch(s)
    && LocksOk(s)
    && OwnersOk(s)
    && RingsOk(s)
    && WokenOk(s)
    && SemWaitOk(s)
    && TokenOk(s)
    && NotStranded(s)
  }
}
