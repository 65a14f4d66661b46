/** Condition variables and the kernel semaphore (kernel_cc.c) as a state machine on top of the
    scheduler. Threads act only while a core executes them, every acquisition and release of a
    lock is visible, and any step of the scheduler may come in between. */
module CondModel {
  import opened ListSpec
  import opened SchedModel

  type MutexId = nat
  type CvId = nat
  const KERNEL_MUTEX: MutexId := 0
  const KERNEL_SEM_CV: CvId := 0

  /** What follows the release of the kernel semaphore. */
  datatype After = ThenUnlock | ThenWait(cv: CvId, timeout: Time) | ThenExit

  /** Where a wait or a signal returns to. */
  datatype Return = ToOutside | ToInside | ToSemTest | ToGive(after: After)

  /** Where a thread is in the code of kernel_cc.c. */
  datatype Loc =
    | Outside                 // user code; it may hold user mutexes
    | Inside                  // kernel code, between kernel_lock and kernel_unlock
    | LockWant                // kernel_lock: wants kernel_mutex
    | SemTest                 // holds kernel_mutex, at the test of kernel_sem
    | GiveWant(after: After)    // wants kernel_mutex, to release the semaphore
    | GiveDone(after: After)    // holds kernel_mutex; has raised kernel_sem and signalled
    | WaitWant(mx: MutexId, cv: CvId, timeout: Time, ret: Return)      // wants waitset_lock
    | WaitQueued(mx: MutexId, cv: CvId, timeout: Time, ret: Return)    // in the ring; holds both locks
    | WaitReleased(mx: MutexId, cv: CvId, timeout: Time, ret: Return)  // has unlocked the mutex
    | WaitAsleep(mx: MutexId, cv: CvId, timeout: Time, ret: Return)    // has slept and released waitset_lock
    | WaitRelock(mx: MutexId, cv: CvId, timeout: Time, ret: Return)    // wants the mutex again
    | SigWant(cv: CvId, all: bool, ret: Return)                        // wants waitset_lock
    | SigLoop(cv: CvId, all: bool, ret: Return)                        // holds it, at the loop test
    | SigWoke(cv: CvId, all: bool, ret: Return, woken: Tid)            // its wakeup returned 1
    | Dead

  datatype Local = Local(loc: Loc, signalled: bool, removed: bool)

  datatype Cc = Cc(
    sched: Sched, local: map<Tid, Local>, owner: map<MutexId, Tid>,
    lock: map<CvId, Tid>, ring: map<CvId, seq<Tid>>, sem: int)

  function Ring(s: Cc, cv: CvId): seq<Tid> {
    if cv in s.ring then s.ring[cv] else []
  }

  function At(s: Cc, t: Tid, loc: Loc): Cc
    requires t in s.local
  {
    s.(local := s.local[t := s.local[t].(loc := loc)])
  }

  function Back(ret: Return): Loc {
    match ret
    case ToOutside => Outside
    case ToInside => Inside
    case ToSemTest => SemTest
    case ToGive(after) => GiveDone(after)
  }

  // ----- the sections of the code -----

  function BeginWait(s: Cc, t: Tid): Cc
    requires t in s.local && s.local[t].loc.WaitWant?
  {
    var l := s.local[t].loc;
    s.(local := s.local[t := Local(WaitQueued(l.mx, l.cv, l.timeout, l.ret), false, false)],
       lock := s.lock[l.cv := t], ring := s.ring[l.cv := Ring(s, l.cv) + [t]])
  }

  function ReleaseMutex(s: Cc, t: Tid): Cc
    requires t in s.local && s.local[t].loc.WaitQueued?
  {
    var l := s.local[t].loc;
    At(s, t, WaitReleased(l.mx, l.cv, l.timeout, l.ret)).(owner := s.owner - {l.mx})
  }

  function FallAsleep(s: Cc, c: nat, t: Tid, now: Clock): Cc
    requires t in s.local && s.local[t].loc.WaitReleased?
    requires Enabled(s.sched, DoSleep(c, STOPPED, s.local[t].loc.timeout, now))
  {
    var l := s.local[t].loc;
    At(s, t, WaitAsleep(l.mx, l.cv, l.timeout, l.ret)).(
      sched := Apply(s.sched, DoSleep(c, STOPPED, l.timeout, now)), lock := s.lock - {l.cv})
  }

  function TidyUp(s: Cc, t: Tid): Cc
    requires t in s.local && s.local[t].loc.WaitAsleep?
  {
    var l := s.local[t].loc;
    var s1 := At(s, t, WaitRelock(l.mx, l.cv, l.timeout, l.ret));
    if s.local[t].removed then s1 else s1.(ring := s.ring[l.cv := Remove(Ring(s, l.cv), t)])
  }

  /** One turn of the loop of `cv_signal` on a non-empty ring. */
  function SignalTurn(s: Cc, t: Tid): Cc
    requires t in s.local && s.local[t].loc.SigLoop?
    requires var r := Ring(s, s.local[t].loc.cv); r != [] && r[0] in s.local && r[0] in s.sched.tcb && r[0] != t
  {
    var l := s.local[t].loc;
    var r := Ring(s, l.cv);
    var w := r[0];
    var s1 := s.(ring := s.ring[l.cv := r[1..]], local := s.local[w := s.local[w].(removed := true)],
                 sched := Apply(s.sched, DoWakeup(w)));
    if Wakeable(s.sched.tcb[w]) then At(s1, t, SigWoke(l.cv, l.all, l.ret, w)) else s1
  }

  function SignalDone(s: Cc, t: Tid): Cc
    requires t in s.local && (s.local[t].loc.SigLoop? || s.local[t].loc.SigWoke?)
  {
    At(s, t, Back(s.local[t].loc.ret)).(lock := s.lock - {s.local[t].loc.cv})
  }

  function MarkSignalled(s: Cc, t: Tid): Cc
    requires t in s.local && s.local[t].loc.SigWoke? && s.local[t].loc.woken in s.local && s.local[t].loc.woken != t
  {
    var l := s.local[t].loc;
    var s1 := s.(local := s.local[l.woken := s.local[l.woken].(signalled := true)]);
    if l.all then At(s1, t, SigLoop(l.cv, l.all, l.ret)) else SignalDone(s1, t)
  }

  function TakeToken(s: Cc, t: Tid): Cc
    requires t in s.local
  {
    At(s, t, Inside).(sem := s.sem - 1, owner := s.owner - {KERNEL_MUTEX})
  }

  function GiveToken(s: Cc, t: Tid): Cc
    requires t in s.local && s.local[t].loc.GiveWant?
  {
    At(s, t, SigWant(KERNEL_SEM_CV, false, ToGive(s.local[t].loc.after))).(
      sem := s.sem + 1, owner := s.owner[KERNEL_MUTEX := t])
  }

  function Exit(s: Cc, c: nat, t: Tid, now: Clock): Cc
    requires t in s.local && Enabled(s.sched, DoSleep(c, EXITED, NO_TIMEOUT, now))
  {
    At(s, t, Dead).(sched := Apply(s.sched, DoSleep(c, EXITED, NO_TIMEOUT, now)), owner := s.owner - {KERNEL_MUTEX})
  }

  // ----- the steps -----

  /** The timeout of Cond_Wait, and that of Cond_TimedWait, in milliseconds. */
  datatype UserTimeout = Forever | Within(ms: nat)

  function Timeout(timeout: UserTimeout): Time {
    if timeout.Forever? then NO_TIMEOUT else Microseconds(timeout.ms)
  }

  datatype CStep =
    | SchedStep(a: Step)                                              // a yield, a switch, a gain
    | UserLock(core: nat, mx: MutexId)
    | UserUnlock(core: nat, mx: MutexId)
    | UserWait(core: nat, mx: MutexId, cv: CvId, timeout: UserTimeout)  // Cond_Wait, Cond_TimedWait
    | Signal(core: nat, cv: CvId, all: bool)                          // Cond_Signal, Cond_Broadcast
    | EnterKernel(core: nat)
    | LeaveKernel(core: nat, after: After)                              // unlock, wait or exit
    | CreateThread(core: nat, tid: Tid)
    | StartThread(core: nat, tid: Tid)
    | Advance(core: nat, now: Clock)                                  // the next section of a routine above

  function Actor(s: Cc, a: CStep): Tid
    requires !a.SchedStep? && a.core < |s.sched.cores|
  {
    s.sched.cores[a.core].current
  }

  predicate Acts(s: Cc, core: nat) {
    && core < |s.sched.cores|
    && Executes(s.sched, core, s.sched.cores[core].current)
    && s.sched.cores[core].current in s.local
  }

  predicate CanSleep(s: Sched, a: Step) {
    Enabled(s, a) && MarkerFree(a)
  }

  predicate CanAdvance(s: Cc, core: nat, t: Tid, now: Clock)
    requires t in s.local
  {
    match s.local[t].loc
    case LockWant => KERNEL_MUTEX !in s.owner
    case SemTest => true
    case GiveWant(_) => KERNEL_MUTEX !in s.owner
    case GiveDone(after) => after.ThenExit? ==> CanSleep(s.sched, DoSleep(core, EXITED, NO_TIMEOUT, now))
    case WaitWant(_, cv, _, _) => cv !in s.lock
    case WaitQueued(_, _, _, _) => true
    case WaitReleased(_, _, timeout, _) => CanSleep(s.sched, DoSleep(core, STOPPED, timeout, now))
    case WaitAsleep(_, cv, _, _) => cv !in s.lock
    case WaitRelock(mx, _, _, _) => mx !in s.owner
    case SigWant(cv, _, _) => cv !in s.lock
    case SigLoop(cv, _, _) =>
      var r := Ring(s, cv); r != [] ==> r[0] in s.local && r[0] in s.sched.tcb && r[0] != t
    case SigWoke(_, _, _, w) => w in s.local && w != t
    case _ => false
  }

  function AdvanceTo(s: Cc, core: nat, t: Tid, now: Clock): Cc
    requires t in s.local && CanAdvance(s, core, t, now)
  {
    match s.local[t].loc
    case LockWant => At(s, t, SemTest).(owner := s.owner[KERNEL_MUTEX := t])
    case SemTest =>
      if s.sem <= 0 then At(s, t, WaitWant(KERNEL_MUTEX, KERNEL_SEM_CV, NO_TIMEOUT, ToSemTest)) else TakeToken(s, t)
    case GiveWant(_) => GiveToken(s, t)
    case GiveDone(ThenUnlock) => At(s, t, Outside).(owner := s.owner - {KERNEL_MUTEX})
    case GiveDone(ThenWait(cv, timeout)) => At(s, t, WaitWant(KERNEL_MUTEX, cv, timeout, ToSemTest))
    case GiveDone(ThenExit) => Exit(s, core, t, now)
    case WaitWant(_, _, _, _) => BeginWait(s, t)
    case WaitQueued(_, _, _, _) => ReleaseMutex(s, t)
    case WaitReleased(_, _, _, _) => FallAsleep(s, core, t, now)
    case WaitAsleep(_, _, _, _) => TidyUp(s, t)
    case WaitRelock(mx, _, _, ret) => At(s, t, Back(ret)).(owner := s.owner[mx := t])
    case SigWant(cv, all, ret) => At(s, t, SigLoop(cv, all, ret)).(lock := s.lock[cv := t])
    case SigLoop(cv, _, _) => if Ring(s, cv) == [] then SignalDone(s, t) else SignalTurn(s, t)
    case SigWoke(_, _, _, _) => MarkSignalled(s, t)
    case _ => s
  }

  predicate CEnabled(s: Cc, a: CStep) {
    match a
    case SchedStep(b) => (b.DoYield? || b.DoSwap? || b.DoGain? || b.DoLeave?) && Enabled(s.sched, b)
    case UserLock(c, m) =>
      Acts(s, c) && s.local[Actor(s, a)].loc == Outside && m != KERNEL_MUTEX && m !in s.owner
    case UserUnlock(c, m) =>
      Acts(s, c) && s.local[Actor(s, a)].loc == Outside && m != KERNEL_MUTEX && m in s.owner && s.owner[m] == Actor(s, a)
    case UserWait(c, m, cv, _) =>
      && Acts(s, c) && s.local[Actor(s, a)].loc == Outside
      && m != KERNEL_MUTEX && cv != KERNEL_SEM_CV && m in s.owner && s.owner[m] == Actor(s, a)
    case Signal(c, cv, _) =>
      Acts(s, c) && (s.local[Actor(s, a)].loc == Outside || s.local[Actor(s, a)].loc == Inside) && cv != KERNEL_SEM_CV
    case EnterKernel(c) => Acts(s, c) && s.local[Actor(s, a)].loc == Outside
    case LeaveKernel(c, after) =>
      Acts(s, c) && s.local[Actor(s, a)].loc == Inside && (after.ThenWait? ==> after.cv != KERNEL_SEM_CV)
    case CreateThread(c, u) =>
      Acts(s, c) && s.local[Actor(s, a)].loc == Inside && Enabled(s.sched, DoSpawn(c, u))
    case StartThread(c, u) =>
      Acts(s, c) && s.local[Actor(s, a)].loc == Inside && u in s.sched.tcb && s.sched.tcb[u].state == INIT
    case Advance(c, now) => Acts(s, c) && CanAdvance(s, c, Actor(s, a), now)
  }

  function CApply(s: Cc, a: CStep): Cc
    requires CEnabled(s, a)
  {
    match a
    case SchedStep(b) => s.(sched := Apply(s.sched, b))
    case UserLock(_, m) => s.(owner := s.owner[m := Actor(s, a)])
    case UserUnlock(_, m) => s.(owner := s.owner - {m})
    case UserWait(_, m, cv, timeout) => At(s, Actor(s, a), WaitWant(m, cv, Timeout(timeout), ToOutside))
    case Signal(_, cv, all) =>
      At(s, Actor(s, a), SigWant(cv, all, if s.local[Actor(s, a)].loc == Inside then ToInside else ToOutside))
    case EnterKernel(_) => At(s, Actor(s, a), LockWant)
    case LeaveKernel(_, after) => At(s, Actor(s, a), GiveWant(after))
    case CreateThread(c, u) =>
      s.(sched := Apply(s.sched, DoSpawn(c, u)), local := s.local[u := Local(Outside, false, false)])
    case StartThread(_, u) => s.(sched := Apply(s.sched, DoWakeup(u)))
    case Advance(c, now) => AdvanceTo(s, c, Actor(s, a), now)
  }
}
