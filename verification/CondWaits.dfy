/** A wait keeps its terms: the mutex, the condition and the timeout that were asked for are the ones
    that it releases, joins, sleeps with and returns with, in every run. Then the mutexes, and the
    run of the scheduler that a run of the monitors contains. */
module CondWaits {
  import opened SchedModel
  import opened SchedInvariant
  import opened SchedTheorems
  import opened CondModel
  import opened CondInvariant
  import opened CondSteps
  import opened CondTheorems
  import opened CondSignals

  datatype Terms = Terms(mx: MutexId, cv: CvId, timeout: Time, ret: Return)

  /** On its way out of the kernel in order to wait. */
  predicate Leaving(loc: Loc) {
    || ((loc.GiveWant? || loc.GiveDone?) && loc.after.ThenWait?)
    || (InSignal(loc) && loc.ret.ToGive? && loc.ret.after.ThenWait?)
  }

  function AfterOf(loc: Loc): After
    requires Leaving(loc)
  {
    if InSignal(loc) then loc.ret.after else loc.after
  }

  /** In a wait, or about to begin one. */
  predicate InWait(loc: Loc) {
    Waiting(loc) || Leaving(loc)
  }

  function TermsOf(loc: Loc): Terms
    requires InWait(loc)
  {
    if Waiting(loc) then Terms(loc.mx, loc.cv, loc.timeout, loc.ret)
    else Terms(KERNEL_MUTEX, AfterOf(loc).cv, AfterOf(loc).timeout, ToSemTest)
  }

  lemma WaitSection(s: Cc, c: nat, t: Tid, now: Clock)
    requires t in s.local && CanAdvance(s, c, t, now) && Waiting(s.local[t].loc)
    ensures var loc := s.local[t].loc; var s' := AdvanceTo(s, c, t, now);
      && t in s'.local
      && if loc.WaitRelock? then s'.local[t] == s.local[t].(loc := Back(loc.ret)) && Owns(s', t, loc.mx)
         else Waiting(s'.local[t].loc) && TermsOf(s'.local[t].loc) == TermsOf(loc)
  {
    hide Apply, Enabled, CanSleep;
    match s.local[t].loc {
      case WaitWant(_, _, _, _) =>
      case WaitQueued(_, _, _, _) =>
      case WaitReleased(_, _, _, _) =>
      case WaitAsleep(_, _, _, _) =>
      case _ =>
    }
  }

  lemma LeavingSection(s: Cc, c: nat, t: Tid, now: Clock)
    requires t in s.local && CanAdvance(s, c, t, now) && Leaving(s.local[t].loc)
    ensures var loc := s.local[t].loc; var s' := AdvanceTo(s, c, t, now);
      t in s'.local && InWait(s'.local[t].loc) && TermsOf(s'.local[t].loc) == TermsOf(loc)
  {
    hide Apply, Enabled;
    if InSignal(s.local[t].loc) {
      SignalSection(s, c, t, now);
    }
  }

  /** The section that puts a waiter to sleep. */
  lemma SleepSection(s: Cc, c: nat, t: Tid, now: Clock)
    requires CInv(s) && Acts(s, c) && t == s.sched.cores[c].current && CanAdvance(s, c, t, now) && s.local[t].loc.WaitReleased?
    ensures var timeout := s.local[t].loc.timeout; var s' := AdvanceTo(s, c, t, now);
      && t in s'.sched.tcb && s'.sched.tcb[t].state == STOPPED
      && s'.sched.tcb[t].wakeup ==
           if timeout == NO_TIMEOUT then NO_TIMEOUT
           else if now + timeout < TIME_MODULUS then now + timeout
           else now + timeout - TIME_MODULUS
  {
    hide CInv, Apply, Inv;
    ActorRuns(s, c);
    assert Inv(s.sched) by {
      SchedulerInv(s);
    }
    ThreadIsOk(s.sched, t);
    StepThreads(s.sched, DoSleep(c, STOPPED, s.local[t].loc.timeout, now), t);
  }

  lemma SchedulerInv(s: Cc)
    requires CInv(s)
    ensures Inv(s.sched)
  {
  }

  lemma ThreadIsOk(s: Sched, t: Tid)
    requires Inv(s) && t in s.tcb
    ensures ThreadOk(s.tcb[t])
  {
  }

  lemma WaitStep(s: Cc, a: CStep, t: Tid)
    requires CInv(s) && CEnabled(s, a) && t in s.local && InWait(s.local[t].loc)
    ensures var loc, s' := s.local[t].loc, CApply(s, a);
      && t in s'.local
      && if Own(s, a, t) && loc.WaitRelock? then s'.local[t].loc == Back(loc.ret) && Owns(s', t, loc.mx)
         else InWait(s'.local[t].loc) && TermsOf(s'.local[t].loc) == TermsOf(loc)
  {
    hide CInv, AdvanceTo, CanAdvance;
    if Own(s, a, t) {
      assert a.Advance?;
      if Waiting(s.local[t].loc) {
        WaitSection(s, a.core, t, a.now);
      } else {
        LeavingSection(s, a.core, t, a.now);
      }
    } else {
      OthersStay(s, a, t);
    }
  }

  // ----- runs -----

  /** What step `a` asks for, if it begins a wait: Cond_Wait and Cond_TimedWait, whose timeout is in
      milliseconds, or a wait of the kernel. */
  predicate BeginsWait(a: CStep) {
    a.UserWait? || (a.LeaveKernel? && a.after.ThenWait?)
  }

  function Asked(a: CStep): Terms
    requires BeginsWait(a)
  {
    match a
    case UserWait(_, mx, cv, Forever) => Terms(mx, cv, NO_TIMEOUT, ToOutside)
    case UserWait(_, mx, cv, Within(ms)) => Terms(mx, cv, Microseconds(ms), ToOutside)
    case LeaveKernel(_, after) => Terms(KERNEL_MUTEX, after.cv, after.timeout, ToSemTest)
  }

  /** Step `i` begins a wait of thread `t`, which is not over at `j`. */
  ghost predicate StillWaits(tr: seq<Cc>, steps: seq<CStep>, init: Tid, i: nat, j: nat, t: Tid) {
    && CRun(tr, steps, init) && i < j < |steps|
    && CEnabled(tr[i], steps[i]) && BeginsWait(steps[i]) && Own(tr[i], steps[i], t)
    && forall x :: i < x <= j && t in tr[x].local ==> InWait(tr[x].local[t].loc)
  }

  lemma WaitBegins(s: Cc, a: CStep, t: Tid)
    requires CEnabled(s, a) && BeginsWait(a) && Own(s, a, t)
    ensures t in CApply(s, a).local && InWait(CApply(s, a).local[t].loc) && TermsOf(CApply(s, a).local[t].loc) == Asked(a)
  {
  }

  lemma {:induction false} KeepsTerms(tr: seq<Cc>, steps: seq<CStep>, init: Tid, i: nat, j: nat, t: Tid)
    requires StillWaits(tr, steps, init, i, j, t)
    ensures t in tr[j].local && InWait(tr[j].local[t].loc) && TermsOf(tr[j].local[t].loc) == Asked(steps[i])
    decreases j
  {
    hide CInv, MarkedOk, CEnabled, CApply, Own, InWait, TermsOf, BeginsWait, Asked;
    if j == i + 1 {
      WaitBegins(tr[i], steps[i], t);
    } else {
      KeepsTerms(tr, steps, init, i, j - 1, t);
      CRunInv(tr, steps, init, j - 1);
      StillInWait(tr, steps, init, i, j, t);
      WaitStep(tr[j - 1], steps[j - 1], t);
    }
  }

  /** Where a wait returns to is no place in a wait. */
  lemma StillInWait(tr: seq<Cc>, steps: seq<CStep>, init: Tid, i: nat, j: nat, t: Tid)
    requires StillWaits(tr, steps, init, i, j, t) && i + 1 < j
    requires t in tr[j - 1].local && InWait(tr[j - 1].local[t].loc) && TermsOf(tr[j - 1].local[t].loc) == Asked(steps[i])
    ensures CInv(tr[j - 1])
    ensures !(tr[j - 1].local[t].loc.WaitRelock? && Own(tr[j - 1], steps[j - 1], t))
  {
    hide CInv, MarkedOk, AdvanceTo, CanAdvance;
    CRunInv(tr, steps, init, j - 1);
    WaitStep(tr[j - 1], steps[j - 1], t);
    assert tr[j - 1 + 1] == CApply(tr[j - 1], steps[j - 1]);
    assert t in tr[j].local && InWait(tr[j].local[t].loc);
  }

  /** A wait keeps its terms, in every run. As long as it is not over, the thread is in the code of
      that wait with the mutex, the condition and the timeout asked for. When it falls asleep, its
      wake-up time is that of the clock plus the timeout, modulo 2^64, or none. When the wait is
      over, the thread owns the mutex again and is back: in user code, or at the semaphore. */
  lemma WaitTheorem(tr: seq<Cc>, steps: seq<CStep>, init: Tid, i: nat, j: nat, t: Tid)
    requires StillWaits(tr, steps, init, i, j, t)
    ensures t in tr[j].local && t in tr[j + 1].local && InWait(tr[j].local[t].loc)
    ensures TermsOf(tr[j].local[t].loc) == Asked(steps[i])
    ensures CEnabled(tr[j], steps[j])
    ensures tr[j].local[t].loc.WaitReleased? && Own(tr[j], steps[j], t) ==>
      var timeout, now := Asked(steps[i]).timeout, steps[j].now;
      && t in tr[j + 1].sched.tcb && tr[j + 1].sched.tcb[t].state == STOPPED
      && tr[j + 1].sched.tcb[t].wakeup ==
           if timeout == NO_TIMEOUT then NO_TIMEOUT
           else if now + timeout < TIME_MODULUS then now + timeout
           else now + timeout - TIME_MODULUS
    ensures !InWait(tr[j + 1].local[t].loc) ==>
      && tr[j].local[t].loc.WaitRelock? && Owns(tr[j + 1], t, Asked(steps[i]).mx)
      && tr[j + 1].local[t].loc == if Asked(steps[i]).ret == ToOutside then Outside else SemTest
  {
    hide CInv, MarkedOk, AdvanceTo, CanAdvance;
    KeepsTerms(tr, steps, init, i, j, t);
    CRunInv(tr, steps, init, j);
    WaitStep(tr[j], steps[j], t);
    if tr[j].local[t].loc.WaitReleased? && Own(tr[j], steps[j], t) {
      assert steps[j].Advance?;
      SleepSection(tr[j], steps[j].core, t, steps[j].now);
    }
  }

  // ----- mutexes -----

  /** Step `a` takes mutex `m`. */
  predicate Takes(s: Cc, a: CStep, m: MutexId)
    requires CEnabled(s, a)
  {
    match a
    case UserLock(_, mx) => mx == m
    case Advance(_, _) =>
      var loc := s.local[Actor(s, a)].loc;
      ((loc.LockWant? || loc.GiveWant?) && m == KERNEL_MUTEX) || (loc.WaitRelock? && loc.mx == m)
    case _ => false
  }

  /** Step `a` releases mutex `m`: by an unlock, in a wait, or by the kernel once the thread has taken
      the semaphore, or has raised it and goes out. */
  predicate Drops(s: Cc, a: CStep, m: MutexId)
    requires CEnabled(s, a)
  {
    match a
    case UserUnlock(_, mx) => mx == m
    case Advance(_, _) =>
      var loc := s.local[Actor(s, a)].loc;
      || (loc.WaitQueued? && loc.mx == m)
      || (m == KERNEL_MUTEX && ((loc.SemTest? && s.sem > 0) || (loc.GiveDone? && !loc.after.ThenWait?)))
    case _ => false
  }

  lemma OwnerSection(s: Cc, a: CStep, m: MutexId)
    requires CEnabled(s, a) && a.Advance?
    requires var loc := s.local[Actor(s, a)].loc; Committed(loc) ==> Owns(s, Actor(s, a), loc.mx)
    ensures var s', t := CApply(s, a), Actor(s, a);
      && (Takes(s, a, m) ==> m !in s.owner && Owns(s', t, m))
      && (Drops(s, a, m) ==> m !in s'.owner)
      && (!Takes(s, a, m) && !Drops(s, a, m) ==>
            (m in s'.owner <==> m in s.owner) && (m in s.owner ==> s'.owner[m] == s.owner[m]))
  {
    hide Apply, Enabled;
    match s.local[Actor(s, a)].loc {
      case GiveDone(_) =>
      case SemTest =>
      case GiveWant(_) =>
      case _ =>
    }
  }

  /** A mutex is taken only when it is free, and only its owner releases it: in between, nobody else can
      have it. This goes for the mutexes of user code and for that of the kernel. */
  lemma MutexTheorem(tr: seq<Cc>, steps: seq<CStep>, init: Tid, n: nat, m: MutexId)
    requires CRun(tr, steps, init) && n < |steps|
    ensures CEnabled(tr[n], steps[n])
    ensures var s, a, s' := tr[n], steps[n], tr[n + 1];
      if a.SchedStep? then s'.owner == s.owner
      else
        var t := Actor(s, a);
        && (Takes(s, a, m) ==> m !in s.owner && Owns(s', t, m))
        && (Drops(s, a, m) ==> Owns(s, t, m) && m !in s'.owner)
        && (!Takes(s, a, m) && !Drops(s, a, m) ==>
              (m in s'.owner <==> m in s.owner) && (m in s.owner ==> s'.owner[m] == s.owner[m]))
  {
    hide CInv, MarkedOk, AdvanceTo, Apply, Enabled;
    CRunInv(tr, steps, init, n);
    if steps[n].Advance? {
      DropperOwns(tr[n], Actor(tr[n], steps[n]));
      OwnerSection(tr[n], steps[n], m);
    }
  }

  lemma DropperOwns(s: Cc, t: Tid)
    requires CInv(s) && t in s.local
    ensures Committed(s.local[t].loc) ==> Owns(s, t, s.local[t].loc.mx)
    ensures HoldsKernelMutex(s.local[t].loc) ==> Owns(s, t, KERNEL_MUTEX)
  {
    hide Inv;
  }

  // ----- the scheduler underneath -----

  /** What a step of the monitors asks of the scheduler, if anything. */
  datatype Request = Nothing | Asks(a: Step)

  function RequestOf(s: Cc, a: CStep): Request
    requires CEnabled(s, a)
  {
    match a
    case SchedStep(b) => Asks(b)
    case CreateThread(c, u) => Asks(DoSpawn(c, u))
    case StartThread(_, u) => Asks(DoWakeup(u))
    case Advance(c, now) =>
      var loc := s.local[Actor(s, a)].loc;
      if loc.WaitReleased? then Asks(DoSleep(c, STOPPED, loc.timeout, now))
      else if loc.GiveDone? && loc.after.ThenExit? then Asks(DoSleep(c, EXITED, NO_TIMEOUT, now))
      else if loc.SigLoop? && Ring(s, loc.cv) != [] then Asks(DoWakeup(Ring(s, loc.cv)[0]))
      else Nothing
    case _ => Nothing
  }

  /** Each step of the monitors is a step of the scheduler, or none: a wait sleeps, a signal wakes the
      head of the ring, an exit leaves, a new thread is spawned and then woken. */
  lemma StepIsRequested(s: Cc, a: CStep)
    requires CEnabled(s, a)
    ensures match RequestOf(s, a) {
      case Nothing => CApply(s, a).sched == s.sched
      case Asks(b) => Enabled(s.sched, b) && MarkerFree(b) && CApply(s, a).sched == Apply(s.sched, b)
    }
  {
    hide Apply;
    if a.Advance? {
      match s.local[Actor(s, a)].loc {
        case WaitReleased(_, _, _, _) =>
        case GiveDone(_) =>
        case SigLoop(_, _, _) =>
        case _ =>
      }
    }
  }

  /** So the scheduler under a run of the monitors makes a run of its own, of which all that holds of
      such runs holds. */
  lemma {:induction false} SchedulerRuns(tr: seq<Cc>, steps: seq<CStep>, init: Tid, n: nat)
      returns (str: seq<Sched>, ssteps: seq<Step>)
    requires CRun(tr, steps, init) && n < |tr|
    ensures Run(str, ssteps, init) && |ssteps| <= n && str[|ssteps|] == tr[n].sched
  {
    hide Apply, Enabled, MarkerFree, Boot, CApply, CEnabled;
    if n == 0 {
      BootsScheduler(tr[0], init);
      str, ssteps := [tr[0].sched], [];
    } else {
      str, ssteps := SchedulerRuns(tr, steps, init, n - 1);
      StepIsRequested(tr[n - 1], steps[n - 1]);
      var request := RequestOf(tr[n - 1], steps[n - 1]);
      if request.Asks? {
        RunGrows(str, ssteps, init, request.a);
        str, ssteps := str + [tr[n].sched], ssteps + [request.a];
      }
    }
  }

  lemma BootsScheduler(s: Cc, init: Tid)
    requires CBoot(s, init)
    ensures Boot(s.sched, init)
  {
  }

  lemma RunGrows(str: seq<Sched>, ssteps: seq<Step>, init: Tid, b: Step)
    requires Run(str, ssteps, init) && Enabled(str[|ssteps|], b) && MarkerFree(b)
    ensures Run(str + [Apply(str[|ssteps|], b)], ssteps + [b], init)
  {
    hide Apply, Enabled, MarkerFree, Boot;
  }
}
