/** What holds in every run of the scheduler, for any number of cores and threads. */
module SchedTheorems {
  import opened ListSpec
  import opened SchedModel
  import opened SchedInvariant
  import opened SchedSteps

  // ----- runs -----

  const NEW_IDLE := Thread(IDLE_THREAD, RUNNING, CTX_DIRTY, 0, NO_TIMEOUT)

  /** The scheduler when the cores enter it: every core runs its idle thread, and the thread of
      the init process is ready. */
  ghost predicate Boot(s: Sched, init: Tid) {
    && |s.cores| > 0
    && (forall c :: 0 <= c < |s.cores| ==> s.cores[c].pc == Running && s.cores[c].current == s.cores[c].idle)
    && (forall c, d :: 0 <= c < d < |s.cores| ==> s.cores[c].idle != s.cores[d].idle)
    && (forall c :: 0 <= c < |s.cores| ==> s.cores[c].idle in s.tcb && s.tcb[s.cores[c].idle] == NEW_IDLE)
    && (forall t :: t in s.tcb ==> t == init || exists c :: 0 <= c < |s.cores| && s.cores[c].idle == t)
    && init in s.tcb && s.tcb[init] == NEW_THREAD.(state := READY)
    && s.queue == [[init], [], []] && s.timeouts == []
    && s.active == 1 && s.scheduled == 0
  }

  /** The scheduler before the boot: idle threads, and nothing else. */
  ghost predicate AtRest(s: Sched) {
    && |s.cores| > 0
    && (forall c :: 0 <= c < |s.cores| ==> s.cores[c].pc == Running && s.cores[c].current == s.cores[c].idle)
    && (forall c, d :: 0 <= c < d < |s.cores| ==> s.cores[c].idle != s.cores[d].idle)
    && (forall c :: 0 <= c < |s.cores| ==> s.cores[c].idle in s.tcb && s.tcb[s.cores[c].idle] == NEW_IDLE)
    && (forall t :: t in s.tcb ==> exists c :: 0 <= c < |s.cores| && s.cores[c].idle == t)
    && s.queue == [[], [], []] && s.timeouts == []
    && s.active == 0 && s.scheduled == 0
  }

  /** What the Exec of the init process makes of it. */
  lemma BootIsReached(s: Sched, init: Tid)
    requires AtRest(s) && init !in s.tcb
    ensures init in Spawn(s, init).tcb && Boot(WakeupLocked(Spawn(s, init), init), init)
  {
    var s' := WakeupLocked(Spawn(s, init), init);
    assert s'.queue[0] == [init];
  }

  ghost predicate Run(tr: seq<Sched>, steps: seq<Step>, init: Tid) {
    && |tr| == |steps| + 1
    && Boot(tr[0], init)
    && forall i :: 0 <= i < |steps| ==>
         Enabled(tr[i], steps[i]) && MarkerFree(steps[i]) && tr[i + 1] == Apply(tr[i], steps[i])
  }

  lemma BootCount(s: Sched, init: Tid)
    requires Boot(s, init)
    ensures CountOk(s)
  {
    assert Normals(s.tcb) == {init};
  }

  lemma BootHeld(s: Sched, init: Tid)
    requires Boot(s, init)
    ensures CoresOk(s) && Exclusive(s.cores) && DirtyHeld(s) && !Held(s, init)
  {
    forall t | t in s.tcb && s.tcb[t].phase == CTX_DIRTY ensures Held(s, t) {
      var c :| 0 <= c < |s.cores| && s.cores[c].idle == t;
      assert HeldBy(s.cores[c], t);
    }
  }

  lemma BootQueues(s: Sched, init: Tid)
    requires Boot(s, init) && !Held(s, init)
    ensures QueuesOk(s)
  {
    assert s.queue[0] == [init] && s.queue[1] == [] && s.queue[2] == [];
    assert forall t :: t in s.tcb && Queueable(s.tcb[t]) ==> t == init;
  }

  lemma BootInv(s: Sched, init: Tid)
    requires Boot(s, init)
    ensures Inv(s)
  {
    hide Boot, CoresOk, Exclusive, DirtyHeld, QueuesOk, CountOk, ThreadsOk, TimeoutsOk, Held;
    BootCount(s, init);
    BootHeld(s, init);
    BootQueues(s, init);
    BootThreads(s, init);
  }

  lemma BootThreads(s: Sched, init: Tid)
    requires Boot(s, init)
    ensures ThreadsOk(s) && TimeoutsOk(s)
  {
    assert forall t :: t in s.tcb ==> s.tcb[t] == NEW_IDLE || s.tcb[t] == NEW_THREAD.(state := READY);
  }

  lemma {:induction false} RunInv(tr: seq<Sched>, steps: seq<Step>, init: Tid, n: nat)
    requires Run(tr, steps, init) && n < |tr|
    ensures Inv(tr[n])
  {
    if n == 0 {
      BootInv(tr[0], init);
    } else {
      RunInv(tr, steps, init, n - 1);
      StepKeeps(tr[n - 1], steps[n - 1]);
    }
  }

  // ----- the scheduler queue -----

  /** Some core has taken `t` to run it, and has not yet run `gain` for it. */
  ghost predicate Selected(s: Sched, t: Tid) {
    exists c :: 0 <= c < |s.cores| && SelectedBy(s.cores[c], t)
  }

  predicate SelectedBy(k: Core, t: Tid) {
    || (k.pc.Switching? && k.pc.next == t && k.current != t)
    || (k.pc == Gaining && k.current == t && k.previous != t)
  }

  function Occurrences(s: Sched, t: Tid): nat {
    multiset(s.queue[0] + s.queue[1] + s.queue[2])[t]
  }

  lemma OccurrencesByLevel(s: Sched, t: Tid)
    requires QueuesOk(s)
    ensures Occurrences(s, t) == if t in s.tcb && t in s.queue[s.tcb[t].priority] then 1 else 0
  {
    NoDupCount(s.queue[0], t);
    NoDupCount(s.queue[1], t);
    NoDupCount(s.queue[2], t);
    assert multiset(s.queue[0] + s.queue[1] + s.queue[2])
        == multiset(s.queue[0]) + multiset(s.queue[1]) + multiset(s.queue[2]);
  }

  lemma SelectedIsHeldClean(s: Sched, t: Tid)
    requires Inv(s) && t in s.tcb && Queueable(s.tcb[t])
    ensures Selected(s, t) <==> Held(s, t)
  {
    if Held(s, t) {
      var c :| 0 <= c < |s.cores| && HeldBy(s.cores[c], t);
      assert CoreOk(s, s.cores[c]);
      assert SelectedBy(s.cores[c], t);
    }
    if Selected(s, t) {
      var c :| 0 <= c < |s.cores| && SelectedBy(s.cores[c], t);
      assert HeldBy(s.cores[c], t);
    }
  }

  /** The queue invariant of kernel_sched.h, made exact: a thread occurs in the scheduler queue
      once, and then on the level of its priority, if and only if it is a normal thread that is
      READY and CTX_CLEAN and that no core has selected; otherwise it does not occur at all. */
  lemma QueueTheorem(tr: seq<Sched>, steps: seq<Step>, init: Tid, n: nat, t: Tid)
    requires Run(tr, steps, init) && n < |tr|
    ensures var s := tr[n];
      Occurrences(s, t) == if t in s.tcb && Queueable(s.tcb[t]) && !Selected(s, t) then 1 else 0
    ensures var s := tr[n];
      forall l :: 0 <= l < SCHED_MAX_LEVEL && t in s.queue[l] ==> t in s.tcb && s.tcb[t].priority == l
  {
    var s := tr[n];
    RunInv(tr, steps, init, n);
    OccurrencesByLevel(s, t);
    if t in s.tcb && Queueable(s.tcb[t]) {
      SelectedIsHeldClean(s, t);
    }
  }

  /** The header's claim for one thread: it is in the scheduler queue if and only if it is READY and
      CTX_CLEAN. It holds, in every run, exactly unless the thread is READY and CTX_CLEAN and is
      an idle thread or selected by a core. */
  lemma HeaderClaimIsExact(tr: seq<Sched>, steps: seq<Step>, init: Tid, n: nat, t: Tid)
    requires Run(tr, steps, init) && n < |tr| && t in tr[n].tcb
    ensures var s := tr[n]; var th := s.tcb[t];
      (Occurrences(s, t) > 0 <==> Incoming(th)) <==> !(Incoming(th) && (th.kind == IDLE_THREAD || Selected(s, t)))
  {
    QueueTheorem(tr, steps, init, n, t);
  }

  /** The header's wording is too strong: just after core 0 has picked the init thread, that
      thread is READY and CTX_CLEAN and on no queue. */
  lemma HeaderClaimFails(s: Sched, init: Tid, now: Clock)
    requires Boot(s, init)
    ensures Enabled(s, DoYield(0, SCHED_IDLE, now))
    ensures var s' := Apply(s, DoYield(0, SCHED_IDLE, now));
      init in s'.tcb && s'.tcb[init].state == READY && s'.tcb[init].phase == CTX_CLEAN && Occurrences(s', init) == 0
  {
    var s1 := Park(s, 0, SCHED_IDLE);
    var s' := Apply(s, DoYield(0, SCHED_IDLE, now));
    assert ExpireAll(s1, now) == s1;
    assert s1.queue[0] == [init] && s1.queue[1] == [] && s1.queue[2] == [];
    assert s'.queue[0] == [] && s'.queue[1] == [] && s'.queue[2] == [];
    assert s'.queue[0] + s'.queue[1] + s'.queue[2] == [];
  }

  // ----- cores and contexts -----

  /** In every run: no thread is on two cores; a switch goes only to a clean context that no
      other core holds; and the last arm of `gain`, which aborts, is never taken, even when
      other cores woke the outgoing thread in between. */
  lemma ContextSafety(tr: seq<Sched>, steps: seq<Step>, init: Tid, n: nat, c: nat, d: nat)
    requires Run(tr, steps, init) && n < |tr| && c < |tr[n].cores| && d < |tr[n].cores| && c != d
    ensures tr[n].cores[c].current != tr[n].cores[d].current
    ensures Enabled(tr[n], DoSwap(c)) ==> var next := tr[n].cores[c].pc.next;
      && !HeldBy(tr[n].cores[d], next)
      && next in tr[n].tcb && tr[n].cores[c].current in tr[n].tcb
      && (next != tr[n].cores[c].current ==> tr[n].tcb[next].phase == CTX_CLEAN)
    ensures tr[n].cores[c].pc == Gaining ==> var p := tr[n].cores[c].previous;
      && p in tr[n].tcb && tr[n].cores[c].current in tr[n].tcb
      && (p != tr[n].cores[c].current ==> tr[n].tcb[p].state in {READY, EXITED, STOPPED})
  {
    var s := tr[n];
    RunInv(tr, steps, init, n);
    assert CoreOk(s, s.cores[c]);
    assert HeldBy(s.cores[c], s.cores[c].current);
    assert HeldBy(s.cores[d], s.cores[d].current);
    if s.cores[c].pc.Switching? {
      assert HeldBy(s.cores[c], s.cores[c].pc.next);
    }
  }

  // ----- timeouts -----

  /** In every run the timeout list is in order of wake-up time and holds exactly the threads
      that have one, each once. None of them is in the scheduler queue too, so that the one node
      that a thread has for both lists is enough. */
  lemma TimeoutTheorem(tr: seq<Sched>, steps: seq<Step>, init: Tid, n: nat)
    requires Run(tr, steps, init) && n < |tr|
    ensures TimeoutsOk(tr[n])
    ensures forall t :: t in tr[n].timeouts ==> tr[n].tcb[t].state == STOPPED && Occurrences(tr[n], t) == 0
  {
    var s := tr[n];
    RunInv(tr, steps, init, n);
    forall t | t in s.timeouts ensures s.tcb[t].state == STOPPED && Occurrences(s, t) == 0 {
      assert ThreadOk(s.tcb[t]);
      QueueTheorem(tr, steps, init, n, t);
    }
  }

  /** The proviso on wake-up times is exact: a sleep keeps the invariant if and only if
      `bios_clock() + timeout` does not come out as the marker for "never". */
  lemma MarkerIsExact(s: Sched, c: nat, timeout: Time, now: Clock)
    requires Inv(s) && Enabled(s, DoSleep(c, STOPPED, timeout, now)) && timeout != NO_TIMEOUT
    ensures Inv(SleepLocked(s, c, STOPPED, timeout, now)) <==> WakeTime(now, timeout) != NO_TIMEOUT
  {
    SuspendKeeps(s, c, STOPPED);
    RegisterList(Suspend(s, c, STOPPED), s.cores[c].current, WakeTime(now, timeout));
    if WakeTime(now, timeout) != NO_TIMEOUT {
      SleepKeeps(s, c, STOPPED, timeout, now);
    }
  }

  /** A concrete input that breaks it: a sleep one second after the epoch of the clock that is to
      end at the last instant. */
  lemma MarkerExample(s: Sched, c: nat, timeout: Time, now: Clock)
    requires Inv(s) && Enabled(s, DoSleep(c, STOPPED, timeout, now))
    requires now == Microseconds(1000) && timeout == NO_TIMEOUT - now
    ensures !Inv(SleepLocked(s, c, STOPPED, timeout, now))
  {
    hide Inv, SleepLocked;
    MarkerIsExact(s, c, timeout, now);
  }

  predicate Due(th: Thread, now: Clock) {
    th.wakeup != NO_TIMEOUT && th.wakeup <= now
  }

  function Expired(th: Thread, now: Clock): Thread {
    if Due(th, now) then th.(state := READY, wakeup := NO_TIMEOUT) else th
  }

  lemma MakeReadyHead(s: Sched)
    requires Inv(s) && s.timeouts != []
    ensures var t := s.timeouts[0];
      && t in s.tcb && s.tcb[t].wakeup != NO_TIMEOUT && s.tcb[t].state == STOPPED
      && MakeReady(s, t).timeouts == s.timeouts[1..]
      && MakeReady(s, t).tcb == s.tcb[t := s.tcb[t].(state := READY, wakeup := NO_TIMEOUT)]
  {
    assert s.timeouts[0] in s.timeouts;
  }

  lemma NothingDue(s: Sched, now: Clock, t: Tid)
    requires Inv(s) && !HeadDue(s, now)
    ensures WakeupOf(s, t) > now
  {
    if t in s.timeouts {
      assert s.timeouts[0] in s.timeouts;
      var i :| 0 <= i < |s.timeouts| && s.timeouts[i] == t;
      assert WakeupOf(s, s.timeouts[0]) <= WakeupOf(s, s.timeouts[i]);
    }
  }

  lemma {:induction false} ExpiryOfThread(s: Sched, now: Clock, t: Tid)
    requires Inv(s)
    ensures t in s.tcb ==> t in ExpireAll(s, now).tcb && ExpireAll(s, now).tcb[t] == Expired(s.tcb[t], now)
    ensures t in ExpireAll(s, now).timeouts <==> t in s.timeouts && WakeupOf(s, t) > now
    decreases |s.timeouts|
  {
    if HeadDue(s, now) {
      var u := s.timeouts[0];
      MakeReadyHead(s);
      MakeReadyKeeps(s, u);
      assert t in s.timeouts[1..] <==> t in s.timeouts && t != u;
      ExpiryOfThread(MakeReady(s, u), now, t);
    } else {
      NothingDue(s, now, t);
    }
  }

  /** An expiry pass wakes exactly the threads due at or before the current time, and leaves
      the others as they were. */
  lemma ExpiryIsExact(s: Sched, now: Clock)
    requires Inv(s)
    ensures ExpireAll(s, now).tcb.Keys == s.tcb.Keys
    ensures forall t :: t in s.tcb ==> ExpireAll(s, now).tcb[t] == Expired(s.tcb[t], now)
    ensures forall t :: t in ExpireAll(s, now).timeouts <==> t in s.timeouts && s.tcb[t].wakeup > now
  {
    ExpireAllKeeps(s, now);
    forall t
      ensures t in s.tcb ==> ExpireAll(s, now).tcb[t] == Expired(s.tcb[t], now)
      ensures t in ExpireAll(s, now).timeouts <==> t in s.timeouts && WakeupOf(s, t) > now
    {
      ExpiryOfThread(s, now, t);
    }
  }

  // ----- selection -----

  /** The chosen thread heads the queue of the best priority there is. */
  lemma SelectionIsBest(s: Sched, c: nat, l: nat, i: nat)
    requires Inv(s) && c < |s.cores| && s.cores[c].current in s.tcb
    requires l < SCHED_MAX_LEVEL && i < |s.queue[l]|
    ensures var t := Chosen(s, c);
      && t in s.tcb && Queueable(s.tcb[t])
      && s.tcb[t].priority <= l
      && s.queue[s.tcb[t].priority] != [] && s.queue[s.tcb[t].priority][0] == t
  {
    var l0 := FirstLevel(s.queue);
    assert s.queue[l0][0] in s.tcb;
  }

  // ----- thread lifetimes and shutdown -----

  /** The state that step `a` gives thread `t`. */
  function StateAfter(s: Sched, a: Step, t: Tid): ThreadState
    requires Enabled(s, a) && t in s.tcb
  {
    var st := s.tcb[t].state;
    match a
    case DoWakeup(u) => if u == t && Wakeable(s.tcb[t]) then READY else st
    case DoSleep(c, st', _, _) => if s.cores[c].current == t then st' else st
    case DoYield(c, _, now) =>
      if Due(s.tcb[t], now) || (s.cores[c].current == t && st == RUNNING) then READY else st
    case DoGain(c) => if s.cores[c].current == t then RUNNING else st
    case _ => st
  }

  /** The wake-up time that step `a` gives it. */
  function WakeupAfter(s: Sched, a: Step, t: Tid): Time
    requires Enabled(s, a) && t in s.tcb
  {
    var w := s.tcb[t].wakeup;
    match a
    case DoWakeup(u) => if u == t && Wakeable(s.tcb[t]) then NO_TIMEOUT else w
    case DoSleep(c, st, timeout, now) =>
      if s.cores[c].current != t || st != STOPPED || timeout == NO_TIMEOUT then w
      else if now + timeout < TIME_MODULUS then now + timeout
      else now + timeout - TIME_MODULUS
    case DoYield(_, _, now) => if Due(s.tcb[t], now) then NO_TIMEOUT else w
    case _ => w
  }

  /** The priority that it gives it: a cpu-bound thread, or one stuck at a mutex, sinks by one level,
      and one that waits for I/O rises by one. Nothing but a yield of its own changes it. */
  function PriorityAfter(s: Sched, a: Step, t: Tid): int
    requires Enabled(s, a) && t in s.tcb
  {
    var p := s.tcb[t].priority;
    if !a.DoYield? || s.cores[a.core].current != t then p
    else match a.cause {
      case SCHED_QUANTUM | SCHED_MUTEX => Min(p + 1, SCHED_MAX_LEVEL - 1)
      case SCHED_IO => Max(p - 1, 0)
      case _ => p
    }
  }

  /** The phase: a thread that gets a core dirties its context, which is clean again once the core
      has switched to another thread. */
  function PhaseAfter(s: Sched, a: Step, t: Tid): Phase
    requires Enabled(s, a) && t in s.tcb
  {
    if a.DoGain? && s.cores[a.core].current == t then CTX_DIRTY
    else if a.DoGain? && s.cores[a.core].previous == t then CTX_CLEAN
    else s.tcb[t].phase
  }

  /** All of what is known of thread `th` after step `a`, if it is still there. */
  predicate IsAfter(th: Thread, s: Sched, a: Step, t: Tid)
    requires Enabled(s, a) && t in s.tcb
  {
    && th.kind == s.tcb[t].kind
    && th.state == StateAfter(s, a, t)
    && th.phase == PhaseAfter(s, a, t)
    && th.priority == PriorityAfter(s, a, t)
    && th.wakeup == WakeupAfter(s, a, t)
  }

  lemma YieldThreads(s: Sched, c: nat, cause: Cause, now: Clock, t: Tid)
    requires Inv(s) && Enabled(s, DoYield(c, cause, now)) && t in s.tcb
    ensures var s' := YieldLocked(s, c, cause, now);
      t in s'.tcb && IsAfter(s'.tcb[t], s, DoYield(c, cause, now), t)
  {
    hide Inv, Park, Pick, ExpireAll, Reprioritise;
    var s1 := Park(s, c, cause);
    ParkKeeps(s, c, cause);
    ExpiryOfThread(s1, now, t);
    YieldExpires(s, c, cause, now);
    ThreadBasics(s, t);
    ParkThread(s, c, cause, now, t);
  }

  lemma YieldExpires(s: Sched, c: nat, cause: Cause, now: Clock)
    requires Enabled(s, DoYield(c, cause, now))
    ensures YieldLocked(s, c, cause, now).tcb == ExpireAll(Park(s, c, cause), now).tcb
  {
    hide Park, ExpireAll;
    ExpireAllKeeps(Park(s, c, cause), now);
  }

  lemma ParkThread(s: Sched, c: nat, cause: Cause, now: Clock, t: Tid)
    requires Enabled(s, DoYield(c, cause, now)) && t in s.tcb
    ensures var a, s' := DoYield(c, cause, now), Park(s, c, cause);
      t in s'.tcb && s'.tcb[t] == s.tcb[t].(priority := s'.tcb[t].priority,
        state := if s.cores[c].current == t && s.tcb[t].state == RUNNING then READY else s.tcb[t].state)
      && s'.tcb[t].priority == PriorityAfter(s, a, t)
  {
  }

  /** What a step does to each thread: the scheduler's contract towards the layers above it. */
  lemma StepThreads(s: Sched, a: Step, t: Tid)
    requires Inv(s) && Enabled(s, a) && t in s.tcb
    ensures var s' := Apply(s, a);
      if a.DoGain? && s.cores[a.core].previous == t && s.cores[a.core].current != t && s.tcb[t].state == EXITED
      then t !in s'.tcb
      else t in s'.tcb && IsAfter(s'.tcb[t], s, a, t)
  {
    hide Inv, YieldLocked, SleepLocked, GainLocked, MakeReady;
    match a
    case DoYield(c, cause, now) => YieldThreads(s, c, cause, now, t);
    case DoSleep(c, st, timeout, now) => SleepThreads(s, c, st, timeout, now, t);
    case DoGain(c) => RetireThreads(s, c, t);
    case DoWakeup(u) => WakeupThreads(s, u, t);
    case _ =>
  }

  lemma SleepThreads(s: Sched, c: nat, st: ThreadState, timeout: Time, now: Clock, t: Tid)
    requires Enabled(s, DoSleep(c, st, timeout, now)) && t in s.tcb
    ensures var a := DoSleep(c, st, timeout, now); var s' := SleepLocked(s, c, st, timeout, now);
      t in s'.tcb && IsAfter(s'.tcb[t], s, a, t)
  {
    hide InsertionPoint;
  }

  lemma WakeupThreads(s: Sched, u: Tid, t: Tid)
    requires u in s.tcb && t in s.tcb
    ensures var a := DoWakeup(u); var s' := WakeupLocked(s, u);
      t in s'.tcb && IsAfter(s'.tcb[t], s, a, t)
  {
    hide Remove;
  }

  lemma RetireThreads(s: Sched, c: nat, t: Tid)
    requires Inv(s) && Enabled(s, DoGain(c)) && t in s.tcb
    ensures var k := s.cores[c]; var s' := GainLocked(s, c);
      if k.previous == t && k.current != t && s.tcb[t].state == EXITED then t !in s'.tcb
      else t in s'.tcb && IsAfter(s'.tcb[t], s, DoGain(c), t)
  {
    hide Inv;
    GainThreads(s, c);
  }

  lemma GainThreads(s: Sched, c: nat)
    requires Inv(s) && Enabled(s, DoGain(c))
    ensures ThreadOk(s.tcb[s.cores[c].current]) && CoreOk(s, s.cores[c])
  {
  }

  /** Threads come from spawns alone; a new one is a normal thread of the best priority that has not
      been woken yet. */
  lemma StepBirths(s: Sched, a: Step, t: Tid)
    requires Enabled(s, a) && t !in s.tcb
    ensures t in Apply(s, a).tcb <==> a.DoSpawn? && a.tid == t
    ensures t in Apply(s, a).tcb ==> Apply(s, a).tcb[t] == Thread(NORMAL_THREAD, INIT, CTX_CLEAN, 0, NO_TIMEOUT)
  {
    if a.DoYield? {
      ExpireAllKeeps(Park(s, a.core, a.cause), a.now);
    }
  }

  /** Every core that has not left can always take its next step. */
  lemma CoreGoesOn(s: Sched, c: nat, cause: Cause, now: Clock)
    requires Inv(s) && c < |s.cores| && s.cores[c].pc != Left
    ensures match s.cores[c].pc {
      case Switching(_) => Enabled(s, DoSwap(c))
      case Gaining => Enabled(s, DoGain(c))
      case _ => Enabled(s, DoYield(c, cause, now))
    }
  {
    assert CoreOk(s, s.cores[c]);
  }

  lemma StepCores(s: Sched, a: Step, d: nat)
    requires Enabled(s, a) && d < |s.cores|
    ensures |Apply(s, a).cores| == |s.cores|
    ensures a.DoSpawn? || a.DoWakeup? || a.core != d ==> Apply(s, a).cores[d] == s.cores[d]
    ensures a.DoYield? && a.core == d ==> Apply(s, a).cores[d].current == s.cores[d].current
  {
    if a.DoYield? {
      ExpireAllKeeps(Park(s, a.core, a.cause), a.now);
    }
  }

  /** An exited thread stays exited, in the hands of the core it ran on, until that core's next
      `gain`, which releases it. No other step releases it. */
  lemma ExitedIsReleasedOnce(s: Sched, a: Step, c: nat, t: Tid)
    requires Inv(s) && Enabled(s, a)
    requires c < |s.cores| && t in s.tcb && s.tcb[t].state == EXITED && HeldBy(s.cores[c], t)
    ensures |Apply(s, a).cores| == |s.cores|
    ensures a == DoGain(c) ==> t !in Apply(s, a).tcb && Apply(s, a).active == s.active - 1
    ensures a != DoGain(c) ==>
      t in Apply(s, a).tcb && Apply(s, a).tcb[t].state == EXITED && HeldBy(Apply(s, a).cores[c], t)
  {
    assert CoreOk(s, s.cores[c]) && ThreadOk(s.tcb[t]);
    StepThreads(s, a, t);
    StepCores(s, a, c);
    if !a.DoSpawn? && !a.DoWakeup? {
      assert CoreOk(s, s.cores[a.core]);
      assert HeldBy(s.cores[a.core], s.cores[a.core].current);
      assert a.DoGain? ==> HeldBy(s.cores[a.core], s.cores[a.core].previous);
    }
  }

  lemma HeldByOne(s: Sched, t: Tid) returns (c: nat)
    requires Inv(s) && t in s.tcb && s.tcb[t].phase == CTX_DIRTY
    ensures c < |s.cores| && HeldBy(s.cores[c], t)
    ensures forall d :: 0 <= d < |s.cores| && d != c ==> !HeldBy(s.cores[d], t)
  {
    assert Held(s, t);
    c :| c < |s.cores| && HeldBy(s.cores[c], t);
  }

  lemma {:induction false} ExitedUntilGain(tr: seq<Sched>, steps: seq<Step>, init: Tid, n: nat, m: nat, t: Tid, c: nat)
    requires Run(tr, steps, init) && n <= m < |tr|
    requires t in tr[n].tcb && tr[n].tcb[t].state == EXITED && c < |tr[n].cores| && HeldBy(tr[n].cores[c], t)
    requires forall i :: n <= i < m ==> steps[i] != DoGain(c)
    ensures t in tr[m].tcb && tr[m].tcb[t].state == EXITED && c < |tr[m].cores| && HeldBy(tr[m].cores[c], t)
  {
    hide Inv, Apply, Enabled;
    if n < m {
      ExitedUntilGain(tr, steps, init, n, m - 1, t, c);
      RunInv(tr, steps, init, m - 1);
      ExitedIsReleasedOnce(tr[m - 1], steps[m - 1], c, t);
    }
  }

  /** The end of a thread, in any run: once it has exited it is in the hands of exactly one core;
      it stays so, exited, until that core's first `gain` after that, and is released by it. */
  lemma ExitedTheorem(tr: seq<Sched>, steps: seq<Step>, init: Tid, n: nat, t: Tid) returns (c: nat)
    requires Run(tr, steps, init) && n < |tr| && t in tr[n].tcb && tr[n].tcb[t].state == EXITED
    ensures c < |tr[n].cores| && forall d :: 0 <= d < |tr[n].cores| ==> (HeldBy(tr[n].cores[d], t) <==> d == c)
    ensures forall m :: n <= m < |tr| && NoGain(steps, c, n, m) ==>
      && t in tr[m].tcb && tr[m].tcb[t].state == EXITED && c < |tr[m].cores| && HeldBy(tr[m].cores[c], t)
      && (m < |steps| && steps[m] == DoGain(c) ==> t !in tr[m + 1].tcb && tr[m + 1].active == tr[m].active - 1)
  {
    RunInv(tr, steps, init, n);
    assert ThreadOk(tr[n].tcb[t]);
    c := HeldByOne(tr[n], t);
    forall m | n <= m < |tr| && NoGain(steps, c, n, m)
      ensures t in tr[m].tcb && tr[m].tcb[t].state == EXITED && c < |tr[m].cores| && HeldBy(tr[m].cores[c], t)
      ensures m < |steps| && steps[m] == DoGain(c) ==> t !in tr[m + 1].tcb && tr[m + 1].active == tr[m].active - 1
    {
      ExitedUntilGain(tr, steps, init, n, m, t, c);
      if m < |steps| {
        RunInv(tr, steps, init, m);
        ExitedIsReleasedOnce(tr[m], steps[m], c, t);
      }
    }
  }

  /** Core `c` makes no `gain` in the steps from `n` up to `m`. */
  ghost predicate NoGain(steps: seq<Step>, c: nat, n: nat, m: nat) {
    m <= |steps| && forall i :: n <= i < m ==> steps[i] != DoGain(c)
  }

  /** Nothing but an exited thread is ever released, and a release lowers the count by one. */
  lemma ReleasedHasExited(s: Sched, a: Step, t: Tid)
    requires Inv(s) && Enabled(s, a) && t in s.tcb && t !in Apply(s, a).tcb
    ensures a.DoGain? && s.cores[a.core].previous == t && s.tcb[t].state == EXITED
    ensures s.tcb[t].kind == NORMAL_THREAD && Apply(s, a).active == s.active - 1
  {
    match a
    case DoYield(d, cause, now) =>
      ExpireAllKeeps(Park(s, d, cause), now);
    case DoGain(d) =>
      assert CoreOk(s, s.cores[d]);
    case _ =>
  }

  lemma ExecutingIsActive(s: Sched, c: nat, t: Tid)
    requires Inv(s) && Executes(s, c, t)
    ensures s.active > 0
  {
    assert t in Normals(s.tcb);
  }

  /** Only a running thread creates threads, so none appears once there is none. */
  lemma NoSpawnWhenIdle(s: Sched, a: Step)
    requires Inv(s) && Enabled(s, a) && Inv(Apply(s, a))
    ensures s.active == 0 ==> Apply(s, a).active == 0
  {
    match a
    case DoSpawn(c, _) =>
      ExecutingIsActive(s, c, s.cores[c].current);
    case DoYield(c, cause, now) =>
      ExpireAllKeeps(Park(s, c, cause), now);
    case _ =>
  }

  lemma {:induction false} ActiveStaysZero(tr: seq<Sched>, steps: seq<Step>, init: Tid, i: nat, n: nat)
    requires Run(tr, steps, init) && i <= n < |tr| && tr[i].active == 0
    ensures tr[n].active == 0
  {
    hide Inv, Apply, Enabled;
    if i < n {
      ActiveStaysZero(tr, steps, init, i, n - 1);
      RunInv(tr, steps, init, n - 1);
      StepKeeps(tr[n - 1], steps[n - 1]);
      NoSpawnWhenIdle(tr[n - 1], steps[n - 1]);
    }
  }

  lemma ListedIsNormal(s: Sched)
    requires Inv(s)
    ensures forall l :: 0 <= l < SCHED_MAX_LEVEL && s.queue[l] != [] ==> Normals(s.tcb) != {}
    ensures s.timeouts != [] ==> Normals(s.tcb) != {}
  {
    forall l | 0 <= l < SCHED_MAX_LEVEL && s.queue[l] != [] ensures Normals(s.tcb) != {} {
      assert s.queue[l][0] in Normals(s.tcb);
    }
    if s.timeouts != [] {
      assert s.timeouts[0] in s.timeouts;
      assert ThreadOk(s.tcb[s.timeouts[0]]);
      assert s.timeouts[0] in Normals(s.tcb);
    }
  }

  /** Once the count of active threads is zero (which is when an idle thread may leave), it is
      zero for ever: only idle threads exist, and every queue and the timeout list are empty. */
  lemma Shutdown(tr: seq<Sched>, steps: seq<Step>, init: Tid, i: nat, n: nat)
    requires Run(tr, steps, init) && i <= n < |tr|
    requires tr[i].active == 0 || exists c :: 0 <= c < |tr[i].cores| && tr[i].cores[c].pc == Left
    ensures tr[n].queue == [[], [], []] && tr[n].timeouts == []
    ensures forall t :: t in tr[n].tcb ==> tr[n].tcb[t].kind == IDLE_THREAD
    ensures forall c :: 0 <= c < |tr[n].cores| ==> tr[n].cores[c].current == tr[n].cores[c].idle
  {
    RunInv(tr, steps, init, i);
    ActiveStaysZero(tr, steps, init, i, n);
    RunInv(tr, steps, init, n);
    var s := tr[n];
    assert Normals(s.tcb) == {};
    ListedIsNormal(s);
    forall t | t in s.tcb ensures s.tcb[t].kind == IDLE_THREAD {
      assert t !in Normals(s.tcb);
    }
    forall c | 0 <= c < |s.cores| ensures s.cores[c].current == s.cores[c].idle {
      assert CoreOk(s, s.cores[c]);
    }
  }

  /** The count of active threads is, in every run, the number of normal threads in existence. */
  lemma ActiveCountsThreads(tr: seq<Sched>, steps: seq<Step>, init: Tid, n: nat)
    requires Run(tr, steps, init) && n < |tr|
    ensures tr[n].active == |Normals(tr[n].tcb)|
  {
    RunInv(tr, steps, init, n);
  }
}
