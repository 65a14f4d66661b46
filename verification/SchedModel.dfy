/** The scheduler of kernel_sched.c as a state machine. Every section that runs under
    `sched_spinlock` is one step; the unlocked context switch between `yield` and `gain`
    is a step of its own, so that other cores may act in between. */
module SchedModel {
  import opened ListSpec

  type Tid = nat

  // Times are unsigned 64-bit numbers of microseconds; the largest one stands for "never".
  const TIME_MODULUS: nat := 0x1_0000_0000_0000_0000
  const NO_TIMEOUT: nat := TIME_MODULUS - 1
  type Time = t: nat | t < TIME_MODULUS

  /** The clock, and the timeouts of user code, are milliseconds times 1000, modulo 2^64. These are
      multiples of 8. */
  predicate OnGrid(t: nat) {
    t % 8 == 0
  }

  function Microseconds(ms: nat): (t: Time)
    ensures OnGrid(t) && t < NO_TIMEOUT
  {
    MillisecondsFit(ms);
    (1000 * ms) % TIME_MODULUS
  }

  lemma MillisecondsFit(ms: nat)
    ensures OnGrid((1000 * ms) % TIME_MODULUS)
  {
    var q, t := (1000 * ms) / TIME_MODULUS, (1000 * ms) % TIME_MODULUS;
    var k := 125 * ms - q * 0x2000_0000_0000_0000;
    assert t == 8 * k;
  }

  /** The one number of 64 bits that differs from `1000 * ms` by a multiple of 2^64; so it is
      `1000 * ms` unless that overflows. */
  lemma MicrosecondsWrap(ms: nat) returns (q: nat)
    ensures 1000 * ms == q * TIME_MODULUS + Microseconds(ms)
    ensures 1000 * ms < TIME_MODULUS ==> Microseconds(ms) == 1000 * ms
  {
    q := (1000 * ms) / TIME_MODULUS;
  }

  type Clock = t: nat | t < NO_TIMEOUT && OnGrid(t)

  const SCHED_MAX_LEVEL: nat := 3
  const SCHED_MAX_SCHEDULED: nat := 3
  type Level = l: nat | l < SCHED_MAX_LEVEL
  type Queues = q: seq<seq<Tid>> | |q| == SCHED_MAX_LEVEL witness [[], [], []]

  datatype Kind = IDLE_THREAD | NORMAL_THREAD
  datatype ThreadState = INIT | READY | RUNNING | STOPPED | EXITED
  datatype Phase = CTX_CLEAN | CTX_DIRTY
  datatype Cause = SCHED_QUANTUM | SCHED_IO | SCHED_MUTEX | SCHED_PIPE | SCHED_POLL | SCHED_IDLE | SCHED_USER

  datatype Thread = Thread(kind: Kind, state: ThreadState, phase: Phase, priority: Level, wakeup: Time)

  /** Where a core is with respect to the scheduler. */
  datatype Pc =
    | Running               // executing its current thread
    | Sleeping              // has released sched_spinlock and is about to lock it again in yield
    | Switching(next: Tid)  // has chosen the next thread and unlocked; context not swapped yet
    | Gaining               // context swapped; has not run gain yet
    | Left                  // its idle thread has left the scheduler

  datatype Core = Core(idle: Tid, current: Tid, previous: Tid, pc: Pc)

  datatype Sched = Sched(
    tcb: map<Tid, Thread>, queue: Queues, timeouts: seq<Tid>,
    cores: seq<Core>, active: int, scheduled: int)

  function Min(a: int, b: int): int {
    if a < b then a else b
  }

  function Max(a: int, b: int): int {
    if a < b then b else a
  }

  // ----- the locked sections, as functions -----

  function SetThread(s: Sched, t: Tid, th: Thread): Sched {
    s.(tcb := s.tcb[t := th])
  }

  function Enqueue(s: Sched, t: Tid): Sched
    requires t in s.tcb
  {
    var l := s.tcb[t].priority;
    s.(queue := s.queue[l := s.queue[l] + [t]])
  }

  function DropTimeout(s: Sched, t: Tid): Sched
    requires t in s.tcb
  {
    if s.tcb[t].wakeup == NO_TIMEOUT then s
    else SetThread(s, t, s.tcb[t].(wakeup := NO_TIMEOUT)).(timeouts := Remove(s.timeouts, t))
  }

  function MarkReady(s: Sched, t: Tid): Sched
    requires t in s.tcb
  {
    var s1 := SetThread(s, t, s.tcb[t].(state := READY));
    if s.tcb[t].phase == CTX_CLEAN then Enqueue(s1, t) else s1
  }

  function MakeReady(s: Sched, t: Tid): Sched
    requires t in s.tcb
  {
    MarkReady(DropTimeout(s, t), t)
  }

  predicate Wakeable(th: Thread) {
    th.state == STOPPED || th.state == INIT
  }

  predicate HeadDue(s: Sched, now: Clock) {
    s.timeouts != [] && s.timeouts[0] in s.tcb && s.tcb[s.timeouts[0]].wakeup <= now
  }

  function ExpireAll(s: Sched, now: Clock): Sched
    decreases |s.timeouts|
  {
    if HeadDue(s, now) then ExpireAll(MakeReady(s, s.timeouts[0]), now) else s
  }

  /** The position at which a wake-up time enters the timeout list: before the first later one. */
  function InsertionPoint(tl: seq<Tid>, tcb: map<Tid, Thread>, w: Time): (k: nat)
    requires forall i :: 0 <= i < |tl| ==> tl[i] in tcb
    ensures k <= |tl|
    ensures forall i :: 0 <= i < k ==> tcb[tl[i]].wakeup <= w
    ensures k < |tl| ==> w < tcb[tl[k]].wakeup
  {
    if tl == [] || w < tcb[tl[0]].wakeup then 0
    else 1 + InsertionPoint(tl[1..], tcb, w)
  }

  lemma {:induction false} InsertionPointUnique(tl: seq<Tid>, tcb: map<Tid, Thread>, w: Time, k: nat)
    requires forall i :: 0 <= i < |tl| ==> tl[i] in tcb
    requires k <= |tl| && (forall i :: 0 <= i < k ==> tcb[tl[i]].wakeup <= w)
    requires k < |tl| ==> w < tcb[tl[k]].wakeup
    ensures k == InsertionPoint(tl, tcb, w)
  {
    if 0 < k {
      InsertionPointUnique(tl[1..], tcb, w, k - 1);
    }
  }

  function WakeTime(now: Clock, timeout: Time): (w: Time)
    ensures w == if now + timeout < TIME_MODULUS then now + timeout else now + timeout - TIME_MODULUS
  {
    (now + timeout) % TIME_MODULUS
  }

  /** A timeout in milliseconds never ends at the marker for "never", which is odd. */
  lemma MillisecondsNeverReachMarker(now: Clock, timeout: Time)
    requires OnGrid(timeout)
    ensures WakeTime(now, timeout) != NO_TIMEOUT
  {
    var t := now + timeout;
    assert OnGrid(now) && t == 8 * (now / 8 + timeout / 8) && OnGrid(TIME_MODULUS);
    assert WakeTime(now, timeout) == if t < TIME_MODULUS then t else t - TIME_MODULUS;
  }

  function RegisterTimeout(s: Sched, t: Tid, w: Time): Sched
    requires t in s.tcb
    requires forall i :: 0 <= i < |s.timeouts| ==> s.timeouts[i] in s.tcb
  {
    var s1 := SetThread(s, t, s.tcb[t].(wakeup := w));
    var k := InsertionPoint(s.timeouts, s1.tcb, w);
    s1.(timeouts := s.timeouts[..k] + [t] + s.timeouts[k..])
  }

  function SetPc(s: Sched, c: nat, pc: Pc): Sched
    requires c < |s.cores|
  {
    s.(cores := s.cores[c := s.cores[c].(pc := pc)])
  }

  function Reprioritise(p: Level, cause: Cause): Level {
    if (cause == SCHED_QUANTUM || cause == SCHED_MUTEX) && p < SCHED_MAX_LEVEL - 1 then p + 1
    else if cause == SCHED_IO && p > 0 then p - 1
    else p
  }

  /** First part of `yield`: the current thread gives up the core. */
  function Park(s: Sched, c: nat, cause: Cause): Sched
    requires c < |s.cores| && s.cores[c].current in s.tcb
  {
    var t := s.cores[c].current;
    var th := s.tcb[t];
    var st := if th.state == RUNNING then READY else th.state;
    SetPc(SetThread(s, t, th.(state := st, priority := Reprioritise(th.priority, cause))), c, Sleeping)
  }

  /** The first level with a thread in it, or SCHED_MAX_LEVEL. */
  function FirstLevel(q: Queues): (l: nat)
    ensures l <= SCHED_MAX_LEVEL
    ensures forall i :: 0 <= i < l ==> q[i] == []
    ensures l < SCHED_MAX_LEVEL ==> q[l] != []
  {
    if q[0] != [] then 0 else if q[1] != [] then 1 else if q[2] != [] then 2 else SCHED_MAX_LEVEL
  }

  function Chosen(s: Sched, c: nat): Tid
    requires c < |s.cores| && s.cores[c].current in s.tcb
  {
    var l := FirstLevel(s.queue);
    if l < SCHED_MAX_LEVEL then s.queue[l][0]
    else if s.tcb[s.cores[c].current].state == READY then s.cores[c].current
    else s.cores[c].idle
  }

  /** The queues without the thread chosen from them. The `scheduled` counter starts over when
      a choice is made past its bound. */
  function PopFirst(s: Sched): Sched {
    var l := FirstLevel(s.queue);
    if l < SCHED_MAX_LEVEL then
      s.(queue := s.queue[l := s.queue[l][1..]],
         scheduled := if s.scheduled > SCHED_MAX_SCHEDULED then 0 else s.scheduled)
    else s
  }

  /** Last part of `yield`: take the chosen thread off its queue and remember the current one. */
  function Pick(s: Sched, c: nat): Sched
    requires c < |s.cores| && s.cores[c].current in s.tcb
  {
    var core := s.cores[c].(previous := s.cores[c].current, pc := Switching(Chosen(s, c)));
    PopFirst(s).(cores := s.cores[c := core], scheduled := PopFirst(s).scheduled + 1)
  }

  /** The locked part of `yield`. */
  function YieldLocked(s: Sched, c: nat, cause: Cause, now: Clock): Sched
    requires c < |s.cores| && s.cores[c].current in s.tcb
  {
    ExpireAllKeeps(Park(s, c, cause), now);
    Pick(ExpireAll(Park(s, c, cause), now), c)
  }

  /** Expiry touches neither the cores nor the set of threads. */
  lemma {:induction false} ExpireAllKeeps(s: Sched, now: Clock)
    ensures ExpireAll(s, now).cores == s.cores
    ensures ExpireAll(s, now).tcb.Keys == s.tcb.Keys
    ensures ExpireAll(s, now).active == s.active
    decreases |s.timeouts|
  {
    if HeadDue(s, now) {
      ExpireAllKeeps(MakeReady(s, s.timeouts[0]), now);
    }
  }

  /** The unlocked switch: the chosen thread becomes current on this core. */
  function Swap(s: Sched, c: nat): Sched
    requires c < |s.cores| && s.cores[c].pc.Switching?
  {
    s.(cores := s.cores[c := s.cores[c].(current := s.cores[c].pc.next, pc := Gaining)])
  }

  function Resume(s: Sched, c: nat): Sched
    requires c < |s.cores| && s.cores[c].current in s.tcb
  {
    var t := s.cores[c].current;
    SetPc(SetThread(s, t, s.tcb[t].(state := RUNNING, phase := CTX_DIRTY)), c, Running)
  }

  /** What `gain` does with the thread that owned the core before. */
  function Retire(s: Sched, p: Tid): Sched
    requires p in s.tcb
  {
    var th := s.tcb[p].(phase := CTX_CLEAN);
    var s1 := SetThread(s, p, th);
    if th.state == READY then
      if th.kind == IDLE_THREAD then s1 else Enqueue(s1, p)
    else if th.state == EXITED then
      s1.(tcb := s1.tcb - {p}, active := s1.active - 1)
    else s1
  }

  function GainLocked(s: Sched, c: nat): Sched
    requires c < |s.cores| && s.cores[c].current in s.tcb && s.cores[c].previous in s.tcb
  {
    var k := s.cores[c];
    if k.current == k.previous then Resume(s, c) else Retire(Resume(s, c), k.previous)
  }

  function Suspend(s: Sched, c: nat, st: ThreadState): Sched
    requires c < |s.cores| && s.cores[c].current in s.tcb
  {
    var t := s.cores[c].current;
    SetPc(SetThread(s, t, s.tcb[t].(state := st)), c, Sleeping)
  }

  /** The locked part of `sleep_releasing`. */
  function SleepLocked(s: Sched, c: nat, st: ThreadState, timeout: Time, now: Clock): Sched
    requires c < |s.cores| && s.cores[c].current in s.tcb
    requires forall i :: 0 <= i < |s.timeouts| ==> s.timeouts[i] in s.tcb
  {
    if st != EXITED && timeout != NO_TIMEOUT
    then RegisterTimeout(Suspend(s, c, st), s.cores[c].current, WakeTime(now, timeout))
    else Suspend(s, c, st)
  }

  const NEW_THREAD := Thread(NORMAL_THREAD, INIT, CTX_CLEAN, 0, NO_TIMEOUT)

  function Spawn(s: Sched, t: Tid): Sched {
    SetThread(s, t, NEW_THREAD).(active := s.active + 1)
  }

  function WakeupLocked(s: Sched, t: Tid): Sched
    requires t in s.tcb
  {
    if Wakeable(s.tcb[t]) then MakeReady(s, t) else s
  }

  // ----- the steps -----

  datatype Step =
    | DoSpawn(core: nat, tid: Tid)
    | DoWakeup(tid: Tid)
    | DoSleep(core: nat, state: ThreadState, timeout: Time, now: Clock)
    | DoYield(core: nat, cause: Cause, now: Clock)
    | DoSwap(core: nat)
    | DoGain(core: nat)
    | DoLeave(core: nat)

  /** Core `c` is executing normal thread `t`, outside the scheduler. */
  predicate Executes(s: Sched, c: nat, t: Tid) {
    && c < |s.cores|
    && s.cores[c].pc == Running
    && s.cores[c].current == t
    && t in s.tcb
    && s.tcb[t].kind == NORMAL_THREAD
  }

  predicate Enabled(s: Sched, a: Step) {
    match a
    case DoSpawn(c, t) => c < |s.cores| && Executes(s, c, s.cores[c].current) && t !in s.tcb
    case DoWakeup(t) => t in s.tcb
    case DoSleep(c, st, timeout, now) =>
      && c < |s.cores| && Executes(s, c, s.cores[c].current)
      && (st == STOPPED || st == EXITED)
      && forall i :: 0 <= i < |s.timeouts| ==> s.timeouts[i] in s.tcb
    case DoYield(c, _, _) =>
      c < |s.cores| && (s.cores[c].pc == Running || s.cores[c].pc == Sleeping) && s.cores[c].current in s.tcb
    case DoSwap(c) => c < |s.cores| && s.cores[c].pc.Switching?
    case DoGain(c) =>
      c < |s.cores| && s.cores[c].pc == Gaining && s.cores[c].current in s.tcb && s.cores[c].previous in s.tcb
    case DoLeave(c) =>
      c < |s.cores| && s.cores[c].pc == Running && s.cores[c].current == s.cores[c].idle && s.active <= 0
  }

  /** The one case the timeout marker cannot express: a wake-up time that is the marker itself. */
  predicate MarkerFree(a: Step) {
    a.DoSleep? && a.state != EXITED && a.timeout != NO_TIMEOUT ==> WakeTime(a.now, a.timeout) != NO_TIMEOUT
  }

  /** Every sleep of user code is free of it: Cond_Wait has no timeout, and that of Cond_TimedWait
      is given in milliseconds. */
  lemma MillisecondsAreMarkerFree(a: Step)
    requires a.DoSleep? && (a.timeout == NO_TIMEOUT || OnGrid(a.timeout))
    ensures MarkerFree(a)
  {
    if a.timeout != NO_TIMEOUT {
      MillisecondsNeverReachMarker(a.now, a.timeout);
    }
  }

  function Apply(s: Sched, a: Step): Sched
    requires Enabled(s, a)
  {
    match a
    case DoSpawn(_, t) => Spawn(s, t)
    case DoWakeup(t) => WakeupLocked(s, t)
    case DoSleep(c, st, timeout, now) => SleepLocked(s, c, st, timeout, now)
    case DoYield(c, cause, now) => YieldLocked(s, c, cause, now)
    case DoSwap(c) => Swap(s, c)
    case DoGain(c) => GainLocked(s, c)
    case DoLeave(c) => SetPc(s, c, Left)
  }
}
