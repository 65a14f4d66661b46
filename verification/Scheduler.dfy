/** The code of kernel_sched.c over its own objects: thread and core control blocks changed in
    place, the scan and expiry loops, and the selection loop. Every locked section is proved
    against the step of the same name in `SchedModel`, and keeps the scheduler's invariant. */
module Scheduling {
  import opened ListSpec
  import opened SchedModel
  import opened SchedInvariant
  import opened SchedSteps

  class TCB {
    const kind: Kind
    var state: ThreadState
    var phase: Phase
    var priority: Level
    var wakeupTime: Time

    constructor (kind: Kind)
      ensures View() == Thread(kind, INIT, CTX_CLEAN, 0, NO_TIMEOUT)
    {
      this.kind := kind;
      state, phase, priority, wakeupTime := INIT, CTX_CLEAN, 0, NO_TIMEOUT;
    }

    function View(): Thread
      reads this
    {
      Thread(kind, state, phase, priority, wakeupTime)
    }
  }

  class CCB {
    const idle: Tid
    var currentThread: Tid
    var previousThread: Tid
    ghost var pc: Pc

    constructor (idle: Tid)
      ensures View() == Core(idle, idle, idle, Running)
    {
      this.idle := idle;
      currentThread, previousThread, pc := idle, idle, Running;
    }

    ghost function View(): Core
      reads this
    {
      Core(idle, currentThread, previousThread, pc)
    }
  }

  class Scheduler {
    var memory: map<Tid, TCB>  // the thread control blocks in existence, by address
    const SCHED: array<seq<Tid>>
    var timeoutList: seq<Tid>
    const cctx: seq<CCB>
    var activeThreads: int
    var scheduled: int

    ghost predicate Valid()
      reads this
    {
      && SCHED.Length == SCHED_MAX_LEVEL
      && NoDup(cctx)
      && forall t, u :: t in memory && u in memory && t != u ==> memory[t] != memory[u]
    }

    ghost function View(): Sched
      requires Valid()
      reads this, SCHED, memory.Values, cctx
    {
      Sched(map t | t in memory :: memory[t].View(), SCHED[..], timeoutList,
            seq(|cctx|, c requires 0 <= c < |cctx| reads cctx => cctx[c].View()), activeThreads, scheduled)
    }

    method SchedQueueAdd(t: Tid)
      requires Valid() && t in memory
      modifies SCHED
      ensures Valid() && View() == Enqueue(old(View()), t)
      ensures var l := memory[t].priority; SCHED[..] == old(SCHED[..])[l := old(SCHED[..])[l] + [t]]
    {
      var l := memory[t].priority;
      SCHED[l] := SCHED[l] + [t];
    }

    method SchedMakeReady(t: Tid)
      requires Valid() && t in memory && Wakeable(memory[t].View())
      requires memory[t].wakeupTime != NO_TIMEOUT ==> memory[t].state == STOPPED && t in timeoutList
      modifies this`timeoutList, SCHED, memory[t]
      ensures Valid() && View() == MakeReady(old(View()), t)
    {
      hide Remove, NoDup, Enqueue, DropTimeout;
      CancelTimeout(t);
      ghost var s := View();
      var tcb := memory[t];
      tcb.state := READY;
      assert View() == SetThread(s, t, tcb.View());
      if tcb.phase == CTX_CLEAN {
        SchedQueueAdd(t);
      }
    }

    /** A thread that is about to be ready is off the timeout list. */
    method CancelTimeout(t: Tid)
      requires Valid() && t in memory && (memory[t].wakeupTime != NO_TIMEOUT ==> t in timeoutList)
      modifies this`timeoutList, memory[t]
      ensures Valid() && View() == DropTimeout(old(View()), t)
    {
      hide Remove, NoDup;
      var tcb := memory[t];
      if tcb.wakeupTime != NO_TIMEOUT {
        timeoutList := Remove(timeoutList, t);
        tcb.wakeupTime := NO_TIMEOUT;
      }
      assert View().tcb == DropTimeout(old(View()), t).tcb;
    }

    method SchedRegisterTimeout(t: Tid, timeout: Time, now: Clock)
      requires Valid() && t in memory
      requires forall i :: 0 <= i < |timeoutList| ==> timeoutList[i] in memory
      modifies this`timeoutList, memory[t]
      ensures Valid()
      ensures View() == if timeout == NO_TIMEOUT then old(View()) else RegisterTimeout(old(View()), t, WakeTime(now, timeout))
    {
      hide InsertionPoint, NoDup;
      if timeout != NO_TIMEOUT {
        memory[t].wakeupTime := (now + timeout) % TIME_MODULUS;
        assert View() == SetThread(old(View()), t, memory[t].View());
        var n := 0;
        while n < |timeoutList|
          invariant n <= |timeoutList|
          invariant forall i :: 0 <= i < n ==> memory[timeoutList[i]].wakeupTime <= memory[t].wakeupTime
        {
          if memory[t].wakeupTime < memory[timeoutList[n]].wakeupTime {
            break;
          }
          n := n + 1;
        }
        ghost var s1 := View();
        InsertionPointUnique(timeoutList, s1.tcb, memory[t].wakeupTime, n);
        timeoutList := timeoutList[..n] + [t] + timeoutList[n..];
        assert View() == s1.(timeouts := timeoutList);
      }
    }

    method SchedWakeupExpiredTimeouts(now: Clock)
      requires Valid() && Inv(View())
      modifies this`timeoutList, SCHED, memory.Values
      ensures Valid() && Inv(View()) && View() == ExpireAll(old(View()), now)
    {
      while timeoutList != []
        invariant Valid() && Inv(View())
        invariant ExpireAll(View(), now) == ExpireAll(old(View()), now)
        decreases |timeoutList|
      {
        var t := timeoutList[0];
        ghost var s := View();
        assert t in s.timeouts && ThreadOk(s.tcb[t]);
        if memory[t].wakeupTime > now {
          break;
        }
        MakeReadyKeeps(s, t);
        SchedMakeReady(t);
        RemoveMembers(s.timeouts, t);
      }
    }

    method SchedQueueSelect(c: nat) returns (next: Tid)
      requires Valid() && c < |cctx| && cctx[c].currentThread in memory
      modifies this`scheduled, SCHED
      ensures Valid() && View() == PopFirst(old(View())) && next == Chosen(old(View()), c)
    {
      ghost var s := View();
      var sel: seq<Tid> := [];
      for i := 0 to SCHED_MAX_LEVEL
        invariant sel == [] && View() == s
        invariant forall l :: 0 <= l < i ==> SCHED[l] == []
      {
        if scheduled <= SCHED_MAX_SCHEDULED {
          if SCHED[i] != [] {
            sel, SCHED[i] := [SCHED[i][0]], SCHED[i][1..];
            break;
          }
        } else {
          if SCHED[i % 4] != [] {
            sel, SCHED[i % 4] := [SCHED[i % 4][0]], SCHED[i % 4][1..];
            scheduled := 0;
            break;
          }
        }
      }
      if sel != [] {
        next := sel[0];
      } else if memory[cctx[c].currentThread].state == READY {
        next := cctx[c].currentThread;
      } else {
        next := cctx[c].idle;
      }
    }

    // ----- the entry points -----

    /** Called by a running thread, or before the cores enter the scheduler. */
    method SpawnThread(t: Tid)
      requires Valid() && Inv(View()) && NobodyLeft(View()) && t !in memory
      modifies this`memory, this`activeThreads
      ensures Valid() && Inv(View()) && View() == Spawn(old(View()), t)
      ensures t in memory && fresh(memory[t])
    {
      hide Inv, NobodyLeft;
      ghost var s := View();
      SpawnKeeps(s, t);
      var tcb := new TCB(NORMAL_THREAD);
      memory := memory[t := tcb];
      activeThreads := activeThreads + 1;
      assert View() == Spawn(s, t);
    }

    method ReleaseTCB(t: Tid)
      requires Valid() && t in memory
      modifies this`memory, this`activeThreads
      ensures Valid() && View() == old(View()).(tcb := old(View()).tcb - {t}, active := old(View()).active - 1)
    {
      memory := memory - {t};
      activeThreads := activeThreads - 1;
    }

    /** Returns 1 exactly when the thread was blocked, and then it is ready afterwards. */
    method Wakeup(t: Tid) returns (ret: int)
      requires Valid() && Inv(View()) && t in memory
      modifies this`timeoutList, SCHED, memory.Values
      ensures Valid() && Inv(View()) && View() == Apply(old(View()), DoWakeup(t))
      ensures ret == if Wakeable(old(View()).tcb[t]) then 1 else 0
    {
      ret := 0;
      if memory[t].state == STOPPED || memory[t].state == INIT {
        ghost var s := View();
        assert ThreadOk(s.tcb[t]);
        MakeReadyKeeps(s, t);
        SchedMakeReady(t);
        ret := 1;
      }
    }

    /** The part of `sleep_releasing` under the lock. */
    method SleepReleasing(c: nat, state: ThreadState, timeout: Time, now: Clock)
      requires Valid() && Inv(View())
      requires Enabled(View(), DoSleep(c, state, timeout, now)) && MarkerFree(DoSleep(c, state, timeout, now))
      modifies this`timeoutList, memory.Values, cctx
      ensures Valid() && Inv(View()) && View() == Apply(old(View()), DoSleep(c, state, timeout, now))
    {
      hide Inv;
      ghost var s := View();
      SleepKeeps(s, c, state, timeout, now);
      var t := cctx[c].currentThread;
      memory[t].state := state;
      cctx[c].pc := Sleeping;
      assert View() == Suspend(s, c, state);
      if state != EXITED {
        SchedRegisterTimeout(t, timeout, now);
      }
    }

    /** The state and the priority of the thread that yields. */
    method GiveUpCore(c: nat, cause: Cause)
      requires Valid() && c < |cctx| && cctx[c].currentThread in memory
      modifies memory[cctx[c].currentThread], cctx[c]
      ensures Valid() && View() == Park(old(View()), c, cause)
    {
      hide Min, Max, Reprioritise;
      var current := memory[cctx[c].currentThread];
      if current.state == RUNNING {
        current.state := READY;
      }
      LowerPriority(current, cause);
      cctx[c].pc := Sleeping;
      assert View().tcb == old(View()).tcb[cctx[c].currentThread := current.View()];
      assert View().cores == Park(old(View()), c, cause).cores;
    }

    /** The change of priority, by the cause of the yield. */
    static method LowerPriority(current: TCB, cause: Cause)
      modifies current`priority
      ensures current.priority == Reprioritise(old(current.priority), cause)
      ensures var p := old(current.priority);
        match cause {
          case SCHED_QUANTUM | SCHED_MUTEX => current.priority == Min(p + 1, SCHED_MAX_LEVEL - 1)
          case SCHED_IO => current.priority == Max(p - 1, 0)
          case _ => current.priority == p
        }
    {
      if cause == SCHED_QUANTUM && current.priority < SCHED_MAX_LEVEL - 1 {
        current.priority := current.priority + 1;
      }
      if cause == SCHED_IO && current.priority > 0 {
        current.priority := current.priority - 1;
      }
      if cause == SCHED_MUTEX && current.priority < SCHED_MAX_LEVEL - 1 {
        current.priority := current.priority + 1;
      }
    }

    /** The choice of the next thread, once the expired ones are awake. */
    method ChooseNext(c: nat) returns (next: Tid)
      requires Valid() && c < |cctx| && cctx[c].currentThread in memory
      modifies this`scheduled, SCHED, cctx[c]
      ensures Valid() && View() == Pick(old(View()), c) && next == Chosen(old(View()), c)
      ensures cctx[c].pc == Switching(next)
    {
      ghost var s := View();
      next := SchedQueueSelect(c);
      scheduled := scheduled + 1;
      cctx[c].previousThread := cctx[c].currentThread;
      cctx[c].pc := Switching(next);
      assert View().cores == Pick(s, c).cores;
    }

    /** The part of `yield` under the lock. */
    method Yield(c: nat, cause: Cause, now: Clock) returns (next: Tid)
      requires Valid() && Inv(View()) && c < |cctx| && cctx[c].currentThread in memory
      requires cctx[c].pc == Running || cctx[c].pc == Sleeping
      modifies this`timeoutList, this`scheduled, SCHED, memory.Values, cctx
      ensures Valid() && Inv(View()) && View() == YieldLocked(old(View()), c, cause, now)
      ensures c < |cctx| && cctx[c].pc == Switching(next)
    {
      hide Inv, Enabled, Apply, ExpireAll, Pick, Park;
      ghost var s := View();
      ParkKeeps(s, c, cause);
      GiveUpCore(c, cause);
      ghost var s1 := View();
      assert s1.cores[c].current == s.cores[c].current && s1.cores[c].pc == Sleeping;
      ExpireAllKeeps(s1, now);
      SchedWakeupExpiredTimeouts(now);
      ghost var s2 := View();
      assert s2.cores[c] == s1.cores[c] && s2.tcb.Keys == s1.tcb.Keys;
      PickKeeps(s2, c);
      next := ChooseNext(c);
      assert View() == YieldLocked(s, c, cause, now);
    }

    /** The context switch, after the lock is released. */
    method SwapContext(c: nat, next: Tid)
      requires Valid() && Inv(View()) && Enabled(View(), DoSwap(c)) && cctx[c].pc == Switching(next)
      modifies cctx
      ensures Valid() && Inv(View()) && View() == Apply(old(View()), DoSwap(c))
    {
      hide Inv;
      ghost var s := View();
      SwapKeeps(s, c);
      SwitchIsClean(s, c);
      if cctx[c].currentThread != next {
        assert memory[next].phase == CTX_CLEAN;
        cctx[c].currentThread := next;
      }
      cctx[c].pc := Gaining;
      assert View() == Swap(s, c);
    }

    /** What is to be done with the thread that owned the core before. */
    method RetirePrevious(p: Tid)
      requires Valid() && p in memory && memory[p].state in {READY, EXITED, STOPPED}
      modifies this`memory, this`activeThreads, SCHED, memory[p]
      ensures Valid() && View() == Retire(old(View()), p)
    {
      var prev := memory[p];
      prev.phase := CTX_CLEAN;
      assert View() == SetThread(old(View()), p, prev.View());
      if prev.state == READY {
        if prev.kind != IDLE_THREAD {
          SchedQueueAdd(p);
        }
      } else if prev.state == EXITED {
        ReleaseTCB(p);
      } else if prev.state == STOPPED {
      } else {
        assert false;
      }
    }

    /** The new current thread is marked as running. */
    method TakeCore(c: nat)
      requires Valid() && c < |cctx| && cctx[c].currentThread in memory
      modifies memory[cctx[c].currentThread], cctx[c]
      ensures Valid() && View() == Resume(old(View()), c)
    {
      var current := memory[cctx[c].currentThread];
      current.state := RUNNING;
      current.phase := CTX_DIRTY;
      cctx[c].pc := Running;
      assert View() == Resume(old(View()), c);
    }

    method Gain(c: nat)
      requires Valid() && Inv(View()) && Enabled(View(), DoGain(c))
      modifies this`memory, this`activeThreads, SCHED, memory.Values, cctx
      ensures Valid() && Inv(View()) && View() == Apply(old(View()), DoGain(c))
    {
      hide Inv;
      ghost var s := View();
      GainKeeps(s, c);
      var current, prev := cctx[c].currentThread, cctx[c].previousThread;
      if current != prev {
        GainArms(s, c);
      }
      TakeCore(c);
      if current != prev {
        RetirePrevious(prev);
      }
    }

    /** The idle thread leaves its loop. */
    method Leave(c: nat)
      requires Valid() && Inv(View()) && Enabled(View(), DoLeave(c))
      modifies cctx
      ensures Valid() && Inv(View()) && View() == Apply(old(View()), DoLeave(c))
    {
      hide Inv;
      ghost var s := View();
      LeaveKeeps(s, c);
      cctx[c].pc := Left;
      assert View() == SetPc(s, c, Left);
    }
  }
}
