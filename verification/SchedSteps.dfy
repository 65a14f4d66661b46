/** Every step of the scheduler keeps the invariant. */
module SchedSteps {
  import opened ListSpec
  import opened SchedModel
  import opened SchedInvariant

  /** What the invariant says about one thread. */
  lemma ThreadBasics(s: Sched, t: Tid)
    requires Inv(s) && t in s.tcb
    ensures ThreadOk(s.tcb[t]) && (s.tcb[t].phase == CTX_DIRTY ==> Held(s, t))
  {
  }

  /** What the invariant says about one core and the thread that it runs. */
  lemma CoreBasics(s: Sched, c: nat)
    requires Inv(s) && c < |s.cores|
    ensures CoreOk(s, s.cores[c]) && ThreadOk(s.tcb[s.cores[c].current]) && Held(s, s.cores[c].current)
  {
    assert HeldBy(s.cores[c], s.cores[c].current);
  }

  // ----- waking a thread -----

  /** Queues do not notice changes to threads that are, and stay, outside them. */
  lemma QueuesFrame(s: Sched, s': Sched)
    requires QueuesOk(s) && s'.queue == s.queue
    requires forall u :: u in s'.tcb && Queueable(s'.tcb[u]) <==> u in s.tcb && Queueable(s.tcb[u])
    requires forall u :: u in s'.tcb && Queueable(s'.tcb[u]) ==> s'.tcb[u].priority == s.tcb[u].priority
    requires forall u :: Held(s', u) <==> Held(s, u)
    ensures QueuesOk(s')
  {
  }

  /** The cores do not notice a change to a thread's wake-up time or priority. */
  lemma CoresUnmoved(s: Sched, s': Sched, t: Tid)
    requires CoresOk(s) && t in s.tcb && s'.cores == s.cores && OnlyThread(s, s', t) && t in s'.tcb
    requires s'.tcb[t].kind == s.tcb[t].kind && s'.tcb[t].state == s.tcb[t].state && s'.tcb[t].phase == s.tcb[t].phase
    ensures CoresOk(s')
  {
    forall c | 0 <= c < |s'.cores| ensures CoreOk(s', s'.cores[c]) {
      assert CoreOk(s, s.cores[c]);
    }
  }

  lemma DropTimeoutWakeups(s: Sched, t: Tid)
    requires t in s.tcb && s.tcb[t].wakeup != NO_TIMEOUT
    ensures DropTimeout(s, t).timeouts == Remove(s.timeouts, t)
    ensures forall u :: WakeupOf(DropTimeout(s, t), u) == if u == t then NO_TIMEOUT else WakeupOf(s, u)
    ensures WakeupOf(s, t) != NO_TIMEOUT
  {
    hide Remove;
  }

  lemma DropTimeoutSorted(s: Sched, t: Tid)
    requires TimeoutsOk(s) && t in s.tcb && s.tcb[t].wakeup != NO_TIMEOUT
    ensures Sorted(DropTimeout(s, t))
  {
    hide WakeupOf, DropTimeout, Remove;
    var s' := DropTimeout(s, t);
    var tl, tl' := s.timeouts, s'.timeouts;
    DropTimeoutWakeups(s, t);
    RemoveMembers(tl, t);
    var k := RemoveSplits(tl, t);
    forall i | 0 <= i < |tl'|
      ensures tl'[i] == tl[if i < k then i else i + 1] && WakeupOf(s', tl'[i]) == WakeupOf(s, tl'[i])
    {
      assert tl'[i] in tl';
    }
  }

  lemma DropTimeoutList(s: Sched, t: Tid)
    requires TimeoutsOk(s) && t in s.tcb && s.tcb[t].wakeup != NO_TIMEOUT
    ensures TimeoutsOk(DropTimeout(s, t))
  {
    hide WakeupOf, DropTimeout, Remove, Sorted;
    DropTimeoutWakeups(s, t);
    DropTimeoutSorted(s, t);
    RemoveMembers(s.timeouts, t);
  }

  lemma DropTimeoutKeeps(s: Sched, t: Tid)
    requires Inv(s) && t in s.tcb
    ensures Inv(DropTimeout(s, t)) && DropTimeout(s, t).tcb[t] == s.tcb[t].(wakeup := NO_TIMEOUT)
  {
    hide CoresOk, Exclusive, ThreadsOk, DirtyHeld, QueuesOk, TimeoutsOk, CountOk, Held;
    ThreadBasics(s, t);
    if s.tcb[t].wakeup != NO_TIMEOUT {
      var s' := DropTimeout(s, t);
      DropTimeoutList(s, t);
      SameCoresHeld(s, s');
      QueuesFrame(s, s');
      ThreadUpdate(s, s', t);
      CoresUnmoved(s, s', t);
    }
  }

  lemma MarkReadyCores(s: Sched, t: Tid)
    requires Inv(s) && t in s.tcb && Wakeable(s.tcb[t])
    ensures CoresOk(MarkReady(s, t))
  {
    hide Exclusive, Held, QueuesOk, TimeoutsOk, CountOk, DirtyHeld;
    var s' := MarkReady(s, t);
    forall c | 0 <= c < |s'.cores| ensures CoreOk(s', s'.cores[c]) {
      assert CoreOk(s, s.cores[c]);
    }
  }

  lemma EnqueueQueues(s: Sched, s': Sched, t: Tid)
    requires QueuesOk(s) && t in s.tcb && !Queueable(s.tcb[t]) && !Held(s, t)
    requires t in s'.tcb && Queueable(s'.tcb[t]) && OnlyThread(s, s', t)
    requires var l := s'.tcb[t].priority; s'.queue == s.queue[l := s.queue[l] + [t]]
    requires forall u :: Held(s', u) <==> Held(s, u)
    ensures QueuesOk(s')
  {
    var l := s'.tcb[t].priority;
    assert s'.queue[l] == s.queue[l] + [t];
    forall u | u in s'.tcb && Queueable(s'.tcb[u]) ensures u in s'.queue[s'.tcb[u].priority] || Held(s', u) {
      if u == t {
        assert s'.queue[l][|s.queue[l]|] == t;
      }
    }
  }

  lemma MarkReadyQueues(s: Sched, t: Tid)
    requires Inv(s) && t in s.tcb && Wakeable(s.tcb[t]) && s.tcb[t].kind == NORMAL_THREAD
    ensures QueuesOk(MarkReady(s, t))
  {
    var s' := MarkReady(s, t);
    SameCoresHeld(s, s');
    if s.tcb[t].phase == CTX_CLEAN {
      if Held(s, t) {
        HeldClean(s, t);
      }
      EnqueueQueues(s, s', t);
    } else {
      QueuesFrame(s, s');
    }
  }

  lemma MarkReadyKeeps(s: Sched, t: Tid)
    requires Inv(s) && t in s.tcb && Wakeable(s.tcb[t]) && s.tcb[t].wakeup == NO_TIMEOUT
    ensures Inv(MarkReady(s, t))
  {
    hide CoresOk, Exclusive, ThreadsOk, DirtyHeld, QueuesOk, TimeoutsOk, CountOk, Held;
    var s' := MarkReady(s, t);
    ThreadBasics(s, t);
    MarkReadyCores(s, t);
    MarkReadyQueues(s, t);
    SameCoresHeld(s, s');
    TimeoutsFrame(s, s');
    ThreadUpdate(s, s', t);
  }

  lemma MakeReadyKeeps(s: Sched, t: Tid)
    requires Inv(s) && t in s.tcb && Wakeable(s.tcb[t])
    ensures Inv(MakeReady(s, t))
  {
    DropTimeoutKeeps(s, t);
    MarkReadyKeeps(DropTimeout(s, t), t);
  }

  lemma {:induction false} ExpireAllInv(s: Sched, now: Clock)
    requires Inv(s)
    ensures Inv(ExpireAll(s, now))
    decreases |s.timeouts|
  {
    if HeadDue(s, now) {
      var t := s.timeouts[0];
      assert t in s.timeouts;
      assert ThreadOk(s.tcb[t]);
      MakeReadyKeeps(s, t);
      ExpireAllInv(MakeReady(s, t), now);
    }
  }

  // ----- giving up the core -----

  lemma ParkCores(s: Sched, c: nat, cause: Cause)
    requires Inv(s) && c < |s.cores| && (s.cores[c].pc == Running || s.cores[c].pc == Sleeping)
    requires s.cores[c].current in s.tcb
    ensures CoresOk(Park(s, c, cause)) && Exclusive(Park(s, c, cause).cores)
    ensures forall u :: Held(Park(s, c, cause), u) <==> Held(s, u)
  {
    var s' := Park(s, c, cause);
    var k, k', t := s.cores[c], s'.cores[c], s.cores[c].current;
    assert CoreOk(s, k);
    assert s'.cores == s.cores[c := k'];
    HeldFrame(s, s', c, k');
    HeldFrame(s', s, c, k);
    ExclusiveFrame(s.cores, c, k', t);
    OtherCoresFrame(s, s', c, t);
    assert CoreOk(s', k');
  }

  lemma ParkKeeps(s: Sched, c: nat, cause: Cause)
    requires Inv(s) && c < |s.cores| && (s.cores[c].pc == Running || s.cores[c].pc == Sleeping)
    requires s.cores[c].current in s.tcb
    ensures Inv(Park(s, c, cause)) && Park(s, c, cause).cores == s.cores[c := s.cores[c].(pc := Sleeping)]
  {
    hide CoresOk, Exclusive, ThreadsOk, DirtyHeld, QueuesOk, TimeoutsOk, CountOk, Held;
    var s' := Park(s, c, cause);
    var t := s.cores[c].current;
    CoreBasics(s, c);
    ParkCores(s, c, cause);
    QueuesFrame(s, s');
    TimeoutsFrame(s, s');
    ThreadUpdate(s, s', t);
  }

  lemma ChosenFromQueue(s: Sched, c: nat)
    requires Inv(s) && c < |s.cores| && s.cores[c].current in s.tcb
    requires FirstLevel(s.queue) < SCHED_MAX_LEVEL
    ensures var t := Chosen(s, c); t in s.tcb && Queueable(s.tcb[t]) && !Held(s, t)
    ensures var t := Chosen(s, c);
      forall l, i :: 0 <= l < SCHED_MAX_LEVEL && 0 <= i < |Pick(s, c).queue[l]| ==> Pick(s, c).queue[l][i] != t
  {
    var l0 := FirstLevel(s.queue);
    var t := s.queue[l0][0];
    var s' := Pick(s, c);
    forall l, i | 0 <= l < SCHED_MAX_LEVEL && 0 <= i < |s'.queue[l]| ensures s'.queue[l][i] != t {
      if l == l0 {
        assert s'.queue[l][i] == s.queue[l][i + 1];
      }
    }
  }

  lemma PickCores(s: Sched, c: nat)
    requires Inv(s) && c < |s.cores| && s.cores[c].pc == Sleeping && s.cores[c].current in s.tcb
    ensures CoresOk(Pick(s, c)) && Exclusive(Pick(s, c).cores)
    ensures HeldBy(Pick(s, c).cores[c], Chosen(s, c))
    ensures forall t :: HeldBy(Pick(s, c).cores[c], t) ==> HeldBy(s.cores[c], t) || t == Chosen(s, c)
  {
    var s' := Pick(s, c);
    var k, k', t := s.cores[c], s'.cores[c], Chosen(s, c);
    assert CoreOk(s, k);
    if FirstLevel(s.queue) < SCHED_MAX_LEVEL {
      ChosenFromQueue(s, c);
      assert forall d :: 0 <= d < |s.cores| ==> !HeldBy(s.cores[d], t);
    }
    assert s'.cores == s.cores[c := k'];
    ExclusiveFrame(s.cores, c, k', t);
    assert CoreOk(s', k');
    forall d | 0 <= d < |s'.cores| ensures CoreOk(s', s'.cores[d]) {
      assert CoreOk(s, s.cores[d]);
    }
  }

  lemma PickQueues(s: Sched, c: nat)
    requires Inv(s) && c < |s.cores| && s.cores[c].pc == Sleeping && s.cores[c].current in s.tcb
    ensures QueuesOk(Pick(s, c)) && DirtyHeld(Pick(s, c))
  {
    var s' := Pick(s, c);
    var k, k', t := s.cores[c], s'.cores[c], Chosen(s, c);
    PickCores(s, c);
    assert s'.cores == s.cores[c := k'];
    HeldFrame(s, s', c, k');
    var l0 := FirstLevel(s.queue);
    if l0 < SCHED_MAX_LEVEL {
      ChosenFromQueue(s, c);
      assert s'.queue[l0] == s.queue[l0][1..];
      assert QueuesSound(s') by {
        forall l, i | 0 <= l < SCHED_MAX_LEVEL && 0 <= i < |s'.queue[l]|
          ensures var u := s'.queue[l][i]; u in s'.tcb && Queueable(s'.tcb[u]) && s'.tcb[u].priority == l && !Held(s', u)
        {
          assert s'.queue[l][i] == s.queue[l][if l == l0 then i + 1 else i];
          var u := s'.queue[l][i];
          assert !Held(s, u);
          assert HeldBy(k', u) ==> HeldBy(k, u) || u == t;
          assert !HeldBy(s.cores[c], u);
        }
      }
      forall u | u in s'.tcb && Queueable(s'.tcb[u]) ensures u in s'.queue[s'.tcb[u].priority] || Held(s', u) {
        var l := s.tcb[u].priority;
        if u in s.queue[l] {
          var i :| 0 <= i < |s.queue[l]| && s.queue[l][i] == u;
          if l == l0 && i > 0 {
            assert s'.queue[l][i - 1] == u;
          }
        }
      }
    } else {
      assert s'.queue == s.queue;
      assert HeldBy(k, t);
    }
  }

  lemma PickKeeps(s: Sched, c: nat)
    requires Inv(s) && c < |s.cores| && s.cores[c].pc == Sleeping && s.cores[c].current in s.tcb
    ensures Inv(Pick(s, c))
  {
    PickCores(s, c);
    PickQueues(s, c);
  }

  lemma YieldKeeps(s: Sched, c: nat, cause: Cause, now: Clock)
    requires Inv(s) && Enabled(s, DoYield(c, cause, now))
    ensures Inv(YieldLocked(s, c, cause, now))
  {
    var s1 := Park(s, c, cause);
    ParkKeeps(s, c, cause);
    ExpireAllKeeps(s1, now);
    ExpireAllInv(s1, now);
    PickKeeps(ExpireAll(s1, now), c);
  }

  // ----- the context switch -----

  /** A core switches only to a thread whose context is clean and that no other core holds. */
  lemma SwitchIsClean(s: Sched, c: nat)
    requires Inv(s) && Enabled(s, DoSwap(c))
    ensures var next := s.cores[c].pc.next;
      && next in s.tcb && (next != s.cores[c].current ==> s.tcb[next].phase == CTX_CLEAN)
      && forall d :: 0 <= d < |s.cores| && d != c ==> !HeldBy(s.cores[d], next)
  {
    assert CoreOk(s, s.cores[c]);
    assert HeldBy(s.cores[c], s.cores[c].pc.next);
  }

  lemma SwapCores(s: Sched, c: nat)
    requires CoresOk(s) && Exclusive(s.cores) && Enabled(s, DoSwap(c))
    ensures CoresOk(Swap(s, c)) && Exclusive(Swap(s, c).cores)
    ensures forall t :: Held(Swap(s, c), t) <==> Held(s, t)
  {
    var s' := Swap(s, c);
    var k, k' := s.cores[c], s'.cores[c];
    assert CoreOk(s, k);
    assert s'.cores == s.cores[c := k'];
    assert forall t :: HeldBy(k, t) <==> HeldBy(k', t);
    HeldFrame(s, s', c, k');
    HeldFrame(s', s, c, k);
    ExclusiveFrame(s.cores, c, k', k.idle);
    forall d | 0 <= d < |s'.cores| ensures CoreOk(s', s'.cores[d]) {
      assert CoreOk(s, s.cores[d]);
    }
  }

  lemma SwapKeeps(s: Sched, c: nat)
    requires Inv(s) && Enabled(s, DoSwap(c))
    ensures Inv(Swap(s, c))
  {
    hide CoresOk, CoreOk, Exclusive, Held, QueuesOk, TimeoutsOk;
    var s' := Swap(s, c);
    SwapCores(s, c);
    QueuesFrame(s, s');
    TimeoutsFrame(s, s');
  }

  // ----- taking over the core -----

  /** `gain` finds the outgoing thread ready, exited or stopped, whoever woke it meanwhile. */
  lemma GainArms(s: Sched, c: nat)
    requires Inv(s) && Enabled(s, DoGain(c)) && s.cores[c].previous != s.cores[c].current
    ensures s.tcb[s.cores[c].previous].state in {READY, EXITED, STOPPED}
  {
    assert CoreOk(s, s.cores[c]);
  }

  lemma ResumeCores(s: Sched, c: nat)
    requires Inv(s) && Enabled(s, DoGain(c))
    ensures forall d :: 0 <= d < |s.cores| && d != c ==> CoreOk(Resume(s, c), s.cores[d])
    ensures Exclusive(Resume(s, c).cores)
    ensures forall u :: Held(Resume(s, c), u) ==> Held(s, u)
    ensures forall u :: Held(s, u) && u != s.cores[c].previous ==> Held(Resume(s, c), u)
    ensures Held(Resume(s, c), s.cores[c].current)
  {
    var s' := Resume(s, c);
    var k, k', t := s.cores[c], s'.cores[c], s.cores[c].current;
    assert CoreOk(s, k);
    assert s'.cores == s.cores[c := k'];
    HeldFrame(s, s', c, k');
    ExclusiveFrame(s.cores, c, k', t);
    OtherCoresFrame(s, s', c, t);
    assert forall u :: HeldBy(k, u) && u != k.previous ==> HeldBy(k', u);
  }


  lemma ResumeQueues(s: Sched, c: nat)
    requires Inv(s) && Enabled(s, DoGain(c))
    ensures QueuesOk(Resume(s, c))
  {
    var s' := Resume(s, c);
    var k := s.cores[c];
    ResumeCores(s, c);
    assert CoreOk(s, k);
    assert HeldBy(k, k.current);
    assert k.current != k.previous ==> Outgoing(s.tcb[k.previous]);
  }

  lemma ResumeAloneCores(s: Sched, c: nat)
    requires Inv(s) && Enabled(s, DoGain(c)) && s.cores[c].current == s.cores[c].previous
    ensures CoresOk(Resume(s, c))
  {
    hide Exclusive, Held, QueuesOk, TimeoutsOk, ThreadsOk, CountOk, DirtyHeld;
    assert CoreOk(s, s.cores[c]);
    ResumeCores(s, c);
  }

  lemma GainAloneKeeps(s: Sched, c: nat)
    requires Inv(s) && Enabled(s, DoGain(c)) && s.cores[c].current == s.cores[c].previous
    ensures Inv(Resume(s, c))
  {
    hide CoresOk, Exclusive, ThreadsOk, DirtyHeld, QueuesOk, TimeoutsOk, CountOk, Held;
    var s' := Resume(s, c);
    var t := s.cores[c].current;
    CoreBasics(s, c);
    ResumeCores(s, c);
    ResumeAloneCores(s, c);
    ResumeQueues(s, c);
    TimeoutsFrame(s, s');
    ThreadUpdate(s, s', t);
  }

  lemma RetireCores(s: Sched, c: nat)
    requires Inv(s) && Enabled(s, DoGain(c)) && s.cores[c].current != s.cores[c].previous
    ensures CoresOk(GainLocked(s, c))
    ensures s.tcb[s.cores[c].previous].kind == NORMAL_THREAD ==> !Held(Resume(s, c), s.cores[c].previous)
  {
    var s1, s2, k, p := Resume(s, c), GainLocked(s, c), s.cores[c], s.cores[c].previous;
    assert CoreOk(s, k);
    ResumeCores(s, c);
    assert HeldBy(k, p);
    assert OnlyThread(s1, s2, p);
    forall d | 0 <= d < |s2.cores| ensures CoreOk(s2, s2.cores[d]) {
      if d != c {
        CoreFrame(s1, s2, s.cores[d], p);
      }
    }
  }

  lemma RetireQueues(s: Sched, c: nat)
    requires Inv(s) && Enabled(s, DoGain(c)) && s.cores[c].current != s.cores[c].previous
    ensures QueuesOk(GainLocked(s, c))
  {
    var s1, s2, p := Resume(s, c), GainLocked(s, c), s.cores[c].previous;
    assert CoreOk(s, s.cores[c]);
    ResumeQueues(s, c);
    RetireCores(s, c);
    SameCoresHeld(s1, s2);
    if Queueable(s1.tcb[p].(phase := CTX_CLEAN)) {
      EnqueueQueues(s1, s2, p);
    } else {
      QueuesFrame(s1, s2);
    }
  }

  lemma RetireCount(s: Sched, c: nat)
    requires Inv(s) && Enabled(s, DoGain(c)) && s.cores[c].current != s.cores[c].previous
    ensures CountOk(GainLocked(s, c))
  {
    var s1, s2, p, t := Resume(s, c), GainLocked(s, c), s.cores[c].previous, s.cores[c].current;
    assert CoreOk(s, s.cores[c]) && ThreadOk(s.tcb[p]);
    hide CoresOk, Exclusive, ThreadsOk, DirtyHeld, QueuesOk, TimeoutsOk;
    NormalsFrame(s.tcb, t, s1.tcb[t]);
    if s.tcb[p].state == EXITED {
      assert Normals(s2.tcb) == Normals(s1.tcb) - {p};
    } else {
      NormalsFrame(s1.tcb, p, s2.tcb[p]);
    }
  }

  lemma RetireRest(s: Sched, c: nat)
    requires Inv(s) && Enabled(s, DoGain(c)) && s.cores[c].current != s.cores[c].previous
    ensures DirtyHeld(GainLocked(s, c)) && ThreadsOk(GainLocked(s, c))
  {
    hide CoresOk, Held, QueuesOk, CountOk, Exclusive, TimeoutsOk;
    var s1, s2, t, p := Resume(s, c), GainLocked(s, c), s.cores[c].current, s.cores[c].previous;
    CoreBasics(s, c);
    ResumeCores(s, c);
    SameCoresHeld(s1, s2);
    forall u | u in s2.tcb ensures ThreadOk(s2.tcb[u]) && (s2.tcb[u].phase == CTX_DIRTY ==> Held(s2, u)) {
      if u != t && u != p {
        assert s2.tcb[u] == s.tcb[u];
      }
    }
  }

  lemma GainTimeouts(s: Sched, c: nat)
    requires Inv(s) && Enabled(s, DoGain(c)) && s.cores[c].current != s.cores[c].previous
    ensures TimeoutsOk(GainLocked(s, c))
  {
    assert CoreOk(s, s.cores[c]);
    assert ThreadOk(s.tcb[s.cores[c].previous]) && ThreadOk(s.tcb[s.cores[c].current]);
    hide CoresOk, Exclusive, ThreadsOk, DirtyHeld, QueuesOk, TimeoutsOk, CountOk;
    TimeoutsFrame(s, GainLocked(s, c));
  }

  lemma GainKeeps(s: Sched, c: nat)
    requires Inv(s) && Enabled(s, DoGain(c))
    ensures Inv(GainLocked(s, c))
  {
    hide CoresOk, QueuesOk, CountOk, DirtyHeld, ThreadsOk, TimeoutsOk, Held;
    if s.cores[c].current == s.cores[c].previous {
      GainAloneKeeps(s, c);
    } else {
      ResumeCores(s, c);
      RetireCores(s, c);
      RetireQueues(s, c);
      RetireCount(s, c);
      RetireRest(s, c);
      GainTimeouts(s, c);
    }
  }

  // ----- sleeping -----

  lemma SuspendCores(s: Sched, c: nat, st: ThreadState)
    requires Inv(s) && c < |s.cores| && Executes(s, c, s.cores[c].current) && (st == STOPPED || st == EXITED)
    ensures var s' := Suspend(s, c, st);
      CoresOk(s') && Exclusive(s'.cores) && forall u :: Held(s', u) <==> Held(s, u)
  {
    var s' := Suspend(s, c, st);
    var k, k', t := s.cores[c], s'.cores[c], s.cores[c].current;
    assert CoreOk(s, k);
    assert s'.cores == s.cores[c := k'];
    HeldFrame(s, s', c, k');
    HeldFrame(s', s, c, k);
    ExclusiveFrame(s.cores, c, k', t);
    OtherCoresFrame(s, s', c, t);
    assert CoreOk(s', k');
  }

  lemma SuspendKeeps(s: Sched, c: nat, st: ThreadState)
    requires Inv(s) && c < |s.cores| && Executes(s, c, s.cores[c].current) && (st == STOPPED || st == EXITED)
    ensures Inv(Suspend(s, c, st))
    ensures Suspend(s, c, st).tcb[s.cores[c].current].wakeup == NO_TIMEOUT
  {
    hide CoresOk, Exclusive, ThreadsOk, DirtyHeld, QueuesOk, TimeoutsOk, CountOk, Held;
    var s' := Suspend(s, c, st);
    var t := s.cores[c].current;
    CoreBasics(s, c);
    SuspendCores(s, c, st);
    QueuesFrame(s, s');
    TimeoutsFrame(s, s');
    ThreadUpdate(s, s', t);
  }

  lemma InsertedInOrder(s: Sched, tl: seq<Tid>, k: nat, t: Tid)
    requires k <= |tl| && s.timeouts == tl[..k] + [t] + tl[k..]
    requires forall i, j :: 0 <= i < j < |tl| ==> WakeupOf(s, tl[i]) <= WakeupOf(s, tl[j])
    requires forall i :: 0 <= i < k ==> WakeupOf(s, tl[i]) <= WakeupOf(s, t)
    requires forall i :: k <= i < |tl| ==> WakeupOf(s, t) <= WakeupOf(s, tl[i])
    ensures Sorted(s)
  {
    hide WakeupOf;
    forall i | 0 <= i < |s.timeouts|
      ensures s.timeouts[i] == if i < k then tl[i] else if i == k then t else tl[i - 1]
    {
    }
  }

  /** Registration keeps the list ordered by wake-up time, whatever that time is. */
  lemma RegisterSorted(s: Sched, t: Tid, w: Time)
    requires TimeoutsOk(s) && t in s.tcb && t !in s.timeouts
    requires forall i :: 0 <= i < |s.timeouts| ==> s.timeouts[i] in s.tcb
    ensures Sorted(RegisterTimeout(s, t, w))
  {
    var s', tl := RegisterTimeout(s, t, w), s.timeouts;
    var k := InsertionPoint(tl, SetThread(s, t, s.tcb[t].(wakeup := w)).tcb, w);
    assert forall i :: 0 <= i < |tl| ==> tl[i] != t && WakeupOf(s', tl[i]) == WakeupOf(s, tl[i]);
    forall i | k <= i < |tl| ensures w <= WakeupOf(s', tl[i]) {
      assert k < i ==> WakeupOf(s, tl[k]) <= WakeupOf(s, tl[i]);
    }
    InsertedInOrder(s', tl, k, t);
  }

  lemma InsertMembers(s: seq<Tid>, k: nat, t: Tid)
    requires k <= |s| && NoDup(s) && t !in s
    ensures var r := s[..k] + [t] + s[k..]; NoDup(r) && forall u :: u in r <==> u in s || u == t
  {
    var r := s[..k] + [t] + s[k..];
    assert r[k] == t;
    forall u | u in s ensures u in r {
      var i :| 0 <= i < |s| && s[i] == u;
      assert r[if i < k then i else i + 1] == u;
    }
  }

  /** A thread on the timeout list is marked as such exactly when its wake-up time is not
      the marker for "never". */
  lemma RegisterList(s: Sched, t: Tid, w: Time)
    requires TimeoutsOk(s) && t in s.tcb && s.tcb[t].wakeup == NO_TIMEOUT
    ensures forall i :: 0 <= i < |s.timeouts| ==> s.timeouts[i] in s.tcb
    ensures TimeoutsOk(RegisterTimeout(s, t, w)) <==> w != NO_TIMEOUT
  {
    forall i | 0 <= i < |s.timeouts| ensures s.timeouts[i] in s.tcb {
      assert s.timeouts[i] in s.timeouts;
    }
    var s' := RegisterTimeout(s, t, w);
    RegisterSorted(s, t, w);
    InsertMembers(s.timeouts, InsertionPoint(s.timeouts, s'.tcb, w), t);
    assert t in s'.timeouts;
  }

  lemma RegisterKeeps(s: Sched, t: Tid, w: Time)
    requires Inv(s) && t in s.tcb && s.tcb[t].state == STOPPED && s.tcb[t].wakeup == NO_TIMEOUT && w != NO_TIMEOUT
    requires forall i :: 0 <= i < |s.timeouts| ==> s.timeouts[i] in s.tcb
    ensures Inv(RegisterTimeout(s, t, w))
  {
    hide CoresOk, Exclusive, ThreadsOk, DirtyHeld, QueuesOk, TimeoutsOk, CountOk, Held;
    var s' := RegisterTimeout(s, t, w);
    ThreadBasics(s, t);
    RegisterList(s, t, w);
    SameCoresHeld(s, s');
    QueuesFrame(s, s');
    CoresUnmoved(s, s', t);
    ThreadUpdate(s, s', t);
  }

  lemma SleepKeeps(s: Sched, c: nat, st: ThreadState, timeout: Time, now: Clock)
    requires Inv(s) && Enabled(s, DoSleep(c, st, timeout, now)) && MarkerFree(DoSleep(c, st, timeout, now))
    ensures Inv(SleepLocked(s, c, st, timeout, now))
  {
    SuspendKeeps(s, c, st);
    if st != EXITED && timeout != NO_TIMEOUT {
      RegisterKeeps(Suspend(s, c, st), s.cores[c].current, WakeTime(now, timeout));
    }
  }

  // ----- thread creation and shutdown -----

  ghost predicate NobodyLeft(s: Sched) {
    forall c :: 0 <= c < |s.cores| ==> s.cores[c].pc != Left
  }

  /** While a core executes a thread, no core has left the scheduler. */
  lemma ExecutingStays(s: Sched, c: nat)
    requires Inv(s) && c < |s.cores| && Executes(s, c, s.cores[c].current)
    ensures NobodyLeft(s)
  {
    assert s.cores[c].current in Normals(s.tcb);
  }

  lemma SpawnCount(s: Sched, t: Tid)
    requires CountOk(s) && NobodyLeft(s) && t !in s.tcb
    ensures CountOk(Spawn(s, t))
  {
    assert Normals(Spawn(s, t).tcb) == Normals(s.tcb) + {t};
  }

  lemma SpawnCores(s: Sched, t: Tid)
    requires CoresOk(s) && t !in s.tcb
    ensures CoresOk(Spawn(s, t))
  {
    var s' := Spawn(s, t);
    forall d | 0 <= d < |s'.cores| ensures CoreOk(s', s'.cores[d]) {
      assert CoreOk(s, s.cores[d]);
    }
  }

  /** A new thread is welcome as long as no core has left. */
  lemma SpawnKeeps(s: Sched, t: Tid)
    requires Inv(s) && NobodyLeft(s) && t !in s.tcb
    ensures Inv(Spawn(s, t))
  {
    hide CoresOk, CoreOk, Held, QueuesOk, CountOk, Exclusive;
    var s' := Spawn(s, t);
    SpawnCount(s, t);
    SpawnCores(s, t);
    SameCoresHeld(s, s');
    QueuesFrame(s, s');
  }

  lemma LeaveKeeps(s: Sched, c: nat)
    requires Inv(s) && Enabled(s, DoLeave(c))
    ensures Inv(SetPc(s, c, Left))
  {
    var s' := SetPc(s, c, Left);
    var k' := s'.cores[c];
    assert CoreOk(s, s.cores[c]);
    HeldFrame(s, s', c, k');
    HeldFrame(s', s, c, s.cores[c]);
    ExclusiveFrame(s.cores, c, k', k'.idle);
    QueuesFrame(s, s');
    assert CoresOk(s') by {
      forall d | 0 <= d < |s'.cores| ensures CoreOk(s', s'.cores[d]) {
        assert CoreOk(s, s.cores[d]);
      }
    }
  }

  /** Every step keeps the invariant. */
  lemma StepKeeps(s: Sched, a: Step)
    requires Inv(s) && Enabled(s, a) && MarkerFree(a)
    ensures Inv(Apply(s, a))
  {
    match a
    case DoSpawn(c, t) =>
      ExecutingStays(s, c);
      SpawnKeeps(s, t);
    case DoWakeup(t) => if Wakeable(s.tcb[t]) { MakeReadyKeeps(s, t); }
    case DoSleep(c, st, timeout, now) => SleepKeeps(s, c, st, timeout, now);
    case DoYield(c, cause, now) => YieldKeeps(s, c, cause, now);
    case DoSwap(c) => SwapKeeps(s, c);
    case DoGain(c) => GainKeeps(s, c);
    case DoLeave(c) => LeaveKeeps(s, c);
  }
}
