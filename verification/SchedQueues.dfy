/** The order of the scheduler's queues: what every step does to each of them, whom a yield chooses,
    and that in every run threads of one level are served in the order in which they came. */
module SchedQueues {
  import opened ListSpec
  import opened SchedModel
  import opened SchedInvariant
  import opened SchedSteps
  import opened SchedTheorems

  // ----- who comes to a queue -----

  /** Thread `t` has a timeout that has expired at `now`, and can be queued, on level `l`. */
  predicate DueAt(s: Sched, now: Clock, l: nat, t: Tid) {
    t in s.tcb && Due(s.tcb[t], now) && s.tcb[t].phase == CTX_CLEAN && s.tcb[t].priority == l
  }

  /** Those of the list `tl` for which that is so, in their order. */
  function DueThreads(s: Sched, now: Clock, l: nat, tl: seq<Tid>): seq<Tid> {
    if tl == [] then []
    else (if DueAt(s, now, l, tl[0]) then [tl[0]] else []) + DueThreads(s, now, l, tl[1..])
  }

  /** The threads that step `a` adds to level `l`, in order: the one woken; those whose timeouts have
      expired, the earliest first; or the one that has lost its core and is still ready. */
  function Arrivals(s: Sched, a: Step, l: nat): seq<Tid>
    requires Enabled(s, a)
  {
    match a
    case DoWakeup(t) =>
      if Wakeable(s.tcb[t]) && s.tcb[t].phase == CTX_CLEAN && s.tcb[t].priority == l then [t] else []
    case DoYield(_, _, now) => DueThreads(s, now, l, s.timeouts)
    case DoGain(c) =>
      var p := s.cores[c].previous;
      if p != s.cores[c].current && s.tcb[p].state == READY && s.tcb[p].kind == NORMAL_THREAD && s.tcb[p].priority == l
      then [p] else []
    case _ => []
  }

  /** A level and all that arrive there. */
  function Gathered(s: Sched, a: Step, l: nat): seq<Tid>
    requires Enabled(s, a) && l < SCHED_MAX_LEVEL
  {
    s.queue[l] + Arrivals(s, a, l)
  }

  /** Level `l` is the best one with a thread on it. */
  predicate BestLevel(s: Sched, a: Step, l: nat)
    requires Enabled(s, a) && l < SCHED_MAX_LEVEL
  {
    Gathered(s, a, l) != [] && forall i :: 0 <= i < l ==> Gathered(s, a, i) == []
  }

  // ----- expiry -----

  lemma DueElsewhere(s: Sched, u: Tid, now: Clock, l: nat, t: Tid)
    requires u in s.tcb && t != u
    ensures DueAt(MakeReady(s, u), now, l, t) == DueAt(s, now, l, t)
  {
  }

  lemma {:induction false} SameDue(s: Sched, s': Sched, now: Clock, l: nat, tl: seq<Tid>)
    requires forall t :: t in tl ==> DueAt(s', now, l, t) == DueAt(s, now, l, t)
    ensures DueThreads(s', now, l, tl) == DueThreads(s, now, l, tl)
  {
    hide DueAt;
    if tl != [] {
      assert tl[0] in tl;
      SameDue(s, s', now, l, tl[1..]);
    }
  }

  /** The head of the timeout list is made ready. */
  lemma HeadArrives(s: Sched, now: Clock, l: nat)
    requires Inv(s) && HeadDue(s, now) && l < SCHED_MAX_LEVEL
    ensures var u, s' := s.timeouts[0], MakeReady(s, s.timeouts[0]);
      && s'.queue[l] == s.queue[l] + (if DueAt(s, now, l, u) then [u] else [])
      && s'.timeouts == s.timeouts[1..]
      && DueThreads(s', now, l, s'.timeouts) == DueThreads(s, now, l, s.timeouts[1..])
  {
    hide Inv, MakeReady, DueAt, DueThreads;
    var u := s.timeouts[0];
    var s' := MakeReady(s, u);
    MakeReadyHead(s);
    HeadQueued(s, now, l);
    TimeoutsDiffer(s);
    forall t | t in s.timeouts[1..] ensures DueAt(s', now, l, t) == DueAt(s, now, l, t) {
      DueElsewhere(s, u, now, l, t);
    }
    SameDue(s, s', now, l, s.timeouts[1..]);
  }

  lemma TimeoutsDiffer(s: Sched)
    requires Inv(s) && s.timeouts != []
    ensures s.timeouts[0] !in s.timeouts[1..]
  {
  }

  lemma HeadQueued(s: Sched, now: Clock, l: nat)
    requires Inv(s) && HeadDue(s, now) && l < SCHED_MAX_LEVEL
    ensures var u := s.timeouts[0];
      MakeReady(s, u).queue[l] == s.queue[l] + if DueAt(s, now, l, u) then [u] else []
  {
    hide Remove;
    assert s.timeouts[0] in s.timeouts;
  }

  lemma HeadJoins(q: seq<Tid>, s: Sched, now: Clock, l: nat, tl: seq<Tid>)
    requires tl != []
    ensures q + (if DueAt(s, now, l, tl[0]) then [tl[0]] else []) + DueThreads(s, now, l, tl[1..])
      == q + DueThreads(s, now, l, tl)
  {
    hide DueAt;
    Joins(q, if DueAt(s, now, l, tl[0]) then [tl[0]] else [], DueThreads(s, now, l, tl[1..]));
  }

  lemma Joins(a: seq<Tid>, b: seq<Tid>, c: seq<Tid>)
    ensures a + b + c == a + (b + c)
  {
  }

  lemma ExpiryUnfolds(s: Sched, now: Clock)
    ensures ExpireAll(s, now) == if HeadDue(s, now) then ExpireAll(MakeReady(s, s.timeouts[0]), now) else s
  {
    hide MakeReady;
  }

  /** An expiry pass puts the threads that are due behind those queued, in the order of the timeout
      list. */
  lemma {:induction false} ExpiryOrder(s: Sched, now: Clock, l: nat)
    requires Inv(s) && l < SCHED_MAX_LEVEL
    ensures ExpireAll(s, now).queue[l] == s.queue[l] + DueThreads(s, now, l, s.timeouts)
    decreases |s.timeouts|
  {
    hide Inv, DueAt, MakeReady, DueThreads, ExpireAll;
    ExpiryUnfolds(s, now);
    if HeadDue(s, now) {
      MakeReadyHead(s);
      WakeableHead(s);
      MakeReadyKeeps(s, s.timeouts[0]);
      HeadArrives(s, now, l);
      ExpiryOrder(MakeReady(s, s.timeouts[0]), now, l);
      HeadJoins(s.queue[l], s, now, l, s.timeouts);
    } else {
      NobodyDue(s, now, l);
    }
  }

  lemma NobodyDue(s: Sched, now: Clock, l: nat)
    requires Inv(s) && !HeadDue(s, now)
    ensures DueThreads(s, now, l, s.timeouts) == []
  {
    hide Inv, DueAt, DueThreads;
    forall t | t in s.timeouts ensures !DueAt(s, now, l, t) {
      NotYetDue(s, now, l, t);
    }
    NoneDue(s, now, l, s.timeouts);
  }

  lemma {:induction false} NoneDue(s: Sched, now: Clock, l: nat, tl: seq<Tid>)
    requires forall t :: t in tl ==> !DueAt(s, now, l, t)
    ensures DueThreads(s, now, l, tl) == []
  {
    hide DueAt;
    if tl != [] {
      assert tl[0] in tl;
      NoneDue(s, now, l, tl[1..]);
    }
  }

  /** The rest of the timeout list stays in its order. */
  lemma {:induction false} ExpirySuffix(s: Sched, now: Clock) returns (k: nat)
    requires Inv(s)
    ensures k <= |s.timeouts| && ExpireAll(s, now).timeouts == s.timeouts[k..]
    decreases |s.timeouts|
  {
    hide Inv, MakeReady, ExpireAll;
    ExpiryUnfolds(s, now);
    if HeadDue(s, now) {
      MakeReadyHead(s);
      WakeableHead(s);
      MakeReadyKeeps(s, s.timeouts[0]);
      k := ExpirySuffix(MakeReady(s, s.timeouts[0]), now);
      assert s.timeouts[1..][k..] == s.timeouts[k + 1..];
      k := k + 1;
    } else {
      k := 0;
      assert s.timeouts[0..] == s.timeouts;
    }
  }

  lemma WakeableHead(s: Sched)
    requires Inv(s) && s.timeouts != []
    ensures s.timeouts[0] in s.tcb && Wakeable(s.tcb[s.timeouts[0]])
  {
    MakeReadyHead(s);
  }

  lemma NotYetDue(s: Sched, now: Clock, l: nat, t: Tid)
    requires Inv(s) && !HeadDue(s, now)
    ensures !DueAt(s, now, l, t)
  {
    NothingDue(s, now, t);
  }

  /** Parking the current thread of a core changes none of that. */
  lemma ParkedArrivals(s: Sched, c: nat, cause: Cause, now: Clock, l: nat)
    requires Inv(s) && Enabled(s, DoYield(c, cause, now)) && l < SCHED_MAX_LEVEL
    ensures var s1 := Park(s, c, cause);
      && s1.queue == s.queue && s1.timeouts == s.timeouts
      && DueThreads(s1, now, l, s1.timeouts) == Arrivals(s, DoYield(c, cause, now), l)
  {
    hide Inv, DueThreads;
    var s1 := Park(s, c, cause);
    CurrentIsDirty(s, c, cause, now);
    SameDue(s, s1, now, l, s.timeouts);
  }

  lemma CurrentIsDirty(s: Sched, c: nat, cause: Cause, now: Clock)
    requires Inv(s) && Enabled(s, DoYield(c, cause, now))
    ensures s.tcb[s.cores[c].current].phase == CTX_DIRTY
  {
    assert CoreOk(s, s.cores[c]);
  }

  // ----- yields -----

  /** The state in which a yield chooses. */
  function Settled(s: Sched, c: nat, cause: Cause, now: Clock): Sched
    requires Enabled(s, DoYield(c, cause, now))
  {
    ExpireAll(Park(s, c, cause), now)
  }

  lemma SettledQueues(s: Sched, c: nat, cause: Cause, now: Clock)
    requires Inv(s) && Enabled(s, DoYield(c, cause, now))
    ensures Inv(Settled(s, c, cause, now))
    ensures forall l :: 0 <= l < SCHED_MAX_LEVEL ==>
      Settled(s, c, cause, now).queue[l] == Gathered(s, DoYield(c, cause, now), l)
  {
    hide Inv, Park, ExpireAll, Arrivals;
    ParkKeeps(s, c, cause);
    ExpireAllInv(Park(s, c, cause), now);
    forall l | 0 <= l < SCHED_MAX_LEVEL
      ensures Settled(s, c, cause, now).queue[l] == Gathered(s, DoYield(c, cause, now), l)
    {
      ParkedArrivals(s, c, cause, now, l);
      ExpiryOrder(Park(s, c, cause), now, l);
    }
  }

  lemma SettledRest(s: Sched, c: nat, cause: Cause, now: Clock)
    requires Inv(s) && Enabled(s, DoYield(c, cause, now))
    ensures var a, s2 := DoYield(c, cause, now), Settled(s, c, cause, now);
      && s2.cores == s.cores[c := s.cores[c].(pc := Sleeping)] && s2.cores[c].current in s2.tcb
      && s2.tcb[s2.cores[c].current].state == StateAfter(s, a, s.cores[c].current)
  {
    hide Inv, Park, ExpireAll, Pick, StateAfter;
    ParkKeeps(s, c, cause);
    ExpireAllKeeps(Park(s, c, cause), now);
    YieldThreads(s, c, cause, now, s.cores[c].current);
    YieldExpires(s, c, cause, now);
  }

  lemma {:induction false} ExpiryCounts(s: Sched, now: Clock)
    ensures ExpireAll(s, now).scheduled == s.scheduled
    decreases |s.timeouts|
  {
    if HeadDue(s, now) {
      ExpiryCounts(MakeReady(s, s.timeouts[0]), now);
    }
  }

  /** What `yield` chooses, in terms of the queues as they are when the expired threads have joined
      them: the head of the best level that is not empty leaves it, and is chosen; if all are
      empty, the current thread if it is READY, or else the idle thread of the core. */
  lemma YieldTheorem(s: Sched, c: nat, cause: Cause, now: Clock)
    requires Inv(s) && Enabled(s, DoYield(c, cause, now))
    ensures var a, s', k := DoYield(c, cause, now), Apply(s, DoYield(c, cause, now)), s.cores[c];
      && |s'.cores| == |s.cores| && s'.cores[c].pc.Switching?
      && s'.cores == s.cores[c := k.(previous := k.current, pc := s'.cores[c].pc)]
      && (forall l :: 0 <= l < SCHED_MAX_LEVEL ==>
            if BestLevel(s, a, l)
            then s'.cores[c].pc.next == Gathered(s, a, l)[0] && s'.queue[l] == Gathered(s, a, l)[1..]
            else s'.queue[l] == Gathered(s, a, l))
      && ((forall l :: 0 <= l < SCHED_MAX_LEVEL ==> Gathered(s, a, l) == []) ==>
            s'.cores[c].pc.next == if StateAfter(s, a, k.current) == READY then k.current else k.idle)
  {
    hide Inv, Park, ExpireAll, Gathered, StateAfter;
    SettledQueues(s, c, cause, now);
    SettledRest(s, c, cause, now);
  }

  /** The `scheduled` counter: yields, starting over at the first choice from a queue past its
      bound. */
  lemma ScheduledTheorem(s: Sched, c: nat, cause: Cause, now: Clock)
    requires Inv(s) && Enabled(s, DoYield(c, cause, now))
    ensures var a, s' := DoYield(c, cause, now), Apply(s, DoYield(c, cause, now));
      var chosen := exists l :: 0 <= l < SCHED_MAX_LEVEL && Gathered(s, a, l) != [];
      s'.scheduled == if s.scheduled > SCHED_MAX_SCHEDULED && chosen then 1 else s.scheduled + 1
  {
    hide Inv, ExpireAll, Gathered;
    SettledQueues(s, c, cause, now);
    ExpiryCounts(Park(s, c, cause), now);
  }

  // ----- every step -----

  /** Step `a` has chosen thread `t`. */
  predicate Chooses(a: Step, s': Sched, t: Tid) {
    a.DoYield? && a.core < |s'.cores| && s'.cores[a.core].pc == Switching(t)
  }

  /** What a step does to a level: those that arrive join its back, in order; nobody leaves but its
      head, when a yield chooses it. */
  lemma QueueAfter(s: Sched, a: Step, l: nat)
    requires Inv(s) && Enabled(s, a) && l < SCHED_MAX_LEVEL
    ensures var s' := Apply(s, a);
      if a.DoYield? && BestLevel(s, a, l)
      then Chooses(a, s', Gathered(s, a, l)[0]) && s'.queue[l] == Gathered(s, a, l)[1..]
      else s'.queue[l] == Gathered(s, a, l)
  {
    hide Inv, Enabled, Apply, Gathered, BestLevel, Arrivals;
    match a
    case DoYield(_, _, _) => YieldQueues(s, a, l);
    case DoWakeup(_) => WakeupQueues(s, a, l);
    case DoGain(_) => GainQueues(s, a, l);
    case _ => OtherQueues(s, a, l);
  }

  lemma YieldQueues(s: Sched, a: Step, l: nat)
    requires Inv(s) && Enabled(s, a) && a.DoYield? && l < SCHED_MAX_LEVEL
    ensures var s' := Apply(s, a);
      if BestLevel(s, a, l)
      then Chooses(a, s', Gathered(s, a, l)[0]) && s'.queue[l] == Gathered(s, a, l)[1..]
      else s'.queue[l] == Gathered(s, a, l)
  {
    hide Inv, Apply, Gathered, StateAfter;
    YieldTheorem(s, a.core, a.cause, a.now);
  }

  lemma WakeupQueues(s: Sched, a: Step, l: nat)
    requires Enabled(s, a) && a.DoWakeup? && l < SCHED_MAX_LEVEL
    ensures Apply(s, a).queue[l] == Gathered(s, a, l)
  {
    hide Remove;
  }

  lemma GainQueues(s: Sched, a: Step, l: nat)
    requires Inv(s) && Enabled(s, a) && a.DoGain? && l < SCHED_MAX_LEVEL
    ensures Apply(s, a).queue[l] == Gathered(s, a, l)
  {
    hide Inv;
    GainThreads(s, a.core);
  }

  lemma OtherQueues(s: Sched, a: Step, l: nat)
    requires Enabled(s, a) && !a.DoYield? && !a.DoWakeup? && !a.DoGain? && l < SCHED_MAX_LEVEL
    ensures Apply(s, a).queue[l] == Gathered(s, a, l)
  {
    hide InsertionPoint;
  }

  /** A level less the first `d` threads of it, which is at most its head, is the front of what the
      level is after the step; and that head has been chosen. */
  predicate Advances(s: Sched, a: Step, s': Sched, l: nat, d: nat)
    requires l < SCHED_MAX_LEVEL
  {
    && d <= 1 && d <= |s.queue[l]| && s.queue[l][d..] <= s'.queue[l]
    && (d == 1 ==> Chooses(a, s', s.queue[l][0]))
  }

  lemma StepAdvances(s: Sched, a: Step, l: nat) returns (d: nat)
    requires Inv(s) && Enabled(s, a) && l < SCHED_MAX_LEVEL
    ensures Advances(s, a, Apply(s, a), l, d)
  {
    hide Inv, Enabled, Apply, Arrivals, BestLevel, Chooses;
    QueueAfter(s, a, l);
    d := if a.DoYield? && BestLevel(s, a, l) && s.queue[l] != [] then 1 else 0;
    assert s.queue[l][0..] == s.queue[l];
  }

  // ----- runs -----

  /** In some step from `n` on, before `m`, thread `t` is chosen. */
  ghost predicate Served(tr: seq<Sched>, steps: seq<Step>, n: nat, m: nat, t: Tid) {
    exists i :: n <= i < m && i < |steps| && i + 1 < |tr| && Chooses(steps[i], tr[i + 1], t)
  }

  /** Thread `t` stays on level `l` from `n` to `m`. */
  ghost predicate StaysQueued(tr: seq<Sched>, l: nat, n: nat, m: nat, t: Tid) {
    l < SCHED_MAX_LEVEL && forall i :: n <= i <= m && i < |tr| ==> t in tr[i].queue[l]
  }

  /** Whoever is chosen is not on a queue any more. */
  lemma ChosenLeaves(s: Sched, a: Step, t: Tid, l: nat)
    requires Inv(s) && l < SCHED_MAX_LEVEL && Chooses(a, s, t)
    ensures t !in s.queue[l]
  {
    assert HeldBy(s.cores[a.core], t) && Held(s, t);
  }

  lemma ServedLater(tr: seq<Sched>, steps: seq<Step>, n: nat, m: nat, t: Tid)
    requires n <= m && m < |steps| && m + 1 < |tr|
    requires Served(tr, steps, n, m, t) || Chooses(steps[m], tr[m + 1], t)
    ensures Served(tr, steps, n, m + 1, t)
  {
    if Served(tr, steps, n, m, t) {
      var i :| n <= i < m && i < |steps| && i + 1 < |tr| && Chooses(steps[i], tr[i + 1], t);
      assert n <= i < m + 1 && Chooses(steps[i], tr[i + 1], t);
    }
  }

  /** The queues are first in, first out, in every run. As long as the thread at place `j` of a level
      stays there, what was before and behind it stays in the same order, less the first `k`, all of
      whom have been chosen; so nobody ever gets in front of it. */
  lemma {:induction false} QueueIsFifo(tr: seq<Sched>, steps: seq<Step>, init: Tid, n: nat, m: nat, l: nat, j: nat)
      returns (k: nat)
    requires Run(tr, steps, init) && n <= m < |tr| && l < SCHED_MAX_LEVEL && j < |tr[n].queue[l]|
    requires StaysQueued(tr, l, n, m, tr[n].queue[l][j])
    ensures k <= j && tr[n].queue[l][k..] <= tr[m].queue[l]
    ensures forall x :: 0 <= x < k ==> Served(tr, steps, n, m, tr[n].queue[l][x])
  {
    hide Inv, Apply, Enabled, MarkerFree, Boot, Chooses, Served;
    var q := tr[n].queue[l];
    if n == m {
      k := 0;
      assert q[0..] == q;
    } else {
      k := QueueIsFifo(tr, steps, init, n, m - 1, l, j);
      RunInv(tr, steps, init, m - 1);
      RunInv(tr, steps, init, m);
      var d := StepAdvances(tr[m - 1], steps[m - 1], l);
      var q1 := tr[m - 1].queue[l];
      assert q1[0] == q[k];
      if d == 1 {
        assert q[k + 1..] == q[k..][1..] <= q1[1..];
        ChosenLeaves(tr[m], steps[m - 1], q[k], l);
        assert q[j] in tr[m].queue[l];
      } else {
        assert q1[0..] == q1;
      }
      forall x | 0 <= x < k + d ensures Served(tr, steps, n, m, q[x]) {
        ServedLater(tr, steps, n, m - 1, q[x]);
      }
      k := k + d;
    }
  }

  /** A thread that is chosen from a level has not overtaken anybody: whoever stood before it has
      been chosen before. */
  lemma FirstComeFirstServed(tr: seq<Sched>, steps: seq<Step>, init: Tid, n: nat, m: nat, l: nat, i: nat, j: nat)
    requires Run(tr, steps, init) && n <= m < |steps| && l < SCHED_MAX_LEVEL && i < j < |tr[n].queue[l]|
    requires StaysQueued(tr, l, n, m, tr[n].queue[l][j]) && Chooses(steps[m], tr[m + 1], tr[n].queue[l][j])
    ensures Served(tr, steps, n, m, tr[n].queue[l][i])
  {
    hide Inv, Apply, Enabled, MarkerFree, Boot, Chooses, Served;
    var q := tr[n].queue[l];
    var k := QueueIsFifo(tr, steps, init, n, m, l, j);
    RunInv(tr, steps, init, n);
    RunInv(tr, steps, init, m);
    RunInv(tr, steps, init, m + 1);
    var d := StepAdvances(tr[m], steps[m], l);
    ChosenLeaves(tr[m + 1], steps[m], q[j], l);
    assert tr[m].queue[l][0] == q[k];
    if d == 0 || q[k] != q[j] {
      OthersRemain(tr[m], steps[m], tr[m + 1], l, d, q[j]);
    }
    QueueDistinct(tr[n], l);
  }

  lemma QueueDistinct(s: Sched, l: nat)
    requires Inv(s) && l < SCHED_MAX_LEVEL
    ensures NoDup(s.queue[l])
  {
  }

  /** Only the head leaves. */
  lemma OthersRemain(s: Sched, a: Step, s': Sched, l: nat, d: nat, t: Tid)
    requires l < SCHED_MAX_LEVEL && Advances(s, a, s', l, d) && t in s.queue[l] && (d == 1 ==> t != s.queue[l][0])
    ensures t in s'.queue[l]
  {
    var i :| 0 <= i < |s.queue[l]| && s.queue[l][i] == t;
    assert s.queue[l][d..][i - d] == t;
  }

  // ----- the timeout list -----

  /** A thread that goes to sleep with a timeout enters the timeout list behind everybody who is due
      no later; the others stay as they are. */
  lemma SleepersInOrder(s: Sched, a: Step) returns (k: nat)
    requires Inv(s) && Enabled(s, a) && a.DoSleep?
    ensures if a.state == EXITED || a.timeout == NO_TIMEOUT then Apply(s, a).timeouts == s.timeouts
      else
        && k <= |s.timeouts|
        && Apply(s, a).timeouts == s.timeouts[..k] + [s.cores[a.core].current] + s.timeouts[k..]
        && (forall i :: 0 <= i < k ==> WakeupOf(s, s.timeouts[i]) <= WakeTime(a.now, a.timeout))
        && (forall i :: k <= i < |s.timeouts| ==> WakeTime(a.now, a.timeout) < WakeupOf(s, s.timeouts[i]))
  {
    hide InsertionPoint;
    var t := s.cores[a.core].current;
    var s1 := Suspend(s, a.core, a.state);
    var w := WakeTime(a.now, a.timeout);
    k := InsertionPoint(s.timeouts, SetThread(s1, t, s1.tcb[t].(wakeup := w)).tcb, w);
    SuspendKeeps(s, a.core, a.state);
    assert t !in s.timeouts;
    assert forall i, j :: 0 <= i < j < |s.timeouts| ==> WakeupOf(s, s.timeouts[i]) <= WakeupOf(s, s.timeouts[j]);
  }
}
