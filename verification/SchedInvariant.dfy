/** The inductive invariant of the scheduler, and its preservation by every step. */
module SchedInvariant {
  import opened ListSpec
  import opened SchedModel

  // ----- who holds a thread -----

  /** Thread `t` is in the hands of core `k`: its idle thread, the one it runs, the one it has
      chosen, or the one whose context it is about to mark clean. */
  predicate HeldBy(k: Core, t: Tid) {
    || t == k.idle
    || t == k.current
    || (k.pc.Switching? && t == k.pc.next)
    || (k.pc == Gaining && t == k.previous)
  }

  ghost predicate Held(s: Sched, t: Tid) {
    exists c :: 0 <= c < |s.cores| && HeldBy(s.cores[c], t)
  }

  // ----- the parts of the invariant -----

  predicate Outgoing(th: Thread) {
    && th.phase == CTX_DIRTY
    && (th.state == READY || ((th.state == STOPPED || th.state == EXITED) && th.kind == NORMAL_THREAD))
  }

  predicate Incoming(th: Thread) {
    th.state == READY && th.phase == CTX_CLEAN
  }

  predicate CoreThreadsExist(s: Sched, k: Core) {
    && k.idle in s.tcb && s.tcb[k.idle].kind == IDLE_THREAD
    && k.current in s.tcb && (s.tcb[k.current].kind == IDLE_THREAD ==> k.current == k.idle)
    && (k.pc.Switching? ==> k.pc.next in s.tcb && (s.tcb[k.pc.next].kind == IDLE_THREAD ==> k.pc.next == k.idle))
    && (k.pc == Gaining ==> k.previous in s.tcb)
  }

  /** What the threads that a core holds look like, at each point of the core's cycle. */
  predicate CoreOk(s: Sched, k: Core) {
    && CoreThreadsExist(s, k)
    && (k.idle != k.current && !(k.pc == Gaining && k.idle == k.previous) ==> Incoming(s.tcb[k.idle]))
    && match k.pc {
         case Running => s.tcb[k.current].state == RUNNING && s.tcb[k.current].phase == CTX_DIRTY
         case Left =>
           s.tcb[k.current].state == RUNNING && s.tcb[k.current].phase == CTX_DIRTY && k.current == k.idle
         case Sleeping => Outgoing(s.tcb[k.current])
         case Switching(next) =>
           && k.previous == k.current
           && Outgoing(s.tcb[k.current])
           && (if next == k.current then s.tcb[next].state == READY else Incoming(s.tcb[next]))
         case Gaining =>
           if k.current == k.previous then s.tcb[k.current].state == READY && Outgoing(s.tcb[k.current])
           else Incoming(s.tcb[k.current]) && Outgoing(s.tcb[k.previous])
       }
  }

  ghost predicate CoresOk(s: Sched) {
    forall c :: 0 <= c < |s.cores| ==> CoreOk(s, s.cores[c])
  }

  /** No thread is in the hands of two cores. */
  ghost predicate Exclusive(cores: seq<Core>) {
    forall c, d, t :: 0 <= c < |cores| && 0 <= d < |cores| && HeldBy(cores[c], t) && HeldBy(cores[d], t) ==> c == d
  }

  predicate ThreadOk(th: Thread) {
    && (th.wakeup != NO_TIMEOUT ==> th.state == STOPPED)
    && (th.state == INIT ==> th.phase == CTX_CLEAN)
    && (th.state == RUNNING || th.state == EXITED ==> th.phase == CTX_DIRTY)
    && (th.kind == IDLE_THREAD ==> th.state == READY || th.state == RUNNING)
  }

  ghost predicate ThreadsOk(s: Sched) {
    forall t :: t in s.tcb ==> ThreadOk(s.tcb[t])
  }

  predicate Queueable(th: Thread) {
    th.kind == NORMAL_THREAD && th.state == READY && th.phase == CTX_CLEAN
  }

  /** Threads whose context is not clean are in the hands of some core. */
  ghost predicate DirtyHeld(s: Sched) {
    forall t :: t in s.tcb && s.tcb[t].phase == CTX_DIRTY ==> Held(s, t)
  }

  /** Queued threads are runnable, on the level of their priority, and in nobody's hands. */
  ghost predicate QueuesSound(s: Sched) {
    forall l, i :: 0 <= l < SCHED_MAX_LEVEL && 0 <= i < |s.queue[l]| ==>
      var t := s.queue[l][i];
      t in s.tcb && Queueable(s.tcb[t]) && s.tcb[t].priority == l && !Held(s, t)
  }

  ghost predicate QueuesDistinct(q: Queues) {
    forall l :: 0 <= l < SCHED_MAX_LEVEL ==> NoDup(q[l])
  }

  /** No runnable thread is forgotten. */
  ghost predicate QueuesComplete(s: Sched) {
    forall t :: t in s.tcb && Queueable(s.tcb[t]) ==> t in s.queue[s.tcb[t].priority] || Held(s, t)
  }

  /** The wake-up time registered for `t`, or NO_TIMEOUT. */
  function WakeupOf(s: Sched, t: Tid): Time {
    if t in s.tcb then s.tcb[t].wakeup else NO_TIMEOUT
  }

  ghost predicate Sorted(s: Sched) {
    forall i, j :: 0 <= i < j < |s.timeouts| ==> WakeupOf(s, s.timeouts[i]) <= WakeupOf(s, s.timeouts[j])
  }

  /** The timeout list holds, in order of wake-up time, exactly the threads that have one. */
  ghost predicate TimeoutsOk(s: Sched) {
    && NoDup(s.timeouts)
    && (forall t :: t in s.timeouts <==> WakeupOf(s, t) != NO_TIMEOUT)
    && Sorted(s)
  }

  ghost function Normals(tcb: map<Tid, Thread>): set<Tid> {
    set t | t in tcb && tcb[t].kind == NORMAL_THREAD
  }

  ghost predicate CountOk(s: Sched) {
    && s.active == |Normals(s.tcb)|
    && forall c :: 0 <= c < |s.cores| && s.cores[c].pc == Left ==> s.active == 0
  }

  ghost predicate QueuesOk(s: Sched) {
    QueuesSound(s) && QueuesDistinct(s.queue) && QueuesComplete(s)
  }

  ghost predicate Inv(s: Sched) {
    && CoresOk(s)
    && Exclusive(s.cores)
    && ThreadsOk(s)
    && DirtyHeld(s)
    && QueuesOk(s)
    && TimeoutsOk(s)
    && CountOk(s)
  }

  // ----- framing -----

  /** The threads of `s'` and `s` differ at most at `t`. */
  ghost predicate OnlyThread(s: Sched, s': Sched, t: Tid) {
    && (forall u :: u != t ==> (u in s.tcb <==> u in s'.tcb))
    && (forall u :: u != t && u in s.tcb ==> s'.tcb[u] == s.tcb[u])
  }

  lemma CoreFrame(s: Sched, s': Sched, k: Core, t: Tid)
    requires CoreOk(s, k) && !HeldBy(k, t) && OnlyThread(s, s', t)
    ensures CoreOk(s', k)
  {
  }

  /** The other cores are untouched by a change to one core and to a thread that it holds. */
  lemma OtherCoresFrame(s: Sched, s': Sched, c: nat, t: Tid)
    requires c < |s.cores| && CoresOk(s) && Exclusive(s.cores) && HeldBy(s.cores[c], t)
    requires OnlyThread(s, s', t)
    ensures forall d :: 0 <= d < |s.cores| && d != c ==> CoreOk(s', s.cores[d])
  {
    forall d | 0 <= d < |s.cores| && d != c ensures CoreOk(s', s.cores[d]) {
      CoreFrame(s, s', s.cores[d], t);
    }
  }

  /** A core that comes to hold only what it held, and what nobody held, keeps exclusion. */
  lemma ExclusiveFrame(cores: seq<Core>, c: nat, k: Core, extra: Tid)
    requires c < |cores| && Exclusive(cores)
    requires forall t :: HeldBy(k, t) ==> HeldBy(cores[c], t) || t == extra
    requires HeldBy(k, extra) ==> HeldBy(cores[c], extra) || forall d :: 0 <= d < |cores| ==> !HeldBy(cores[d], extra)
    ensures Exclusive(cores[c := k])
  {
  }

  /** Updating core `c`, threads held by the others stay held. */
  lemma HeldFrame(s: Sched, s': Sched, c: nat, k: Core)
    requires c < |s.cores| && s'.cores == s.cores[c := k]
    ensures forall t :: Held(s, t) && !HeldBy(s.cores[c], t) ==> Held(s', t)
    ensures forall t :: HeldBy(k, t) ==> Held(s', t)
    ensures forall t :: Held(s', t) ==> Held(s, t) || HeldBy(k, t)
  {
    forall t | Held(s, t) && !HeldBy(s.cores[c], t) ensures Held(s', t) {
      var d :| 0 <= d < |s.cores| && HeldBy(s.cores[d], t);
      assert HeldBy(s'.cores[d], t);
    }
    forall t | HeldBy(k, t) ensures Held(s', t) {
      assert HeldBy(s'.cores[c], t);
    }
    forall t | Held(s', t) ensures Held(s, t) || HeldBy(k, t) {
      var d :| 0 <= d < |s'.cores| && HeldBy(s'.cores[d], t);
      assert d != c ==> HeldBy(s.cores[d], t);
    }
  }

  /** A held thread with a clean context is runnable: it is an idle thread or has been chosen. */
  lemma HeldClean(s: Sched, t: Tid)
    requires CoresOk(s) && t in s.tcb && Held(s, t) && s.tcb[t].phase == CTX_CLEAN
    ensures s.tcb[t].state == READY
  {
    var c :| 0 <= c < |s.cores| && HeldBy(s.cores[c], t);
    assert CoreOk(s, s.cores[c]);
  }

  lemma NormalsFrame(tcb: map<Tid, Thread>, t: Tid, th: Thread)
    requires t in tcb && tcb[t].kind == th.kind
    ensures Normals(tcb[t := th]) == Normals(tcb)
  {
  }

  /** The timeout list depends on the wake-up times alone. */
  lemma TimeoutsFrame(s: Sched, s': Sched)
    requires TimeoutsOk(s) && s'.timeouts == s.timeouts
    requires forall t :: WakeupOf(s', t) == WakeupOf(s, t)
    ensures TimeoutsOk(s')
  {
  }

  lemma SameCoresHeld(s: Sched, s': Sched)
    requires s'.cores == s.cores
    ensures forall u :: Held(s', u) <==> Held(s, u)
  {
  }

  /** A change to one thread that is sound in itself, and leaves everybody's hands as they are. */
  lemma ThreadUpdate(s: Sched, s': Sched, t: Tid)
    requires ThreadsOk(s) && DirtyHeld(s) && CountOk(s)
    requires t in s.tcb && t in s'.tcb && s'.tcb == s.tcb[t := s'.tcb[t]]
    requires s'.tcb[t].kind == s.tcb[t].kind && ThreadOk(s'.tcb[t])
    requires s'.tcb[t].phase == CTX_DIRTY ==> Held(s', t)
    requires forall u :: Held(s', u) <==> Held(s, u)
    requires s'.active == s.active
    requires forall c :: 0 <= c < |s'.cores| && s'.cores[c].pc == Left ==> c < |s.cores| && s.cores[c].pc == Left
    ensures ThreadsOk(s') && DirtyHeld(s') && CountOk(s')
  {
    NormalsFrame(s.tcb, t, s'.tcb[t]);
  }
}
