/** The waiter ring of kernel_cc.c and its signalling loops, over ring nodes, waiter records and
    the scheduler's own objects. */
module CondVars {
  import opened ListSpec
  import opened SchedModel
  import opened SchedInvariant
  import opened Scheduling
  import Rings

  /** The record that `cv_wait` keeps on the stack of the waiting thread. */
  class Waiter {
    const thread: Tid
    const node: Rings.Node
    var signalled: bool
    var removed: bool

    constructor (thread: Tid)
      ensures this.thread == thread && !signalled && !removed
      ensures fresh(node) && node.key == thread && Rings.Ring([node])
    {
      this.thread := thread;
      var n := new Rings.Node(thread);
      this.node := n;
      signalled, removed := false, false;
    }

    /** The waiting thread is woken; if it was asleep, this is what it has been waiting for. */
    method WakeThread(sched: Scheduler) returns (woken: bool)
      requires sched.Valid() && Inv(sched.View()) && thread in sched.memory
      modifies `signalled, sched`timeoutList, sched.SCHED, sched.memory.Values
      ensures sched.Valid() && Inv(sched.View())
      ensures sched.View() == if woken then WakeupLocked(old(sched.View()), thread) else old(sched.View())
      ensures woken == Asleep(old(sched.View()), this) && signalled == (woken || old(signalled))
    {
      hide Inv, MakeReady;
      var ret := sched.Wakeup(thread);
      woken := ret == 1;
      if woken {
        signalled := true;
      }
    }
  }

  /** The waiter `w` is the record behind ring node `n`, and its thread exists. */
  ghost predicate Behind(n: Rings.Node, w: Waiter, obj: map<Rings.Node, Waiter>, memory: map<Tid, TCB>) {
    n in obj && obj[n] == w && w.node == n && w.thread in memory
  }

  ghost predicate Records(nodes: seq<Rings.Node>, ws: seq<Waiter>, obj: map<Rings.Node, Waiter>, memory: map<Tid, TCB>) {
    && |ws| == |nodes| && NoDup(nodes)
    && forall i :: 0 <= i < |ws| ==> Behind(nodes[i], ws[i], obj, memory)
  }

  ghost predicate Asleep(s: Sched, w: Waiter) {
    w.thread in s.tcb && Wakeable(s.tcb[w.thread])
  }

  datatype Flags = Flags(removed: bool, signalled: bool)

  ghost function Before(ws: seq<Waiter>): seq<Flags>
    reads ws
  {
    seq(|ws|, i requires 0 <= i < |ws| reads ws => Flags(ws[i].removed, ws[i].signalled))
  }

  /** On top of the flags `fs`, the first `k` waiters are marked as removed, and when the signal
      has been spent, waiter `k` as removed and signalled. */
  ghost predicate Flagged(ws: seq<Waiter>, fs: seq<Flags>, k: nat, spent: bool)
    reads ws
  {
    && |fs| == |ws|
    && forall i :: 0 <= i < |ws| ==>
         && ws[i].removed == (i < k || (spent && i == k) || fs[i].removed)
         && ws[i].signalled == ((spent && i == k) || fs[i].signalled)
  }

  /** The first `k` waiters of the ring `r` were awake already, and have been taken off it. */
  ghost predicate Dropping(k: nat, ws: seq<Waiter>, r: seq<Rings.Node>, rest: seq<Rings.Node>, s: Sched) {
    |ws| == |r| && k <= |ws| && rest == r[k..] && forall i :: 0 <= i < k ==> !Asleep(s, ws[i])
  }

  /** A signal on the ring `r` with waiters `ws` took the ring to `r'` and the scheduler from `s`
      to `s'`: it was spent on the first waiter asleep, number `k`, if there was one. */
  ghost predicate Spent(k: nat, ws: seq<Waiter>, r: seq<Rings.Node>, r': seq<Rings.Node>, s: Sched, s': Sched) {
    && |ws| == |r| && k <= |ws|
    && (forall i :: 0 <= i < k ==> !Asleep(s, ws[i]))
    && if k == |ws| then r' == [] && s' == s
       else r' == r[k + 1..] && Asleep(s, ws[k]) && s' == WakeupLocked(s, ws[k].thread)
  }

  lemma Undropped(r: seq<Rings.Node>, ws: seq<Waiter>, obj: map<Rings.Node, Waiter>, memory: map<Tid, TCB>, s: Sched)
    requires Records(r, ws, obj, memory)
    ensures NoDup(ws) && Dropping(0, ws, r, r, s) && Flagged(ws, Before(ws), 0, false)
  {
    forall i, j | 0 <= i < j < |ws| ensures ws[i] != ws[j] {
      assert Behind(r[i], ws[i], obj, memory) && Behind(r[j], ws[j], obj, memory);
    }
  }

  lemma DroppingHead(k: nat, ws: seq<Waiter>, r: seq<Rings.Node>, rest: seq<Rings.Node>, s: Sched,
      obj: map<Rings.Node, Waiter>, memory: map<Tid, TCB>)
    requires Dropping(k, ws, r, rest, s) && Records(r, ws, obj, memory) && |rest| != 0
    ensures k < |ws| && |ws| == |r| && rest == r[k..] && Behind(rest[0], ws[k], obj, memory)
    ensures forall n <- rest :: n in r
  {
  }

  lemma SpentOn(k: nat, ws: seq<Waiter>, r: seq<Rings.Node>, s: Sched)
    requires k < |ws| && |ws| == |r| && Dropping(k, ws, r, r[k..], s) && Asleep(s, ws[k])
    ensures Spent(k, ws, r, r[k..][1..], s, WakeupLocked(s, ws[k].thread))
  {
  }

  lemma DroppedOne(k: nat, ws: seq<Waiter>, r: seq<Rings.Node>, s: Sched)
    requires k < |ws| && |ws| == |r| && Dropping(k, ws, r, r[k..], s) && !Asleep(s, ws[k])
    ensures Dropping(k + 1, ws, r, r[k..][1..], s)
  {
  }

  lemma SpentOnNone(k: nat, ws: seq<Waiter>, r: seq<Rings.Node>, s: Sched)
    requires Dropping(k, ws, r, [], s)
    ensures k == |ws| && Spent(k, ws, r, [], s, s)
  {
  }

  // ----- broadcasts -----

  /** Every thread of `ts` woken, in order. */
  ghost function WakeAll(s: Sched, ts: seq<Tid>): Sched
    decreases |ts|
  {
    if ts == [] || ts[0] !in s.tcb then s else WakeAll(WakeupLocked(s, ts[0]), ts[1..])
  }

  ghost function Threads(ws: seq<Waiter>): (ts: seq<Tid>)
    ensures |ts| == |ws|
  {
    seq(|ws|, i requires 0 <= i < |ws| => ws[i].thread)
  }

  ghost predicate Exist(s: Sched, ts: seq<Tid>) {
    forall t <- ts :: t in s.tcb
  }

  lemma {:induction false} WakeAllSplits(s: Sched, ts: seq<Tid>, us: seq<Tid>)
    requires Exist(s, ts)
    ensures WakeAll(s, ts + us) == WakeAll(WakeAll(s, ts), us)
    decreases |ts|
  {
    if ts == [] {
      assert ts + us == us;
    } else {
      assert (ts + us)[1..] == ts[1..] + us;
      WakeAllSplits(WakeupLocked(s, ts[0]), ts[1..], us);
    }
  }

  /** What waking all of `ts` does to thread `t`. */
  lemma {:induction false} WakeAllThread(s: Sched, ts: seq<Tid>, t: Tid)
    requires Exist(s, ts)
    ensures WakeAll(s, ts).tcb.Keys == s.tcb.Keys
    ensures t in s.tcb && !(t in ts && Wakeable(s.tcb[t])) ==> WakeAll(s, ts).tcb[t] == s.tcb[t]
    ensures t in s.tcb && t in ts ==> !Wakeable(WakeAll(s, ts).tcb[t])
    decreases |ts|
  {
    if ts != [] {
      WakeAllThread(WakeupLocked(s, ts[0]), ts[1..], t);
    }
  }

  /** Waking threads that are awake changes nothing. */
  lemma {:induction false} WakeNobody(s: Sched, ts: seq<Tid>)
    requires Exist(s, ts) && forall t <- ts :: !Wakeable(s.tcb[t])
    ensures WakeAll(s, ts) == s
  {
    if ts != [] {
      WakeNobody(s, ts[1..]);
    }
  }

  /** What a broadcast leaves on waiters `ws`, whose flags were `fs`: all are removed, and
      exactly those asleep at its beginning, in `s`, are signalled. */
  ghost predicate AllFlagged(ws: seq<Waiter>, fs: seq<Flags>, s: Sched)
    reads ws
  {
    && |fs| == |ws|
    && forall i :: 0 <= i < |ws| ==> ws[i].removed && ws[i].signalled == (Asleep(s, ws[i]) || fs[i].signalled)
  }

  lemma BroadcastStarts(r: seq<Rings.Node>, ws: seq<Waiter>, fs: seq<Flags>, s: Sched,
      obj: map<Rings.Node, Waiter>, memory: map<Tid, TCB>)
    requires Records(r, ws, obj, memory) && fs == Before(ws)
    ensures |ws| == |r| == |fs| && r == r[0..] && ws == ws[0..] && fs == fs[0..]
    ensures s == WakeAll(s, Threads(ws)[..0]) && AllFlagged(ws[..0], fs[..0], s)
  {
  }

  lemma Apart(ws: seq<Waiter>, n: nat)
    requires NoDup(Threads(ws)) && n <= |ws|
    ensures forall i :: n <= i < |ws| ==> ws[i] !in ws[..n]
  {
    forall i, j | 0 <= i < n <= j < |ws| ensures ws[i] != ws[j] {
      assert Threads(ws)[i] != Threads(ws)[j];
    }
  }

  /** The scheduler and the ring after one signal of a broadcast. */
  lemma TurnEnds(n: nat, k: nat, ws: seq<Waiter>, s: Sched, r: seq<Rings.Node>, r': seq<Rings.Node>, s0: Sched, s': Sched,
      obj: map<Rings.Node, Waiter>, memory: map<Tid, TCB>) returns (m: nat)
    requires n < |ws| && Records(r, ws[n..], obj, memory) && Exist(s, Threads(ws))
    requires s0 == WakeAll(s, Threads(ws)[..n]) && Spent(k, ws[n..], r, r', s0, s')
    ensures k <= |ws| - n && m == (if n + k < |ws| then n + k + 1 else |ws|)
    ensures m - n <= |r| && r' == r[m - n..] && Records(r', ws[m..], obj, memory)
    ensures s' == WakeAll(s, Threads(ws)[..m])
  {
    hide WakeupLocked, WakeAll;
    m := if n + k < |ws| then n + k + 1 else |ws|;
    assert ws[n..][m - n..] == ws[m..];
    var ts := Threads(ws);
    WakeAllThread(s, ts[..n], 0);
    WakeNobody(s0, ts[n..n + k]);
    WakeAllSplits(s, ts[..n], ts[n..n + k]);
    assert ts[..n + k] == ts[..n] + ts[n..n + k];
    if n + k < |ws| {
      WakeAllSplits(s, ts[..n + k], [ts[n + k]]);
      assert ts[..m] == ts[..n + k] + [ts[n + k]];
      WakeOne(s0, ws[n + k].thread);
    }
  }

  lemma WakeOne(s: Sched, t: Tid)
    requires t in s.tcb
    ensures WakeAll(s, [t]) == WakeupLocked(s, t)
  {
  }

  /** A waiter not dealt with yet sleeps if and only if it slept at the beginning. */
  lemma StillAsleep(n: nat, ws: seq<Waiter>, s: Sched, i: nat)
    requires n <= i < |ws| && NoDup(Threads(ws)) && Exist(s, Threads(ws))
    ensures Asleep(WakeAll(s, Threads(ws)[..n]), ws[i]) <==> Asleep(s, ws[i])
  {
    var ts := Threads(ws)[..n];
    assert Threads(ws)[i] !in ts;
    WakeAllThread(s, ts, ws[i].thread);
  }

  lemma TurnFlags(n: nat, k: nat, m: nat, ws: seq<Waiter>, fs: seq<Flags>, s: Sched,
      r: seq<Rings.Node>, r': seq<Rings.Node>, s0: Sched, s': Sched)
    requires n <= m <= |ws| && |fs| == |ws| && Spent(k, ws[n..], r, r', s0, s')
    requires m == (if n + k < |ws| then n + k + 1 else |ws|)
    requires NoDup(Threads(ws)) && Exist(s, Threads(ws)) && s0 == WakeAll(s, Threads(ws)[..n])
    requires AllFlagged(ws[..n], fs[..n], s) && Flagged(ws[n..], fs[n..], k, n + k < |ws|)
    ensures AllFlagged(ws[..m], fs[..m], s) && Before(ws[m..]) == fs[m..]
  {
    forall i | n <= i < m ensures ws[i].removed && ws[i].signalled == (Asleep(s, ws[i]) || fs[i].signalled) {
      StillAsleep(n, ws, s, i);
      assert ws[i] == ws[n..][i - n] && fs[i] == fs[n..][i - n];
    }
    forall i | m <= i < |ws| ensures ws[i].removed == fs[i].removed && ws[i].signalled == fs[i].signalled {
      assert ws[i] == ws[n..][i - n] && fs[i] == fs[n..][i - n];
    }
  }

  class CondVar {
    var waitset: Rings.Node?
    ghost var ring: seq<Rings.Node>

    ghost predicate Valid()
      reads this, ring
    {
      if ring == [] then waitset == null else waitset == ring[0] && Rings.Ring(ring)
    }

    lemma WaitsetIsHead()
      requires Valid()
      ensures waitset == null <==> ring == []
    {
    }

    constructor ()
      ensures Valid() && ring == []
    {
      waitset, ring := null, [];
    }

    /** The waiter joins the back of the ring. */
    method Enqueue(w: Rings.Node)
      requires Valid() && Rings.Ring([w]) && w !in ring
      modifies this, ring`prev, ring`next, w`prev, w`next
      ensures Valid() && ring == old(ring) + [w]
    {
      if waitset != null {
        var wset: Rings.Node := waitset;
        ghost var x := ring[1..];
        assert ring == [wset] + x && [w] + [] == [w];
        NoDupPermuted(ring + [w], [wset] + x + ([w] + []));
        Rings.NeighboursOn(ring, wset);
        Rings.RingFrom(w, []);
        Rings.PushBack(wset, w, x, []);
        ring := ring + [w];
        assert [wset] + (x + [] + [w]) == ring;
      } else {
        waitset := w;
        ring := [w];
      }
    }

    /** The head moves on if the waiter about to leave is the head. */
    method MakeSafe(w: Rings.Node)
      requires Valid() && w in ring
      modifies `waitset
      ensures waitset == if ring[0] != w then ring[0] else if |ring| == 1 then null else ring[1]
    {
      Rings.RingNeighbours(ring);
      assert Rings.Forward(ring, 0);
      if waitset == w {
        var nextw := w.next;
        waitset := if nextw == w then null else nextw;
      }
    }

    /** The waiter leaves the ring, wherever it is on it. */
    method RemoveFromRing(w: Rings.Node, ghost p: seq<Rings.Node>, ghost q: seq<Rings.Node>)
      requires Valid() && ring == p + [w] + q
      modifies this, ring`prev, ring`next
      ensures Valid() && ring == p + q && Rings.Ring([w])
    {
      assert w in ring && ring[|p|] == w && ring[0] == (if p == [] then w else p[0]);
      assert ring[0] == w <==> p == [];
      MakeSafe(w);
      Rings.NeighboursOn(ring, w);
      hide Rings.Ring, NoDup;
      Rings.RemoveAt(w, p, q);
      ring := p + q;
    }

    /** The first waiter leaves the ring. */
    method TakeFirst(obj: map<Rings.Node, Waiter>) returns (waiter: Waiter)
      requires Valid() && ring != [] && ring[0] in obj && obj[ring[0]].node == ring[0]
      modifies this, ring`prev, ring`next, obj[ring[0]]
      ensures Valid() && ring == old(ring)[1..]
      ensures waiter == obj[old(ring)[0]] && waiter.removed && waiter.signalled == old(waiter.signalled)
    {
      waiter := obj[waitset];
      hide Rings.Ring;
      assert ring == [] + [waiter.node] + ring[1..] && [] + ring[1..] == ring[1..];
      RemoveFromRing(waiter.node, [], ring[1..]);
      waiter.removed := true;
    }

    /** One turn of the loop of `cv_signal`, at waiter number `k`: whether it was still asleep. */
    method SignalFirst(obj: map<Rings.Node, Waiter>, sched: Scheduler, ghost k: nat, ghost ws: seq<Waiter>, ghost fs: seq<Flags>)
      returns (woken: bool)
      requires Valid() && sched.Valid() && Inv(sched.View()) && NoDup(ws) && Flagged(ws, fs, k, false)
      requires k < |ws| && ring != [] && Behind(ring[0], ws[k], obj, sched.memory)
      modifies this, ring`prev, ring`next, ws[k], sched`timeoutList, sched.SCHED, sched.memory.Values
      ensures Valid() && sched.Valid() && Inv(sched.View())
      ensures ring == old(ring)[1..] && woken == Asleep(old(sched.View()), ws[k])
      ensures if woken then Flagged(ws, fs, k, true) else Flagged(ws, fs, k + 1, false)
      ensures sched.View() == if woken then WakeupLocked(old(sched.View()), ws[k].thread) else old(sched.View())
    {
      hide Inv, Valid, WakeupLocked, Asleep, Rings.Ring, Scheduler.View, Scheduler.Valid;
      var waiter := TakeFirst(obj);
      woken := waiter.WakeThread(sched);
    }

    /** `cv_signal`: waiters that are awake already, by their timeouts, are dropped from the ring
        one after the other; the first one still asleep is dropped too, and woken and marked. It
        is the `k`-th of the ring; there is none when `k` is the length of the ring. */
    method CvSignal(obj: map<Rings.Node, Waiter>, sched: Scheduler, ghost ws: seq<Waiter>) returns (ghost k: nat)
      requires Valid() && sched.Valid() && Inv(sched.View()) && Records(ring, ws, obj, sched.memory)
      modifies this, ring`prev, ring`next, ws, sched`timeoutList, sched.SCHED, sched.memory.Values
      ensures Valid() && sched.Valid() && Inv(sched.View())
      ensures Spent(k, ws, old(ring), ring, old(sched.View()), sched.View())
      ensures Flagged(ws, old(Before(ws)), k, k < |ws|)
    {
      hide *;
      k := 0;
      ghost var r, s, memory, fs := ring, sched.View(), sched.memory, Before(ws);
      Undropped(r, ws, obj, memory, s);
      while waitset != null
        invariant Valid() && sched.Valid() && Inv(sched.View())
        invariant Dropping(k, ws, r, ring, s)
        invariant sched.View() == s && sched.memory == memory
        invariant Flagged(ws, fs, k, false)
        decreases |ring|
      {
        WaitsetIsHead();
        DroppingHead(k, ws, r, ring, s, obj, memory);
        var woken := SignalFirst(obj, sched, k, ws, fs);
        if woken {
          SpentOn(k, ws, r, s);
          return;
        }
        DroppedOne(k, ws, r, s);
        k := k + 1;
      }
      WaitsetIsHead();
      SpentOnNone(k, ws, r, s);
    }

    /** One signal of a broadcast: the waiters before number `n` have been dealt with. */
    method BroadcastTurn(obj: map<Rings.Node, Waiter>, sched: Scheduler,
        ghost n: nat, ghost ws: seq<Waiter>, ghost fs: seq<Flags>, ghost s: Sched)
      returns (ghost m: nat)
      requires Valid() && sched.Valid() && Inv(sched.View()) && n < |ws| && |fs| == |ws|
      requires NoDup(Threads(ws)) && Exist(s, Threads(ws)) && Records(ring, ws[n..], obj, sched.memory)
      requires sched.View() == WakeAll(s, Threads(ws)[..n])
      requires AllFlagged(ws[..n], fs[..n], s) && Before(ws[n..]) == fs[n..]
      modifies this, ring`prev, ring`next, ws[n..], sched`timeoutList, sched.SCHED, sched.memory.Values
      ensures Valid() && sched.Valid() && Inv(sched.View()) && n < m <= |ws|
      ensures m - n <= |old(ring)| && ring == old(ring)[m - n..] && Records(ring, ws[m..], obj, sched.memory)
      ensures sched.View() == WakeAll(s, Threads(ws)[..m])
      ensures AllFlagged(ws[..m], fs[..m], s) && Before(ws[m..]) == fs[m..]
    {
      hide *;
      Apart(ws, n);
      ghost var r, s0, memory := ring, sched.View(), sched.memory;
      ghost var k := CvSignal(obj, sched, ws[n..]);
      m := TurnEnds(n, k, ws, s, r, ring, s0, sched.View(), obj, memory);
      TurnFlags(n, k, m, ws, fs, s, r, ring, s0, sched.View());
    }

    /** `Cond_Broadcast`, under the lock of the ring. */
    method Broadcast(obj: map<Rings.Node, Waiter>, sched: Scheduler, ghost ws: seq<Waiter>)
      requires Valid() && sched.Valid() && Inv(sched.View()) && Records(ring, ws, obj, sched.memory)
      requires NoDup(Threads(ws)) && Exist(sched.View(), Threads(ws))
      modifies this, ring`prev, ring`next, ws, sched`timeoutList, sched.SCHED, sched.memory.Values
      ensures Valid() && sched.Valid() && Inv(sched.View()) && ring == []
      ensures sched.View() == WakeAll(old(sched.View()), Threads(ws))
      ensures AllFlagged(ws, old(Before(ws)), old(sched.View()))
    {
      hide *;
      ghost var n, r, s, memory, fs := 0, ring, sched.View(), sched.memory, Before(ws);
      BroadcastStarts(r, ws, fs, s, obj, memory);
      while waitset != null
        invariant Valid() && sched.Valid() && Inv(sched.View()) && sched.memory == memory
        invariant n <= |ws| && |ws| == |r| == |fs| && ring == r[n..] && Records(ring, ws[n..], obj, memory)
        invariant sched.View() == WakeAll(s, Threads(ws)[..n])
        invariant AllFlagged(ws[..n], fs[..n], s) && Before(ws[n..]) == fs[n..]
        decreases |ring|
      {
        WaitsetIsHead();
        ghost var m := BroadcastTurn(obj, sched, n, ws, fs, s);
        assert r[n..][m - n..] == r[m..];
        n := m;
      }
      WaitsetIsHead();
      assert n == |ws| && ws[..n] == ws && fs[..n] == fs && Threads(ws)[..n] == Threads(ws);
    }
  }
}
