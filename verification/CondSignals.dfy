/** The order of the rings, and what a signal and a broadcast do from the call to the return, with
    the steps of other threads in between, in every run. */
module CondSignals {
  import opened ListSpec
  import opened SchedModel
  import opened SchedInvariant
  import opened CondModel
  import opened CondInvariant
  import opened CondSteps
  import opened CondTheorems

  // ----- what a step does to a ring -----

  /** Step `a` is a section of the code for condition `cv` that may change its ring. */
  predicate TouchesRing(s: Cc, a: CStep, cv: CvId)
    requires CEnabled(s, a)
  {
    && a.Advance?
    && var loc := s.local[Actor(s, a)].loc;
    && (loc.WaitWant? || loc.WaitAsleep? || loc.SigLoop?) && loc.cv == cv
  }

  /** `r'` is `r` without its element `t`. */
  ghost predicate Without(r: seq<Tid>, r': seq<Tid>, t: Tid) {
    exists k :: 0 <= k < |r| && r[k] == t && r' == r[..k] + r[k + 1..]
  }

  /** A waiter joins a ring at the back. It leaves when it is the head and is signalled, or by itself,
      when it has woken up and nobody has taken it off. */
  lemma RingAfter(s: Cc, a: CStep, cv: CvId)
    requires CInv(s) && CEnabled(s, a)
    ensures var r, r' := Ring(s, cv), Ring(CApply(s, a), cv);
      if TouchesRing(s, a, cv) then
        var t := Actor(s, a);
        match s.local[t].loc {
          case WaitWant(_, _, _, _) => r' == r + [t]
          case SigLoop(_, _, _) => r' == if r == [] then [] else r[1..]
          case _ => if s.local[t].removed then r' == r else Without(r, r', t)
        }
      else r' == r
  {
    hide CInv, Apply, Enabled;
    if a.Advance? {
      var t := Actor(s, a);
      if s.local[t].loc.WaitAsleep? && s.local[t].loc.cv == cv && !s.local[t].removed {
        SleeperOnRing(s, t);
        var k := RemoveSplits(Ring(s, cv), t);
      }
      RingSection(s, a.core, t, a.now, cv);
    }
  }

  lemma SleeperOnRing(s: Cc, t: Tid)
    requires CInv(s) && t in s.local && s.local[t].loc.WaitAsleep? && !s.local[t].removed
    ensures t in Ring(s, s.local[t].loc.cv)
  {
    hide Inv;
    assert Enqueued(s.local[t], s.local[t].loc.cv);
  }

  lemma RingSection(s: Cc, c: nat, t: Tid, now: Clock, cv: CvId)
    requires t in s.local && CanAdvance(s, c, t, now)
    ensures var r, r', loc := Ring(s, cv), Ring(AdvanceTo(s, c, t, now), cv), s.local[t].loc;
      if (loc.WaitWant? || loc.WaitAsleep? || loc.SigLoop?) && loc.cv == cv then
        if loc.WaitWant? then r' == r + [t]
        else if loc.SigLoop? then r' == if r == [] then [] else r[1..]
        else r' == if s.local[t].removed then r else Remove(r, t)
      else r' == r
  {
    hide Apply, Enabled, CanSleep, Remove;
    match s.local[t].loc {
      case SigLoop(_, _, _) =>
      case WaitAsleep(_, _, _, _) =>
      case WaitWant(_, _, _, _) =>
      case GiveDone(_) =>
      case _ =>
    }
  }

  ghost predicate StandsBefore(r: seq<Tid>, x: Tid, y: Tid) {
    exists i, j :: 0 <= i < j < |r| && r[i] == x && r[j] == y
  }

  lemma OrderWithout(r: seq<Tid>, r': seq<Tid>, t: Tid, x: Tid, y: Tid)
    requires NoDup(r) && Without(r, r', t) && StandsBefore(r, x, y) && x != t && y != t
    ensures StandsBefore(r', x, y)
  {
    var k :| 0 <= k < |r| && r[k] == t && r' == r[..k] + r[k + 1..];
    var i, j :| 0 <= i < j < |r| && r[i] == x && r[j] == y;
    var i', j' := WithoutAt(r, k, i), WithoutAt(r, k, j);
    assert 0 <= i' < j' < |r'|;
  }

  /** Where element `i` is when element `k` has left. */
  function WithoutAt(r: seq<Tid>, k: nat, i: nat): (i': nat)
    requires k < |r| && i < |r| && i != k
    ensures i' < |r| - 1 && (r[..k] + r[k + 1..])[i'] == r[i]
  {
    if i < k then i else i - 1
  }

  lemma OrderAppended(r: seq<Tid>, t: Tid, x: Tid, y: Tid)
    requires StandsBefore(r, x, y)
    ensures StandsBefore(r + [t], x, y)
  {
    var i, j :| 0 <= i < j < |r| && r[i] == x && r[j] == y;
    assert (r + [t])[i] == x && (r + [t])[j] == y;
  }

  lemma WithoutMembers(r: seq<Tid>, r': seq<Tid>, t: Tid)
    requires NoDup(r) && Without(r, r', t)
    ensures t !in r'
  {
  }

  lemma RingDistinct(s: Cc, cv: CvId)
    requires CInv(s)
    ensures NoDup(Ring(s, cv))
  {
  }

  lemma StepKeepsOrder(s: Cc, a: CStep, cv: CvId, x: Tid, y: Tid)
    requires CInv(s) && CEnabled(s, a) && StandsBefore(Ring(s, cv), x, y)
    requires x in Ring(CApply(s, a), cv) && y in Ring(CApply(s, a), cv)
    ensures StandsBefore(Ring(CApply(s, a), cv), x, y)
  {
    hide CInv, CanAdvance, CApply, Ring, StandsBefore, Without;
    var r, r' := Ring(s, cv), Ring(CApply(s, a), cv);
    RingAfter(s, a, cv);
    RingDistinct(s, cv);
    if TouchesRing(s, a, cv) {
      var t := Actor(s, a);
      if s.local[t].loc.WaitWant? {
        OrderAppended(r, t, x, y);
      } else if s.local[t].loc.SigLoop? {
        if r != [] {
          HeadIsWithout(r);
          WithoutMembers(r, r[1..], r[0]);
          OrderWithout(r, r', r[0], x, y);
        }
      } else if !s.local[t].removed {
        WithoutMembers(r, r', t);
        OrderWithout(r, r', t, x, y);
      }
    }
  }

  lemma HeadIsWithout(r: seq<Tid>)
    requires r != []
    ensures Without(r, r[1..], r[0])
  {
    assert r[..0] + r[0 + 1..] == r[1..];
  }

  ghost predicate OnBoth(s: Cc, cv: CvId, x: Tid, y: Tid) {
    x in Ring(s, cv) && y in Ring(s, cv)
  }

  /** The rings are first in, first out: as long as two waiters stay on a ring they stay in the order
      in which they joined it, so that signals reach the one that has waited longer first. */
  lemma {:induction false} WaitersInOrder(tr: seq<Cc>, steps: seq<CStep>, init: Tid, n: nat, m: nat, cv: CvId, x: Tid, y: Tid)
    requires CRun(tr, steps, init) && n <= m < |tr| && StandsBefore(Ring(tr[n], cv), x, y)
    requires forall i :: n <= i <= m ==> OnBoth(tr[i], cv, x, y)
    ensures StandsBefore(Ring(tr[m], cv), x, y)
  {
    hide CInv, MarkedOk, CApply, CEnabled, StandsBefore, Ring;
    if n < m {
      WaitersInOrder(tr, steps, init, n, m - 1, cv, x, y);
      CRunInv(tr, steps, init, m - 1);
      assert OnBoth(tr[m], cv, x, y);
      StepKeepsOrder(tr[m - 1], steps[m - 1], cv, x, y);
    }
  }

  // ----- a signal, step by step -----

  /** Between the call and the return of a signal or broadcast. */
  predicate InSignal(loc: Loc) {
    loc.SigWant? || loc.SigLoop? || loc.SigWoke?
  }

  predicate SameSignal(loc: Loc, loc': Loc) {
    InSignal(loc) && InSignal(loc') && loc'.cv == loc.cv && loc'.all == loc.all && loc'.ret == loc.ret
  }

  /** Step `a` is a section of thread `t`. */
  predicate Own(s: Cc, a: CStep, t: Tid)
    requires CEnabled(s, a)
  {
    !a.SchedStep? && Actor(s, a) == t
  }

  lemma OwnIsAdvance(s: Cc, a: CStep, t: Tid)
    requires CEnabled(s, a) && Own(s, a, t) && t in s.local && InSignal(s.local[t].loc)
    ensures a.Advance?
  {
  }

  /** What the steps of others do to a thread: its place in the code stays. */
  lemma OthersStay(s: Cc, a: CStep, t: Tid)
    requires CInv(s) && CEnabled(s, a) && !Own(s, a, t) && t in s.local && s.local[t].loc != Dead
    ensures t in CApply(s, a).local && CApply(s, a).local[t].loc == s.local[t].loc
  {
    hide CInv, AdvanceTo, CanAdvance, Apply, Enabled;
    match a
    case Advance(c, now) => OthersLocal(s, c, Actor(s, a), now, t);
    case CreateThread(_, _) => NewThreadIsNew(s, a);
    case _ =>
  }

  lemma SignalSection(s: Cc, c: nat, t: Tid, now: Clock)
    requires t in s.local && CanAdvance(s, c, t, now) && InSignal(s.local[t].loc)
    ensures var loc := s.local[t].loc; var s' := AdvanceTo(s, c, t, now);
      && t in s'.local
      && (loc.SigWant? ==> s'.local == s.local[t := s'.local[t]] && s'.local[t].loc == SigLoop(loc.cv, loc.all, loc.ret))
      && if SameSignal(loc, s'.local[t].loc) then !s'.local[t].loc.SigWant?
         else s'.local[t].loc == Back(loc.ret) && ((loc.SigLoop? && Ring(s, loc.cv) == []) || (loc.SigWoke? && !loc.all))
  {
    hide Apply, Enabled;
    match s.local[t].loc {
      case SigWant(_, _, _) =>
      case SigLoop(_, _, _) =>
      case _ =>
    }
  }

  /** A signal goes on as it began, and is over only when the ring is empty or, unless it is a
      broadcast, when it has been spent. */
  lemma SignalStep(s: Cc, a: CStep, t: Tid)
    requires CInv(s) && CEnabled(s, a) && t in s.local && InSignal(s.local[t].loc)
    ensures var loc, s' := s.local[t].loc, CApply(s, a);
      && t in s'.local
      && if Own(s, a, t)
         then SameSignal(loc, s'.local[t].loc) || s'.local[t].loc == Back(loc.ret)
         else s'.local[t].loc == loc
  {
    hide CInv, AdvanceTo, CanAdvance;
    if Own(s, a, t) {
      OwnIsAdvance(s, a, t);
      SignalSection(s, a.core, t, a.now);
    } else {
      OthersStay(s, a, t);
    }
  }

  // ----- the waiters meanwhile -----

  /** Waiter `x` has been taken off the ring of `cv`, and has not run since. */
  predicate Taken(s: Cc, cv: CvId, x: Tid) {
    x in s.local && s.local[x].loc.WaitAsleep? && s.local[x].loc.cv == cv && s.local[x].removed
  }

  /** Thread `t` holds the lock of the ring and has dealt with the first `d` waiters of `r`, which is
      what the ring was when it took the lock. */
  ghost predicate Progress(s: Cc, t: Tid, r: seq<Tid>, d: nat) {
    && t in s.local && (s.local[t].loc.SigLoop? || s.local[t].loc.SigWoke?)
    && var loc := s.local[t].loc;
    && d <= |r| && Ring(s, loc.cv) == r[d..]
    && (forall x :: 0 <= x < d ==> Taken(s, loc.cv, r[x]) && (!loc.all ==> !s.local[r[x]].signalled))
    && (loc.SigWoke? ==> d > 0 && loc.woken == r[d - 1])
  }

  /** What a signal or a broadcast leaves: the first `d` waiters are off the ring. A broadcast has
      taken all of them off; a signal has been spent on the last of those, and on no other, or
      there is nobody left. */
  ghost predicate Ended(s: Cc, cv: CvId, all: bool, r: seq<Tid>, d: nat) {
    && d <= |r| && Ring(s, cv) == r[d..]
    && (forall x :: 0 <= x < d ==> Taken(s, cv, r[x]))
    && (all ==> d == |r|)
    && (!all ==>
          && (forall x :: 0 <= x < d - 1 ==> !s.local[r[x]].signalled)
          && (d < |r| ==> d > 0 && s.local[r[d - 1]].signalled))
  }

  /** While `t` holds the lock of its ring, a waiter on it, or taken off it, can neither move nor be
      marked by others, and the ring stays as it is. */
  lemma OthersWait(s: Cc, a: CStep, t: Tid, x: Tid)
    requires CInv(s) && CEnabled(s, a) && !Own(s, a, t) && t in s.local && Signalling(s, t)
    requires x in s.local && s.local[x].loc.WaitAsleep? && s.local[x].loc.cv == s.local[t].loc.cv
    ensures x in CApply(s, a).local && CApply(s, a).local[x] == s.local[x]
  {
    hide CInv, AdvanceTo, CanAdvance, Apply, Enabled;
    SignallerLocks(s, t);
    match a
    case Advance(c, now) => OthersTouch(s, c, Actor(s, a), now, t, x);
    case CreateThread(_, _) => NewThreadIsNew(s, a);
    case _ =>
  }

  lemma OthersTouch(s: Cc, c: nat, u: Tid, now: Clock, t: Tid, x: Tid)
    requires CInv(s) && u in s.local && CanAdvance(s, c, u, now)
    requires t in s.local && u != t && Signalling(s, t) && LocksItsRing(s, t)
    requires x in s.local && s.local[x].loc.WaitAsleep? && s.local[x].loc.cv == s.local[t].loc.cv
    ensures x in AdvanceTo(s, c, u, now).local && AdvanceTo(s, c, u, now).local[x] == s.local[x]
  {
    hide CInv, Apply, Enabled, CanSleep, LocksItsRing;
    NotLocked(s, c, u, now, t, x);
    match s.local[u].loc {
      case SigLoop(_, _, _) =>
      case SigWoke(_, _, _, _) =>
      case GiveDone(_) =>
      case _ =>
    }
  }

  lemma NotLocked(s: Cc, c: nat, u: Tid, now: Clock, t: Tid, x: Tid)
    requires CInv(s) && u in s.local && CanAdvance(s, c, u, now)
    requires t in s.local && u != t && Signalling(s, t) && LocksItsRing(s, t)
    requires x in s.local && s.local[x].loc.WaitAsleep? && s.local[x].loc.cv == s.local[t].loc.cv
    ensures u != x
    ensures s.local[u].loc.SigLoop? && Ring(s, s.local[u].loc.cv) != [] ==> Ring(s, s.local[u].loc.cv)[0] != x
    ensures s.local[u].loc.SigWoke? ==> s.local[u].loc.woken != x
  {
    hide Inv, Apply, Enabled, Ring;
    if s.local[u].loc.SigLoop? && Ring(s, s.local[u].loc.cv) != [] {
      SignalHead(s, u);
    } else if s.local[u].loc.SigWoke? {
      WokenIsOurs(s, u);
    }
    if Signalling(s, u) {
      SignallerLocks(s, u);
    }
  }

  lemma OthersKeepRing(s: Cc, a: CStep, t: Tid)
    requires CInv(s) && CEnabled(s, a) && !Own(s, a, t) && t in s.local && Signalling(s, t)
    ensures Ring(CApply(s, a), s.local[t].loc.cv) == Ring(s, s.local[t].loc.cv)
  {
    hide CInv, AdvanceTo, Apply, Enabled, Ring;
    SignallerLocks(s, t);
    RingAfter(s, a, s.local[t].loc.cv);
    if TouchesRing(s, a, s.local[t].loc.cv) && Signalling(s, Actor(s, a)) {
      SignallerLocks(s, Actor(s, a));
    }
  }

  lemma OthersProgress(s: Cc, a: CStep, t: Tid, r: seq<Tid>, d: nat)
    requires CInv(s) && CEnabled(s, a) && !Own(s, a, t) && Progress(s, t, r, d)
    ensures Progress(CApply(s, a), t, r, d)
  {
    hide CInv, CanAdvance, CApply, Ring;
    var s', cv := CApply(s, a), s.local[t].loc.cv;
    OthersStay(s, a, t);
    OthersKeepRing(s, a, t);
    forall x | 0 <= x < d ensures r[x] in s'.local && s'.local[r[x]] == s.local[r[x]] {
      assert Taken(s, cv, r[x]);
      OthersWait(s, a, t, r[x]);
    }
  }

  /** A section of the signaller deals with the next waiter, or returns. */
  lemma OwnProgress(s: Cc, c: nat, t: Tid, now: Clock, r: seq<Tid>, d: nat) returns (e: nat)
    requires CInv(s) && NoDup(r) && Progress(s, t, r, d) && CanAdvance(s, c, t, now)
    ensures var s' := AdvanceTo(s, c, t, now);
      if InSignal(s'.local[t].loc) then Progress(s', t, r, e) else Ended(s', s.local[t].loc.cv, s.local[t].loc.all, r, e)
  {
    var loc := s.local[t].loc;
    e := d;
    if loc.SigLoop? && Ring(s, loc.cv) != [] {
      e := TurnProgress(s, t, r, d);
    } else if loc.SigLoop? {
      DoneEnds(s, t, r, d);
    } else {
      MarkProgress(s, t, r, d);
    }
  }

  lemma TurnProgress(s: Cc, t: Tid, r: seq<Tid>, d: nat) returns (e: nat)
    requires CInv(s) && Progress(s, t, r, d) && s.local[t].loc.SigLoop? && Ring(s, s.local[t].loc.cv) != []
    requires var w := Ring(s, s.local[t].loc.cv)[0]; w in s.local && w in s.sched.tcb && w != t
    ensures InSignal(SignalTurn(s, t).local[t].loc) && Progress(SignalTurn(s, t), t, r, e)
  {
    hide CInv, Apply;
    var s', cv, w := SignalTurn(s, t), s.local[t].loc.cv, Ring(s, s.local[t].loc.cv)[0];
    SignalHead(s, t);
    e := d + 1;
    assert w == r[d] && Ring(s', cv) == r[d..][1..] == r[e..];
    forall x | 0 <= x < e ensures Taken(s', cv, r[x]) && (!s.local[t].loc.all ==> !s'.local[r[x]].signalled) {
      if x < d {
        assert Taken(s, cv, r[x]) && r[x] != w && r[x] != t;
      }
    }
  }

  lemma DoneEnds(s: Cc, t: Tid, r: seq<Tid>, d: nat)
    requires Progress(s, t, r, d) && s.local[t].loc.SigLoop? && Ring(s, s.local[t].loc.cv) == []
    ensures var s', loc := SignalDone(s, t), s.local[t].loc;
      s'.local[t].loc == Back(loc.ret) && Ended(s', loc.cv, loc.all, r, d)
  {
    var s', cv := SignalDone(s, t), s.local[t].loc.cv;
    forall x | 0 <= x < d ensures r[x] != t && Taken(s', cv, r[x]) {
      assert Taken(s, cv, r[x]);
    }
  }

  lemma MarkProgress(s: Cc, t: Tid, r: seq<Tid>, d: nat)
    requires NoDup(r) && Progress(s, t, r, d) && s.local[t].loc.SigWoke?
    requires s.local[t].loc.woken in s.local && s.local[t].loc.woken != t
    ensures var s', loc := MarkSignalled(s, t), s.local[t].loc;
      if loc.all then s'.local[t].loc.SigLoop? && Progress(s', t, r, d)
      else s'.local[t].loc == Back(loc.ret) && Ended(s', loc.cv, loc.all, r, d)
  {
    var s', cv := MarkSignalled(s, t), s.local[t].loc.cv;
    forall x | 0 <= x < d
      ensures r[x] != t && Taken(s', cv, r[x]) && (x != d - 1 ==> s'.local[r[x]] == s.local[r[x]])
    {
      assert Taken(s, cv, r[x]);
    }
  }

  // ----- from the call to the return -----

  predicate Called(loc: Loc) {
    loc.Outside? || loc.Inside?
  }

  /** Step `i` calls Cond_Signal or Cond_Broadcast, and step `n` is the first by which the caller is
      back where it was called from. */
  ghost predicate CallReturns(tr: seq<Cc>, steps: seq<CStep>, init: Tid, i: nat, n: nat, t: Tid) {
    && CRun(tr, steps, init) && i < n < |steps|
    && steps[i].Signal? && CEnabled(tr[i], steps[i]) && Actor(tr[i], steps[i]) == t
    && (forall j :: i < j <= n && t in tr[j].local ==> !Called(tr[j].local[t].loc))
    && t in tr[n + 1].local && Called(tr[n + 1].local[t].loc)
  }

  /** The caller signals all the time, and for nothing else. */
  predicate Underway(s: Cc, t: Tid, cv: CvId, all: bool, ret: Return) {
    t in s.local && InSignal(s.local[t].loc) && s.local[t].loc.cv == cv && s.local[t].loc.all == all && s.local[t].loc.ret == ret
  }

  lemma {:induction false} CallIsUnderway(tr: seq<Cc>, steps: seq<CStep>, init: Tid, i: nat, n: nat, t: Tid, j: nat)
      returns (ret: Return)
    requires CallReturns(tr, steps, init, i, n, t) && i < j <= n
    ensures Underway(tr[j], t, steps[i].cv, steps[i].all, ret)
    ensures ret == if tr[i].local[t].loc == Inside then ToInside else ToOutside
  {
    hide CInv, MarkedOk, AdvanceTo, CanAdvance;
    if j == i + 1 {
      ret := tr[j].local[t].loc.ret;
    } else {
      ret := CallIsUnderway(tr, steps, init, i, n, t, j - 1);
      CRunInv(tr, steps, init, j - 1);
      SignalStep(tr[j - 1], steps[j - 1], t);
    }
  }

  /** Step `k`, of the caller, takes the lock of the ring, which was free. */
  ghost predicate TakesLock(tr: seq<Cc>, steps: seq<CStep>, k: nat, t: Tid, cv: CvId) {
    && k < |steps| && |tr| == |steps| + 1 && CEnabled(tr[k], steps[k]) && Own(tr[k], steps[k], t)
    && t in tr[k].local && tr[k].local[t].loc.SigWant?
    && cv !in tr[k].lock && cv in tr[k + 1].lock && tr[k + 1].lock[cv] == t
    && Ring(tr[k + 1], cv) == Ring(tr[k], cv)
    && t in tr[k + 1].local && tr[k + 1].local[t].loc.SigLoop? && tr[k + 1].local[t].loc.cv == cv
  }

  lemma LockStep(s: Cc, a: CStep, t: Tid)
    requires CInv(s) && CEnabled(s, a) && Own(s, a, t) && t in s.local && s.local[t].loc.SigWant?
    ensures var cv, s' := s.local[t].loc.cv, CApply(s, a);
      && cv !in s.lock && cv in s'.lock && s'.lock[cv] == t && Ring(s', cv) == Ring(s, cv)
      && t in s'.local && s'.local[t].loc.SigLoop? && s'.local[t].loc.cv == cv
  {
    hide CInv;
    OwnIsAdvance(s, a, t);
  }

  /** From any place before it, the step that takes the lock is found. */
  lemma {:induction false} CallTakesLock(tr: seq<Cc>, steps: seq<CStep>, init: Tid, i: nat, n: nat, t: Tid, j: nat)
      returns (k: nat)
    requires CallReturns(tr, steps, init, i, n, t) && i < j <= n && t in tr[j].local && tr[j].local[t].loc.SigWant?
    ensures j <= k < n && TakesLock(tr, steps, k, t, steps[i].cv)
    decreases n - j
  {
    hide CInv, MarkedOk, CApply, CEnabled;
    var _ := CallIsUnderway(tr, steps, init, i, n, t, j);
    CRunInv(tr, steps, init, j);
    if Own(tr[j], steps[j], t) {
      LockStep(tr[j], steps[j], t);
      k := j;
    } else {
      SignalStep(tr[j], steps[j], t);
      k := CallTakesLock(tr, steps, init, i, n, t, j + 1);
    }
  }

  lemma {:induction false} CallProgress(tr: seq<Cc>, steps: seq<CStep>, init: Tid, i: nat, n: nat, t: Tid, k: nat, j: nat)
      returns (d: nat)
    requires CallReturns(tr, steps, init, i, n, t) && i < k < j <= n && TakesLock(tr, steps, k, t, steps[i].cv)
    ensures Progress(tr[j], t, Ring(tr[k], steps[i].cv), d)
  {
    hide CInv, MarkedOk, CApply, CEnabled, Progress, TakesLock, Ring;
    var r := Ring(tr[k], steps[i].cv);
    if j == k + 1 {
      d := 0;
      ProgressStarts(tr, steps, k, t, steps[i].cv);
    } else {
      d := CallProgress(tr, steps, init, i, n, t, k, j - 1);
      var _ := CallIsUnderway(tr, steps, init, i, n, t, j);
      CRunInv(tr, steps, init, j - 1);
      CRunInv(tr, steps, init, k);
      RingDistinct(tr[k], steps[i].cv);
      if Own(tr[j - 1], steps[j - 1], t) {
        d := OwnStepProgress(tr[j - 1], steps[j - 1], t, r, d);
      } else {
        OthersProgress(tr[j - 1], steps[j - 1], t, r, d);
      }
    }
  }

  lemma ProgressStarts(tr: seq<Cc>, steps: seq<CStep>, k: nat, t: Tid, cv: CvId)
    requires TakesLock(tr, steps, k, t, cv)
    ensures Progress(tr[k + 1], t, Ring(tr[k], cv), 0)
  {
    hide CEnabled, Ring;
    assert Ring(tr[k], cv)[0..] == Ring(tr[k], cv);
  }

  lemma OwnStepProgress(s: Cc, a: CStep, t: Tid, r: seq<Tid>, d: nat) returns (e: nat)
    requires CInv(s) && CEnabled(s, a) && Own(s, a, t) && NoDup(r) && Progress(s, t, r, d)
    ensures var s' := CApply(s, a);
      && t in s'.local
      && if InSignal(s'.local[t].loc) then Progress(s', t, r, e) else Ended(s', s.local[t].loc.cv, s.local[t].loc.all, r, e)
  {
    hide CInv, AdvanceTo, CanAdvance, Ring;
    OwnIsAdvance(s, a, t);
    SignalStep(s, a, t);
    e := OwnProgress(s, a.core, t, a.now, r, d);
  }

  // ----- every waiter is accounted for -----

  /** Thread `u` is on the list of those marked, or about to be. */
  predicate Marked(s: Cc, t: Tid, u: Tid) {
    t in s.local && u in s.local &&
    (s.local[u].signalled || (s.local[t].loc.SigWoke? && s.local[t].loc.woken == u))
  }

  /** Whoever is on the ring while `t` holds its lock is past the release of its mutex. */
  lemma RingWaits(s: Cc, t: Tid, u: Tid)
    requires CInv(s) && t in s.local && Signalling(s, t) && u in Ring(s, s.local[t].loc.cv)
    ensures u in s.local && u != t && Enqueued(s.local[u], s.local[t].loc.cv) && s.local[u].loc.WaitAsleep? && u in s.sched.tcb
  {
    hide Inv;
    SignallerLocks(s, t);
  }

  lemma TakenExists(s: Cc, cv: CvId, u: Tid)
    requires CInv(s) && Taken(s, cv, u)
    ensures u in s.sched.tcb
  {
    hide Inv;
  }

  /** A step takes a waiter off the ring only to mark it, or because it was awake; and it is marked in
      the end. */
  lemma AccountStep(s: Cc, a: CStep, t: Tid, u: Tid)
    requires CInv(s) && CEnabled(s, a) && t in s.local && Signalling(s, t)
    requires Taken(s, s.local[t].loc.cv, u) || u in Ring(s, s.local[t].loc.cv)
    requires Taken(s, s.local[t].loc.cv, u) ==> Marked(s, t, u)
    ensures t in CApply(s, a).local
    ensures Taken(CApply(s, a), s.local[t].loc.cv, u) ==>
      Marked(CApply(s, a), t, u) || (!Taken(s, s.local[t].loc.cv, u) && AwakeOnRing(s, u))
  {
    hide CInv, CanAdvance, AdvanceTo, Ring;
    if u in Ring(s, s.local[t].loc.cv) {
      RingWaits(s, t, u);
    } else {
      TakenExists(s, s.local[t].loc.cv, u);
    }
    if Own(s, a, t) {
      OwnIsAdvance(s, a, t);
      OwnAccounts(s, a.core, t, a.now, u);
    } else {
      OthersStay(s, a, t);
      OthersWait(s, a, t, u);
    }
  }

  lemma OwnAccounts(s: Cc, c: nat, t: Tid, now: Clock, u: Tid)
    requires CInv(s) && t in s.local && Signalling(s, t) && CanAdvance(s, c, t, now) && u != t
    requires u in s.local && s.local[u].loc.WaitAsleep? && u in s.sched.tcb
    requires s.local[u].removed ==> Marked(s, t, u)
    ensures var s' := AdvanceTo(s, c, t, now);
      && t in s'.local && u in s'.local
      && (s'.local[u].removed ==> Marked(s', t, u) || (!s.local[u].removed && AwakeOnRing(s, u)))
  {
    hide Inv, LocksOk, OwnersOk, TokenOk, SemWaitOk, NotStranded, Apply, Enabled;
    if s.local[t].loc.SigLoop? && Ring(s, s.local[t].loc.cv) != [] {
      SignalHead(s, t);
    }
  }

  lemma CallStarts(tr: seq<Cc>, steps: seq<CStep>, init: Tid, i: nat, n: nat, t: Tid)
    requires CallReturns(tr, steps, init, i, n, t)
    ensures t in tr[i + 1].local && tr[i + 1].local[t].loc.SigWant?
    ensures t in tr[i].local
  {
  }

  lemma ReturnsUnlocked(s: Cc, a: CStep, t: Tid)
    requires CInv(s) && CEnabled(s, a) && Own(s, a, t) && t in s.local && InSignal(s.local[t].loc)
    requires t in CApply(s, a).local && !InSignal(CApply(s, a).local[t].loc)
    ensures s.local[t].loc.cv !in CApply(s, a).lock
  {
    hide CInv, Apply, Enabled;
    OwnIsAdvance(s, a, t);
  }

  /** Once the lock of the ring is free, whoever has been taken off it has been marked. */
  lemma UnlockedIsSignalled(s: Cc, cv: CvId, x: Tid)
    requires CInv(s) && MarkedOk(s) && Taken(s, cv, x) && cv !in s.lock
    ensures s.local[x].loc.timeout == NO_TIMEOUT ==> s.local[x].signalled
  {
    hide Inv;
    if s.local[x].loc.timeout == NO_TIMEOUT && BeingMarked(s, x) {
      BeingMarkedIsLocked(s, x);
    }
  }

  ghost predicate NobodySleeps(s: Cc, cv: CvId) {
    forall u :: u in s.local && u in s.sched.tcb && s.local[u].loc.WaitAsleep? && s.local[u].loc.cv == cv ==>
      s.sched.tcb[u].state != STOPPED
  }

  lemma EmptyRingNobodySleeps(tr: seq<Cc>, steps: seq<CStep>, init: Tid, n: nat, cv: CvId)
    requires CRun(tr, steps, init) && n < |tr| && Ring(tr[n], cv) == []
    ensures NobodySleeps(tr[n], cv)
  {
    hide CRun;
    forall u | u in tr[n].local && u in tr[n].sched.tcb && tr[n].local[u].loc.WaitAsleep? && tr[n].local[u].loc.cv == cv
      ensures tr[n].sched.tcb[u].state != STOPPED
    {
      NoLostWakeup(tr, steps, init, n, cv, u);
    }
  }

  /** From step `k` on, waiter `u` was found awake on the ring, by its own timeout. */
  ghost predicate HadTimedOut(tr: seq<Cc>, steps: seq<CStep>, k: nat, n: nat, u: Tid) {
    exists i, j :: k < j < n && TimedOut(tr, steps, i, j, u)
  }

  lemma TimedOutLater(tr: seq<Cc>, steps: seq<CStep>, k: nat, n: nat, u: Tid)
    requires HadTimedOut(tr, steps, k, n, u)
    ensures HadTimedOut(tr, steps, k, n + 1, u)
  {
    var i, j :| k < j < n && TimedOut(tr, steps, i, j, u);
    assert k < j < n + 1 && TimedOut(tr, steps, i, j, u);
  }

  lemma ProgressCovers(s: Cc, t: Tid, r: seq<Tid>, d: nat, u: Tid)
    requires Progress(s, t, r, d) && u in r
    ensures Taken(s, s.local[t].loc.cv, u) || u in Ring(s, s.local[t].loc.cv)
  {
    var x :| 0 <= x < |r| && r[x] == u;
    if x >= d {
      assert r[d..][x - d] == u;
    }
  }

  /** One step of the account of waiter `u`. */
  lemma CallAccount(tr: seq<Cc>, steps: seq<CStep>, init: Tid, i: nat, n: nat, t: Tid, k: nat, j: nat, u: Tid)
    requires CallReturns(tr, steps, init, i, n, t) && i < k < j <= n && TakesLock(tr, steps, k, t, steps[i].cv)
    requires t in tr[j].local && u in Ring(tr[k], steps[i].cv)
    requires Taken(tr[j], steps[i].cv, u) ==> Marked(tr[j], t, u) || HadTimedOut(tr, steps, k, j, u)
    ensures Taken(tr[j + 1], steps[i].cv, u) ==> Marked(tr[j + 1], t, u) || HadTimedOut(tr, steps, k, j + 1, u)
  {
    hide CInv, MarkedOk, CApply, CEnabled, Progress, TakesLock, Ring, Taken, TimedOut, Marked, HadTimedOut;
    var d := CallProgress(tr, steps, init, i, n, t, k, j);
    var _ := CallIsUnderway(tr, steps, init, i, n, t, j);
    ProgressSignals(tr[j], t, Ring(tr[k], steps[i].cv), d);
    CRunInv(tr, steps, init, j);
    ProgressCovers(tr[j], t, Ring(tr[k], steps[i].cv), d, u);
    if HadTimedOut(tr, steps, k, j, u) {
      TimedOutLater(tr, steps, k, j, u);
    } else {
      AccountStep(tr[j], steps[j], t, u);
      if AwakeOnRing(tr[j], u) {
        var m := AwakeByTimeout(tr, steps, init, j, u);
        WasTimedOut(tr, steps, m, k, j, u);
      }
    }
  }

  lemma ProgressSignals(s: Cc, t: Tid, r: seq<Tid>, d: nat)
    requires Progress(s, t, r, d)
    ensures t in s.local && Signalling(s, t)
  {
  }

  lemma WasTimedOut(tr: seq<Cc>, steps: seq<CStep>, m: nat, k: nat, j: nat, u: Tid)
    requires k < j && TimedOut(tr, steps, m, j, u)
    ensures HadTimedOut(tr, steps, k, j + 1, u)
  {
  }

  lemma {:induction false} CallAccounts(tr: seq<Cc>, steps: seq<CStep>, init: Tid, i: nat, n: nat, t: Tid, k: nat, j: nat, u: Tid)
    requires CallReturns(tr, steps, init, i, n, t) && i < k < j <= n + 1 && TakesLock(tr, steps, k, t, steps[i].cv)
    requires u in Ring(tr[k], steps[i].cv)
    ensures Taken(tr[j], steps[i].cv, u) ==> Marked(tr[j], t, u) || HadTimedOut(tr, steps, k, j, u)
  {
    hide CInv, MarkedOk, CApply, CEnabled, Progress, TakesLock, Ring, Taken, Marked, HadTimedOut;
    if j == k + 1 {
      CRunInv(tr, steps, init, j);
      FirstUntaken(tr, steps, k, t, steps[i].cv, u);
    } else {
      CallAccounts(tr, steps, init, i, n, t, k, j - 1, u);
      var _ := CallIsUnderway(tr, steps, init, i, n, t, j - 1);
      CallAccount(tr, steps, init, i, n, t, k, j - 1, u);
    }
  }

  lemma FirstUntaken(tr: seq<Cc>, steps: seq<CStep>, k: nat, t: Tid, cv: CvId, u: Tid)
    requires TakesLock(tr, steps, k, t, cv) && u in Ring(tr[k], cv) && CInv(tr[k + 1])
    ensures !Taken(tr[k + 1], cv, u)
  {
    hide CEnabled, Ring;
    RingWaits(tr[k + 1], t, u);
  }

  /** Cond_Signal and Cond_Broadcast, in every run. At some step `k` the caller takes the lock of the
      ring, which is `r` then. When it returns, the first `d` of `r` have been taken off the ring and are
      awake; the others are the ring. A broadcast has taken off all of them, and nobody at all
      sleeps on the condition. A signal has signalled at most one of them, the last one taken off;
      and it has signalled that one, unless nobody is left. Whoever is among the first `d` and has not
      been signalled had been woken by its own timeout, and has one. */
  lemma SignalTheorem(tr: seq<Cc>, steps: seq<CStep>, init: Tid, i: nat, n: nat, t: Tid) returns (k: nat, d: nat)
    requires CallReturns(tr, steps, init, i, n, t)
    ensures i < k < n && TakesLock(tr, steps, k, t, steps[i].cv)
    ensures Ended(tr[n + 1], steps[i].cv, steps[i].all, Ring(tr[k], steps[i].cv), d)
    ensures forall u :: u in Ring(tr[k], steps[i].cv)[..d] ==>
      && u in tr[n + 1].sched.tcb && tr[n + 1].sched.tcb[u].state != STOPPED
      && (tr[n + 1].local[u].signalled || HadTimedOut(tr, steps, k, n + 1, u))
      && (tr[n + 1].local[u].loc.timeout == NO_TIMEOUT ==> tr[n + 1].local[u].signalled)
    ensures steps[i].all ==> Ring(tr[n + 1], steps[i].cv) == []
    ensures steps[i].all ==> NobodySleeps(tr[n + 1], steps[i].cv)
    ensures tr[n + 1].local[t].loc == if tr[i].local[t].loc == Inside then Inside else Outside
  {
    hide CInv, MarkedOk, CApply, CEnabled, Ring, TakesLock;
    var cv, s' := steps[i].cv, tr[n + 1];
    CallStarts(tr, steps, init, i, n, t);
    k := CallTakesLock(tr, steps, init, i, n, t, i + 1);
    d := CallProgress(tr, steps, init, i, n, t, k, n);
    var r := Ring(tr[k], cv);
    var ret := CallIsUnderway(tr, steps, init, i, n, t, n);
    CRunInv(tr, steps, init, k);
    CRunInv(tr, steps, init, n);
    CRunInv(tr, steps, init, n + 1);
    RingDistinct(tr[k], cv);
    SignalStep(tr[n], steps[n], t);
    d := OwnStepProgress(tr[n], steps[n], t, r, d);
    ReturnsUnlocked(tr[n], steps[n], t);
    if steps[i].all {
      EmptyRingNobodySleeps(tr, steps, init, n + 1, cv);
    }
    forall x | 0 <= x < d
      ensures r[x] in s'.sched.tcb && s'.sched.tcb[r[x]].state != STOPPED
      ensures r[x] in s'.local && (s'.local[r[x]].signalled || HadTimedOut(tr, steps, k, n + 1, r[x]))
      ensures s'.local[r[x]].loc.WaitAsleep? && (s'.local[r[x]].loc.timeout == NO_TIMEOUT ==> s'.local[r[x]].signalled)
    {
      assert Taken(s', cv, r[x]);
      FlagsTheorem(tr, steps, init, n + 1, r[x]);
      UnlockedIsSignalled(s', cv, r[x]);
      CallAccounts(tr, steps, init, i, n, t, k, n + 1, r[x]);
    }
  }
}
