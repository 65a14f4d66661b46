/** What holds in every run of the streams, and what a reservation is. */
module StreamTheorems {
  import opened ListSpec
  import opened StreamModel
  import opened StreamSteps

  // ----- runs -----

  ghost predicate SBoot(s: Streams) {
    && (forall f :: 0 <= f < |s.refcount| ==> s.refcount[f] == 0)
    && |s.free| == |s.refcount| && (forall i :: 0 <= i < |s.free| ==> s.free[i] == i)
    && (forall p :: 0 <= p < |s.fidt| ==> NoFiles(s.fidt[p]))
    && s.alive == {} && s.pins == multiset{}
    && |s.opens| == |s.refcount| == |s.closes|
    && (forall f :: 0 <= f < |s.opens| ==> s.opens[f] == 0 == s.closes[f])
  }

  ghost predicate SRun(tr: seq<Streams>, steps: seq<Step>) {
    && |tr| == |steps| + 1
    && SBoot(tr[0])
    && forall i :: 0 <= i < |steps| ==> Enabled(tr[i], steps[i]) && tr[i + 1] == Apply(tr[i], steps[i])
  }

  lemma {:induction false} NothingCounted(fidt: seq<seq<Slot>>, f: Fcb)
    ensures Count(fidt, f) == 0 <==> forall p, i :: 0 <= p < |fidt| && 0 <= i < |fidt[p]| ==> fidt[p][i] != Names(f)
  {
    if fidt != [] {
      NothingCounted(fidt[1..], f);
      var t := fidt[0];
      assert Names(f) in t <==> multiset(t)[Names(f)] > 0;
      assert (exists i :: 0 <= i < |t| && t[i] == Names(f)) <==> Names(f) in t;
      forall p, i | 1 <= p < |fidt| && 0 <= i < |fidt[p]| ensures fidt[p][i] == fidt[1..][p - 1][i] {
      }
      if Count(fidt, f) == 0 {
        forall p, i | 0 <= p < |fidt| && 0 <= i < |fidt[p]| ensures fidt[p][i] != Names(f) {
          if p == 0 {
            assert t[i] != Names(f);
          } else {
            assert fidt[1..][p - 1][i] != Names(f);
          }
        }
      }
    }
  }

  lemma SBootInv(s: Streams)
    requires SBoot(s)
    ensures SInv(s)
  {
    forall f | 0 <= f < |s.refcount| ensures BalancedAt(s, f) && LiveAt(s, f) {
      assert s.free[f] == f;
      NothingCounted(s.fidt, f);
    }
  }

  lemma {:induction false} SRunInv(tr: seq<Streams>, steps: seq<Step>, n: nat)
    requires SRun(tr, steps) && n < |tr|
    ensures SInv(tr[n])
  {
    hide SInv, Enabled, Apply, SBoot;
    if n == 0 {
      SBootInv(tr[0]);
    } else {
      SRunInv(tr, steps, n - 1);
      StepKeeps(tr[n - 1], steps[n - 1]);
    }
  }

  // ----- conservation and lifetimes -----

  /** In every run: an FCB on the free list is named by no file table and pinned by nobody; the
      reference count of any other one is the number of table slots and pins that name it, and
      not zero. */
  lemma Conservation(tr: seq<Streams>, steps: seq<Step>, n: nat, f: Fcb)
    requires SRun(tr, steps) && n < |tr| && f < |tr[n].refcount|
    ensures var s := tr[n];
      if f in s.free
      then f !in s.pins && forall p, i :: 0 <= p < |s.fidt| && 0 <= i < |s.fidt[p]| ==> s.fidt[p][i] != Names(f)
      else s.refcount[f] == Count(s.fidt, f) + s.pins[f] && s.refcount[f] > 0
  {
    SRunInv(tr, steps, n);
    assert BalancedAt(tr[n], f) && LiveAt(tr[n], f);
    NothingCounted(tr[n].fidt, f);
  }

  ghost predicate NoMoreCloses(s: Streams, s': Streams) {
    |s'.closes| == |s.closes| && s'.opens == s.opens && forall f :: 0 <= f < |s.closes| ==> s.closes[f] <= s'.closes[f]
  }

  lemma {:induction false} InheritClosesNone(s: Streams, p: nat, c: nat, i: nat)
    requires Shape(s) && p < |s.fidt| && c < |s.fidt| && i <= MAX_FILEID
    ensures Inherit(s, p, c, i).closes == s.closes && Inherit(s, p, c, i).opens == s.opens
    ensures |Inherit(s, p, c, i).refcount| == |s.refcount|
    decreases MAX_FILEID - i
  {
    if i < MAX_FILEID {
      var x := s.fidt[p][i];
      InheritClosesNone(if x == Empty then SetSlot(s, c, i, Empty) else Bind(s, c, i, x.fcb), p, c, i + 1);
    }
  }

  lemma {:induction false} CleanUpCloses(s: Streams, p: nat, i: nat)
    requires Shape(s) && p < |s.fidt| && i <= MAX_FILEID
    ensures NoMoreCloses(s, CleanUp(s, p, i)) && |CleanUp(s, p, i).refcount| == |s.refcount|
    decreases MAX_FILEID - i
  {
    if i < MAX_FILEID {
      CleanUpCloses(Unbind(s, p, i), p, i + 1);
    }
  }

  lemma OpenClosesNone(s: Streams, p: nat, works: bool)
    requires Shape(s) && p < |s.fidt|
    ensures Open(s, p, works).closes == s.closes && |Open(s, p, works).opens| == |s.opens|
    ensures forall f :: 0 <= f < |s.opens| ==> s.opens[f] <= Open(s, p, works).opens[f]
    ensures |Open(s, p, works).refcount| == |s.refcount|
  {
    if CanReserve(s, p, 1) {
      OpenOk(s, p);
      var fid, f, s1 := EmptySlots(s.fidt[p], 0)[0], s.free[0], Reserve(s, p, 1);
      assert Unreserve(s1, p, [fid], [f]) == Unreserve(Release(SetSlot(s1, p, fid, Empty), f), p, [], []);
    } else {
      AcquireManyEffect(s, |s.free|);
    }
  }

  lemma StepHistory(s: Streams, a: Step)
    requires Enabled(s, a)
    ensures if a.DoOpen?
      then Apply(s, a).closes == s.closes && forall f :: 0 <= f < |s.opens| ==> f < |Apply(s, a).opens| && s.opens[f] <= Apply(s, a).opens[f]
      else NoMoreCloses(s, Apply(s, a))
    ensures |Apply(s, a).refcount| == |s.refcount|
  {
    match a
    case DoOpen(p, works) => OpenClosesNone(s, p, works);
    case DoExec(p, c) => InheritClosesNone(s, p, c, 0);
    case DoExit(p) => CleanUpCloses(s, p, 0);
    case _ =>
  }

  /** A step closes exactly those streams whose FCB it puts on the free list, each once; so every
      FCB is closed once per lifetime, when its last reference goes. In particular a stream that
      stays pinned through a step is not closed by it. */
  lemma ClosedOncePerLifetime(tr: seq<Streams>, steps: seq<Step>, n: nat, f: Fcb)
    requires SRun(tr, steps) && n < |steps| && f < |tr[n].refcount|
    ensures var s, s' := tr[n], tr[n + 1];
      && |s'.closes| == |s.closes| == |s.refcount| == |s'.refcount|
      && s'.closes[f] == s.closes[f] + (if f !in s.free && f in s'.free then 1 else 0)
      && (f in s'.free && f !in s.free ==> Refs(s', f) == 0)
      && (f in s.pins && f in s'.pins ==> s'.closes[f] == s.closes[f])
  {
    var s, s' := tr[n], tr[n + 1];
    SRunInv(tr, steps, n);
    SRunInv(tr, steps, n + 1);
    hide Enabled, Apply, SBoot;
    StepHistory(s, steps[n]);
    assert BalancedAt(s, f) && LiveAt(s, f) && BalancedAt(s', f) && LiveAt(s', f);
  }

  // ----- reservations -----

  lemma {:induction false} BindManyEffect(s: Streams, p: nat, fids: seq<nat>, fcbs: seq<Fcb>)
    requires Bindable(s, p, fids, fcbs) && NoDup(fids) && NoDup(fcbs)
    ensures var s' := BindMany(s, p, fids, fcbs);
      && |s'.fidt| == |s.fidt| && |s'.refcount| == |s.refcount|
      && s' == s.(fidt := s.fidt[p := s'.fidt[p]], refcount := s'.refcount)
      && BoundTo(s.fidt[p], s'.fidt[p], fids, fcbs)
    decreases |fids|
  {
    if fids != [] {
      var s1 := Bind(s, p, fids[0], fcbs[0]);
      var fids', fcbs' := fids[1..], fcbs[1..];
      BindManyEffect(s1, p, fids', fcbs');
      assert fids == [fids[0]] + fids' && fids[0] !in fids';
      assert forall k :: 1 <= k < |fids| ==> fids[k] == fids'[k - 1] && fcbs[k] == fcbs'[k - 1];
    }
  }

  lemma {:induction false} BindManyCounts(s: Streams, p: nat, fids: seq<nat>, fcbs: seq<Fcb>)
    requires Bindable(s, p, fids, fcbs) && NoDup(fcbs)
    ensures var s' := BindMany(s, p, fids, fcbs);
      && |s'.refcount| == |s.refcount|
      && forall f :: 0 <= f < |s.refcount| ==> s'.refcount[f] == s.refcount[f] + if f in fcbs then 1 else 0
    decreases |fids|
  {
    if fids != [] {
      BindManyCounts(Bind(s, p, fids[0], fcbs[0]), p, fids[1..], fcbs[1..]);
      assert fcbs == [fcbs[0]] + fcbs[1..] && fcbs[0] !in fcbs[1..];
    }
  }

  lemma {:induction false} UnreserveEffect(s: Streams, p: nat, fids: seq<nat>, fcbs: seq<Fcb>)
    requires Bindable(s, p, fids, fcbs)
    ensures var s' := Unreserve(s, p, fids, fcbs);
      && |s'.fidt| == |s.fidt| && |s'.fidt[p]| == |s.fidt[p]|
      && s' == s.(fidt := s.fidt[p := s'.fidt[p]], free := s.free + fcbs)
      && forall x :: 0 <= x < |s.fidt[p]| ==> s'.fidt[p][x] == if x in fids then Empty else s.fidt[p][x]
    decreases |fids|
  {
    if fids == [] {
      assert s.free + fcbs == s.free;
    } else {
      var s1 := Release(SetSlot(s, p, fids[0], Empty), fcbs[0]);
      UnreserveEffect(s1, p, fids[1..], fcbs[1..]);
      assert fids == [fids[0]] + fids[1..] && fcbs == [fcbs[0]] + fcbs[1..];
      assert s.free + fcbs == s1.free + fcbs[1..];
    }
  }

  predicate Ascending(l: seq<nat>) {
    forall j, k :: 0 <= j < k < |l| ==> l[j] < l[k]
  }

  /** `fids` are the `|fids|` smallest empty slots of `t`, in ascending order. */
  predicate SmallestEmpty(t: seq<Slot>, fids: seq<nat>) {
    && Ascending(fids)
    && (forall k :: 0 <= k < |fids| ==> fids[k] < |t| && t[fids[k]] == Empty)
    && forall x :: 0 <= x < |t| && t[x] == Empty && x !in fids ==> forall k :: 0 <= k < |fids| ==> fids[k] < x
  }

  lemma FirstAreSmallest(t: seq<Slot>, num: nat)
    requires num <= |EmptySlots(t, 0)|
    ensures SmallestEmpty(t, EmptySlots(t, 0)[..num])
  {
    hide EmptySlots;
    var all, fids := EmptySlots(t, 0), EmptySlots(t, 0)[..num];
    EmptySlotsOk(t, 0);
    forall x | 0 <= x < |t| && t[x] == Empty && x !in fids ensures forall k :: 0 <= k < |fids| ==> fids[k] < x {
      var j :| 0 <= j < |all| && all[j] == x;
    }
  }

  /** FCB_reserve is all or nothing. If the process has `num` empty slots and there are `num` free
      FCBs, the smallest empty slots, in ascending order, name different FCBs, which were free
      and now have a count of one. Otherwise no slot has changed, the free list holds what it
      held, and so do the counts of the others. */
  lemma ReserveTheorem(s: Streams, p: nat, num: nat)
    requires Balanced(s) && p < |s.fidt|
    ensures var s' := Reserve(s, p, num);
      && |s'.fidt| == |s.fidt| && |s'.refcount| == |s.refcount|
      && s' == s.(fidt := s'.fidt, free := s'.free, refcount := s'.refcount)
      && (forall f :: 0 <= f < |s.refcount| && f !in s.free ==> s'.refcount[f] == s.refcount[f])
      && if CanReserve(s, p, num) then
           var fids, fcbs := EmptySlots(s.fidt[p], 0)[..num], s.free[..num];
           && SmallestEmpty(s.fidt[p], fids) && NoDup(fcbs)
           && s'.fidt == s.fidt[p := s'.fidt[p]] && BoundTo(s.fidt[p], s'.fidt[p], fids, fcbs)
           && s.free == fcbs + s'.free && forall k :: 0 <= k < num ==> fcbs[k] < |s.refcount| && s'.refcount[fcbs[k]] == 1
         else s'.fidt == s.fidt && multiset(s'.free) == multiset(s.free)
  {
    var fids := EmptySlots(s.fidt[p], 0);
    if CanReserve(s, p, num) {
      ReserveSucceeds(s, p, num);
    } else if |fids| >= num {
      AcquireManyEffect(s, |s.free|);
      assert s.free[..|s.free|] == s.free;
      ReverseKeeps(s.free);
    }
  }

  lemma {:induction false} ReverseKeeps<T>(l: seq<T>)
    ensures multiset(Reverse(l)) == multiset(l)
  {
    if l != [] {
      ReverseKeeps(l[1..]);
      assert l == [l[0]] + l[1..];
    }
  }

  /** A list without repetition reads the same backwards only when it is too short to differ. */
  lemma ReverseIsExact<T>(l: seq<T>)
    requires NoDup(l)
    ensures Reverse(l) == l <==> |l| <= 1
  {
    if |l| <= 1 {
      assert forall i :: 0 <= i < |l| ==> Reverse(l)[i] == l[i];
    } else {
      assert Reverse(l)[0] == l[|l| - 1];
    }
  }

  /** When a failed reservation leaves everything as it was, as the header of the code promises of
      all of them. The order of the free list is kept if and only if the failure is for want of
      slots, or there was at most one free FCB; the rest of the state, if moreover the count
      reset by acquire_FCB was zero already. Reservations of one or two keep the order. */
  lemma FailureIsExact(s: Streams, p: nat, num: nat)
    requires Balanced(s) && p < |s.fidt| && !CanReserve(s, p, num)
    ensures var s', noSlots := Reserve(s, p, num), |EmptySlots(s.fidt[p], 0)| < num;
      && (s'.free == s.free <==> noSlots || |s.free| <= 1)
      && (s' == s <==> noSlots || s.free == [] || (|s.free| == 1 && s.refcount[s.free[0]] == 0))
    ensures num <= 2 ==> Reserve(s, p, num).free == s.free
  {
    if num <= |EmptySlots(s.fidt[p], 0)| {
      var s' := Reserve(s, p, num);
      ReverseIsExact(s.free);
      AcquireManyEffect(s, |s.free|);
      assert s.free[..|s.free|] == s.free;
      if s.free == [] {
        assert s'.refcount == s.refcount;
      } else if |s.free| == 1 {
        var f := s.free[0];
        assert s'.refcount == s.refcount[f := 0];
        assert s.refcount[f] == 0 ==> s'.refcount == s.refcount;
      }
    }
  }

  /** A reservation of three with two FCBs in the system, in any process at boot: it fails, and
      the free list is in the opposite order. */
  lemma FailureExample(s: Streams, p: nat)
    requires SBoot(s) && |s.refcount| == 2 && p < |s.fidt|
    ensures SInv(s) && !CanReserve(s, p, 3) && s.free == [0, 1] && Reserve(s, p, 3).free == [1, 0]
  {
    SBootInv(s);
    var slots := EmptySlots(s.fidt[p], 0);
    EmptySlotsOk(s.fidt[p], 0);
    assert 0 in slots && 1 in slots && 2 in slots;
    assert |slots| >= 3 by {
      var i :| 0 <= i < |slots| && slots[i] == 0;
      var j :| 0 <= j < |slots| && slots[j] == 1;
      var k :| 0 <= k < |slots| && slots[k] == 2;
      assert i != j && j != k && i != k;
    }
    assert s.free == [0, 1] && Reverse(s.free) == [1, 0];
  }

  lemma ReserveSucceeds(s: Streams, p: nat, num: nat)
    requires Balanced(s) && CanReserve(s, p, num)
    ensures var s', fids, fcbs := Reserve(s, p, num), EmptySlots(s.fidt[p], 0)[..num], s.free[..num];
      && |s'.fidt| == |s.fidt| && |s'.refcount| == |s.refcount|
      && s' == s.(fidt := s.fidt[p := s'.fidt[p]], free := s.free[num..], refcount := s'.refcount)
      && SmallestEmpty(s.fidt[p], fids) && NoDup(fcbs) && s.free == fcbs + s'.free
      && BoundTo(s.fidt[p], s'.fidt[p], fids, fcbs)
      && forall f :: 0 <= f < |s.refcount| ==> s'.refcount[f] == if f in fcbs then 1 else s.refcount[f]
  {
    hide EmptySlots, AcquireMany, BindMany, BoundTo, Balanced;
    var fids, fcbs := EmptySlots(s.fidt[p], 0)[..num], s.free[..num];
    ReserveDistinct(s, p, num);
    AcquireManyEffect(s, num);
    ReserveBinds(s, p, num);
    BindManyEffect(AcquireMany(s, num), p, fids, fcbs);
    BindManyCounts(AcquireMany(s, num), p, fids, fcbs);
    forall f | f in fcbs ensures AcquireMany(s, num).refcount[f] == 0 {
      var k :| 0 <= k < num && fcbs[k] == f;
      assert s.free[k] == f;
    }
  }

  lemma ReserveDistinct(s: Streams, p: nat, num: nat)
    requires Balanced(s) && CanReserve(s, p, num)
    ensures Shape(s) && SmallestEmpty(s.fidt[p], EmptySlots(s.fidt[p], 0)[..num])
    ensures NoDup(EmptySlots(s.fidt[p], 0)[..num]) && NoDup(s.free[..num])
    ensures s.free == s.free[..num] + s.free[num..]
  {
    FirstAreSmallest(s.fidt[p], num);
  }

  /** Reserving and then unreserving gives back the file tables as they were, and the same free
      FCBs. Only the counts of free FCBs, which acquire_FCB resets, may differ. */
  lemma ReserveThenUnreserve(s: Streams, p: nat, num: nat)
    requires Balanced(s) && CanReserve(s, p, num)
    ensures var s1, fids, fcbs := Reserve(s, p, num), EmptySlots(s.fidt[p], 0)[..num], s.free[..num];
      && Bindable(s1, p, fids, fcbs)
      && var s2 := Unreserve(s1, p, fids, fcbs);
      && s2 == s.(free := s2.free, refcount := s2.refcount)
      && multiset(s2.free) == multiset(s.free) && |s2.refcount| == |s.refcount|
      && forall f :: 0 <= f < |s.refcount| && f !in s2.free ==> s2.refcount[f] == s.refcount[f]
  {
    var s1, fids, fcbs := Reserve(s, p, num), EmptySlots(s.fidt[p], 0)[..num], s.free[..num];
    ReserveSucceeds(s, p, num);
    UnreserveEffect(s1, p, fids, fcbs);
    var s2 := Unreserve(s1, p, fids, fcbs);
    assert s2.fidt[p] == s.fidt[p];
    assert s2.fidt == s.fidt;
    assert s2.free == s1.free + fcbs;
    assert s.free == fcbs + s1.free;
  }

  lemma RotationIsExact<T>(l: seq<T>, k: nat)
    requires NoDup(l) && k <= |l|
    ensures l[k..] + l[..k] == l <==> k == 0 || k == |l|
  {
    if 0 < k < |l| {
      assert (l[k..] + l[..k])[0] == l[k] != l[0];
    }
  }

  /** When unreserving is the very opposite of reserving, as its header says: the free list is back
      in its order if and only if none, or all, of the free FCBs were reserved; and the counts are
      back if moreover those of the reserved ones, which acquire_FCB resets, were one before. */
  lemma UnreserveIsExact(s: Streams, p: nat, num: nat)
    requires Balanced(s) && CanReserve(s, p, num)
    ensures var s1, fids, fcbs := Reserve(s, p, num), EmptySlots(s.fidt[p], 0)[..num], s.free[..num];
      && Bindable(s1, p, fids, fcbs)
      && var s2 := Unreserve(s1, p, fids, fcbs);
      && (s2.free == s.free <==> num == 0 || num == |s.free|)
      && (s2 == s <==> num == 0 || (num == |s.free| && forall k :: 0 <= k < num ==> s.refcount[s.free[k]] == 1))
  {
    var s1, fids, fcbs := Reserve(s, p, num), EmptySlots(s.fidt[p], 0)[..num], s.free[..num];
    ReserveThenUnreserve(s, p, num);
    ReserveSucceeds(s, p, num);
    UnreserveEffect(s1, p, fids, fcbs);
    RotationIsExact(s.free, num);
    var s2 := Unreserve(s1, p, fids, fcbs);
    assert forall k :: 0 <= k < num ==> fcbs[k] == s.free[k] && s2.refcount[s.free[k]] == 1;
    if num == 0 || forall k :: 0 <= k < num ==> s.refcount[s.free[k]] == 1 {
      forall f | 0 <= f < |s.refcount| ensures s2.refcount[f] == s.refcount[f] {
        if f in fcbs {
          var k :| 0 <= k < num && fcbs[k] == f;
          assert s.free[k] == f;
        }
      }
      assert s2.refcount == s.refcount;
    }
  }

  /** What `open_stream` does when the device cannot be opened, at boot: one FCB is reserved and
      unreserved, and the free list is not in its old order. */
  lemma UnreserveExample(s: Streams, p: nat)
    requires SBoot(s) && |s.refcount| >= 2 && p < |s.fidt|
    ensures SInv(s) && CanReserve(s, p, 1)
    ensures Open(s, p, false).free != s.free
  {
    SBootInv(s);
    EmptySlotsOk(s.fidt[p], 0);
    assert 0 in EmptySlots(s.fidt[p], 0);
    UnreserveIsExact(s, p, 1);
    OpenOk(s, p);
    assert EmptySlots(s.fidt[p], 0)[..1] == [EmptySlots(s.fidt[p], 0)[0]] && s.free[..1] == [s.free[0]];
  }

  // ----- the calls -----

  lemma SameSlot(s: Streams, p: nat, i: nat)
    requires p < |s.fidt| && i < |s.fidt[p]|
    ensures s.fidt[p := s.fidt[p][i := s.fidt[p][i]]] == s.fidt
  {
    assert s.fidt[p][i := s.fidt[p][i]] == s.fidt[p];
  }

  /** Close empties its slot and no other. The stream it named, if any, loses one reference, and
      is closed and its FCB freed if and only if that was the last one. */
  lemma CloseTheorem(s: Streams, p: nat, fd: int)
    requires SInv(s) && p < |s.fidt|
    ensures var s' := Close(s, p, fd);
      && s'.fidt == (if InTable(fd) then s.fidt[p := s.fidt[p][fd := Empty]] else s.fidt)
      && match Named(s, p, fd) {
           case Empty => s' == s
           case Names(f) =>
             && f < |s.closes| == |s'.closes| && Refs(s', f) == Refs(s, f) - 1
             && (f in s'.free <==> Refs(s, f) == 1)
             && s'.closes[f] == s.closes[f] + if Refs(s, f) == 1 then 1 else 0
         }
  {
    if InTable(fd) {
      SameSlot(s, p, fd);
      if s.fidt[p][fd].Names? {
        var f := s.fidt[p][fd].fcb;
        NamedIsUsed(s, p, fd);
        RefsOfSlot(s, p, fd, Empty, f);
        assert BalancedAt(s, f);
        assert Refs(Close(s, p, fd), f) == Refs(SetSlot(s, p, fd, Empty), f);
      }
    }
  }

  /** Dup2 succeeds, with 0, exactly when both file ids are legal and `oldfd` is open. Then `newfd`
      names what `oldfd` names, and no other slot has changed; nothing at all has if it did so
      before. A failed one returns -1 and changes nothing. */
  lemma Dup2Theorem(s: Streams, p: nat, oldfd: int, newfd: int)
    requires SInv(s) && p < |s.fidt|
    ensures var s', r := Dup2(s, p, oldfd, newfd), Dup2Returns(s, p, oldfd, newfd);
      if 0 <= oldfd < MAX_FILEID && 0 <= newfd < MAX_FILEID && s.fidt[p][oldfd] != Empty then
        && r == 0 && s'.fidt == s.fidt[p := s.fidt[p][newfd := s.fidt[p][oldfd]]]
        && (s.fidt[p][newfd] == s.fidt[p][oldfd] ==> s' == s)
      else r == -1 && s' == s
  {
    if InTable(oldfd) && InTable(newfd) {
      SameSlot(s, p, newfd);
    }
  }

  /** What Close returns: the result of the stream's Close if it closes it, or else 0, also for a file
      id that is not open, and -1 for one that is not legal. */
  lemma CloseAnswer(s: Streams, p: nat, fd: int, closed: int)
    requires SInv(s) && p < |s.fidt|
    ensures CloseReturns(s, p, fd, closed) ==
      if Close(s, p, fd).closes != s.closes then closed
      else if 0 <= fd < MAX_FILEID then 0
      else -1
  {
    if InTable(fd) && s.fidt[p][fd].Names? {
      NamedIsUsed(s, p, fd);
    }
  }

  /** Open returns the smallest empty file id of the process, which now names an FCB that was free
      and has been opened; or nothing in any file table changes, and the free FCBs are the same. */
  lemma OpenTheorem(s: Streams, p: nat, works: bool)
    requires SInv(s) && p < |s.fidt|
    ensures var s' := Open(s, p, works);
      if works && CanReserve(s, p, 1) then
        var fid, f := EmptySlots(s.fidt[p], 0)[0], s.free[0];
        && SmallestEmpty(s.fidt[p], [fid]) && fid < |s.fidt[p]| && s'.fidt == s.fidt[p := s.fidt[p][fid := Names(f)]]
        && f !in s'.free && f < |s.opens| == |s'.opens| && s'.opens[f] == s.opens[f] + 1
      else s'.fidt == s.fidt && s'.opens == s.opens && forall f :: f in s'.free <==> f in s.free
  {
    if CanReserve(s, p, 1) {
      OpenOk(s, p);
      var fid, f, s1 := EmptySlots(s.fidt[p], 0)[0], s.free[0], Reserve(s, p, 1);
      FirstAreSmallest(s.fidt[p], 1);
      assert EmptySlots(s.fidt[p], 0)[..1] == [fid];
      assert s.free == [f] + s.free[1..];
      if !works {
        var s' := Release(SetSlot(s1, p, fid, Empty), f);
        assert Unreserve(s1, p, [fid], [f]) == Unreserve(s', p, [], []) == s';
        assert s'.fidt[p] == s.fidt[p];
        assert s'.fidt == s.fidt;
      }
    } else if s.free == [] {
      assert Reverse(s.free) == [];
    }
  }

  // ----- reads and writes -----

  /** A read or write that begins takes a pin on the stream that its file id names, and counts it as a
      reference; if the file id names none, nothing happens. */
  lemma BeginIoTheorem(s: Streams, p: nat, fd: int)
    requires SInv(s) && p < |s.fidt|
    ensures var s' := BeginIo(s, p, fd);
      if 0 <= fd < MAX_FILEID && s.fidt[p][fd] != Empty then
        var f := s.fidt[p][fd].fcb;
        && f < |s.refcount| && f !in s.free
        && s'.pins == s.pins + multiset{f}
        && s'.refcount == s.refcount[f := s.refcount[f] + 1] && s'.refcount[f] > 1
        && s'.fidt == s.fidt && s'.free == s.free && s'.alive == s.alive
        && s'.opens == s.opens && s'.closes == s.closes
      else s' == s
  {
    if InTable(fd) && s.fidt[p][fd].Names? {
      NamedIsUsed(s, p, fd);
    }
  }

  /** When it ends it gives back the pin and the reference; if that was the last one, because all the
      file ids have been closed meanwhile, the stream is closed and its FCB freed now. */
  lemma EndIoTheorem(s: Streams, f: Fcb)
    requires SInv(s) && f in s.pins
    ensures var s' := Apply(s, DoEndIo(f));
      && f < |s.refcount| && f < |s.closes| && f !in s.free
      && s'.pins == s.pins - multiset{f}
      && s'.refcount == s.refcount[f := s.refcount[f] - 1]
      && s'.fidt == s.fidt && s'.alive == s.alive && s'.opens == s.opens
      && if Refs(s, f) == 1
         then s'.free == s.free + [f] && s'.closes == s.closes[f := s.closes[f] + 1]
         else s'.free == s.free && s'.closes == s.closes
  {
    assert BalancedAt(s, f);
  }

  /** Step `a` begins a read or write of the stream of `f`. */
  predicate BeginsOn(s: Streams, a: Step, f: Fcb) {
    && a.DoBeginIo? && a.p < |s.fidt| && |s.fidt[a.p]| == MAX_FILEID
    && 0 <= a.fd < MAX_FILEID && s.fidt[a.p][a.fd] == Names(f)
  }

  /** The reads and writes of the stream of `f` that have begun and not ended before step `m`. */
  function InFlight(tr: seq<Streams>, steps: seq<Step>, f: Fcb, m: nat): int
    requires m <= |steps| <= |tr|
  {
    if m == 0 then 0
    else InFlight(tr, steps, f, m - 1)
         + (if BeginsOn(tr[m - 1], steps[m - 1], f) then 1 else 0)
         - (if steps[m - 1] == DoEndIo(f) then 1 else 0)
  }

  lemma StepPins(s: Streams, a: Step, f: Fcb)
    requires SInv(s) && Enabled(s, a)
    ensures Apply(s, a).pins[f] ==
      s.pins[f] + (if BeginsOn(s, a, f) then 1 else 0) - (if a == DoEndIo(f) then 1 else 0)
  {
    hide SInv, Inherit, CleanUp, Open;
    match a
    case DoOpen(p, works) => OpenPins(s, p, works);
    case DoExec(p, c) => InheritPins(s, p, c, 0);
    case DoExit(p) => CleanUpPins(s, p, 0);
    case _ =>
  }

  lemma OpenPins(s: Streams, p: nat, works: bool)
    requires Shape(s) && p < |s.fidt|
    ensures Open(s, p, works).pins == s.pins && Open(s, p, works).alive == s.alive
  {
    if CanReserve(s, p, 1) {
      OpenOk(s, p);
      var fid, f, s1 := EmptySlots(s.fidt[p], 0)[0], s.free[0], Reserve(s, p, 1);
      assert Unreserve(s1, p, [fid], [f]) == Unreserve(Release(SetSlot(s1, p, fid, Empty), f), p, [], []);
    } else {
      AcquireManyEffect(s, |s.free|);
    }
  }

  lemma {:induction false} InheritPins(s: Streams, p: nat, c: nat, i: nat)
    requires Shape(s) && p < |s.fidt| && c < |s.fidt| && i <= MAX_FILEID
    ensures Inherit(s, p, c, i).pins == s.pins && Inherit(s, p, c, i).alive == s.alive
    decreases MAX_FILEID - i
  {
    if i < MAX_FILEID {
      var x := s.fidt[p][i];
      InheritPins(if x == Empty then SetSlot(s, c, i, Empty) else Bind(s, c, i, x.fcb), p, c, i + 1);
    }
  }

  lemma {:induction false} CleanUpPins(s: Streams, p: nat, i: nat)
    requires Shape(s) && p < |s.fidt| && i <= MAX_FILEID
    ensures CleanUp(s, p, i).pins == s.pins && CleanUp(s, p, i).alive == s.alive
    decreases MAX_FILEID - i
  {
    if i < MAX_FILEID {
      CleanUpPins(Unbind(s, p, i), p, i + 1);
    }
  }

  /** Processes come by Exec, or at boot, and go by their exit. */
  lemma StepAlive(s: Streams, a: Step)
    requires Enabled(s, a)
    ensures Apply(s, a).alive ==
      match a {
        case DoExec(_, c) => s.alive + {c}
        case DoStart(c) => s.alive + {c}
        case DoExit(p) => s.alive - {p}
        case _ => s.alive
      }
  {
    hide Inherit, CleanUp, Open;
    match a
    case DoOpen(p, works) => OpenPins(s, p, works);
    case DoExec(p, c) => InheritPins(s, p, c, 0);
    case DoExit(p) => CleanUpPins(s, p, 0);
    case _ =>
  }

  /** In every run the pins are the reads and writes under way. */
  lemma {:induction false} PinsAreInFlight(tr: seq<Streams>, steps: seq<Step>, f: Fcb, m: nat)
    requires SRun(tr, steps) && m < |tr|
    ensures tr[m].pins[f] == InFlight(tr, steps, f, m)
  {
    hide SInv, Enabled, Apply, BeginsOn;
    if m > 0 {
      PinsAreInFlight(tr, steps, f, m - 1);
      SRunInv(tr, steps, m - 1);
      StepPins(tr[m - 1], steps[m - 1], f);
    }
  }

  /** Why a read or write takes a pin: from its first step on, and as long as it is under way, its
      stream is not closed and its FCB not freed, whatever the other threads close; its reference
      count is at least the number of reads and writes under way. */
  lemma {:induction false} IoKeepsStreamOpen(tr: seq<Streams>, steps: seq<Step>, n: nat, m: nat, f: Fcb)
    requires SRun(tr, steps) && n < m < |tr| && BeginsOn(tr[n], steps[n], f)
    requires forall x :: n < x <= m ==> InFlight(tr, steps, f, x) > 0
    ensures f < |tr[m].refcount| && f < |tr[m].closes| && f < |tr[n].closes|
    ensures f !in tr[m].free && tr[m].closes[f] == tr[n].closes[f] && tr[m].refcount[f] >= InFlight(tr, steps, f, m)
    decreases m
  {
    hide SInv, Enabled, Apply, BeginsOn;
    SRunInv(tr, steps, n);
    SRunInv(tr, steps, m);
    PinsAreInFlight(tr, steps, f, m);
    PinnedIsUsed(tr[m], f);
    if m == n + 1 {
      BegunOn(tr[n], steps[n], f);
    } else {
      IoKeepsStreamOpen(tr, steps, n, m - 1, f);
      PinsAreInFlight(tr, steps, f, m - 1);
      PinnedStays(tr, steps, m - 1, f);
    }
  }

  lemma PinnedIsUsed(s: Streams, f: Fcb)
    requires SInv(s) && f in s.pins
    ensures f < |s.refcount| && f < |s.closes| && f !in s.free && s.refcount[f] >= s.pins[f]
  {
    assert BalancedAt(s, f);
  }

  lemma BegunOn(s: Streams, a: Step, f: Fcb)
    requires SInv(s) && Enabled(s, a) && BeginsOn(s, a, f)
    ensures f < |s.closes| && Apply(s, a).closes == s.closes
  {
    hide SInv;
    BeginIoTheorem(s, a.p, a.fd);
    SInvSizes(s);
  }

  lemma SInvSizes(s: Streams)
    requires SInv(s)
    ensures |s.opens| == |s.refcount| == |s.closes|
  {
  }

  lemma PinnedStays(tr: seq<Streams>, steps: seq<Step>, n: nat, f: Fcb)
    requires SRun(tr, steps) && n < |steps| && f in tr[n].pins && f in tr[n + 1].pins
    ensures f < |tr[n].closes| && f < |tr[n + 1].closes| && tr[n + 1].closes[f] == tr[n].closes[f]
  {
    hide SInv, Enabled, Apply;
    SRunInv(tr, steps, n);
    PinnedIsUsed(tr[n], f);
    ClosedOncePerLifetime(tr, steps, n, f);
  }
}
