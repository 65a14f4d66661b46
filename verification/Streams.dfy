/** The code of kernel_streams.c over its own tables, changed in place: the reference counts and
    the free list of the FCBs, and the file table of each process. A pointer to an FCB is its
    index in `FT`. Each call is proved against the function of the same name in `StreamModel`. */
module StreamTables {
  import opened ListSpec
  import opened StreamModel
  import opened StreamSteps

  class StreamTable {
    const FT: array<int>             // the reference counts
    var freelist: seq<Fcb>
    const FIDT: seq<array<Slot>>     // the file table of each process
    ghost var alive: set<nat>
    ghost var pins: multiset<Fcb>
    ghost var opens: seq<nat>
    ghost var closes: seq<nat>

    /** The file tables are different arrays of the right size. */
    ghost predicate Tables() {
      && (forall p :: 0 <= p < |FIDT| ==> FIDT[p].Length == MAX_FILEID)
      && forall p, q :: 0 <= p < q < |FIDT| ==> FIDT[p] != FIDT[q]
    }

    ghost predicate Valid()
      reads this, FT, FIDT
    {
      Tables() && Shape(View())
    }

    ghost function View(): Streams
      reads this, FT, FIDT
    {
      Streams(FT[..], freelist, seq(|FIDT|, p requires 0 <= p < |FIDT| reads FIDT => FIDT[p][..]), alive, pins, opens, closes)
    }

    constructor (files: nat, fidt: seq<array<Slot>>)
      ensures FT.Length == files && fresh(FT) && FIDT == fidt
    {
      FT := new int[files];
      FIDT := fidt;
    }

    method InitializeFiles()
      requires Tables()
      modifies this`freelist, FT
      ensures freelist == seq(FT.Length, i => i) && forall f :: 0 <= f < FT.Length ==> FT[f] == 0
    {
      freelist := [];
      for i := 0 to FT.Length
        invariant |freelist| == i && (forall j :: 0 <= j < i ==> freelist[j] == j)
        invariant forall f :: 0 <= f < i ==> FT[f] == 0
      {
        FT[i] := 0;
        freelist := freelist + [i];
      }
    }

    // ----- single FCBs -----

    /** Returns the first free FCB, or nothing. */
    method AcquireFCB() returns (fcb: seq<Fcb>)
      requires Valid()
      modifies this`freelist, FT
      ensures Valid()
      ensures if old(freelist) == [] then fcb == [] && View() == old(View())
              else fcb == [old(freelist)[0]] && View() == Acquire(old(View()))
    {
      fcb := [];
      if freelist != [] {
        fcb := [freelist[0]];
        freelist := freelist[1..];
        FT[fcb[0]] := 0;
      }
      assert View().fidt == old(View()).fidt;
    }

    method ReleaseFCB(f: Fcb)
      requires Valid() && f < FT.Length
      modifies this`freelist
      ensures Valid() && View() == Release(old(View()), f)
    {
      freelist := freelist + [f];
      assert View() == Release(old(View()), f);
    }

    method FcbIncref(f: Fcb)
      requires Valid() && f < FT.Length
      modifies FT
      ensures Valid() && View() == IncRef(old(View()), f)
    {
      FT[f] := FT[f] + 1;
      assert View().fidt == old(View()).fidt;
    }

    /** `closed` is what Close returns, if this is the last reference. */
    method FcbDecref(f: Fcb, closed: int) returns (retval: int)
      requires Valid() && f < FT.Length
      modifies this`freelist, this`closes, FT
      ensures Valid() && View() == DecRef(old(View()), f)
      ensures retval == if old(FT[f]) == 1 then closed else 0
    {
      FT[f] := FT[f] - 1;
      assert View().fidt == old(View()).fidt;
      retval := 0;
      if FT[f] == 0 {
        retval := closed;
        closes := closes[f := closes[f] + 1];
        assert View().fidt == old(View()).fidt;
        ReleaseFCB(f);
      }
    }

    /** A change of one slot of a file table. */
    method SetFid(p: nat, fd: nat, x: Slot)
      requires Valid() && p < |FIDT| && fd < MAX_FILEID && SlotOk(x, FT.Length)
      modifies FIDT[p]
      ensures Valid() && View() == SetSlot(old(View()), p, fd, x)
    {
      SetSlotShape(View(), p, fd, x);
      FIDT[p][fd] := x;
      assert View().fidt == SetSlot(old(View()), p, fd, x).fidt;
    }

    method GetFcb(p: nat, fd: int) returns (x: Slot)
      requires Valid() && p < |FIDT|
      ensures x == Named(View(), p, fd)
    {
      if fd < 0 || fd >= MAX_FILEID {
        return Empty;
      }
      return FIDT[p][fd];
    }

    // ----- the calls on open streams -----

    /** The first half of Read and Write: the stream is pinned. */
    method BeginIO(p: nat, fd: int) returns (x: Slot)
      requires Valid() && p < |FIDT|
      modifies this`pins, FT
      ensures Valid() && View() == BeginIo(old(View()), p, fd) && x == Named(old(View()), p, fd)
      ensures x == if 0 <= fd < MAX_FILEID then FIDT[p][fd] else Empty
      ensures x.Names? ==> x.fcb < FT.Length && pins == old(pins) + multiset{x.fcb} && FT[x.fcb] == old(FT[x.fcb]) + 1
      ensures x == Empty ==> pins == old(pins)
      ensures forall f :: 0 <= f < FT.Length && x != Names(f) ==> FT[f] == old(FT[f])
    {
      x := GetFcb(p, fd);
      if x != Empty {
        FcbIncref(x.fcb);
        pins := pins + multiset{x.fcb};
        assert View() == BeginIo(old(View()), p, fd);
      }
    }

    /** The second half, when the device is done. */
    method EndIO(f: Fcb, closed: int)
      requires Valid() && f in pins
      modifies this`pins, this`freelist, this`closes, FT
      ensures Valid() && View() == Unpin(old(View()), f)
      ensures f < FT.Length && pins == old(pins) - multiset{f} && FT[f] == old(FT[f]) - 1
      ensures freelist == if old(FT[f]) == 1 then old(freelist) + [f] else old(freelist)
      ensures forall g :: 0 <= g < FT.Length && g != f ==> FT[g] == old(FT[g])
    {
      var _ := FcbDecref(f, closed);
      pins := pins - multiset{f};
      assert View() == Unpin(old(View()), f);
    }

    method SysClose(p: nat, fd: int, closed: int) returns (retcode: int)
      requires Valid() && p < |FIDT|
      modifies this`freelist, this`closes, FT, FIDT
      ensures Valid() && View() == Close(old(View()), p, fd)
      ensures retcode == CloseReturns(old(View()), p, fd, closed)
    {
      retcode := if 0 <= fd < MAX_FILEID then 0 else -1;
      var x := GetFcb(p, fd);
      if x != Empty {
        SetFid(p, fd, Empty);
        retcode := FcbDecref(x.fcb, closed);
      }
    }

    method SysDup2(p: nat, oldfd: int, newfd: int, closed: int) returns (retcode: int)
      requires Valid() && p < |FIDT|
      modifies this`freelist, this`closes, FT, FIDT
      ensures Valid() && View() == Dup2(old(View()), p, oldfd, newfd)
      ensures retcode == Dup2Returns(old(View()), p, oldfd, newfd)
    {
      retcode := 0;
      if oldfd < 0 || newfd < 0 || oldfd >= MAX_FILEID || newfd >= MAX_FILEID {
        return -1;
      }
      var x := GetFcb(p, oldfd);
      var y := GetFcb(p, newfd);
      if x == Empty {
        retcode := -1;
      } else if x != y {
        if y != Empty {
          var _ := FcbDecref(y.fcb, closed);
        }
        FcbIncref(x.fcb);
        SetFid(p, newfd, x);
      }
    }

    // ----- reservations -----

    /** Looks for `num` empty slots, from the first one on. */
    method FindFids(p: nat, num: nat, fid: array<nat>) returns (ok: bool)
      requires Valid() && p < |FIDT| && num <= fid.Length
      modifies fid
      ensures Valid() && View() == old(View())
      ensures ok <==> num <= |EmptySlots(View().fidt[p], 0)|
      ensures ok ==> fid[..num] == EmptySlots(View().fidt[p], 0)[..num]
    {
      hide Shape, EmptySlots;
      ghost var t, all := FIDT[p][..], EmptySlots(FIDT[p][..], 0);
      assert View().fidt[p] == t;
      var i, f := 0, 0;
      while i < num
        invariant i <= num && f <= MAX_FILEID && FIDT[p][..] == t && View() == old(View())
        invariant i <= |all| && fid[..i] == all[..i] && all[i..] == EmptySlots(t, f)
      {
        while f < MAX_FILEID && FIDT[p][f] != Empty
          invariant f <= MAX_FILEID && FIDT[p][..] == t && all[i..] == EmptySlots(t, f) && fid[..i] == all[..i]
        {
          NextSlot(t, f);
          f := f + 1;
        }
        NextSlot(t, f);
        if f == MAX_FILEID {
          break;
        }
        assert all[i] == all[i..][0] == f && all[i + 1..] == all[i..][1..];
        assert all[..i + 1] == all[..i] + [f];
        ghost var found := fid[..i];
        fid[i] := f;
        assert fid[..i + 1] == found + [f];
        f := f + 1;
        i := i + 1;
      }
      ok := i >= num;
    }

    /** Takes `num` FCBs off the free list, or puts back those taken, the last one first. */
    method AcquireFcbs(num: nat, fcb: array<Fcb>) returns (ok: bool)
      requires Valid() && num <= fcb.Length
      modifies this`freelist, FT, fcb
      ensures Valid() && (ok <==> num <= |old(freelist)|)
      ensures ok ==> View() == AcquireMany(old(View()), num) && fcb[..num] == old(freelist)[..num]
      ensures !ok ==> View() == AcquireMany(old(View()), |old(freelist)|).(free := Reverse(old(freelist)))
    {
      ghost var s, l := View(), freelist;
      var i := 0;
      while i < num
        invariant Valid() && i <= num && i <= |l| && freelist == l[i..]
        invariant View() == AcquireMany(s, i) && fcb[..i] == l[..i]
      {
        var taken := AcquireFCB();
        if taken == [] {
          break;
        }
        AcquireManyLast(s, i);
        ghost var before := fcb[..i];
        fcb[i] := taken[0];
        assert fcb[..i + 1] == before + [taken[0]];
        i := i + 1;
      }
      ok := i >= num;
      if i < num {
        AcquireManyEffect(s, |l|);
        assert fcb[..i] == l;
        RollBack(i, fcb);
      }
    }

    method RollBack(taken: nat, fcb: array<Fcb>)
      requires Valid() && freelist == [] && taken <= fcb.Length && forall k :: 0 <= k < taken ==> fcb[k] < FT.Length
      modifies this`freelist
      ensures Valid() && View() == old(View()).(free := Reverse(fcb[..taken]))
    {
      ghost var s, l := View(), fcb[..taken];
      var i := taken;
      while i > 0
        invariant Valid() && i <= taken
        invariant freelist == Reverse(l[i..]) && View() == s.(free := freelist)
      {
        assert l[i - 1..] == [fcb[i - 1]] + l[i..];
        ReleaseFCB(fcb[i - 1]);
        i := i - 1;
      }
      assert l[0..] == l;
    }

    /** Binds the slots found to the FCBs taken. */
    method BindFids(p: nat, num: nat, fid: array<nat>, fcb: array<Fcb>)
      requires Valid() && num <= fid.Length && num <= fcb.Length && Bindable(View(), p, fid[..num], fcb[..num])
      modifies FIDT, FT
      ensures Valid() && View() == BindMany(old(View()), p, fid[..num], fcb[..num])
      ensures fid[..] == old(fid[..]) && fcb[..] == old(fcb[..])
    {
      ghost var s, fids, fcbs := View(), fid[..num], fcb[..num];
      var i := 0;
      while i < num
        invariant Valid() && i <= num && fid[..] == old(fid[..]) && fcb[..] == old(fcb[..])
        invariant Bindable(View(), p, fids[i..], fcbs[i..])
        invariant BindMany(View(), p, fids[i..], fcbs[i..]) == BindMany(s, p, fids, fcbs)
      {
        assert fids[i..][0] == fid[i] && fcbs[i..][0] == fcb[i];
        assert fids[i..][1..] == fids[i + 1..] && fcbs[i..][1..] == fcbs[i + 1..];
        SetFid(p, fid[i], Names(fcb[i]));
        FcbIncref(fcb[i]);
        i := i + 1;
      }
    }

    method FcbReserve(p: nat, num: nat, fid: array<nat>, fcb: array<Fcb>) returns (ok: bool)
      requires Valid() && p < |FIDT| && num <= fid.Length && num <= fcb.Length && fid != fcb
      modifies this`freelist, FT, FIDT, fid, fcb
      ensures Valid() && View() == Reserve(old(View()), p, num) && (ok <==> CanReserve(old(View()), p, num))
      ensures ok ==> fid[..num] == EmptySlots(old(View()).fidt[p], 0)[..num] && fcb[..num] == old(freelist)[..num]
    {
      hide AcquireMany, EmptySlots, BindMany;
      ghost var s := View();
      ok := FindFids(p, num, fid);
      if !ok {
        return;
      }
      ghost var fids := fid[..num];
      ok := AcquireFcbs(num, fcb);
      if !ok {
        return;
      }
      assert fid[..num] == fids;
      ReserveBinds(s, p, num);
      BindFids(p, num, fid, fcb);
    }

    method FcbUnreserve(p: nat, num: nat, fid: array<nat>, fcb: array<Fcb>)
      requires Valid() && num <= fid.Length && num <= fcb.Length && Bindable(View(), p, fid[..num], fcb[..num])
      requires BoundTo(View().fidt[p], View().fidt[p], fid[..num], fcb[..num]) && NoDup(fid[..num])
      modifies this`freelist, FIDT
      ensures Valid() && View() == Unreserve(old(View()), p, fid[..num], fcb[..num])
    {
      hide Unreserve, Shape;
      ghost var s, fids, fcbs := View(), fid[..num], fcb[..num];
      var i := 0;
      while i < num
        invariant Valid() && i <= num
        invariant Bindable(View(), p, fids[i..], fcbs[i..])
        invariant forall k :: i <= k < num ==> View().fidt[p][fids[k]] == Names(fcbs[k])
        invariant Unreserve(View(), p, fids[i..], fcbs[i..]) == Unreserve(s, p, fids, fcbs)
      {
        assert fids[i..][0] == fid[i] && fcbs[i..][0] == fcb[i];
        assert fids[i..][1..] == fids[i + 1..] && fcbs[i..][1..] == fcbs[i + 1..];
        assert FIDT[p][fid[i]] == Names(fcb[i]);
        UnreserveStep(View(), p, fids[i..], fcbs[i..]);
        SetFid(p, fid[i], Empty);
        ReleaseFCB(fcb[i]);
        i := i + 1;
      }
      UnreserveStep(View(), p, fids[i..], fcbs[i..]);
    }

    /** `works` says whether the device can be opened. */
    method OpenStream(p: nat, works: bool) returns (fid: int)
      requires Valid() && SInv(View()) && p < |FIDT| && p in alive
      modifies this`freelist, this`opens, FT, FIDT
      ensures Valid() && SInv(View()) && View() == Open(old(View()), p, works)
      ensures fid == if works && CanReserve(old(View()), p, 1) then EmptySlots(old(View()).fidt[p], 0)[0] else NOFILE
    {
      hide SInv, EmptySlots, Reserve, Unreserve;
      ghost var s := View();
      OpenKeeps(s, p, works);
      var fids, fcbs := new nat[1], new Fcb[1];
      var ok := FcbReserve(p, 1, fids, fcbs);
      if !ok {
        return NOFILE;
      }
      assert fids[..1] == [fids[0]] && fcbs[..1] == [fcbs[0]];
      if !works {
        ReservedOne(s, p);
        FcbUnreserve(p, 1, fids, fcbs);
        return NOFILE;
      }
      opens := opens[fcbs[0] := opens[fcbs[0]] + 1];
      assert View() == Open(s, p, works);
      return fids[0];
    }

    // ----- the loops over file tables -----

    /** One turn of each of the two loops below. */
    method InheritFid(p: nat, c: nat, i: nat)
      requires Valid() && p < |FIDT| && c < |FIDT| && i < MAX_FILEID
      modifies FT, FIDT
      ensures Valid()
      ensures var s := old(View()); var x := s.fidt[p][i];
        View() == if x == Empty then SetSlot(s, c, i, Empty) else Bind(s, c, i, x.fcb)
    {
      var x := FIDT[p][i];
      assert SlotOk(View().fidt[p][i], FT.Length);
      SetFid(c, i, x);
      if x != Empty {
        FcbIncref(x.fcb);
      }
    }

    method DropFid(p: nat, i: nat)
      requires Valid() && p < |FIDT| && i < MAX_FILEID
      modifies this`freelist, this`closes, FT, FIDT
      ensures Valid() && View() == Unbind(old(View()), p, i)
    {
      var x := FIDT[p][i];
      assert SlotOk(View().fidt[p][i], FT.Length);
      if x != Empty {
        var _ := FcbDecref(x.fcb, 0);
        SetFid(p, i, Empty);
      }
      assert View() == Unbind(old(View()), p, i);
    }

    /** The child of an Exec gets the open files of its parent. */
    method InheritStreams(p: nat, c: nat)
      requires Valid() && p < |FIDT| && c < |FIDT|
      modifies FT, FIDT
      ensures Valid() && View() == Inherit(old(View()), p, c, 0)
    {
      ghost var s := View();
      var i := 0;
      while i < MAX_FILEID
        invariant Valid() && i <= MAX_FILEID
        invariant Inherit(View(), p, c, i) == Inherit(s, p, c, 0)
      {
        InheritFid(p, c, i);
        i := i + 1;
      }
    }

    /** The last thread of a process gives up its files. */
    method CleanUpFidt(p: nat)
      requires Valid() && p < |FIDT|
      modifies this`freelist, this`closes, FT, FIDT
      ensures Valid() && View() == CleanUp(old(View()), p, 0)
    {
      ghost var s := View();
      var i := 0;
      while i < MAX_FILEID
        invariant Valid() && i <= MAX_FILEID
        invariant CleanUp(View(), p, i) == CleanUp(s, p, 0)
      {
        DropFid(p, i);
        i := i + 1;
      }
    }
  }

  lemma {:induction false} AcquireManyLast(s: Streams, i: nat)
    requires i < |s.free| && forall j :: 0 <= j < |s.free| ==> s.free[j] < |s.refcount|
    ensures AcquireMany(s, i).free == s.free[i..] && |AcquireMany(s, i).refcount| == |s.refcount|
    ensures AcquireMany(s, i + 1) == Acquire(AcquireMany(s, i))
    decreases i
  {
    if i > 0 {
      AcquireManyLast(Acquire(s), i - 1);
    }
  }

  /** A reservation of one can be given back. */
  lemma ReservedOne(s: Streams, p: nat)
    requires Shape(s) && CanReserve(s, p, 1)
    ensures var s1, fid, f := Reserve(s, p, 1), EmptySlots(s.fidt[p], 0)[0], s.free[0];
      Bindable(s1, p, [fid], [f]) && BoundTo(s1.fidt[p], s1.fidt[p], [fid], [f])
  {
    OpenOk(s, p);
  }

  lemma UnreserveStep(s: Streams, p: nat, fids: seq<nat>, fcbs: seq<Fcb>)
    requires Bindable(s, p, fids, fcbs)
    ensures fids == [] ==> Unreserve(s, p, fids, fcbs) == s
    ensures fids != [] ==>
      var s1 := Release(SetSlot(s, p, fids[0], Empty), fcbs[0]);
      && Bindable(s1, p, fids[1..], fcbs[1..])
      && Unreserve(s, p, fids, fcbs) == Unreserve(s1, p, fids[1..], fcbs[1..])
  {
  }

  lemma NextSlot(t: seq<Slot>, f: nat)
    requires f <= |t|
    ensures f == |t| ==> EmptySlots(t, f) == []
    ensures f < |t| && t[f] != Empty ==> EmptySlots(t, f) == EmptySlots(t, f + 1)
    ensures f < |t| && t[f] == Empty ==> EmptySlots(t, f) == [f] + EmptySlots(t, f + 1)
  {
  }
}
