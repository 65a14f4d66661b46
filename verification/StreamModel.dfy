/** The stream table of kernel_streams.c as a state machine: reference-counted file control
    blocks (FCBs), named by the slots of the file tables (FIDTs) of all processes and pinned by
    reads and writes in flight. */
module StreamModel {
  import opened ListSpec

  const MAX_FILEID: nat := 16
  const NOFILE: int := -1

  type Fcb = nat

  datatype Slot = Empty | Names(fcb: Fcb)

  /** The reference counts, the free list, the file table of each process, the processes in
      existence and the pins; then how often each FCB has been opened and closed. */
  datatype Streams = Streams(
    refcount: seq<int>, free: seq<Fcb>, fidt: seq<seq<Slot>>, alive: set<nat>, pins: multiset<Fcb>,
    opens: seq<nat>, closes: seq<nat>)

  predicate SlotOk(x: Slot, n: nat) {
    x.Names? ==> x.fcb < n
  }

  /** Every index in the state is in its range. */
  predicate Shape(s: Streams) {
    && |s.opens| == |s.refcount| == |s.closes|
    && (forall i :: 0 <= i < |s.free| ==> s.free[i] < |s.refcount|)
    && (forall p :: 0 <= p < |s.fidt| ==> |s.fidt[p]| == MAX_FILEID)
    && (forall p, i :: 0 <= p < |s.fidt| && 0 <= i < |s.fidt[p]| ==> SlotOk(s.fidt[p][i], |s.refcount|))
    && (forall f :: f in s.pins ==> f < |s.refcount|)
  }

  // ----- counting references -----

  function Count(fidt: seq<seq<Slot>>, f: Fcb): nat {
    if fidt == [] then 0 else multiset(fidt[0])[Names(f)] + Count(fidt[1..], f)
  }

  /** The file-table slots and the pins that name `f`. */
  function Refs(s: Streams, f: Fcb): nat {
    Count(s.fidt, f) + s.pins[f]
  }

  // ----- the operations -----

  function SetSlot(s: Streams, p: nat, i: nat, x: Slot): Streams
    requires p < |s.fidt| && i < |s.fidt[p]|
  {
    s.(fidt := s.fidt[p := s.fidt[p][i := x]])
  }

  function Acquire(s: Streams): Streams
    requires s.free != [] && s.free[0] < |s.refcount|
  {
    s.(free := s.free[1..], refcount := s.refcount[s.free[0] := 0])
  }

  function Release(s: Streams, f: Fcb): Streams {
    s.(free := s.free + [f])
  }

  function IncRef(s: Streams, f: Fcb): Streams
    requires f < |s.refcount|
  {
    s.(refcount := s.refcount[f := s.refcount[f] + 1])
  }

  /** The drop of a reference; the last one closes the stream. */
  function DecRef(s: Streams, f: Fcb): Streams
    requires f < |s.refcount| && f < |s.closes|
  {
    var s1 := s.(refcount := s.refcount[f := s.refcount[f] - 1]);
    if s1.refcount[f] == 0 then Release(s1.(closes := s1.closes[f := s1.closes[f] + 1]), f) else s1
  }

  function Bind(s: Streams, p: nat, i: nat, f: Fcb): Streams
    requires p < |s.fidt| && i < |s.fidt[p]| && f < |s.refcount|
  {
    IncRef(SetSlot(s, p, i, Names(f)), f)
  }

  function Unbind(s: Streams, p: nat, i: nat): Streams
    requires p < |s.fidt| && i < |s.fidt[p]| && SlotOk(s.fidt[p][i], |s.refcount|) && |s.closes| == |s.refcount|
  {
    if s.fidt[p][i] == Empty then s else DecRef(SetSlot(s, p, i, Empty), s.fidt[p][i].fcb)
  }

  /** The empty slots of a file table from `i` on, in ascending order. */
  function EmptySlots(t: seq<Slot>, i: nat): seq<nat>
    decreases |t| - i
  {
    if i >= |t| then [] else (if t[i] == Empty then [i] else []) + EmptySlots(t, i + 1)
  }

  predicate CanReserve(s: Streams, p: nat, num: nat) {
    p < |s.fidt| && num <= |EmptySlots(s.fidt[p], 0)| && num <= |s.free|
  }

  function AcquireMany(s: Streams, num: nat): Streams
    requires num <= |s.free| && forall i :: 0 <= i < |s.free| ==> s.free[i] < |s.refcount|
    decreases num
  {
    if num == 0 then s else AcquireMany(Acquire(s), num - 1)
  }

  predicate Bindable(s: Streams, p: nat, fids: seq<nat>, fcbs: seq<Fcb>) {
    && p < |s.fidt| && |fids| == |fcbs|
    && (forall k :: 0 <= k < |fids| ==> fids[k] < |s.fidt[p]|)
    && (forall k :: 0 <= k < |fcbs| ==> fcbs[k] < |s.refcount|)
  }

  function BindMany(s: Streams, p: nat, fids: seq<nat>, fcbs: seq<Fcb>): Streams
    requires Bindable(s, p, fids, fcbs)
    decreases |fids|
  {
    if fids == [] then s else BindMany(Bind(s, p, fids[0], fcbs[0]), p, fids[1..], fcbs[1..])
  }

  lemma {:induction false} EmptySlotsOk(t: seq<Slot>, i: nat)
    ensures forall k :: 0 <= k < |EmptySlots(t, i)| ==> i <= EmptySlots(t, i)[k] < |t| && t[EmptySlots(t, i)[k]] == Empty
    ensures forall j, k :: 0 <= j < k < |EmptySlots(t, i)| ==> EmptySlots(t, i)[j] < EmptySlots(t, i)[k]
    ensures forall x :: i <= x < |t| && t[x] == Empty ==> x in EmptySlots(t, i)
    decreases |t| - i
  {
    if i < |t| {
      EmptySlotsOk(t, i + 1);
      forall x | i <= x < |t| && t[x] == Empty ensures x in EmptySlots(t, i) {
        assert x != i ==> x in EmptySlots(t, i + 1);
      }
    }
  }

  lemma {:induction false} AcquireManyEffect(s: Streams, num: nat)
    requires num <= |s.free| && forall i :: 0 <= i < |s.free| ==> s.free[i] < |s.refcount|
    ensures var s' := AcquireMany(s, num);
      && |s'.refcount| == |s.refcount| && s' == s.(refcount := s'.refcount, free := s.free[num..])
      && (forall i :: 0 <= i < num ==> s'.refcount[s.free[i]] == 0)
      && (forall f :: 0 <= f < |s.refcount| && f !in s.free[..num] ==> s'.refcount[f] == s.refcount[f])
    decreases num
  {
    if num > 0 {
      var s1 := Acquire(s);
      AcquireManyEffect(s1, num - 1);
      assert s.free[..num] == [s.free[0]] + s1.free[..num - 1];
      assert forall i :: 1 <= i < num ==> s.free[i] == s1.free[i - 1];
      var s' := AcquireMany(s, num);
      assert s.free[0] !in s1.free[..num - 1] ==> s'.refcount[s.free[0]] == s1.refcount[s.free[0]] == 0;
      if s.free[0] in s1.free[..num - 1] {
        var j :| 0 <= j < num - 1 && s1.free[j] == s.free[0];
        assert s'.refcount[s1.free[j]] == 0;
      }
    }
  }

  lemma ReserveBinds(s: Streams, p: nat, num: nat)
    requires Shape(s) && CanReserve(s, p, num)
    ensures Bindable(AcquireMany(s, num), p, EmptySlots(s.fidt[p], 0)[..num], s.free[..num])
  {
    EmptySlotsOk(s.fidt[p], 0);
    AcquireManyEffect(s, num);
  }

  /** FCB_reserve. When the free list runs out, the FCBs taken from it are put back in the
      opposite order. */
  function Reserve(s: Streams, p: nat, num: nat): Streams
    requires Shape(s) && p < |s.fidt|
  {
    var fids := EmptySlots(s.fidt[p], 0);
    if |fids| < num then s
    else if |s.free| < num then AcquireMany(s, |s.free|).(free := Reverse(s.free))
    else
      ReserveBinds(s, p, num);
      BindMany(AcquireMany(s, num), p, fids[..num], s.free[..num])
  }

  /** FCB_unreserve: the slots and the FCBs are given back, and the counts left as they are. */
  function Unreserve(s: Streams, p: nat, fids: seq<nat>, fcbs: seq<Fcb>): Streams
    requires Bindable(s, p, fids, fcbs)
    decreases |fids|
  {
    if fids == [] then s else Unreserve(Release(SetSlot(s, p, fids[0], Empty), fcbs[0]), p, fids[1..], fcbs[1..])
  }

  /** Slots `fids` of table `t` have come to name `fcbs`, one each, and the others are the same. */
  predicate BoundTo(t: seq<Slot>, t': seq<Slot>, fids: seq<nat>, fcbs: seq<Fcb>) {
    && |t'| == |t| && |fids| == |fcbs|
    && (forall k :: 0 <= k < |fids| ==> fids[k] < |t| && t'[fids[k]] == Names(fcbs[k]))
    && forall x :: 0 <= x < |t| && x !in fids ==> t'[x] == t[x]
  }

  /** `open_stream`, when the device can be opened and when it cannot. */
  function Open(s: Streams, p: nat, works: bool): Streams
    requires Shape(s) && p < |s.fidt|
  {
    if !CanReserve(s, p, 1) then Reserve(s, p, 1)
    else
      OpenOk(s, p);
      var f, fid, s1 := s.free[0], EmptySlots(s.fidt[p], 0)[0], Reserve(s, p, 1);
      if works then s1.(opens := s1.opens[f := s1.opens[f] + 1]) else Unreserve(s1, p, [fid], [f])
  }

  /** What a reservation of one does. */
  lemma OpenOk(s: Streams, p: nat)
    requires Shape(s) && CanReserve(s, p, 1)
    ensures EmptySlots(s.fidt[p], 0)[0] < |s.fidt[p]| && s.fidt[p][EmptySlots(s.fidt[p], 0)[0]] == Empty
    ensures Reserve(s, p, 1) == Bind(Acquire(s), p, EmptySlots(s.fidt[p], 0)[0], s.free[0])
  {
    EmptySlotsOk(s.fidt[p], 0);
    var fids, fcbs := EmptySlots(s.fidt[p], 0)[..1], s.free[..1];
    assert fids[1..] == [] && fcbs[1..] == [];
    assert AcquireMany(s, 1) == AcquireMany(Acquire(s), 0) == Acquire(s);
    assert BindMany(Acquire(s), p, fids, fcbs) == BindMany(Bind(Acquire(s), p, fids[0], fcbs[0]), p, [], []);
  }

  predicate InTable(fd: int) {
    0 <= fd < MAX_FILEID
  }

  /** `get_fcb` in process `p`: what file id `fd` names. */
  function Named(s: Streams, p: nat, fd: int): Slot
    requires Shape(s) && p < |s.fidt|
  {
    if InTable(fd) then s.fidt[p][fd] else Empty
  }

  function Close(s: Streams, p: nat, fd: int): Streams
    requires Shape(s) && p < |s.fidt|
  {
    if Named(s, p, fd) == Empty then s else Unbind(s, p, fd)
  }

  /** `closed` is what the Close of the stream returns. */
  function CloseReturns(s: Streams, p: nat, fd: int, closed: int): int
    requires Shape(s) && p < |s.fidt|
  {
    if !InTable(fd) then -1
    else if s.fidt[p][fd].Names? && s.refcount[s.fidt[p][fd].fcb] == 1 then closed
    else 0
  }

  /** The code drops the old stream of `newfd` before it raises the count of the other one, and
      changes the slot last. */
  function Dup2(s: Streams, p: nat, oldfd: int, newfd: int): Streams
    requires Shape(s) && p < |s.fidt|
  {
    if !InTable(oldfd) || !InTable(newfd) then s
    else
      var x, y := s.fidt[p][oldfd], s.fidt[p][newfd];
      if x == Empty || x == y then s
      else
        var s1 := if y.Names? then DecRef(s, y.fcb) else s;
        SetSlot(IncRef(s1, x.fcb), p, newfd, x)
  }

  function Dup2Returns(s: Streams, p: nat, oldfd: int, newfd: int): int
    requires Shape(s) && p < |s.fidt|
  {
    if InTable(oldfd) && InTable(newfd) && s.fidt[p][oldfd] != Empty then 0 else -1
  }

  /** A read or write takes a pin on its stream for as long as it lasts. */
  function Pin(s: Streams, f: Fcb): Streams
    requires f < |s.refcount|
  {
    IncRef(s, f).(pins := s.pins + multiset{f})
  }

  function Unpin(s: Streams, f: Fcb): Streams
    requires f < |s.refcount| && f < |s.closes|
  {
    DecRef(s, f).(pins := s.pins - multiset{f})
  }

  function BeginIo(s: Streams, p: nat, fd: int): Streams
    requires Shape(s) && p < |s.fidt|
  {
    var x := Named(s, p, fd);
    if x == Empty then s else Pin(s, x.fcb)
  }

  /** The loop of Exec over the file table, from slot `i` on. */
  function Inherit(s: Streams, p: nat, c: nat, i: nat): Streams
    requires Shape(s) && p < |s.fidt| && c < |s.fidt| && i <= MAX_FILEID
    decreases MAX_FILEID - i
  {
    if i == MAX_FILEID then s
    else
      var x := s.fidt[p][i];
      Inherit(if x == Empty then SetSlot(s, c, i, Empty) else Bind(s, c, i, x.fcb), p, c, i + 1)
  }

  /** The loop of the last exit of a process over its file table, from slot `i` on. */
  function CleanUp(s: Streams, p: nat, i: nat): Streams
    requires Shape(s) && p < |s.fidt| && i <= MAX_FILEID
    decreases MAX_FILEID - i
  {
    if i == MAX_FILEID then s else CleanUp(Unbind(s, p, i), p, i + 1)
  }

  // ----- the steps -----

  datatype Step =
    | DoOpen(p: nat, works: bool)
    | DoClose(p: nat, fd: int)
    | DoDup2(p: nat, oldfd: int, newfd: int)
    | DoBeginIo(p: nat, fd: int)
    | DoEndIo(fcb: Fcb)
    | DoExec(p: nat, child: nat)
    | DoStart(child: nat)        // one of the two processes without a parent
    | DoExit(p: nat)

  predicate Enabled(s: Streams, a: Step) {
    && Shape(s)
    && match a
       case DoEndIo(f) => f in s.pins
       case DoExec(p, c) => p in s.alive && p < |s.fidt| && c !in s.alive && c < |s.fidt|
       case DoStart(c) => c !in s.alive && c < |s.fidt|
       case _ => a.p in s.alive && a.p < |s.fidt|
  }

  function Apply(s: Streams, a: Step): Streams
    requires Enabled(s, a)
  {
    match a
    case DoOpen(p, works) => Open(s, p, works)
    case DoClose(p, fd) => Close(s, p, fd)
    case DoDup2(p, oldfd, newfd) => Dup2(s, p, oldfd, newfd)
    case DoBeginIo(p, fd) => BeginIo(s, p, fd)
    case DoEndIo(f) => Unpin(s, f)
    case DoExec(p, c) => Inherit(s, p, c, 0).(alive := s.alive + {c})
    case DoStart(c) => s.(alive := s.alive + {c})
    case DoExit(p) => CleanUp(s, p, 0).(alive := s.alive - {p})
  }
}
