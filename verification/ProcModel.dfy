/** Processes (kernel_proc.c, and the process side of kernel_threads.c) as a state machine. The
    kernel semaphore is held throughout every step; a wait for a child gives it up, and goes on
    in a later step. */
module ProcModel {
  import opened ListSpec

  type Pid = nat
  const INIT: Pid := 1
  const NOPROC: int := -1

  datatype PidState = FREE | ALIVE | ZOMBIE

  datatype Parent = NoParent | Child(of: Pid)

  /** The number `id` counts executions: a process keeps it while its pid may be used again. */
  datatype Pcb = Pcb(
    pstate: PidState, parent: Parent, exitval: int, threadCount: nat,
    children: seq<Pid>, exited: seq<Pid>, id: nat)

  /** Where the waiting thread of a process is, if it has one. */
  datatype Waiting = NotWaiting | ForAny(asleep: bool) | ForChild(child: Pid, asleep: bool)

  /** The table, the free list, `process_count` and the waits; then the number of executions so
      far, the exit status of each that has ended, and those reported by WaitChild, in order. */
  datatype Procs = Procs(
    pt: seq<Pcb>, free: seq<Pid>, count: int, waiting: seq<Waiting>,
    clock: nat, exits: map<nat, int>, reaps: seq<(nat, int)>)

  datatype Outcome = Returns(value: int) | Sleeps

  predicate Shape(s: Procs) {
    |s.pt| >= 2 && |s.waiting| == |s.pt| && forall i :: 0 <= i < |s.free| ==> s.free[i] < |s.pt|
  }

  // ----- small changes -----

  function SetPcb(s: Procs, p: Pid, b: Pcb): Procs
    requires p < |s.pt|
  {
    s.(pt := s.pt[p := b])
  }

  function SetWaiting(s: Procs, p: Pid, w: Waiting): Procs
    requires p < |s.waiting|
  {
    s.(waiting := s.waiting[p := w])
  }

  function SetChildren(s: Procs, p: Pid, l: seq<Pid>): Procs
    requires p < |s.pt|
  {
    SetPcb(s, p, s.pt[p].(children := l))
  }

  function SetExited(s: Procs, p: Pid, l: seq<Pid>): Procs
    requires p < |s.pt|
  {
    SetPcb(s, p, s.pt[p].(exited := l))
  }

  function SetParent(s: Procs, p: Pid, q: Parent): Procs
    requires p < |s.pt|
  {
    SetPcb(s, p, s.pt[p].(parent := q))
  }

  function Awake(w: Waiting): Waiting {
    match w
    case NotWaiting => NotWaiting
    case ForAny(_) => ForAny(false)
    case ForChild(c, _) => ForChild(c, false)
  }

  /** A broadcast on the `child_exit` condition of process `p`. */
  function Broadcast(s: Procs, p: Pid): Procs
    requires p < |s.waiting|
  {
    SetWaiting(s, p, Awake(s.waiting[p]))
  }

  // ----- creation -----

  function InitialPcb(): Pcb {
    Pcb(FREE, NoParent, 0, 0, [], [], 0)
  }

  function Empty(n: nat): Procs {
    Procs(seq(n, i => InitialPcb()), seq(n, i => i), 0, seq(n, i => NotWaiting), 0, map[], [])
  }

  function Acquire(s: Procs): Procs
    requires Shape(s) && s.free != []
  {
    var q := s.free[0];
    SetPcb(s, q, s.pt[q].(pstate := ALIVE, threadCount := 0)).(free := s.free[1..], count := s.count + 1)
  }

  /** A new child of `p` at the front of its list; processes 0 and 1 are nobody's children. */
  function Adopt(s: Procs, p: Pid, q: Pid): Procs
    requires p < |s.pt| && q < |s.pt|
  {
    if q <= 1 then SetParent(s, q, NoParent)
    else
      var s1 := SetParent(s, q, Child(p));
      SetChildren(s1, p, [q] + s1.pt[p].children)
  }

  function Exec(s: Procs, p: Pid, hasTask: bool): Procs
    requires Shape(s) && p < |s.pt|
  {
    if s.free == [] then s
    else
      var q := s.free[0];
      var s1 := Adopt(Acquire(s), p, q);
      SetPcb(s1, q, s1.pt[q].(id := s.clock, threadCount := if hasTask then 1 else 0)).(clock := s.clock + 1)
  }

  function ExecReturns(s: Procs): int {
    if s.free == [] then NOPROC else s.free[0]
  }

  /** The two processes started at boot: the idle process, which has no thread, and init. */
  function Booted(n: nat): Procs
    requires n >= 2
  {
    Exec(Exec(Empty(n), 0, false), 0, true)
  }

  // ----- exit -----

  /** One turn of the loop that gives the children of `p` to init. */
  function MoveChild(s: Procs, p: Pid): Procs
    requires p < |s.pt| && INIT < |s.pt| && s.pt[p].children != [] && s.pt[p].children[0] < |s.pt|
  {
    var c := s.pt[p].children[0];
    var s1 := SetParent(SetChildren(s, p, s.pt[p].children[1..]), c, Child(INIT));
    SetChildren(s1, INIT, [c] + s1.pt[INIT].children)
  }

  function Reparent(s: Procs, p: Pid): Procs
    requires p < |s.pt| && INIT < |s.pt| && (p == INIT ==> s.pt[p].children == [])
    requires forall i :: 0 <= i < |s.pt[p].children| ==> s.pt[p].children[i] < |s.pt|
    decreases |s.pt[p].children|
  {
    if s.pt[p].children == [] then s else Reparent(MoveChild(s, p), p)
  }

  /** The exited children of `p` go to init, which is told. */
  function Inherit(s: Procs, p: Pid): Procs
    requires Shape(s) && p < |s.pt|
  {
    if s.pt[p].exited == [] then s
    else
      var l := s.pt[p].exited;
      var s1 := SetExited(s, p, []);
      Broadcast(SetExited(s1, INIT, s1.pt[INIT].exited + l), INIT)
  }

  /** `p` goes to the front of its parent's list of exited children, and the parent is told. */
  function Report(s: Procs, p: Pid): Procs
    requires Shape(s) && p < |s.pt| && (s.pt[p].parent.Child? ==> s.pt[p].parent.of < |s.pt|)
  {
    if s.pt[p].parent == NoParent then s
    else
      var q := s.pt[p].parent.of;
      Broadcast(SetExited(s, q, [p] + s.pt[q].exited), q)
  }

  predicate Leavable(s: Procs, p: Pid) {
    && Shape(s) && p < |s.pt| && (p == INIT ==> s.pt[p].children == [])
    && (forall i :: 0 <= i < |s.pt[p].children| ==> s.pt[p].children[i] < |s.pt|)
    && (s.pt[p].parent.Child? ==> s.pt[p].parent.of < |s.pt|)
  }

  /** The reparenting loop touches neither the waits nor the number of processes. */
  lemma {:induction false} ReparentShape(s: Procs, p: Pid)
    requires p < |s.pt| && INIT < |s.pt| && (p == INIT ==> s.pt[p].children == [])
    requires forall i :: 0 <= i < |s.pt[p].children| ==> s.pt[p].children[i] < |s.pt|
    ensures var s' := Reparent(s, p);
      |s'.pt| == |s.pt| && s' == s.(pt := s'.pt) && (s'.pt[p].parent == s.pt[p].parent || s'.pt[p].parent == Child(INIT))
    decreases |s.pt[p].children|
  {
    if s.pt[p].children != [] {
      ReparentShape(MoveChild(s, p), p);
    }
  }

  /** What the last thread of `p` does before it goes to sleep for ever. */
  function Terminate(s: Procs, p: Pid, v: int): Procs
    requires Leavable(s, p)
  {
    var s1 := SetPcb(s, p, s.pt[p].(exitval := v));
    ReparentShape(s1, p);
    var s2 := Report(Inherit(Reparent(s1, p), p), p);
    SetPcb(s2, p, s2.pt[p].(pstate := ZOMBIE)).(exits := s.exits[s.pt[p].id := v])
  }

  function ThreadExit(s: Procs, p: Pid, v: int): Procs
    requires p < |s.pt| && s.pt[p].threadCount > 0 && (s.pt[p].threadCount == 1 ==> Leavable(s, p))
  {
    var s1 := SetPcb(s, p, s.pt[p].(threadCount := s.pt[p].threadCount - 1));
    if s1.pt[p].threadCount == 0 then Terminate(s1, p, v) else s1
  }

  // ----- waiting -----

  function Cleanup(s: Procs, p: Pid, c: Pid): Procs
    requires p < |s.pt| && c < |s.pt|
  {
    var b := s.pt[c];
    var s1 := SetPcb(s, p, s.pt[p].(children := Remove(s.pt[p].children, c), exited := Remove(s.pt[p].exited, c)));
    SetPcb(s1, c, s1.pt[c].(pstate := FREE, parent := NoParent)).(
      free := [c] + s.free, count := s.count - 1, reaps := s.reaps + [(b.id, b.exitval)])
  }

  function Reap(s: Procs, p: Pid, c: Pid): Procs
    requires Shape(s) && p < |s.pt| && c < |s.pt|
  {
    SetWaiting(Cleanup(s, p, c), p, NotWaiting)
  }

  predicate HasExited(s: Procs, p: Pid) {
    p < |s.pt| && s.pt[p].exited != [] && s.pt[p].exited[0] < |s.pt|
  }

  /** The test of the loop of `wait_for_any_child`, and what follows it. */
  function AnyTurn(s: Procs, p: Pid): Procs
    requires Shape(s) && p < |s.pt|
  {
    if HasExited(s, p) then Reap(s, p, s.pt[p].exited[0]) else SetWaiting(s, p, ForAny(true))
  }

  function AnyOutcome(s: Procs, p: Pid): Outcome {
    if HasExited(s, p) then Returns(s.pt[p].exited[0]) else Sleeps
  }

  /** The same for `wait_for_specific_child`. */
  function ChildTurn(s: Procs, p: Pid, c: Pid): Procs
    requires Shape(s) && p < |s.pt| && c < |s.pt|
  {
    if s.pt[c].pstate == ALIVE then SetWaiting(s, p, ForChild(c, true)) else Reap(s, p, c)
  }

  function ChildOutcome(s: Procs, c: Pid): Outcome
    requires c < |s.pt|
  {
    if s.pt[c].pstate == ALIVE then Sleeps else Returns(c)
  }

  /** `cpid` is the pid of a child of `p`. */
  predicate Legal(s: Procs, p: Pid, cpid: int) {
    0 <= cpid < |s.pt| && s.pt[cpid].pstate != FREE && s.pt[cpid].parent == Child(p)
  }

  function WaitChild(s: Procs, p: Pid, cpid: int): Procs
    requires Shape(s) && p < |s.pt|
  {
    if cpid == NOPROC then (if s.pt[p].children == [] then s else AnyTurn(s, p))
    else if Legal(s, p, cpid) then ChildTurn(s, p, cpid) else s
  }

  function WaitOutcome(s: Procs, p: Pid, cpid: int): Outcome
    requires Shape(s) && p < |s.pt|
  {
    if cpid == NOPROC then (if s.pt[p].children == [] then Returns(NOPROC) else AnyOutcome(s, p))
    else if Legal(s, p, cpid) then ChildOutcome(s, cpid) else Returns(NOPROC)
  }

  /** The waiting thread runs again, at the test of its loop. */
  function GoOn(s: Procs, p: Pid): Procs
    requires Shape(s) && p < |s.pt| && (s.waiting[p].ForChild? ==> s.waiting[p].child < |s.pt|)
  {
    match s.waiting[p]
    case NotWaiting => s
    case ForAny(_) => AnyTurn(s, p)
    case ForChild(c, _) => ChildTurn(s, p, c)
  }

  function GoOnOutcome(s: Procs, p: Pid): Outcome
    requires Shape(s) && p < |s.pt| && (s.waiting[p].ForChild? ==> s.waiting[p].child < |s.pt|)
  {
    if s.waiting[p].ForChild? then ChildOutcome(s, s.waiting[p].child) else AnyOutcome(s, p)
  }

  // ----- the steps -----

  datatype PStep =
    | DoExec(p: Pid, hasTask: bool)
    | DoCreateThread(p: Pid)
    | DoThreadExit(p: Pid, v: int)
    | DoWait(p: Pid, cpid: int)
    | DoGoOn(p: Pid)

  /** The threads of `p` that are not waiting for a child. */
  function Busy(s: Procs, p: Pid): int
    requires p < |s.pt| && p < |s.waiting|
  {
    s.pt[p].threadCount - if s.waiting[p] == NotWaiting then 0 else 1
  }

  predicate Runs(s: Procs, p: Pid) {
    p < |s.pt| && p < |s.waiting| && s.pt[p].pstate == ALIVE && Busy(s, p) > 0
  }

  /** Two provisos: one thread of a process waits for children at a time, and the last thread of
      init does not leave while init has children. */
  predicate PEnabled(s: Procs, a: PStep) {
    && Shape(s)
    && match a
       case DoExec(p, _) => Runs(s, p)
       case DoCreateThread(p) => Runs(s, p)
       case DoThreadExit(p, _) => Runs(s, p) && (s.pt[p].threadCount == 1 ==> Leavable(s, p))
       case DoWait(p, _) => Runs(s, p) && s.waiting[p] == NotWaiting
       case DoGoOn(p) =>
         && p < |s.pt| && s.waiting[p] != NotWaiting && !s.waiting[p].asleep
         && (s.waiting[p].ForChild? ==> s.waiting[p].child < |s.pt|)
  }

  function PApply(s: Procs, a: PStep): Procs
    requires PEnabled(s, a)
  {
    match a
    case DoExec(p, hasTask) => Exec(s, p, hasTask)
    case DoCreateThread(p) => SetPcb(s, p, s.pt[p].(threadCount := s.pt[p].threadCount + 1))
    case DoThreadExit(p, v) => ThreadExit(s, p, v)
    case DoWait(p, cpid) => WaitChild(s, p, cpid)
    case DoGoOn(p) => GoOn(s, p)
  }
}
