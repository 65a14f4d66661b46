/** The code of kernel_proc.c, and the process side of kernel_threads.c, over process control
    blocks changed in place. Each call is proved against the step of the same name in
    `ProcModel`, and keeps the invariant of the process table. */
module Processes {
  import opened ListSpec
  import opened ProcModel
  import opened ProcInvariant
  import opened ProcSteps

  class PCB {
    const pid: Pid
    var pstate: PidState
    var parent: PCB?  // of a free block: the next free one
    var exitval: int
    var threadCount: nat
    var children: seq<Pid>
    var exited: seq<Pid>
    ghost var id: nat

    constructor (pid: Pid)
      ensures this.pid == pid
    {
      this.pid := pid;
    }

    ghost function View(): Pcb
      reads this
    {
      Pcb(pstate, if pstate == FREE || parent == null then NoParent else Child(parent.pid),
          exitval, threadCount, children, exited, id)
    }

    method Initialize()
      modifies this
      ensures View() == InitialPcb()
    {
      pstate := FREE;
      threadCount := 0;
      children, exited := [], [];
      exitval, id := 0, 0;
    }
  }

  class ProcTable {
    const PT: seq<PCB>
    var pcbFreelist: PCB?
    var processCount: int
    ghost var free: seq<Pid>
    var waiting: seq<Waiting>  // where the waiting thread of each process is
    ghost var clock: nat
    ghost var exits: map<nat, int>
    ghost var reaps: seq<(nat, int)>

    /** The table has every pid at its place. */
    ghost predicate Table() {
      |PT| >= 2 && forall i :: 0 <= i < |PT| ==> PT[i].pid == i
    }

    /** The block after position `i` of the free list. */
    ghost function After(i: nat): PCB?
      requires i < |free| && forall j :: 0 <= j < |free| ==> free[j] < |PT|
      reads this`free
    {
      if i + 1 < |free| then PT[free[i + 1]] else null
    }

    /** The free list is threaded through the parent fields, without a cycle. */
    ghost predicate FreeChain()
      reads this`free, this`pcbFreelist, PT`pstate, PT`parent
    {
      && NoDup(free)
      && (forall i :: 0 <= i < |free| ==> free[i] < |PT|)
      && pcbFreelist == (if free == [] then null else PT[free[0]])
      && forall i :: 0 <= i < |free| ==> PT[free[i]].pstate == FREE && PT[free[i]].parent == After(i)
    }

    ghost predicate Valid()
      reads this, PT
    {
      && Table() && FreeChain() && |waiting| == |PT|
      && forall i :: 0 <= i < |PT| ==> InTable(PT[i].parent)
    }

    ghost predicate InTable(b: PCB?) {
      b != null ==> b.pid < |PT| && PT[b.pid] == b
    }

    ghost function View(): Procs
      reads this, PT
    {
      Procs(seq(|PT|, i requires 0 <= i < |PT| reads PT => PT[i].View()), free, processCount, waiting, clock, exits, reaps)
    }

    constructor (pt: seq<PCB>)
      requires |pt| >= 2 && forall i :: 0 <= i < |pt| ==> pt[i].pid == i
      ensures PT == pt && Table()
    {
      PT := pt;
    }

    // ----- the free list -----

    method InitializeProcesses()
      requires Table()
      modifies this, PT
      ensures Valid() && View() == Empty(|PT|)
    {
      hide FreeChain;
      for p := 0 to |PT|
        invariant forall i :: 0 <= i < p ==> PT[i].View() == InitialPcb()
      {
        PT[p].Initialize();
      }
      BuildFreelist();
      processCount := 0;
      waiting, clock, exits, reaps := seq(|PT|, i => NotWaiting), 0, map[], [];
      assert View() == Empty(|PT|);
    }

    ghost function NextBlock(i: int): PCB?
      requires -1 <= i < |PT|
    {
      if i + 1 < |PT| then PT[i + 1] else null
    }

    ghost predicate Threaded(i: nat)
      requires i < |PT|
      reads PT`parent
    {
      PT[i].parent == NextBlock(i)
    }

    /** From the last block down to the first, each is put in front of the list. */
    method BuildFreelist()
      requires Table() && forall i :: 0 <= i < |PT| ==> PT[i].pstate == FREE
      modifies this`pcbFreelist, this`free, PT`parent
      ensures FreeChain() && free == seq(|PT|, i => i)
      ensures forall i :: 0 <= i < |PT| ==> InTable(PT[i].parent)
    {
      hide FreeChain, NextBlock;
      pcbFreelist, free := null, [];
      var n := |PT|;
      NextBlockIs(n);
      while n != 0
        invariant 0 <= n <= |PT|
        invariant |free| == |PT| - n && (forall i :: 0 <= i < |free| ==> free[i] == n + i)
        invariant pcbFreelist == NextBlock(n - 1)
        invariant forall i :: n <= i < |PT| ==> Threaded(i)
      {
        n := n - 1;
        assert forall i :: n < i < |PT| ==> Threaded(i) && PT[i].pid != PT[n].pid;
        PT[n].parent := pcbFreelist;
        pcbFreelist := PT[n];
        free := [n] + free;
        NextBlockIs(n);
      }
      ListIsBuilt();
    }

    lemma NextBlockIs(i: nat)
      requires i <= |PT|
      ensures NextBlock(i - 1) == if i < |PT| then PT[i] else null
    {
    }

    lemma ListIsBuilt()
      requires Table() && forall i :: 0 <= i < |PT| ==> PT[i].pstate == FREE && Threaded(i)
      requires |free| == |PT| && (forall i :: 0 <= i < |free| ==> free[i] == i) && pcbFreelist == NextBlock(-1)
      ensures FreeChain() && forall i :: 0 <= i < |PT| ==> InTable(PT[i].parent)
    {
      hide NextBlock;
      NextBlockIs(0);
      forall i | 0 <= i < |PT| ensures InTable(PT[i].parent) && PT[free[i]].parent == After(i) {
        assert free[i] == i && Threaded(i);
        NextBlockIs(i + 1);
        assert i + 1 < |free| ==> free[i + 1] == i + 1;
      }
    }

    method AcquirePCB() returns (pcb: PCB?)
      requires Valid()
      modifies this, PT
      ensures Valid()
      ensures if old(free) == [] then pcb == null && View() == old(View())
              else
                && pcb == PT[old(free)[0]] && Shape(old(View()))
                && SetParent(View(), pcb.pid, NoParent) == Acquire(old(View()))
    {
      pcb := null;
      if pcbFreelist != null {
        pcb := pcbFreelist;
        pcb.pstate := ALIVE;
        pcb.threadCount := 0;
        pcbFreelist := pcb.parent;
        free := free[1..];
        processCount := processCount + 1;
        assert View().pt == old(View()).pt[pcb.pid := pcb.View()];
        assert FreeChain() by {
          assert forall i :: 0 <= i < |free| ==> free[i] == old(free)[i + 1] && PT[free[i]] != pcb;
        }
      }
    }

    method ReleasePCB(pcb: PCB)
      requires Valid() && InTable(pcb) && pcb.pstate != FREE
      modifies this`pcbFreelist, this`processCount, this`free, pcb
      ensures Valid()
      ensures View() == SetPcb(old(View()), pcb.pid, old(pcb.View()).(pstate := FREE, parent := NoParent)).(
        free := [pcb.pid] + old(free), count := old(processCount) - 1)
    {
      hide FreeChain;
      PushFree(pcb);
      processCount := processCount - 1;
      assert View().pt == old(View()).pt[pcb.pid := pcb.View()];
    }

    /** The block becomes the head of the free list. */
    method PushFree(pcb: PCB)
      requires Table() && FreeChain() && InTable(pcb) && pcb.pstate != FREE
      modifies this`pcbFreelist, this`free, pcb`pstate, pcb`parent
      ensures FreeChain() && free == [pcb.pid] + old(free)
      ensures pcb.pstate == FREE && pcb.parent == old(pcbFreelist) && pcbFreelist == pcb && InTable(pcb.parent)
    {
      assert pcb.pid !in free;
      pcb.pstate := FREE;
      pcb.parent := pcbFreelist;
      pcbFreelist := pcb;
      free := [pcb.pid] + free;
      assert forall i :: 1 <= i < |free| ==> free[i] == old(free)[i - 1] && PT[free[i]] != pcb;
    }

    // ----- creation -----

    /** The place of a new process in the tree. */
    method AdoptPCB(curproc: PCB, newproc: PCB)
      requires Valid() && InTable(curproc) && InTable(newproc) && newproc.pstate != FREE
      modifies newproc`parent, curproc`children
      ensures Valid() && View() == Adopt(old(View()), curproc.pid, newproc.pid)
    {
      if newproc.pid <= 1 {
        newproc.parent := null;
      } else {
        newproc.parent := curproc;
        curproc.children := [newproc.pid] + curproc.children;
      }
      assert View().pt == Adopt(old(View()), curproc.pid, newproc.pid).pt;
    }

    /** The main thread of a new process, if it has one. */
    method StartMainThread(newproc: PCB, hasTask: bool)
      requires Valid() && InTable(newproc)
      modifies this`clock, newproc`id, newproc`threadCount
      ensures Valid() && View() == Started(old(View()), newproc.pid, hasTask)
    {
      newproc.id, clock := clock, clock + 1;
      if hasTask {
        newproc.threadCount := newproc.threadCount + 1;
      }
      assert View().pt == Started(old(View()), newproc.pid, hasTask).pt;
    }

    method SysExec(curproc: PCB, hasTask: bool) returns (r: int)
      requires Valid() && InTable(curproc)
      modifies this, PT
      ensures Valid() && Shape(old(View()))
      ensures View() == Exec(old(View()), curproc.pid, hasTask) && r == ExecReturns(old(View()))
    {
      hide Exec, Acquire, Adopt, Started;
      ghost var s, p := View(), curproc.pid;
      var newproc := AcquirePCB();
      if newproc == null {
        ExecFails(s, p, hasTask);
        return NOPROC;
      }
      ghost var s1, q := View(), newproc.pid;
      AcquireUses(s);
      AdoptPCB(curproc, newproc);
      StartMainThread(newproc, hasTask);
      ExecStages(s, s1, p, q, hasTask);
      return newproc.pid;
    }

    method SysCreateThread(curproc: PCB)
      requires Valid() && InTable(curproc) && PInv(View()) && PEnabled(View(), DoCreateThread(curproc.pid))
      modifies curproc`threadCount
      ensures Valid() && PInv(View()) && View() == PApply(old(View()), DoCreateThread(curproc.pid))
    {
      hide PInv;
      ghost var s, p := View(), curproc.pid;
      CreateThreadKeeps(s, p);
      curproc.threadCount := curproc.threadCount + 1;
      assert View().pt == PApply(s, DoCreateThread(p)).pt;
    }

    // ----- exit -----

    method PutChildren(pcb: PCB, l: seq<Pid>)
      requires Valid() && InTable(pcb)
      modifies pcb`children
      ensures Valid() && View() == SetChildren(old(View()), pcb.pid, l) && pcb.children == l
    {
      pcb.children := l;
      assert View().pt == SetChildren(old(View()), pcb.pid, l).pt;
    }

    method PutParent(child: PCB, parent: PCB)
      requires Valid() && InTable(child) && InTable(parent) && child.pstate != FREE
      modifies child`parent
      ensures Valid() && View() == SetParent(old(View()), child.pid, Child(parent.pid))
    {
      child.parent := parent;
      assert View().pt == SetParent(old(View()), child.pid, Child(parent.pid)).pt;
    }

    /** One turn of the loop below. */
    method GiveChild(curproc: PCB, initpcb: PCB)
      requires Valid() && InTable(curproc) && InTable(initpcb) && initpcb.pid == INIT
      requires curproc.children != [] && curproc.children[0] < |PT| && PT[curproc.children[0]].pstate != FREE
      modifies curproc`children, initpcb`children, PT`parent
      ensures Valid() && View() == MoveChild(old(View()), curproc.pid)
    {
      hide FreeChain;
      var child := PT[curproc.children[0]];
      PutChildren(curproc, curproc.children[1..]);
      PutParent(child, initpcb);
      PutChildren(initpcb, [child.pid] + initpcb.children);
    }

    /** The children of an exiting process go to init, one after the other. */
    method ReparentChildren(curproc: PCB)
      requires Valid() && InTable(curproc) && (curproc.pid == INIT ==> curproc.children == [])
      requires ChildrenInUse(View(), curproc.pid)
      modifies PT`children, PT`parent
      ensures Valid() && View() == Reparent(old(View()), curproc.pid)
    {
      hide MoveChild;
      ghost var s, p := View(), curproc.pid;
      var initpcb := PT[INIT];
      while curproc.children != []
        invariant Valid() && (p == INIT ==> curproc.children == []) && ChildrenInUse(View(), p)
        invariant Reparent(View(), p) == Reparent(s, p)
        decreases |curproc.children|
      {
        MoveChildUses(View(), p);
        GiveChild(curproc, initpcb);
      }
    }

    /** The exited children of `curproc` go to init. */
    method InheritExited(curproc: PCB)
      requires Valid() && InTable(curproc) && (curproc.pid == INIT ==> curproc.exited == [])
      modifies PT`exited, this`waiting
      ensures Valid() && Shape(old(View())) && View() == Inherit(old(View()), curproc.pid)
    {
      var initpcb := PT[INIT];
      if curproc.exited != [] {
        initpcb.exited := initpcb.exited + curproc.exited;
        curproc.exited := [];
        waiting := waiting[INIT := Awake(waiting[INIT])];
      }
      assert View().pt == Inherit(old(View()), curproc.pid).pt;
    }

    /** `curproc` goes to its parent's list of exited children. */
    method ReportExit(curproc: PCB)
      requires Valid() && InTable(curproc) && curproc.pstate != FREE
      modifies PT`exited, this`waiting
      ensures Valid() && Shape(old(View())) && View() == Report(old(View()), curproc.pid)
    {
      if curproc.parent != null {
        var parent := curproc.parent;
        parent.exited := [curproc.pid] + parent.exited;
        waiting := waiting[parent.pid := Awake(waiting[parent.pid])];
      }
      assert View().pt == Report(old(View()), curproc.pid).pt;
    }

    /** The children, the exited children and the process itself are handed over. */
    method HandOver(curproc: PCB)
      requires Valid() && InTable(curproc) && curproc.pstate != FREE
      requires Leavable(View(), curproc.pid) && ChildrenInUse(View(), curproc.pid)
      requires curproc.pid == INIT ==> curproc.exited == [] && curproc.children == []
      modifies this`waiting, PT`children, PT`exited, PT`parent
      ensures Valid() && Leavable(old(View()), curproc.pid)
      ensures View() == HandedOver(old(View()), curproc.pid)
    {
      hide FreeChain, Reparent, Inherit, Report, ChildrenInUse, PCB.View, ProcTable.View;
      ReparentShape(View(), curproc.pid);
      ReparentChildren(curproc);
      InheritExited(curproc);
      ReportExit(curproc);
    }

    method SetExitval(curproc: PCB, v: int)
      requires Valid() && InTable(curproc)
      modifies curproc`exitval
      ensures Valid() && View() == SetPcb(old(View()), curproc.pid, old(curproc.View()).(exitval := v))
    {
      curproc.exitval := v;
      assert View().pt == old(View()).pt[curproc.pid := curproc.View()];
    }

    method MarkZombie(curproc: PCB, v: int)
      requires Valid() && InTable(curproc) && curproc.pstate == ALIVE
      modifies curproc`pstate, this`exits
      ensures Valid()
      ensures View() == SetPcb(old(View()), curproc.pid, old(curproc.View()).(pstate := ZOMBIE)).(exits := old(exits[curproc.id := v]))
    {
      curproc.pstate := ZOMBIE;
      exits := exits[curproc.id := v];
      assert View().pt == old(View()).pt[curproc.pid := curproc.View()];
    }

    /** What the last thread of a process does before it leaves. */
    method TerminateProcess(curproc: PCB, v: int)
      requires Valid() && InTable(curproc) && curproc.pstate == ALIVE
      requires Leavable(View(), curproc.pid) && ChildrenInUse(View(), curproc.pid)
      requires curproc.pid == INIT ==> curproc.exited == []
      modifies this`waiting, this`exits, PT`pstate, PT`exitval, PT`children, PT`exited, PT`parent
      ensures Valid() && View() == Terminate(old(View()), curproc.pid, v)
    {
      hide FreeChain, HandedOver, Terminate, ChildrenInUse;
      ghost var s, p := View(), curproc.pid;
      SetExitval(curproc, v);
      ghost var s1 := View();
      SameChildrenInUse(s, s1, p);
      TerminateParts(s, s1, p, v);
      HandOver(curproc);
      MarkZombie(curproc, v);
    }

    method SysThreadExit(curproc: PCB, v: int)
      requires Valid() && InTable(curproc) && PInv(View()) && PEnabled(View(), DoThreadExit(curproc.pid, v))
      modifies this`waiting, this`exits, PT
      ensures Valid() && PInv(View()) && View() == PApply(old(View()), DoThreadExit(curproc.pid, v))
    {
      hide PInv, Terminate, ChildrenInUse;
      ghost var s, p := View(), curproc.pid;
      ThreadExitKeeps(s, p, v);
      ExitFacts(s, p);
      curproc.threadCount := curproc.threadCount - 1;
      ghost var s1 := SetPcb(s, p, s.pt[p].(threadCount := s.pt[p].threadCount - 1));
      assert View().pt == s1.pt;
      if curproc.threadCount == 0 {
        SameChildrenInUse(s, s1, p);
        TerminateProcess(curproc, v);
      }
    }

    // ----- waiting -----

    method CleanupZombie(parent: PCB, child: PCB) returns (status: int)
      requires Valid() && InTable(parent) && InTable(child) && parent != child && child.pstate != FREE
      modifies this`pcbFreelist, this`processCount, this`free, this`reaps, parent`children, parent`exited, child
      ensures Valid() && View() == Cleanup(old(View()), parent.pid, child.pid)
      ensures status == old(child.exitval)
    {
      hide Remove;
      ghost var s := View();
      status := child.exitval;
      reaps := reaps + [(child.id, status)];
      parent.children := Remove(parent.children, child.pid);
      parent.exited := Remove(parent.exited, child.pid);
      ghost var s1 := View();
      assert s1.pt == s.pt[parent.pid := parent.View()];
      ReleasePCB(child);
    }

    /** A status is reported, and the wait is over. */
    method ReapChild(parent: PCB, child: PCB) returns (status: int)
      requires Valid() && InTable(parent) && PInv(View()) && InTable(child) && IsExited(View(), child.pid, parent.pid)
      modifies this, PT
      ensures Valid() && PInv(View()) && Shape(old(View())) && View() == Reap(old(View()), parent.pid, child.pid)
      ensures status == old(child.exitval)
    {
      hide PInv, FreeChain, Cleanup;
      ghost var s := View();
      PInvShape(s);
      ReapKeeps(s, parent.pid, child.pid);
      ExitedFacts(s, child.pid, parent.pid);
      status := CleanupZombie(parent, child);
      waiting := waiting[parent.pid := NotWaiting];
      assert View() == Reap(s, parent.pid, child.pid);
    }

    /** The loop of `wait_for_any_child`, at its test. */
    method WaitForAnyChild(parent: PCB) returns (outcome: Outcome, status: int)
      requires Valid() && InTable(parent) && PInv(View())
      requires parent.pstate == ALIVE && parent.threadCount > 0 && parent.children != []
      modifies this, PT
      ensures Valid() && PInv(View()) && Shape(old(View())) && View() == AnyTurn(old(View()), parent.pid)
      ensures outcome == AnyOutcome(old(View()), parent.pid)
      ensures outcome.Returns? ==> 0 <= outcome.value < |old(View()).pt| && status == old(View()).pt[outcome.value].exitval
    {
      hide PInv, FreeChain, Reap;
      ghost var s, p := View(), parent.pid;
      PInvShape(s);
      AnyTurnKeeps(s, p);
      outcome, status := Sleeps, 0;
      if parent.exited == [] {
        waiting := waiting[parent.pid := ForAny(true)];
        assert View() == AnyTurn(s, p);
      } else {
        FirstExited(s, p);
        var child := PT[parent.exited[0]];
        assert child.pstate == ZOMBIE;
        status := ReapChild(parent, child);
        outcome := Returns(child.pid);
      }
    }

    /** The loop of `wait_for_specific_child`, at its test. */
    method WaitForSpecificChild(parent: PCB, child: PCB) returns (outcome: Outcome, status: int)
      requires Valid() && InTable(parent) && PInv(View()) && InTable(child) && IsChild(View(), child.pid, parent.pid)
      requires parent.pstate == ALIVE && parent.threadCount > 0
      modifies this, PT
      ensures Valid() && PInv(View()) && Shape(old(View())) && View() == ChildTurn(old(View()), parent.pid, child.pid)
      ensures outcome == ChildOutcome(old(View()), child.pid)
      ensures outcome.Returns? ==> status == old(View()).pt[child.pid].exitval
    {
      hide PInv, FreeChain, Reap;
      ghost var s, p := View(), parent.pid;
      PInvShape(s);
      ChildTurnKeeps(s, p, child.pid);
      outcome, status := Sleeps, 0;
      if child.pstate == ALIVE {
        waiting := waiting[parent.pid := ForChild(child.pid, true)];
        assert View() == ChildTurn(s, p, child.pid);
      } else {
        status := ReapChild(parent, child);
        outcome := Returns(child.pid);
      }
    }

    /** WaitChild, up to where it first sleeps. */
    method SysWaitChild(curproc: PCB, cpid: int) returns (outcome: Outcome, status: int)
      requires Valid() && InTable(curproc) && PInv(View()) && PEnabled(View(), DoWait(curproc.pid, cpid))
      modifies this, PT
      ensures Valid() && PInv(View()) && View() == PApply(old(View()), DoWait(curproc.pid, cpid))
      ensures outcome == WaitOutcome(old(View()), curproc.pid, cpid)
      ensures cpid != NOPROC ==>
        && (outcome == Returns(NOPROC) <==> !(0 <= cpid && IsChild(old(View()), cpid, curproc.pid)))
        && (outcome == Returns(cpid) <==> 0 <= cpid && IsExited(old(View()), cpid, curproc.pid))
      ensures cpid == NOPROC ==>
        && (outcome == Returns(NOPROC) <==> old(curproc.children) == [])
        && (old(curproc.exited) != [] ==> outcome == Returns(old(curproc.exited)[0]))
      ensures outcome.Returns? && outcome.value != NOPROC ==>
        0 <= outcome.value < |old(View()).pt| && status == old(View()).pt[outcome.value].exitval
    {
      hide PInv, FreeChain, AnyTurn, ChildTurn;
      WaitAnswers(View(), curproc.pid, cpid);
      outcome, status := Returns(NOPROC), 0;
      if cpid != NOPROC {
        if 0 <= cpid < |PT| {
          var child := PT[cpid];
          if child.pstate != FREE && child.parent == curproc {
            outcome, status := WaitForSpecificChild(curproc, child);
          }
        }
      } else if curproc.children != [] {
        outcome, status := WaitForAnyChild(curproc);
      }
    }

    /** The waiting thread of a process goes on after `kernel_wait`. */
    method GoOnWaiting(curproc: PCB) returns (outcome: Outcome, status: int)
      requires Valid() && InTable(curproc) && PInv(View()) && PEnabled(View(), DoGoOn(curproc.pid))
      modifies this, PT
      ensures Valid() && PInv(View()) && View() == PApply(old(View()), DoGoOn(curproc.pid))
      ensures outcome == GoOnOutcome(old(View()), curproc.pid)
      ensures outcome.Returns? ==> 0 <= outcome.value < |old(View()).pt| && status == old(View()).pt[outcome.value].exitval
    {
      hide PInv, FreeChain, AnyTurn, ChildTurn;
      WaiterFacts(View(), curproc.pid);
      match waiting[curproc.pid]
      case ForChild(c, _) => outcome, status := WaitForSpecificChild(curproc, PT[c]);
      case ForAny(_) => outcome, status := WaitForAnyChild(curproc);
    }
  }

  ghost function HandedOver(s: Procs, p: Pid): Procs
    requires Leavable(s, p)
  {
    ReparentShape(s, p);
    Report(Inherit(Reparent(s, p), p), p)
  }

  lemma ReportSize(s: Procs, p: Pid)
    requires Shape(s) && p < |s.pt| && (s.pt[p].parent.Child? ==> s.pt[p].parent.of < |s.pt|)
    ensures var s1 := Inherit(s, p); Shape(s1) && |s1.pt| == |s.pt| && s1.pt[p].parent == s.pt[p].parent
    ensures |Report(Inherit(s, p), p).pt| == |s.pt|
  {
  }

  lemma TerminateParts(s: Procs, s1: Procs, p: Pid, v: int)
    requires Leavable(s, p) && s1 == SetPcb(s, p, s.pt[p].(exitval := v))
    ensures Leavable(s1, p) && |HandedOver(s1, p).pt| == |s.pt|
    ensures var s2 := HandedOver(s1, p);
      Terminate(s, p, v) == SetPcb(s2, p, s2.pt[p].(pstate := ZOMBIE)).(exits := s.exits[s.pt[p].id := v])
  {
    hide Report, Inherit, Reparent;
    ReparentShape(s1, p);
    ReportSize(Reparent(s1, p), p);
  }

  lemma SameChildrenInUse(s: Procs, s': Procs, p: Pid)
    requires ChildrenInUse(s, p) && |s'.pt| == |s.pt| && s'.pt[p].children == s.pt[p].children
    requires forall x :: 0 <= x < |s.pt| ==> s'.pt[x].pstate == s.pt[x].pstate
    ensures ChildrenInUse(s', p)
  {
  }

  lemma ExitedFacts(s: Procs, c: Pid, p: Pid)
    requires PInv(s) && IsExited(s, c, p)
    ensures p < |s.pt| && c < |s.pt| && c != p && Used(s, c)
  {
    ParentLives(s, c, p);
  }

  lemma FirstExited(s: Procs, p: Pid)
    requires PInv(s) && p < |s.pt| && s.pt[p].exited != []
    ensures IsExited(s, s.pt[p].exited[0], p) && HasExited(s, p)
  {
    assert ListsOf(s, p);
    assert s.pt[p].exited[0] in s.pt[p].exited;
  }

  lemma WaitAnswers(s: Procs, p: Pid, cpid: int)
    requires PInv(s) && Shape(s) && p < |s.pt|
    ensures cpid != NOPROC ==>
      && (WaitOutcome(s, p, cpid) == Returns(NOPROC) <==> !(0 <= cpid && IsChild(s, cpid, p)))
      && (WaitOutcome(s, p, cpid) == Returns(cpid) <==> 0 <= cpid && IsExited(s, cpid, p))
    ensures cpid == NOPROC ==>
      && (WaitOutcome(s, p, cpid) == Returns(NOPROC) <==> s.pt[p].children == [])
      && (s.pt[p].exited != [] ==> WaitOutcome(s, p, cpid) == Returns(s.pt[p].exited[0]))
  {
    if s.pt[p].exited != [] {
      FirstExited(s, p);
      assert ListsOf(s, p);
      assert s.pt[p].exited[0] in s.pt[p].children;
    }
  }

  lemma ExitFacts(s: Procs, p: Pid)
    requires PInv(s) && p < |s.pt|
    ensures ChildrenInUse(s, p) && (p == INIT && s.pt[p].children == [] ==> s.pt[p].exited == [])
  {
    var children, exited := s.pt[p].children, s.pt[p].exited;
    assert ListsOf(s, p);
    forall i | 0 <= i < |children| ensures Used(s, children[i]) {
      assert children[i] in children;
    }
    if |exited| > 0 {
      assert exited[0] in exited && exited[0] in children;
    }
  }

  predicate ChildrenInUse(s: Procs, p: Pid) {
    p < |s.pt| && forall i :: 0 <= i < |s.pt[p].children| ==> s.pt[p].children[i] < |s.pt| && Used(s, s.pt[p].children[i])
  }

  lemma MoveChildUses(s: Procs, p: Pid)
    requires p < |s.pt| && INIT < |s.pt| && p != INIT && s.pt[p].children != []
    requires ChildrenInUse(s, p)
    ensures Used(s, s.pt[p].children[0])
    ensures var s' := MoveChild(s, p);
      |s'.pt| == |s.pt| && s'.pt[p].children == s.pt[p].children[1..] && ChildrenInUse(s', p)
  {
  }

  ghost function Started(s: Procs, q: Pid, hasTask: bool): Procs
    requires q < |s.pt|
  {
    var n := s.pt[q].threadCount;
    SetPcb(s, q, s.pt[q].(id := s.clock, threadCount := if hasTask then n + 1 else n)).(clock := s.clock + 1)
  }

  lemma AcquireUses(s: Procs)
    requires Shape(s) && s.free != []
    ensures Used(Acquire(s), s.free[0])
  {
  }

  lemma ExecStages(s: Procs, s1: Procs, p: Pid, q: Pid, hasTask: bool)
    requires Shape(s) && p < |s.pt| && s.free != [] && q == s.free[0]
    requires |s1.pt| == |s.pt| && SetParent(s1, q, NoParent) == Acquire(s)
    ensures |Adopt(s1, p, q).pt| == |s.pt| && Exec(s, p, hasTask) == Started(Adopt(s1, p, q), q, hasTask)
  {
    assert Adopt(s1, p, q).pt == Adopt(Acquire(s), p, q).pt;
  }
}
