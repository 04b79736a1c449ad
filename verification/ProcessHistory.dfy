/**
 What the steps of a run have to do with the states it passes: which exit gave a status, which
 fork made a process and who is its parent, and what became of every pid.
 */
module ProcessHistory {
  import opened Process
  import opened ProcessRuns

  // ----- steps that concern neither fork, exit nor wait --------------------------------------------

  /** exit is on its way and will give this status. */
  predicate Carries(pc: Pc, status: int) {
    (pc.Reparent? || pc.ReparentWake? || pc.ExitWake?) && pc.status == status
  }

  /** Where the process is in exit and in fork, who it is and whose child did not change. */
  predicate Uninvolved(p: Proc, p': Proc) {
    && p'.pid == p.pid && p'.parent == p.parent && p'.xstate == p.xstate
    && (Started(p'.state) <==> Started(p.state)) && (p'.state == ZOMBIE <==> p.state == ZOMBIE)
    && (p'.state == UNUSED <==> p.state == UNUSED)
    && (ExitScan(p'.pc) || ExitScan(p.pc) ==> p'.pc == p.pc)
    && (Forking(p'.pc) || Forking(p.pc) ==> Core(p'.pc) == Core(p.pc))
  }

  predicate SameTables(s: Kernel, s': Kernel) {
    && |s'.procs| == |s.procs| && s'.init == s.init && s'.nextpid == s.nextpid && s'.exited == s.exited
    && s'.reaped == s.reaped
  }

  lemma {:induction false} Shape(s: Kernel, x: nat)
    requires LocalOk(s) && x < |s.procs|
    ensures var p := s.procs[x];
            && (p.pc.SleepMark? || Preemptible(p.pc) ==> p.state == RUNNING)
            && (p.pc.SwYield? || p.pc.Yielded? || p.pc.Resume? ==> Preemptible(p.pc.back))
            && (p.state == RUNNABLE && !p.lock ==> p.pc.New? || p.pc.Yielded? || p.pc.Asleep?)
            && (ExitScan(p.pc) ==> p.state == RUNNING)
  {
    hide LocalOk;
    LocalAt(s, x);
  }

  lemma {:induction false} UninvolvedSwitch(s: Kernel, a: Step, x: nat)
    requires LocalOk(s) && CanThread(s, a) && x < |s.procs| && (a.Dispatch? || a.SwitchOut?)
    ensures SameTables(s, DoThread(s, a)) && Uninvolved(s.procs[x], DoThread(s, a).procs[x])
  {
    hide LocalOk;
    Shape(s, x);
  }

  lemma {:induction false} UninvolvedYield(s: Kernel, a: Step, x: nat)
    requires LocalOk(s) && CanThread(s, a) && x < |s.procs| && (a.DoResume? || a.DoYield?)
    ensures SameTables(s, DoThread(s, a)) && Uninvolved(s.procs[x], DoThread(s, a).procs[x])
  {
    hide LocalOk;
    Shape(s, x);
  }

  lemma {:induction false} UninvolvedKill(s: Kernel, a: Step, x: nat)
    requires LocalOk(s) && CanThread(s, a) && x < |s.procs| && (a.Kill? || a.DoKillScan?)
    ensures SameTables(s, DoThread(s, a)) && Uninvolved(s.procs[x], DoThread(s, a).procs[x])
  {
    hide LocalOk;
    Shape(s, x);
  }

  lemma {:induction false} UninvolvedToSleep(s: Kernel, a: Step, x: nat)
    requires LocalOk(s) && CanThread(s, a) && x < |s.procs| && (a.DoSleepEnter? || a.DoSleepMark?)
    ensures SameTables(s, DoThread(s, a)) && Uninvolved(s.procs[x], DoThread(s, a).procs[x])
  {
    hide LocalOk;
    Shape(s, x);
  }

  lemma {:induction false} UninvolvedFromSleep(s: Kernel, a: Step, x: nat)
    requires LocalOk(s) && CanThread(s, a) && x < |s.procs| && (a.DoSleepBack? || a.DoSleepLocked?)
    ensures SameTables(s, DoThread(s, a)) && Uninvolved(s.procs[x], DoThread(s, a).procs[x])
  {
    hide LocalOk;
    Shape(s, x);
  }

  lemma {:induction false} UninvolvedReacquire(s: Kernel, a: Step, x: nat)
    requires LocalOk(s) && CanThread(s, a) && x < |s.procs| && a.DoReacquire?
    ensures SameTables(s, DoThread(s, a)) && Uninvolved(s.procs[x], DoThread(s, a).procs[x])
  {
    hide LocalOk;
    Shape(s, x);
  }

  lemma {:induction false} UninvolvedThread(s: Kernel, a: Step, x: nat)
    requires LocalOk(s) && CanThread(s, a) && x < |s.procs|
    ensures SameTables(s, DoThread(s, a)) && Uninvolved(s.procs[x], DoThread(s, a).procs[x])
  {
    hide LocalOk, DoThread, Uninvolved, SameTables;
    if a.Dispatch? || a.SwitchOut? {
      UninvolvedSwitch(s, a, x);
    } else if a.DoResume? || a.DoYield? {
      UninvolvedYield(s, a, x);
    } else if a.Kill? || a.DoKillScan? {
      UninvolvedKill(s, a, x);
    } else if a.DoSleepEnter? || a.DoSleepMark? {
      UninvolvedToSleep(s, a, x);
    } else if a.DoSleepBack? || a.DoSleepLocked? {
      UninvolvedFromSleep(s, a, x);
    } else {
      UninvolvedReacquire(s, a, x);
    }
  }

  lemma {:induction false} UninvolvedEnter(s: Kernel, a: Step, x: nat)
    requires LocalOk(s) && CanLock(s, a) && x < |s.procs| && (a.Enter? || a.Leave?)
    ensures SameTables(s, DoLock(s, a)) && Uninvolved(s.procs[x], DoLock(s, a).procs[x])
  {
    hide LocalOk;
    Shape(s, x);
  }

  lemma {:induction false} UninvolvedInside(s: Kernel, a: Step, x: nat)
    requires LocalOk(s) && CanLock(s, a) && x < |s.procs| && (a.Change? || a.SleepOn? || a.Wakeup?)
    ensures SameTables(s, DoLock(s, a)) && Uninvolved(s.procs[x], DoLock(s, a).procs[x])
  {
    hide LocalOk;
    Shape(s, x);
  }

  lemma {:induction false} UninvolvedSignal(s: Kernel, a: Step, x: nat)
    requires LocalOk(s) && CanLock(s, a) && x < |s.procs| && (a.DoSignal?)
    ensures SameTables(s, DoLock(s, a)) && Uninvolved(s.procs[x], DoLock(s, a).procs[x])
  {
    hide LocalOk;
    Shape(s, x);
  }

  lemma {:induction false} UninvolvedAcquire(s: Kernel, a: Step, x: nat)
    requires LocalOk(s) && CanLock(s, a) && x < |s.procs| && (a.Acquire? || a.DoAcqTest?)
    ensures SameTables(s, DoLock(s, a)) && Uninvolved(s.procs[x], DoLock(s, a).procs[x])
  {
    hide LocalOk;
    Shape(s, x);
  }

  lemma {:induction false} UninvolvedRelease(s: Kernel, a: Step, x: nat)
    requires LocalOk(s) && CanLock(s, a) && x < |s.procs| && (a.Release?)
    ensures SameTables(s, DoLock(s, a)) && Uninvolved(s.procs[x], DoLock(s, a).procs[x])
  {
    hide LocalOk;
    Shape(s, x);
  }

  lemma {:induction false} UninvolvedLock(s: Kernel, a: Step, x: nat)
    requires LocalOk(s) && CanLock(s, a) && x < |s.procs|
    ensures SameTables(s, DoLock(s, a)) && Uninvolved(s.procs[x], DoLock(s, a).procs[x])
  {
    hide LocalOk, DoLock, Uninvolved, SameTables;
    if a.Enter? || a.Leave? {
      UninvolvedEnter(s, a, x);
    } else if a.Change? || a.SleepOn? || a.Wakeup? {
      UninvolvedInside(s, a, x);
    } else if a.DoSignal? {
      UninvolvedSignal(s, a, x);
    } else if a.Acquire? || a.DoAcqTest? {
      UninvolvedAcquire(s, a, x);
    } else {
      UninvolvedRelease(s, a, x);
    }
  }

  lemma {:induction false} UninvolvedIrq(s: Kernel, a: Step, x: nat)
    requires LocalOk(s) && CanIrq(s, a) && x < |s.procs|
    ensures SameTables(s, DoIrq(s, a)) && Uninvolved(s.procs[x], DoIrq(s, a).procs[x])
  {
    hide LocalOk;
    Shape(s, x);
  }

  /** Apart from fork, exit and wait no step touches what follows. */
  lemma {:induction false} StepUninvolved(s: Kernel, a: Step, x: nat)
    requires Inv(s) && Can(s, a) && !CanFamily(s, a) && x < |s.procs|
    ensures SameTables(s, Do(s, a)) && Uninvolved(s.procs[x], Do(s, a).procs[x])
  {
    hide LocalOk, CpuOk, SpinsOk, HeldOk, SleepOk, WaitOk, WaitLockOk, ParentOk, PidOk, HistoryOk, ForkOk, CanThread,
      CanLock, CanIrq, CanFamily, DoThread, DoLock, DoIrq, DoFamily, Uninvolved, SameTables;
    if CanThread(s, a) {
      UninvolvedThread(s, a, x);
    } else if CanLock(s, a) {
      UninvolvedLock(s, a, x);
    } else {
      UninvolvedIrq(s, a, x);
    }
  }

  lemma {:induction false} FamilyDo(s: Kernel, a: Step)
    requires CanFamily(s, a)
    ensures Can(s, a) && Do(s, a) == DoFamily(s, a)
  {
    hide DoFamily, DoThread, DoLock, DoIrq;
  }

  // ----- the status given to exit ---------------------------------------------------------------------

  /** The step is exit(status), called by the process with this pid. */
  predicate GivesNow(s: Kernel, a: Step, pid: nat, status: int) {
    a.Exit? && a.status == status && a.i < |s.procs| && s.procs[a.i].pid == pid
  }

  /** Somewhere in the run the process with this pid called exit(status). */
  ghost predicate Gave(s: Kernel, run: seq<Step>, pid: nat, status: int)
    decreases |run|
  {
    run != [] && Can(s, run[0]) && (GivesNow(s, run[0], pid, status) || Gave(Do(s, run[0]), run[1..], pid, status))
  }

  /** Process x is in exit, with this pid and status. */
  predicate ExitingWith(s: Kernel, x: nat, pid: nat, status: int) {
    x < |s.procs| && Carries(s.procs[x].pc, status) && s.procs[x].pid == pid
  }

  predicate OfExit(a: Step) {
    a.Exit? || a.DoReparent? || a.DoReparentWake? || a.DoExitWake? || a.DoExitZombie?
  }

  lemma {:induction false} ExitExits(s: Kernel, a: Step, x: nat, pid: nat, status: int)
    requires CanFamily(s, a) && OfExit(a) && ExitingWith(DoFamily(s, a), x, pid, status)
    ensures ExitingWith(s, x, pid, status) || GivesNow(s, a, pid, status)
  {
  }

  lemma {:induction false} ExitWaits(s: Kernel, a: Step, x: nat, pid: nat, status: int)
    requires CanFamily(s, a) && (a.Wait? || a.DoWaitScan?) && ExitingWith(DoFamily(s, a), x, pid, status)
    ensures ExitingWith(s, x, pid, status)
  {
  }

  lemma {:induction false} ExitForks(s: Kernel, a: Step, x: nat, pid: nat, status: int)
    requires CanFamily(s, a) && (a.Fork? || a.DoForkParent? || a.DoForkRun?)
    requires ExitingWith(DoFamily(s, a), x, pid, status)
    ensures ExitingWith(s, x, pid, status)
  {
  }

  lemma {:induction false} ExitFamily(s: Kernel, a: Step, x: nat, pid: nat, status: int)
    requires CanFamily(s, a) && ExitingWith(DoFamily(s, a), x, pid, status)
    ensures ExitingWith(s, x, pid, status) || GivesNow(s, a, pid, status)
  {
    hide DoFamily, ExitingWith, GivesNow;
    if OfExit(a) {
      ExitExits(s, a, x, pid, status);
    } else if a.Wait? || a.DoWaitScan? {
      ExitWaits(s, a, x, pid, status);
    } else {
      ExitForks(s, a, x, pid, status);
    }
  }

  lemma {:induction false} ExitStep(s: Kernel, a: Step, x: nat, pid: nat, status: int)
    requires Inv(s) && Can(s, a) && ExitingWith(Do(s, a), x, pid, status)
    ensures ExitingWith(s, x, pid, status) || GivesNow(s, a, pid, status)
  {
    hide LocalOk, CpuOk, SpinsOk, HeldOk, SleepOk, WaitOk, WaitLockOk, ParentOk, PidOk, HistoryOk, ForkOk, CanFamily,
      DoFamily, Do, Can;
    if CanFamily(s, a) {
      FamilyDo(s, a);
      ExitFamily(s, a, x, pid, status);
    } else {
      SameLength(s, a);
      StepUninvolved(s, a, x);
    }
  }

  lemma {:induction false} ExitLength(s: Kernel, a: Step)
    requires CanFamily(s, a) && OfExit(a)
    ensures |DoFamily(s, a).procs| == |s.procs| && DoFamily(s, a).init == s.init
  {
  }

  lemma {:induction false} ForkLength(s: Kernel, a: Step)
    requires CanFamily(s, a) && !OfExit(a)
    ensures |DoFamily(s, a).procs| == |s.procs| && DoFamily(s, a).init == s.init
  {
  }

  lemma {:induction false} SameLength(s: Kernel, a: Step)
    requires Inv(s) && Can(s, a)
    ensures |Do(s, a).procs| == |s.procs| > 0 && Do(s, a).init == s.init
  {
    hide LocalOk, CpuOk, SpinsOk, HeldOk, SleepOk, WaitOk, WaitLockOk, PidOk, HistoryOk, ForkOk, CanFamily,
      DoFamily, Do, Can;
    if CanFamily(s, a) {
      FamilyDo(s, a);
      if OfExit(a) {
        ExitLength(s, a);
      } else {
        ForkLength(s, a);
      }
    } else {
      StepUninvolved(s, a, 0);
    }
  }

  lemma {:induction false} ExitedFamily(s: Kernel, a: Step, pid: nat) returns (x: nat)
    requires CanFamily(s, a) && pid in DoFamily(s, a).exited
    ensures (pid in s.exited && s.exited[pid] == DoFamily(s, a).exited[pid])
            || ExitingWith(s, x, pid, DoFamily(s, a).exited[pid])
  {
    x := if a.DoExitWake? then a.i else 0;
  }

  lemma {:induction false} ExitedStep(s: Kernel, a: Step, pid: nat) returns (x: nat)
    requires Inv(s) && Can(s, a) && pid in Do(s, a).exited && |s.procs| > 0
    ensures (pid in s.exited && s.exited[pid] == Do(s, a).exited[pid]) || ExitingWith(s, x, pid, Do(s, a).exited[pid])
  {
    hide LocalOk, CpuOk, SpinsOk, HeldOk, SleepOk, WaitOk, WaitLockOk, ParentOk, PidOk, HistoryOk, ForkOk, CanFamily,
      DoFamily, Do, Can, ExitingWith;
    x := 0;
    if CanFamily(s, a) {
      FamilyDo(s, a);
      x := ExitedFamily(s, a, pid);
    } else {
      StepUninvolved(s, a, 0);
    }
  }

  /** A process in exit has called it with its status, before the run or in it. */
  lemma {:induction false} ExitingFrom(s: Kernel, run: seq<Step>, s': Kernel, x: nat, pid: nat, status: int)
    requires Inv(s) && Reaches(s, run, s') && ExitingWith(s', x, pid, status)
    ensures ExitingWith(s, x, pid, status) || Gave(s, run, pid, status)
    decreases |run|
  {
    hide Inv, Can, Do, ExitingWith, GivesNow;
    if run != [] {
      StepKept(s, run[0]);
      ExitingFrom(Do(s, run[0]), run[1..], s', x, pid, status);
      if ExitingWith(Do(s, run[0]), x, pid, status) {
        ExitStep(s, run[0], x, pid, status);
      }
    }
  }

  lemma {:induction false} ExitedFrom(s: Kernel, run: seq<Step>, s': Kernel, pid: nat) returns (x: nat)
    requires Inv(s) && Reaches(s, run, s') && pid in s'.exited && |s.procs| > 0
    ensures (pid in s.exited && s.exited[pid] == s'.exited[pid]) || ExitingWith(s, x, pid, s'.exited[pid])
            || Gave(s, run, pid, s'.exited[pid])
    decreases |run|
  {
    hide Inv, Can, Do, ExitingWith, GivesNow;
    x := 0;
    if run != [] {
      StepKept(s, run[0]);
      SameLength(s, run[0]);
      x := ExitedFrom(Do(s, run[0]), run[1..], s', pid);
      if ExitingWith(Do(s, run[0]), x, pid, s'.exited[pid]) {
        ExitStep(s, run[0], x, pid, s'.exited[pid]);
      } else if pid in Do(s, run[0]).exited && Do(s, run[0]).exited[pid] == s'.exited[pid] {
        x := ExitedStep(s, run[0], pid);
      }
    }
  }

  lemma {:induction false} BootQuiet(boot: Kernel)
    requires Booted(boot)
    ensures Inv(boot) && |boot.procs| > 0 && boot.exited == map[]
    ensures forall x, pid, status :: !ExitingWith(boot, x, pid, status)
  {
    hide Inv;
    BootKept(boot);
  }

  /** In every run from boot, a recorded status was given to exit by the process with that pid. */
  lemma {:induction false} StatusWasGiven(boot: Kernel, run: seq<Step>, s: Kernel, pid: nat)
    requires Booted(boot) && Reaches(boot, run, s) && pid in s.exited
    ensures Gave(boot, run, pid, s.exited[pid])
  {
    hide Booted, Inv, Reaches, Gave, ExitingWith;
    BootQuiet(boot);
    var x := ExitedFrom(boot, run, s, pid);
  }

  /** wait returns each pid at most once, with the status that process gave to exit. */
  lemma {:induction false} ReapedOnceWithStatus(boot: Kernel, run: seq<Step>, s: Kernel, r: nat)
    requires Booted(boot) && Reaches(boot, run, s) && r < |s.reaped|
    ensures Gave(boot, run, s.reaped[r].pid, s.reaped[r].status)
    ensures forall q :: 0 <= q < |s.reaped| && q != r ==> s.reaped[q].pid != s.reaped[r].pid
  {
    hide Booted, Reaches, Gave;
    ReapedOnce(boot, run, s, r);
    StatusWasGiven(boot, run, s, s.reaped[r].pid);
  }

  // ----- who forked whom -----------------------------------------------------------------------------------

  /** The step is a fork by the process with pid `parent`, of the process with pid `child`. */
  predicate ForksNow(s: Kernel, a: Step, child: nat, parent: nat)
    requires Can(s, a)
  {
    && a.Fork? && a.i < |s.procs| && s.procs[a.i].pid == parent
    && a.np < |Do(s, a).procs| && Do(s, a).procs[a.np].pid == child
  }

  ghost predicate Forked(s: Kernel, run: seq<Step>, child: nat, parent: nat)
    decreases |run|
  {
    && run != [] && Can(s, run[0])
    && (ForksNow(s, run[0], child, parent) || Forked(Do(s, run[0]), run[1..], child, parent))
  }

  /** The pid of each process's forker, collected along a run. */
  ghost function Born(s: Kernel, a: Step, born: map<nat, nat>): (r: map<nat, nat>)
    requires Can(s, a)
  {
    if a.Fork? && a.i < |s.procs| && a.np < |Do(s, a).procs| then born[Do(s, a).procs[a.np].pid := s.procs[a.i].pid]
    else born
  }

  /** The process with this pid has called exit. */
  ghost predicate Left(s: Kernel, pid: nat) {
    pid in s.exited || exists x :: 0 <= x < |s.procs| && Leaving(s.procs[x], pid)
  }

  predicate Leaving(p: Proc, pid: nat) {
    ExitScan(p.pc) && p.pid == pid
  }

  /** The parent is the process with this pid or, when that one has called exit, init. */
  ghost predicate ParentIs(s: Kernel, w: Who, pid: nat) {
    w.Thread? && w.i < |s.procs| && (s.procs[w.i].pid == pid || (w.i == s.init && Left(s, pid)))
  }

  ghost predicate Tree(s: Kernel, born: map<nat, nat>) {
    && (forall x :: 0 <= x < |s.procs| && Forking(s.procs[x].pc) ==> ForkerOk(s, x, born))
    && (forall y :: 0 <= y < |s.procs| && y != s.init && Started(s.procs[y].state) ==>
          s.procs[y].pid in born && ParentIs(s, s.procs[y].parent, born[s.procs[y].pid]))
  }

  ghost predicate ForkerOk(s: Kernel, x: nat, born: map<nat, nat>)
    requires x < |s.procs| && Forking(s.procs[x].pc)
  {
    var np := Core(s.procs[x].pc).np;
    np < |s.procs| && s.procs[np].pid in born && born[s.procs[np].pid] == s.procs[x].pid
  }

  /** A process for which nothing happened that could change the tree. */
  predicate Kin(p: Proc, p': Proc, exited: map<nat, int>) {
    && p'.pid == p.pid && (p'.state == UNUSED <==> p.state == UNUSED)
    && (Started(p'.state) ==> Started(p.state) && p'.parent == p.parent)
    && (Forking(p'.pc) ==> Forking(p.pc) && Core(p'.pc).np == Core(p.pc).np)
    && (ExitScan(p.pc) ==> ExitScan(p'.pc) || p.pid in exited)
  }

  lemma {:induction false} LeftStays(s: Kernel, s': Kernel, pid: nat)
    requires |s'.procs| == |s.procs| && s.exited.Keys <= s'.exited.Keys && Left(s, pid)
    requires forall x :: 0 <= x < |s.procs| && ExitScan(s.procs[x].pc) ==>
               (s'.procs[x].pid == s.procs[x].pid && ExitScan(s'.procs[x].pc)) || s.procs[x].pid in s'.exited
    ensures Left(s', pid)
  {
    hide ExitScan;
    if pid !in s.exited {
      var x :| 0 <= x < |s.procs| && Leaving(s.procs[x], pid);
      assert pid !in s'.exited ==> Leaving(s'.procs[x], pid);
    }
  }

  lemma {:induction false} TreeKept(s: Kernel, s': Kernel, born: map<nat, nat>)
    requires Tree(s, born) && |s'.procs| == |s.procs| && s'.init == s.init && s.exited.Keys <= s'.exited.Keys
    requires forall x :: 0 <= x < |s.procs| ==> Kin(s.procs[x], s'.procs[x], s'.exited)
    ensures Tree(s', born)
  {
    hide Left, ExitScan, Started, Core;
    forall y | 0 <= y < |s.procs| && y != s.init && Started(s'.procs[y].state)
      ensures s'.procs[y].pid in born && ParentIs(s', s'.procs[y].parent, born[s'.procs[y].pid])
    {
      assert Kin(s.procs[y], s'.procs[y], s'.exited);
      var w := s.procs[y].parent;
      assert Kin(s.procs[w.i], s'.procs[w.i], s'.exited);
      if Left(s, born[s.procs[y].pid]) {
        LeftStays(s, s', born[s.procs[y].pid]);
      }
    }
    forall x | 0 <= x < |s.procs| && Forking(s'.procs[x].pc) ensures ForkerOk(s', x, born) {
      assert Kin(s.procs[x], s'.procs[x], s'.exited);
      assert ForkerOk(s, x, born);
      var np := Core(s.procs[x].pc).np;
      assert Kin(s.procs[np], s'.procs[np], s'.exited);
    }
  }

  lemma {:induction false} TreeReparented(s: Kernel, s': Kernel, born: map<nat, nat>, i: nat, j: nat)
    requires Tree(s, born) && ParentOk(s) && i < |s.procs| && j < |s.procs| && |s'.procs| == |s.procs|
    requires s'.init == s.init && s'.exited == s.exited && ExitScan(s.procs[i].pc) && ExitScan(s'.procs[i].pc)
    requires s.procs[j].parent == Thread(i) && s'.procs[j].parent == Thread(s.init)
    requires forall x :: 0 <= x < |s.procs| ==>
               Kin(s.procs[x], if x == j then s'.procs[x].(parent := s.procs[x].parent) else s'.procs[x], s.exited)
    ensures Tree(s', born)
  {
    hide Started, Core;
    var m := s'.(procs := s'.procs[j := s'.procs[j].(parent := Thread(i))]);
    TreeKept(s, m, born);
    assert m.procs[i].pid == s'.procs[i].pid && ExitScan(m.procs[i].pc);
    forall y | 0 <= y < |s.procs| && y != s.init && Started(s'.procs[y].state)
      ensures s'.procs[y].pid in born && ParentIs(s', s'.procs[y].parent, born[s'.procs[y].pid])
    {
      var pid := born[m.procs[y].pid];
      assert ParentIs(m, m.procs[y].parent, pid);
      if Left(m, pid) {
        LeftStays(m, s', pid);
      }
      if y == j {
        assert Leaving(s'.procs[i], s'.procs[i].pid);
      }
    }
    forall x | 0 <= x < |s.procs| && Forking(s'.procs[x].pc) ensures ForkerOk(s', x, born) {
      assert ForkerOk(m, x, born);
    }
  }

  /** A zombie's slot is freed: it is nobody's parent and nobody's child in fork. */
  lemma {:induction false} TreeReaped(s: Kernel, s': Kernel, born: map<nat, nat>, j: nat)
    requires Tree(s, born) && ParentOk(s) && ForkOk(s) && j < |s.procs| == |s'.procs| && s'.init == s.init
    requires s'.exited == s.exited && s.procs[j].state == ZOMBIE && !ExitScan(s.procs[j].pc)
    requires !Started(s'.procs[j].state) && !Forking(s'.procs[j].pc)
    requires forall x :: 0 <= x < |s.procs| && x != j ==> Kin(s.procs[x], s'.procs[x], s.exited)
    ensures Tree(s', born)
  {
    hide Left, ExitScan, Core;
    forall y | 0 <= y < |s.procs| && y != s.init && Started(s'.procs[y].state)
      ensures s'.procs[y].pid in born && ParentIs(s', s'.procs[y].parent, born[s'.procs[y].pid])
    {
      assert Kin(s.procs[y], s'.procs[y], s.exited);
      var w := s.procs[y].parent;
      assert w.i != j;
      assert Kin(s.procs[w.i], s'.procs[w.i], s.exited);
      if Left(s, born[s.procs[y].pid]) {
        LeftStays(s, s', born[s.procs[y].pid]);
      }
    }
    forall x | 0 <= x < |s.procs| && Forking(s'.procs[x].pc) ensures ForkerOk(s', x, born) {
      assert Kin(s.procs[x], s'.procs[x], s.exited);
      assert ForkerOk(s, x, born);
      var np := Core(s.procs[x].pc).np;
      assert np != j;
      assert Kin(s.procs[np], s'.procs[np], s.exited);
    }
  }

  /** allocproc: a pid that nobody had. */
  lemma {:induction false} TreeForked(s: Kernel, s': Kernel, born: map<nat, nat>, i: nat, np: nat)
    requires Tree(s, born) && ParentOk(s) && ForkOk(s) && PidOk(s) && i < |s.procs| == |s'.procs| && np < |s.procs|
    requires i != np && s'.init == s.init && s'.exited == s.exited && s.procs[np].state == UNUSED
    requires !ExitScan(s.procs[np].pc) && !Started(s'.procs[np].state) && !Forking(s'.procs[np].pc)
    requires s'.procs[np].pid == s.nextpid && Core(s'.procs[i].pc) == ForkParent(np)
    requires s'.procs[i] == s.procs[i].(pc := s'.procs[i].pc) && !ExitScan(s.procs[i].pc) && Alive(s.procs[i].state)
    requires forall x :: 0 <= x < |s.procs| && x != i && x != np ==> s'.procs[x] == s.procs[x]
    ensures Tree(s', born[s.nextpid := s.procs[i].pid])
  {
    hide Left, ExitScan, Core, ParentOk, ForkOk, PidOk, ParentIs;
    var born' := born[s.nextpid := s.procs[i].pid];
    forall y | 0 <= y < |s.procs| && y != s.init && Started(s'.procs[y].state)
      ensures s'.procs[y].pid in born' && ParentIs(s', s'.procs[y].parent, born'[s'.procs[y].pid])
    {
      ForkedParent(s, s', born, i, np, y);
    }
    forall x | 0 <= x < |s.procs| && Forking(s'.procs[x].pc) ensures ForkerOk(s', x, born') {
      ForkedForker(s, s', born, i, np, x);
    }
  }

  lemma {:induction false} ForkedParent(s: Kernel, s': Kernel, born: map<nat, nat>, i: nat, np: nat, y: nat)
    requires Tree(s, born) && ParentOk(s) && ForkOk(s) && PidOk(s) && i < |s.procs| == |s'.procs| && np < |s.procs|
    requires i != np && s'.init == s.init && s'.exited == s.exited && s.procs[np].state == UNUSED
    requires !ExitScan(s.procs[np].pc) && !Started(s'.procs[np].state) && !Forking(s'.procs[np].pc)
    requires s'.procs[np].pid == s.nextpid && Core(s'.procs[i].pc) == ForkParent(np)
    requires s'.procs[i] == s.procs[i].(pc := s'.procs[i].pc) && !ExitScan(s.procs[i].pc) && Alive(s.procs[i].state)
    requires forall x :: 0 <= x < |s.procs| && x != i && x != np ==> s'.procs[x] == s.procs[x]
    requires y < |s.procs| && y != s.init && Started(s'.procs[y].state)
    ensures var born' := born[s.nextpid := s.procs[i].pid];
            s'.procs[y].pid in born' && ParentIs(s', s'.procs[y].parent, born'[s'.procs[y].pid])
  {
    hide Left, ExitScan, Core, ForkOk, Forking;
    assert s'.procs[y].pid == s.procs[y].pid && s'.procs[y].parent == s.procs[y].parent;
    var w := s.procs[y].parent;
    assert w.i != np && s'.procs[w.i].pid == s.procs[w.i].pid;
    if Left(s, born[s.procs[y].pid]) {
      LeftStays(s, s', born[s.procs[y].pid]);
    }
  }

  lemma {:induction false} ForkedForker(s: Kernel, s': Kernel, born: map<nat, nat>, i: nat, np: nat, x: nat)
    requires Tree(s, born) && ParentOk(s) && ForkOk(s) && PidOk(s) && i < |s.procs| == |s'.procs| && np < |s.procs|
    requires i != np && s'.init == s.init && s'.exited == s.exited && s.procs[np].state == UNUSED
    requires !ExitScan(s.procs[np].pc) && !Started(s'.procs[np].state) && !Forking(s'.procs[np].pc)
    requires s'.procs[np].pid == s.nextpid && Core(s'.procs[i].pc) == ForkParent(np)
    requires s'.procs[i] == s.procs[i].(pc := s'.procs[i].pc) && !ExitScan(s.procs[i].pc) && Alive(s.procs[i].state)
    requires forall x :: 0 <= x < |s.procs| && x != i && x != np ==> s'.procs[x] == s.procs[x]
    requires x < |s.procs| && Forking(s'.procs[x].pc)
    ensures ForkerOk(s', x, born[s.nextpid := s.procs[i].pid])
  {
    hide Left, ExitScan, Core, ParentOk, ParentIs;
    if x != i {
      assert ForkerOk(s, x, born);
      var n := Core(s.procs[x].pc).np;
      assert n != np && s'.procs[n].pid == s.procs[n].pid < s.nextpid;
    }
  }

  /** fork's last step: the child is its forker's. */
  lemma {:induction false} TreeRuns(s: Kernel, s': Kernel, born: map<nat, nat>, i: nat, np: nat)
    requires Tree(s, born) && i < |s.procs| == |s'.procs| && np < |s.procs| && i != np
    requires s'.init == s.init && s'.exited == s.exited && s.procs[i].pc == ForkRun(np) && !Forking(s'.procs[i].pc)
    requires s'.procs[i] == s.procs[i].(pc := s'.procs[i].pc) && s'.procs[np] == s.procs[np].(state := RUNNABLE)
    requires s.procs[np].parent == Thread(i)
    requires forall x :: 0 <= x < |s.procs| && x != i && x != np ==> s'.procs[x] == s.procs[x]
    ensures Tree(s', born)
  {
    hide Left;
    assert ForkerOk(s, i, born);
    forall y | 0 <= y < |s.procs| && y != s.init && Started(s'.procs[y].state)
      ensures s'.procs[y].pid in born && ParentIs(s', s'.procs[y].parent, born[s'.procs[y].pid])
    {
      if y != np {
        var w := s.procs[y].parent;
        assert s'.procs[w.i].pid == s.procs[w.i].pid;
        if Left(s, born[s.procs[y].pid]) {
          LeftStays(s, s', born[s.procs[y].pid]);
        }
      }
    }
    forall x | 0 <= x < |s.procs| && Forking(s'.procs[x].pc) ensures ForkerOk(s', x, born) {
      assert ForkerOk(s, x, born);
    }
  }

  lemma {:induction false} KinUninvolved(p: Proc, p': Proc, exited: map<nat, int>)
    requires Uninvolved(p, p')
    ensures Kin(p, p', exited)
  {
    hide Started;
  }

  /** The steps of fork, exit and wait that move processes in the tree. */
  predicate Moves(s: Kernel, a: Step)
    requires CanFamily(s, a)
  {
    || a.Fork? || a.DoForkRun?
    || (a.DoReparent? && ChildNext(s, a.i))
    || (a.DoWaitScan? && Reaps(s, a.i, a.fault))
  }

  predicate Reaps(s: Kernel, i: nat, fault: bool)
    requires CanWaitScan(s, i)
  {
    !fault && s.procs[i].pc.j < |s.procs| && ZombieOf(s.procs[s.procs[i].pc.j], i)
  }

  lemma {:induction false} KinScan(s: Kernel, a: Step, x: nat)
    requires LocalOk(s) && CanFamily(s, a) && (a.Exit? || a.DoReparent? || a.DoExitZombie?) && !Moves(s, a)
    requires x < |s.procs|
    ensures var s' := DoFamily(s, a);
            && |s'.procs| == |s.procs| && s.exited.Keys <= s'.exited.Keys && Kin(s.procs[x], s'.procs[x], s'.exited)
            && s'.nextpid == s.nextpid && s'.reaped == s.reaped
  {
    hide LocalOk;
    Shape(s, x);
  }

  lemma {:induction false} KinReparentWake(s: Kernel, i: nat, x: nat)
    requires LocalOk(s) && CanReparentWake(s, i) && x < |s.procs|
    ensures var s' := ReparentWakeEffect(s, i);
            && |s'.procs| == |s.procs| && s.exited.Keys <= s'.exited.Keys && Kin(s.procs[x], s'.procs[x], s'.exited)
            && s'.nextpid == s.nextpid && s'.reaped == s.reaped
  {
    hide LocalOk;
    Shape(s, x);
  }

  lemma {:induction false} KinExitWake(s: Kernel, i: nat, x: nat)
    requires LocalOk(s) && CanExitWake(s, i) && x < |s.procs|
    ensures var s' := ExitWakeEffect(s, i);
            && |s'.procs| == |s.procs| && s.exited.Keys <= s'.exited.Keys && Kin(s.procs[x], s'.procs[x], s'.exited)
            && s'.nextpid == s.nextpid && s'.reaped == s.reaped
  {
    hide LocalOk;
    Shape(s, x);
  }

  lemma {:induction false} KinExit(s: Kernel, a: Step, x: nat)
    requires LocalOk(s) && CanFamily(s, a) && OfExit(a) && !Moves(s, a) && x < |s.procs|
    ensures var s' := DoFamily(s, a);
            && |s'.procs| == |s.procs| && s.exited.Keys <= s'.exited.Keys && Kin(s.procs[x], s'.procs[x], s'.exited)
            && s'.nextpid == s.nextpid && s'.reaped == s.reaped
  {
    hide LocalOk, Moves, Kin, ReparentWakeEffect, ExitWakeEffect, ReparentEffect;
    if a.DoReparentWake? {
      KinReparentWake(s, a.i, x);
    } else if a.DoExitWake? {
      KinExitWake(s, a.i, x);
    } else {
      KinScan(s, a, x);
    }
  }

  lemma {:induction false} KinRest(s: Kernel, a: Step, x: nat)
    requires LocalOk(s) && ForkOk(s) && CanFamily(s, a) && !OfExit(a) && !Moves(s, a) && x < |s.procs|
    ensures var s' := DoFamily(s, a);
            && |s'.procs| == |s.procs| && s'.exited == s.exited && Kin(s.procs[x], s'.procs[x], s'.exited)
            && s'.nextpid == s.nextpid && s'.reaped == s.reaped
  {
    hide LocalOk, ForkOk;
    Shape(s, x);
    if a.DoForkParent? {
      ForkAt(s, a.i);
    }
    ForkLength(s, a);
  }

  lemma {:induction false} TreeStays(s: Kernel, a: Step, born: map<nat, nat>)
    requires Inv(s) && Tree(s, born) && CanFamily(s, a) && !Moves(s, a)
    ensures Tree(DoFamily(s, a), born)
  {
    hide LocalOk, CpuOk, SpinsOk, HeldOk, SleepOk, WaitOk, WaitLockOk, ParentOk, PidOk, HistoryOk, ForkOk, CanFamily,
      DoFamily, Moves, Tree, Kin, OfExit;
    FamilyDo(s, a);
    SameLength(s, a);
    var s' := DoFamily(s, a);
    forall x | 0 <= x < |s.procs| ensures s.exited.Keys <= s'.exited.Keys && Kin(s.procs[x], s'.procs[x], s'.exited) {
      if OfExit(a) {
        KinExit(s, a, x);
      } else {
        KinRest(s, a, x);
      }
    }
    assert Kin(s.procs[0], s'.procs[0], s'.exited);
    TreeKept(s, s', born);
  }

  lemma {:induction false} KinReparent(s: Kernel, i: nat, x: nat)
    requires LocalOk(s) && CanReparent(s, i) && ChildNext(s, i) && x < |s.procs|
    ensures var s', j := ReparentEffect(s, i), s.procs[i].pc.j;
            Kin(s.procs[x], if x == j then s'.procs[x].(parent := s.procs[x].parent) else s'.procs[x], s.exited)
  {
    hide LocalOk;
    Shape(s, x);
  }

  lemma {:induction false} TreeReparents(s: Kernel, i: nat, born: map<nat, nat>)
    requires Inv(s) && Tree(s, born) && CanReparent(s, i) && ChildNext(s, i)
    ensures Tree(ReparentEffect(s, i), born)
  {
    hide LocalOk, CpuOk, SpinsOk, HeldOk, SleepOk, WaitOk, WaitLockOk, ParentOk, PidOk, HistoryOk, ForkOk, Tree, Kin;
    var s', j := ReparentEffect(s, i), s.procs[i].pc.j;
    forall x | 0 <= x < |s.procs|
      ensures Kin(s.procs[x], if x == j then s'.procs[x].(parent := s.procs[x].parent) else s'.procs[x], s.exited)
    {
      KinReparent(s, i, x);
    }
    TreeReparented(s, s', born, i, j);
  }

  lemma {:induction false} TreeReaps(s: Kernel, i: nat, born: map<nat, nat>)
    requires Inv(s) && Tree(s, born) && CanWaitScan(s, i) && Reaps(s, i, false)
    ensures Tree(WaitScanEffect(s, i, false), born)
  {
    hide LocalOk, CpuOk, SpinsOk, HeldOk, SleepOk, WaitOk, WaitLockOk, ParentOk, PidOk, HistoryOk, ForkOk, Tree;
    var s', j := WaitScanEffect(s, i, false), s.procs[i].pc.j;
    LocalReap(s, i);
    Shape(s, i);
    TreeReaped(s, s', born, j);
  }

  lemma {:induction false} TreeForks(s: Kernel, i: nat, np: nat, born: map<nat, nat>)
    requires Inv(s) && Tree(s, born) && CanFork(s, i, np)
    ensures Tree(ForkEffect(s, i, np), born[s.nextpid := s.procs[i].pid])
  {
    hide LocalOk, CpuOk, SpinsOk, HeldOk, SleepOk, WaitOk, WaitLockOk, ParentOk, PidOk, HistoryOk, ForkOk, Tree;
    LocalFork(s, i, np);
    Shape(s, i);
    TreeForked(s, ForkEffect(s, i, np), born, i, np);
  }

  lemma {:induction false} TreeForkRuns(s: Kernel, i: nat, born: map<nat, nat>)
    requires Inv(s) && Tree(s, born) && CanForkRun(s, i)
    ensures Tree(ForkRunEffect(s, i), born)
  {
    hide LocalOk, CpuOk, SpinsOk, HeldOk, SleepOk, WaitOk, WaitLockOk, ParentOk, PidOk, HistoryOk, ForkOk, Tree;
    ForkAt(s, i);
    TreeRuns(s, ForkRunEffect(s, i), born, i, s.procs[i].pc.np);
  }

  lemma {:induction false} TreeMoves(s: Kernel, a: Step, born: map<nat, nat>)
    requires Inv(s) && Tree(s, born) && CanFamily(s, a) && Moves(s, a)
    ensures Can(s, a) && Tree(DoFamily(s, a), Born(s, a, born))
  {
    hide Inv, Tree, Do, Can, ForkRunEffect, WaitScanEffect, ReparentEffect;
    FamilyDo(s, a);
    if a.Fork? {
      TreeForks(s, a.i, a.np, born);
    } else if a.DoForkRun? {
      TreeForkRuns(s, a.i, born);
    } else if a.DoReparent? {
      TreeReparents(s, a.i, born);
    } else {
      TreeReaps(s, a.i, born);
    }
  }

  lemma {:induction false} TreeStep(s: Kernel, a: Step, born: map<nat, nat>)
    requires Inv(s) && Tree(s, born) && Can(s, a)
    ensures Tree(Do(s, a), Born(s, a, born))
  {
    hide LocalOk, CpuOk, SpinsOk, HeldOk, SleepOk, WaitOk, WaitLockOk, ParentOk, PidOk, HistoryOk, ForkOk, CanFamily,
      DoFamily, Moves, Tree, Kin, Do, Can, Uninvolved;
    if CanFamily(s, a) {
      FamilyDo(s, a);
      if Moves(s, a) {
        TreeMoves(s, a, born);
      } else {
        NotFork(s, a);
        TreeStays(s, a, born);
      }
    } else {
      NoFork(s, a);
      SameLength(s, a);
      var s' := Do(s, a);
      forall x | 0 <= x < |s.procs| ensures s.exited == s'.exited && Kin(s.procs[x], s'.procs[x], s'.exited) {
        StepUninvolved(s, a, x);
        KinUninvolved(s.procs[x], s'.procs[x], s'.exited);
      }
      assert Kin(s.procs[0], s'.procs[0], s'.exited);
      TreeKept(s, s', born);
    }
  }

  lemma {:induction false} NotFork(s: Kernel, a: Step)
    requires CanFamily(s, a) && !Moves(s, a)
    ensures !a.Fork?
  {
  }

  lemma {:induction false} NoFork(s: Kernel, a: Step)
    requires Can(s, a) && !CanFamily(s, a)
    ensures !a.Fork?
  {
  }

  ghost function Births(s: Kernel, run: seq<Step>, born: map<nat, nat>): (r: map<nat, nat>)
    decreases |run|
  {
    if run == [] || !Can(s, run[0]) then born else Births(Do(s, run[0]), run[1..], Born(s, run[0], born))
  }

  lemma {:induction false} TreeRun(s: Kernel, run: seq<Step>, s': Kernel, born: map<nat, nat>)
    requires Inv(s) && Tree(s, born) && Reaches(s, run, s')
    ensures Tree(s', Births(s, run, born))
    decreases |run|
  {
    hide Inv, Tree, Can, Do, Born;
    if run != [] {
      StepKept(s, run[0]);
      TreeStep(s, run[0], born);
      TreeRun(Do(s, run[0]), run[1..], s', Born(s, run[0], born));
    }
  }

  /** What Births collects are forks of the run. */
  lemma {:induction false} BirthsAreForks(s: Kernel, run: seq<Step>, born: map<nat, nat>, child: nat)
    requires child in Births(s, run, born)
    ensures (child in born && born[child] == Births(s, run, born)[child])
            || Forked(s, run, child, Births(s, run, born)[child])
    decreases |run|
  {
    hide Can, Do;
    if run != [] && Can(s, run[0]) {
      BirthsAreForks(Do(s, run[0]), run[1..], Born(s, run[0], born), child);
    }
  }

  lemma {:induction false} BootTree(boot: Kernel)
    requires Booted(boot)
    ensures Tree(boot, map[])
  {
  }

  /**
   Every process but init that has started, exited ones included, was forked in the run, and its
   parent is the process that forked it or, if that one has called exit since, init.
   */
  lemma {:induction false} ParentIsForker(boot: Kernel, run: seq<Step>, s: Kernel, y: nat) returns (forker: nat)
    requires Booted(boot) && Reaches(boot, run, s) && y < |s.procs| && y != s.init && Started(s.procs[y].state)
    ensures Forked(boot, run, s.procs[y].pid, forker)
    ensures s.procs[y].parent.Thread? && s.procs[y].parent.i < |s.procs| && Alive(s.procs[s.procs[y].parent.i].state)
    ensures s.procs[s.procs[y].parent.i].pid == forker
            || (s.procs[y].parent.i == s.init && exists status :: Gave(boot, run, forker, status))
  {
    hide Booted, Reaches, Inv, Gave, Forked, Births, Left;
    BootQuiet(boot);
    BootTree(boot);
    TreeRun(boot, run, s, map[]);
    var born := Births(boot, run, map[]);
    forker := born[s.procs[y].pid];
    BirthsAreForks(boot, run, map[], s.procs[y].pid);
    NobodyIsOrphaned(boot, run, s, y);
    if s.procs[s.procs[y].parent.i].pid != forker {
      LeftGave(boot, run, s, forker);
    }
  }

  lemma {:induction false} LeftGave(boot: Kernel, run: seq<Step>, s: Kernel, pid: nat)
    requires Booted(boot) && Reaches(boot, run, s) && Left(s, pid)
    ensures exists status :: Gave(boot, run, pid, status)
  {
    hide Booted, Reaches, Inv, Gave;
    BootQuiet(boot);
    if pid in s.exited {
      StatusWasGiven(boot, run, s, pid);
    } else {
      var x :| 0 <= x < |s.procs| && Leaving(s.procs[x], pid);
      var status := s.procs[x].pc.status;
      ExitingFrom(boot, run, s, x, pid, status);
    }
  }

  // ----- every pid is in the table or was reaped --------------------------------------------------------

  ghost predicate InTable(s: Kernel, pid: nat) {
    exists x :: 0 <= x < |s.procs| && Has(s.procs[x], pid)
  }

  predicate Has(p: Proc, pid: nat) {
    p.state != UNUSED && p.pid == pid
  }

  ghost predicate WasReaped(s: Kernel, pid: nat) {
    exists r :: 0 <= r < |s.reaped| && s.reaped[r].pid == pid
  }

  ghost predicate Census(s: Kernel) {
    forall pid: nat :: 0 < pid < s.nextpid ==> InTable(s, pid) || WasReaped(s, pid)
  }

  predicate SameSlot(p: Proc, p': Proc) {
    p'.pid == p.pid && (p'.state == UNUSED <==> p.state == UNUSED)
  }

  lemma {:induction false} CensusKept(s: Kernel, s': Kernel)
    requires Census(s) && |s'.procs| == |s.procs| && s'.nextpid == s.nextpid && s'.reaped == s.reaped
    requires forall x :: 0 <= x < |s.procs| ==> SameSlot(s.procs[x], s'.procs[x])
    ensures Census(s')
  {
    forall pid: nat | 0 < pid < s'.nextpid ensures InTable(s', pid) || WasReaped(s', pid) {
      if InTable(s, pid) {
        var x :| 0 <= x < |s.procs| && Has(s.procs[x], pid);
        assert SameSlot(s.procs[x], s'.procs[x]);
        assert Has(s'.procs[x], pid);
      }
    }
  }

  lemma {:induction false} CensusForked(s: Kernel, s': Kernel, np: nat)
    requires Census(s) && np < |s.procs| == |s'.procs| && s.procs[np].state == UNUSED && Has(s'.procs[np], s.nextpid)
    requires s'.nextpid == s.nextpid + 1 && s'.reaped == s.reaped
    requires forall x :: 0 <= x < |s.procs| && x != np ==>
               s'.procs[x].state == s.procs[x].state && s'.procs[x].pid == s.procs[x].pid
    ensures Census(s')
  {
    forall pid: nat | 0 < pid < s'.nextpid ensures InTable(s', pid) || WasReaped(s', pid) {
      if pid < s.nextpid && InTable(s, pid) {
        var x :| 0 <= x < |s.procs| && Has(s.procs[x], pid);
        assert Has(s'.procs[x], pid);
      }
    }
  }

  lemma {:induction false} CensusReaped(s: Kernel, s': Kernel, j: nat)
    requires Census(s) && j < |s.procs| == |s'.procs| && s'.nextpid == s.nextpid
    requires |s'.reaped| == |s.reaped| + 1 && s'.reaped[..|s.reaped|] == s.reaped
    requires s'.reaped[|s.reaped|].pid == s.procs[j].pid
    requires forall x :: 0 <= x < |s.procs| && x != j ==>
               s'.procs[x].state == s.procs[x].state && s'.procs[x].pid == s.procs[x].pid
    ensures Census(s')
  {
    forall pid: nat | 0 < pid < s'.nextpid ensures InTable(s', pid) || WasReaped(s', pid) {
      if WasReaped(s, pid) {
        var r :| 0 <= r < |s.reaped| && s.reaped[r].pid == pid;
        assert s'.reaped[r] == s.reaped[r];
      } else {
        var x :| 0 <= x < |s.procs| && Has(s.procs[x], pid);
        assert x != j ==> Has(s'.procs[x], pid);
      }
    }
  }

  lemma {:induction false} CensusMoves(s: Kernel, a: Step)
    requires Inv(s) && Census(s) && CanFamily(s, a) && Moves(s, a)
    ensures Census(DoFamily(s, a))
  {
    hide LocalOk, CpuOk, SpinsOk, HeldOk, SleepOk, WaitOk, WaitLockOk, ParentOk, PidOk, HistoryOk, ForkOk, Census, Kin;
    var s' := DoFamily(s, a);
    if a.Fork? {
      LocalFork(s, a.i, a.np);
      CensusForked(s, s', a.np);
    } else if a.DoForkRun? {
      ForkAt(s, a.i);
      CensusKept(s, s');
    } else if a.DoReparent? {
      CensusKept(s, s');
    } else {
      LocalReap(s, a.i);
      CensusReaped(s, s', s.procs[a.i].pc.j);
    }
  }

  lemma {:induction false} CensusStep(s: Kernel, a: Step)
    requires Inv(s) && Census(s) && Can(s, a)
    ensures Census(Do(s, a))
  {
    hide LocalOk, CpuOk, SpinsOk, HeldOk, SleepOk, WaitOk, WaitLockOk, ParentOk, PidOk, HistoryOk, ForkOk, CanFamily,
      DoFamily, Moves, Census, Do, Can, OfExit, Forking, ExitScan, Started, Core;
    SameLength(s, a);
    var s' := Do(s, a);
    if CanFamily(s, a) {
      FamilyDo(s, a);
      if Moves(s, a) {
        CensusMoves(s, a);
        return;
      }
      forall x | 0 <= x < |s.procs|
        ensures SameSlot(s.procs[x], s'.procs[x]) && s'.nextpid == s.nextpid && s'.reaped == s.reaped
      {
        if OfExit(a) {
          KinExit(s, a, x);
        } else {
          KinRest(s, a, x);
        }
      }
    } else {
      forall x | 0 <= x < |s.procs|
        ensures SameSlot(s.procs[x], s'.procs[x]) && s'.nextpid == s.nextpid && s'.reaped == s.reaped
      {
        StepUninvolved(s, a, x);
      }
    }
    assert SameSlot(s.procs[0], s'.procs[0]);
    CensusKept(s, s');
  }

  lemma {:induction false} CensusRun(s: Kernel, run: seq<Step>, s': Kernel)
    requires Inv(s) && Census(s) && Reaches(s, run, s')
    ensures Census(s')
    decreases |run|
  {
    hide Inv, Census, Can, Do;
    if run != [] {
      StepKept(s, run[0]);
      CensusStep(s, run[0]);
      CensusRun(Do(s, run[0]), run[1..], s');
    }
  }

  lemma {:induction false} BootCensus(boot: Kernel)
    requires Booted(boot)
    ensures Census(boot)
  {
    assert Has(boot.procs[boot.init], 1);
  }

  /** Every pid ever given out is that of one process in the table until wait returns it, and never again after. */
  lemma {:induction false} PidsConserved(boot: Kernel, run: seq<Step>, s: Kernel, pid: nat)
    requires Booted(boot) && Reaches(boot, run, s) && 0 < pid < s.nextpid
    ensures InTable(s, pid) <==> !WasReaped(s, pid)
  {
    hide Reaches, Booted, LocalOk, CpuOk, SpinsOk, HeldOk, SleepOk, WaitOk, WaitLockOk, ParentOk, ForkOk;
    BootKept(boot);
    RunKept(boot, run, s);
    BootCensus(boot);
    CensusRun(boot, run, s);
  }
}
