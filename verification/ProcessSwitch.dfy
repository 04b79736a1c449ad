/**
 Scheduling and kill, seen from a process: being switched out and in again changes nothing for
 it, and kill marks the process it names, no other, and does not leave it asleep.
 */
module ProcessSwitch {
  import opened Process
  import opened ProcessRuns
  import H = ProcessHistory

  // ----- switching ---------------------------------------------------------------------------------

  /** Where a process is in its own program, whether it is on a CPU or not. */
  function Place(pc: Pc): (r: Pc) {
    match pc
    case SwYield(back) => back
    case Yielded(back) => back
    case Resume(back) => back
    case SwSleep(lk) => SwSleep(lk)
    case Asleep(lk) => SwSleep(lk)
    case SleepBack(lk) => SwSleep(lk)
    case SwExit => SwExit
    case Gone => SwExit
    case New => Ready
    case _ => pc
  }

  predicate Switches(a: Step) {
    a.Dispatch? || a.SwitchOut? || a.DoResume? || a.DoYield?
  }

  /** Only state, lock, CPU and control point differ, the place is the same, and so is who sleeps. */
  predicate Unmoved(p: Proc, p': Proc) {
    && p' == p.(state := p'.state, lock := p'.lock, cpu := p'.cpu, pc := p'.pc) && Place(p'.pc) == Place(p.pc)
    && (|| p'.state == p.state
        || (p.state == RUNNING && p'.state == RUNNABLE)
        || (p.state == RUNNABLE && p'.state == RUNNING))
  }

  lemma {:induction false} SwitchUnmoved(s: Kernel, a: Step, x: nat)
    requires LocalOk(s) && CanThread(s, a) && Switches(a) && x < |s.procs|
    ensures var s' := DoThread(s, a);
            && |s'.procs| == |s.procs| && s' == s.(procs := s'.procs, cpus := s'.cpus)
            && Unmoved(s.procs[x], s'.procs[x])
  {
    hide LocalOk;
    H.Shape(s, x);
  }

  /** The scheduler, yield and the switches in between change nothing that a process can see. */
  lemma {:induction false} SwitchingIsInvisible(s: Kernel, a: Step)
    requires Inv(s) && Can(s, a) && Switches(a)
    ensures var s' := Do(s, a);
            && |s'.procs| == |s.procs| && s' == s.(procs := s'.procs, cpus := s'.cpus)
            && forall x :: 0 <= x < |s.procs| ==> Unmoved(s.procs[x], s'.procs[x])
  {
    hide LocalOk, CpuOk, SpinsOk, HeldOk, SleepOk, WaitOk, WaitLockOk, PidOk, HistoryOk, ForkOk, DoThread, Unmoved;
    assert CanThread(s, a);
    forall x | 0 <= x < |s.procs|
      ensures var s' := DoThread(s, a);
              && |s'.procs| == |s.procs| && s' == s.(procs := s'.procs, cpus := s'.cpus)
              && Unmoved(s.procs[x], s'.procs[x])
    {
      SwitchUnmoved(s, a, x);
    }
    SwitchUnmoved(s, a, 0);
  }

  // ----- what one call of kill does ------------------------------------------------------------------

  /** kill, at the process it looks for: it is marked and not left asleep, and nobody else changes. */
  lemma {:induction false} KillMarks(s: Kernel, i: nat)
    requires Inv(s) && CanKillScan(s, i) && VictimNext(s, i)
    ensures var s', j := KillScanEffect(s, i), s.procs[i].pc.j;
            && |s'.procs| == |s.procs| && s'.procs[j].pid == s.procs[i].pc.pid && s'.procs[j].killed
            && s'.procs[j].state != SLEEPING && (s.procs[j].state == SLEEPING ==> s'.procs[j].state == RUNNABLE)
            && (s.procs[j].state != SLEEPING ==> s'.procs[j].state == s.procs[j].state)
            && s'.procs[i].pc == Ready
            && forall x :: 0 <= x < |s.procs| && x != i && x != j ==> s'.procs[x] == s.procs[x]
  {
    hide LocalOk, CpuOk, SpinsOk, HeldOk, SleepOk, WaitOk, WaitLockOk, ParentOk, PidOk, HistoryOk, ForkOk;
  }

  /** wait, when its scan has found no zombie: it returns exactly if it saw no child or is killed, else it sleeps. */
  lemma {:induction false} WaitGivesUp(s: Kernel, i: nat, fault: bool)
    requires Inv(s) && CanWaitScan(s, i) && s.procs[i].pc.j >= |s.procs|
    ensures var s', p := WaitScanEffect(s, i, fault), s.procs[i];
            && |s'.procs| == |s.procs|
            && (s'.procs[i].pc == Ready && s'.waitLock == Nobody <==> s.procs[i].killed || !p.pc.kids)
            && (s'.procs[i].pc == SleepEnter(WaitLock) && s'.waitLock == Thread(i) <==> !s.procs[i].killed && p.pc.kids)
  {
    hide LocalOk, CpuOk, HeldOk, SleepOk, WaitOk, WaitLockOk, ParentOk, PidOk, HistoryOk, ForkOk;
    SpinMine(s, i);
  }

  // ----- over runs: only who was asked for is marked --------------------------------------------------

  /** Marks and searches go back to calls of kill for these pids. */
  ghost predicate Marks(s: Kernel, asked: set<int>) {
    && (forall x :: 0 <= x < |s.procs| && s.procs[x].killed ==> s.procs[x].pid in asked || 0 in asked)
    && (forall x :: 0 <= x < |s.procs| && Seeks(s.procs[x].pc) ==> Core(s.procs[x].pc).pid in asked)
  }

  predicate Seeks(pc: Pc) {
    Core(pc).KillScan?
  }

  ghost function Asking(a: Step, asked: set<int>): (r: set<int>) {
    if a.Kill? then asked + {a.pid} else asked
  }

  /** No mark came or went and no search moved; a pid changes only when a slot is freed or filled. */
  predicate MarkSame(p: Proc, p': Proc, nextpid: nat) {
    && (p'.pid == p.pid ==> (p'.killed <==> p.killed))
    && (p'.pid != p.pid ==> (p'.killed ==> p.killed && p.pid == 0) && (p'.pid == 0 || p'.pid == nextpid))
    && (Seeks(p'.pc) || Seeks(p.pc) ==> Core(p'.pc) == Core(p.pc))
  }

  predicate Ignores(s: Kernel, s': Kernel, x: nat)
    requires x < |s.procs|
  {
    |s'.procs| == |s.procs| && s.nextpid <= s'.nextpid && MarkSame(s.procs[x], s'.procs[x], s.nextpid)
  }

  lemma {:induction false} IgnoresSwitch(s: Kernel, a: Step, x: nat)
    requires LocalOk(s) && CanThread(s, a) && (Switches(a) || a.DoSleepEnter? || a.DoSleepMark?) && x < |s.procs|
    ensures Ignores(s, DoThread(s, a), x)
  {
    hide LocalOk;
    H.Shape(s, x);
  }

  lemma {:induction false} IgnoresSleep(s: Kernel, a: Step, x: nat)
    requires CanThread(s, a) && (a.DoSleepLocked? || a.DoSleepBack? || a.DoReacquire?) && x < |s.procs|
    ensures Ignores(s, DoThread(s, a), x)
  {
  }

  lemma {:induction false} IgnoresInside(s: Kernel, a: Step, x: nat)
    requires CanLock(s, a) && (a.Enter? || a.Change? || a.SleepOn? || a.Wakeup? || a.Leave?) && x < |s.procs|
    ensures Ignores(s, DoLock(s, a), x)
  {
  }

  lemma {:induction false} IgnoresSignal(s: Kernel, a: Step, x: nat)
    requires CanLock(s, a) && (a.DoSignal? || a.Acquire?) && x < |s.procs|
    ensures Ignores(s, DoLock(s, a), x)
  {
  }

  lemma {:induction false} IgnoresAcquire(s: Kernel, a: Step, x: nat)
    requires CanLock(s, a) && (a.DoAcqTest? || a.Release?) && x < |s.procs|
    ensures Ignores(s, DoLock(s, a), x)
  {
  }

  lemma {:induction false} IgnoresIrq(s: Kernel, a: Step, x: nat)
    requires CanIrq(s, a) && x < |s.procs|
    ensures Ignores(s, DoIrq(s, a), x)
  {
  }

  lemma {:induction false} IgnoresExit(s: Kernel, a: Step, x: nat)
    requires CanFamily(s, a) && (a.Exit? || a.DoReparent? || a.DoExitZombie?) && x < |s.procs|
    ensures Ignores(s, DoFamily(s, a), x)
  {
  }

  lemma {:induction false} IgnoresReparentWake(s: Kernel, i: nat, x: nat)
    requires CanReparentWake(s, i) && x < |s.procs|
    ensures Ignores(s, ReparentWakeEffect(s, i), x)
  {
  }

  lemma {:induction false} IgnoresExitWake(s: Kernel, i: nat, x: nat)
    requires CanExitWake(s, i) && x < |s.procs|
    ensures Ignores(s, ExitWakeEffect(s, i), x)
  {
  }

  lemma {:induction false} Dead(s: Kernel, x: nat)
    requires LocalOk(s) && PidOk(s) && x < |s.procs|
    ensures s.procs[x].state == ZOMBIE && !s.procs[x].lock ==> s.procs[x].pc.Gone? && s.procs[x].pid > 0
  {
    hide LocalOk;
    LocalAt(s, x);
  }

  lemma {:induction false} IgnoresWait(s: Kernel, a: Step, x: nat)
    requires LocalOk(s) && PidOk(s) && CanFamily(s, a) && (a.Wait? || a.DoWaitScan?) && x < |s.procs|
    ensures Ignores(s, DoFamily(s, a), x)
  {
    hide LocalOk, PidOk;
    Dead(s, x);
  }

  lemma {:induction false} IgnoresFork(s: Kernel, a: Step, x: nat)
    requires LocalOk(s) && CanFamily(s, a) && (a.Fork? || a.DoForkParent? || a.DoForkRun?) && x < |s.procs|
    ensures Ignores(s, DoFamily(s, a), x)
  {
    hide LocalOk;
    LocalAt(s, x);
  }

  /** Steps other than those of kill. */
  lemma {:induction false} StepIgnores(s: Kernel, a: Step, x: nat)
    requires Inv(s) && Can(s, a) && !a.Kill? && !a.DoKillScan? && x < |s.procs|
    ensures Ignores(s, Do(s, a), x)
  {
    hide LocalOk, CpuOk, SpinsOk, HeldOk, SleepOk, WaitOk, WaitLockOk, ParentOk, PidOk, HistoryOk, ForkOk, Ignores,
      DoThread, DoLock, DoFamily, DoIrq;
    if CanThread(s, a) {
      if Switches(a) || a.DoSleepEnter? || a.DoSleepMark? {
        IgnoresSwitch(s, a, x);
      } else {
        IgnoresSleep(s, a, x);
      }
    } else if CanLock(s, a) {
      LockIgnores(s, a, x);
    } else if CanFamily(s, a) {
      FamilyIgnores(s, a, x);
    } else {
      IgnoresIrq(s, a, x);
    }
  }

  lemma {:induction false} LockIgnores(s: Kernel, a: Step, x: nat)
    requires CanLock(s, a) && x < |s.procs|
    ensures Ignores(s, DoLock(s, a), x)
  {
    hide Ignores, DoLock;
    if a.DoSignal? || a.Acquire? {
      IgnoresSignal(s, a, x);
    } else if a.DoAcqTest? || a.Release? {
      IgnoresAcquire(s, a, x);
    } else {
      IgnoresInside(s, a, x);
    }
  }

  lemma {:induction false} FamilyIgnores(s: Kernel, a: Step, x: nat)
    requires LocalOk(s) && PidOk(s) && CanFamily(s, a) && x < |s.procs|
    ensures Ignores(s, DoFamily(s, a), x)
  {
    hide Ignores, LocalOk, PidOk, ReparentWakeEffect, ExitWakeEffect;
    if a.Exit? || a.DoReparent? || a.DoExitZombie? {
      IgnoresExit(s, a, x);
    } else if a.DoReparentWake? {
      IgnoresReparentWake(s, a.i, x);
    } else if a.DoExitWake? {
      IgnoresExitWake(s, a.i, x);
    } else if a.Wait? || a.DoWaitScan? {
      IgnoresWait(s, a, x);
    } else {
      IgnoresFork(s, a, x);
    }
  }

  // ----- the steps of kill --------------------------------------------------------------------------------

  lemma {:induction false} KillDo(s: Kernel, a: Step)
    requires Can(s, a) && (a.Kill? || a.DoKillScan?)
    ensures a.Kill? ==> CanKill(s, a.i) && Do(s, a) == KillEffect(s, a.i, a.pid)
    ensures a.DoKillScan? ==> CanKillScan(s, a.i) && Do(s, a) == KillScanEffect(s, a.i)
  {
    hide KillEffect, KillScanEffect;
  }

  lemma {:induction false} MarksStep(s: Kernel, a: Step, asked: set<int>)
    requires Inv(s) && Can(s, a) && Marks(s, asked)
    ensures Marks(Do(s, a), Asking(a, asked))
  {
    hide LocalOk, CpuOk, SpinsOk, HeldOk, SleepOk, WaitOk, WaitLockOk, ParentOk, PidOk, HistoryOk, ForkOk, Do,
      Can, Core;
    var s' := Do(s, a);
    if a.Kill? || a.DoKillScan? {
      KillDo(s, a);
      MarksKill(s, a, asked);
    } else {
      H.SameLength(s, a);
      forall x | 0 <= x < |s.procs| ensures MarkSame(s.procs[x], s'.procs[x], s.nextpid) {
        StepIgnores(s, a, x);
      }
      forall x | 0 <= x < |s.procs| && s'.procs[x].killed ensures s'.procs[x].pid in asked || 0 in asked {
        assert MarkSame(s.procs[x], s'.procs[x], s.nextpid);
      }
      forall x | 0 <= x < |s.procs| && Seeks(s'.procs[x].pc) ensures Core(s'.procs[x].pc).pid in asked {
        assert MarkSame(s.procs[x], s'.procs[x], s.nextpid);
      }
    }
  }

  lemma {:induction false} MarksKill(s: Kernel, a: Step, asked: set<int>)
    requires Marks(s, asked)
    ensures a.Kill? && CanKill(s, a.i) ==> Marks(KillEffect(s, a.i, a.pid), asked + {a.pid})
    ensures a.DoKillScan? && CanKillScan(s, a.i) ==> Marks(KillScanEffect(s, a.i), asked)
  {
    if a.DoKillScan? && CanKillScan(s, a.i) {
      assert Seeks(s.procs[a.i].pc) && Core(s.procs[a.i].pc) == s.procs[a.i].pc;
    }
  }

  ghost function Asked(run: seq<Step>, asked: set<int>): (r: set<int>)
    decreases |run|
  {
    if run == [] then asked else Asked(run[1..], Asking(run[0], asked))
  }

  lemma {:induction false} MarksRun(s: Kernel, run: seq<Step>, s': Kernel, asked: set<int>)
    requires Inv(s) && Marks(s, asked) && Reaches(s, run, s')
    ensures Marks(s', Asked(run, asked))
    decreases |run|
  {
    hide Inv, Marks, Can, Do, Asking;
    if run != [] {
      StepKept(s, run[0]);
      MarksStep(s, run[0], asked);
      MarksRun(Do(s, run[0]), run[1..], s', Asking(run[0], asked));
    }
  }

  lemma {:induction false} AskedBy(run: seq<Step>, asked: set<int>, pid: int)
    requires pid in Asked(run, asked)
    ensures pid in asked || exists n :: 0 <= n < |run| && run[n].Kill? && run[n].pid == pid
    decreases |run|
  {
    if run != [] {
      AskedBy(run[1..], Asking(run[0], asked), pid);
      if pid !in asked && !(run[0].Kill? && run[0].pid == pid) {
        var n :| 0 <= n < |run[1..]| && run[1..][n].Kill? && run[1..][n].pid == pid;
        assert run[n + 1] == run[1..][n];
      }
    }
  }

  lemma {:induction false} BootMarks(boot: Kernel)
    requires Booted(boot)
    ensures Marks(boot, {})
  {
  }

  /** A process is marked only if kill was called for its pid, or for 0 and the mark waited in its slot. */
  lemma {:induction false} MarkedWasAsked(boot: Kernel, run: seq<Step>, s: Kernel, x: nat)
    requires Booted(boot) && Reaches(boot, run, s) && x < |s.procs| && s.procs[x].killed
    ensures exists n :: 0 <= n < |run| && run[n].Kill? && (run[n].pid == s.procs[x].pid || run[n].pid == 0)
  {
    hide Booted, Reaches, Inv, Asked;
    BootKept(boot);
    BootMarks(boot);
    MarksRun(boot, run, s, {});
    if s.procs[x].pid in Asked(run, {}) {
      AskedBy(run, {}, s.procs[x].pid);
    } else {
      AskedBy(run, {}, 0);
    }
  }

  // ----- over runs: who was asked for is found -------------------------------------------------------------

  /** Process i is in kill(pid), and its scan has not passed slot y. */
  predicate Looking(s: Kernel, i: nat, pid: int, y: nat) {
    i < |s.procs| && Seeks(s.procs[i].pc) && Core(s.procs[i].pc).pid == pid && Core(s.procs[i].pc).j <= y
  }

  /** It is still looking, or has marked the process. */
  predicate OnItsWay(s: Kernel, i: nat, pid: int, y: nat) {
    Looking(s, i, pid, y) || (y < |s.procs| && s.procs[y].killed)
  }

  lemma {:induction false} OwnScan(s: Kernel, i: nat, pid: nat, y: nat)
    requires PidOk(s) && LocalOk(s) && CanKillScan(s, i) && Looking(s, i, pid, y) && y < |s.procs|
    requires pid > 0 && s.procs[y].pid == pid
    ensures OnItsWay(KillScanEffect(s, i), i, pid, y)
  {
    hide LocalOk;
    LocalAt(s, y);
    var j := s.procs[i].pc.j;
    if j < |s.procs| {
      LocalAt(s, j);
    }
  }

  lemma {:induction false} OtherKills(s: Kernel, a: Step, i: nat, pid: nat, y: nat)
    requires (a.Kill? && CanKill(s, a.i)) || (a.DoKillScan? && CanKillScan(s, a.i))
    requires OnItsWay(s, i, pid, y) && i < |s.procs| && y < |s.procs| && (a.i != i || s.procs[y].killed)
    ensures var s' := if a.Kill? then KillEffect(s, a.i, a.pid) else KillScanEffect(s, a.i);
            OnItsWay(s', i, pid, y)
  {
  }

  lemma {:induction false} WayStep(s: Kernel, a: Step, s': Kernel, i: nat, pid: nat, y: nat)
    requires Inv(s) && Can(s, a) && s' == Do(s, a) && OnItsWay(s, i, pid, y) && i < |s.procs| && y < |s.procs|
    requires pid > 0 && s.procs[y].pid == pid && y < |s'.procs| && s'.procs[y].pid == pid && !(a.Kill? && a.i == i)
    ensures OnItsWay(s', i, pid, y)
  {
    hide LocalOk, CpuOk, SpinsOk, HeldOk, SleepOk, WaitOk, WaitLockOk, ParentOk, PidOk, HistoryOk, ForkOk, Do,
      Can, Core;
    if a.Kill? || a.DoKillScan? {
      KillDo(s, a);
      if a.i == i && !s.procs[y].killed {
        OwnScan(s, i, pid, y);
      } else {
        OtherKills(s, a, i, pid, y);
      }
    } else {
      StepIgnores(s, a, i);
      StepIgnores(s, a, y);
    }
  }

  /** A pid is not used again. */
  lemma {:induction false} PidStep(s: Kernel, a: Step, s': Kernel, pid: nat, y: nat)
    requires Inv(s) && Can(s, a) && s' == Do(s, a) && y < |s.procs| && 0 < pid < s.nextpid && s.procs[y].pid != pid
    ensures y < |s'.procs| && s'.procs[y].pid != pid && pid < s'.nextpid
  {
    hide LocalOk, CpuOk, SpinsOk, HeldOk, SleepOk, WaitOk, WaitLockOk, ParentOk, PidOk, HistoryOk, ForkOk, Do,
      Can, Core;
    if a.Kill? || a.DoKillScan? {
      KillDo(s, a);
    } else {
      StepIgnores(s, a, y);
    }
  }

  lemma {:induction false} PidGone(s: Kernel, run: seq<Step>, s': Kernel, pid: nat, y: nat)
    requires Inv(s) && Reaches(s, run, s') && y < |s.procs| && 0 < pid < s.nextpid && s.procs[y].pid != pid
    ensures y < |s'.procs| && s'.procs[y].pid != pid
    decreases |run|
  {
    hide Inv, Can, Do;
    if run != [] {
      StepKept(s, run[0]);
      PidStep(s, run[0], Do(s, run[0]), pid, y);
      PidGone(Do(s, run[0]), run[1..], s', pid, y);
    }
  }

  lemma {:induction false} WayRun(s: Kernel, run: seq<Step>, s': Kernel, i: nat, pid: nat, y: nat)
    requires Inv(s) && Reaches(s, run, s') && OnItsWay(s, i, pid, y) && i < |s.procs| && y < |s.procs|
    requires 0 < pid < s.nextpid && s.procs[y].pid == pid && y < |s'.procs| && s'.procs[y].pid == pid
    requires forall n :: 0 <= n < |run| ==> !(run[n].Kill? && run[n].i == i)
    ensures OnItsWay(s', i, pid, y)
    decreases |run|
  {
    hide Inv, Can, Do, OnItsWay;
    if run != [] {
      var m := Do(s, run[0]);
      StepKept(s, run[0]);
      H.SameLength(s, run[0]);
      NextpidGrows(s, run[0]);
      if m.procs[y].pid != pid {
        PidGone(m, run[1..], s', pid, y);
      } else {
        WayStep(s, run[0], m, i, pid, y);
        assert forall n :: 0 <= n < |run[1..]| ==> run[1..][n] == run[n + 1];
        WayRun(m, run[1..], s', i, pid, y);
      }
    }
  }

  lemma {:induction false} NextpidGrows(s: Kernel, a: Step)
    requires Inv(s) && Can(s, a)
    ensures s.nextpid <= Do(s, a).nextpid
  {
    hide LocalOk, CpuOk, SpinsOk, HeldOk, SleepOk, WaitOk, WaitLockOk, PidOk, HistoryOk, ForkOk, Do, Can, Core;
    if a.Kill? || a.DoKillScan? {
      KillDo(s, a);
    } else {
      StepIgnores(s, a, 0);
    }
  }

  /**
   kill does not miss: if a process has the pid when kill is called, and still has it when that
   call has returned, it is marked.
   */
  lemma {:induction false} KillFindsIt(s: Kernel, i: nat, pid: nat, y: nat, run: seq<Step>, s': Kernel)
    requires Inv(s) && CanKill(s, i) && pid > 0 && y < |s.procs| && s.procs[y].pid == pid && s.procs[y].state != UNUSED
    requires Reaches(KillEffect(s, i, pid), run, s') && y < |s'.procs| && s'.procs[y].pid == pid
    requires forall n :: 0 <= n < |run| ==> !(run[n].Kill? && run[n].i == i)
    requires i < |s'.procs| && !Seeks(s'.procs[i].pc)
    ensures s'.procs[y].killed
  {
    hide LocalOk, CpuOk, SpinsOk, HeldOk, SleepOk, WaitOk, WaitLockOk, ParentOk, HistoryOk, ForkOk, Reaches;
    var m := KillEffect(s, i, pid);
    StepKill(s, i, pid);
    WayRun(m, run, s', i, pid, y);
  }
}
