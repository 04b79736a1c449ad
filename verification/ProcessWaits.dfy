/**
 What processes wait for: a sleeper goes on only when its channel is woken or it is killed,
 a child that fork has made is started by its maker, and wait sleeps only for a child.
 */
module ProcessWaits {
  import opened Process
  import opened ProcessRuns
  import H = ProcessHistory

  // ----- who wakes a sleeper ------------------------------------------------------------------------

  /** The step is at process x and wakes the channel that x sleeps on, or kills x. */
  predicate Calls(s: Kernel, a: Step, x: nat)
    requires x < |s.procs|
  {
    var chan := s.procs[x].chan;
    match a
    case DoSignal(i) =>
      i < |s.procs| && (var pc := s.procs[i].pc; pc.Signal? && pc.j == x && chan == LockChan(pc.k, pc.ch))
    case DoReparentWake(i) =>
      i < |s.procs| && (var pc := s.procs[i].pc; pc.ReparentWake? && pc.k == x && chan == ProcChan(s.init))
    case DoExitWake(i) =>
      && i < |s.procs| && (var pc := s.procs[i].pc; pc.ExitWake? && pc.k == x)
      && s.procs[i].parent.Thread? && chan == ProcChan(s.procs[i].parent.i)
    case IrqSignal(c) =>
      c < |s.handlers| && (var pc := s.handlers[c]; pc.Signal? && pc.j == x && chan == LockChan(pc.k, pc.ch))
    case DoKillScan(i) =>
      i < |s.procs| && (var pc := s.procs[i].pc; pc.KillScan? && pc.j == x && pc.pid == s.procs[x].pid)
    case _ => false
  }

  /** A sleeper is ready to run if it was called, and else still asleep on the same channel. */
  predicate Slept(s: Kernel, a: Step, s': Kernel, x: nat)
    requires x < |s.procs|
  {
    && |s'.procs| == |s.procs|
    && (s.procs[x].state == SLEEPING ==>
          && s'.procs[x].chan == s.procs[x].chan
          && s'.procs[x].state == if Calls(s, a, x) then RUNNABLE else SLEEPING)
  }

  /** The scan of wait did not move, or is at its start; the maker of the process is the same. */
  predicate Still(s: Kernel, s': Kernel, x: nat)
    requires x < |s.procs|
  {
    && |s'.procs| == |s.procs| && s'.procs[x].forker == s.procs[x].forker
    && (s'.procs[x].pc.WaitScan? ==> s'.procs[x].pc == s.procs[x].pc || s'.procs[x].pc == WaitScan(0, false))
  }

  lemma {:induction false} SleepShape(s: Kernel, x: nat)
    requires LocalOk(s) && x < |s.procs|
    ensures var p := s.procs[x];
            && (p.state == SLEEPING ==> (p.pc.SwSleep? || p.pc.Asleep?) && p.chan != NoChan)
            && (p.pc.SwYield? || p.pc.Yielded? || p.pc.Resume? ==> Preemptible(p.pc.back))
            && (p.state == ZOMBIE && !p.lock ==> p.pc.Gone?) && (p.state == UNUSED ==> p.pc.Free?)
  {
    hide LocalOk;
    LocalAt(s, x);
  }

  lemma {:induction false} RestSwitch(s: Kernel, a: Step, x: nat)
    requires LocalOk(s) && CanThread(s, a) && (a.Dispatch? || a.SwitchOut?) && x < |s.procs|
    ensures Slept(s, a, DoThread(s, a), x) && Still(s, DoThread(s, a), x)
  {
    hide LocalOk;
    SleepShape(s, x);
  }

  lemma {:induction false} RestYield(s: Kernel, a: Step, x: nat)
    requires LocalOk(s) && CanThread(s, a) && (a.DoResume? || a.DoYield? || a.Kill?) && x < |s.procs|
    ensures Slept(s, a, DoThread(s, a), x) && Still(s, DoThread(s, a), x)
  {
    hide LocalOk;
    SleepShape(s, x);
  }

  lemma {:induction false} RestKill(s: Kernel, a: Step, x: nat)
    requires LocalOk(s) && CanThread(s, a) && a.DoKillScan? && x < |s.procs|
    ensures Slept(s, a, DoThread(s, a), x) && Still(s, DoThread(s, a), x)
  {
    hide LocalOk;
    SleepShape(s, x);
    SleepShape(s, a.i);
  }

  lemma {:induction false} RestToSleep(s: Kernel, a: Step, x: nat)
    requires LocalOk(s) && CanThread(s, a) && (a.DoSleepEnter? || a.DoSleepMark?) && x < |s.procs|
    ensures Slept(s, a, DoThread(s, a), x) && Still(s, DoThread(s, a), x)
  {
    hide LocalOk;
    SleepShape(s, x);
  }

  lemma {:induction false} RestFromSleep(s: Kernel, a: Step, x: nat)
    requires LocalOk(s) && CanThread(s, a) && (a.DoSleepLocked? || a.DoSleepBack? || a.DoReacquire?) && x < |s.procs|
    ensures Slept(s, a, DoThread(s, a), x) && Still(s, DoThread(s, a), x)
  {
    hide LocalOk;
    SleepShape(s, x);
  }

  lemma {:induction false} RestThread(s: Kernel, a: Step, x: nat)
    requires LocalOk(s) && CanThread(s, a) && x < |s.procs|
    ensures Slept(s, a, DoThread(s, a), x) && Still(s, DoThread(s, a), x)
  {
    hide LocalOk, DoThread, Slept, Still;
    if a.Dispatch? || a.SwitchOut? {
      RestSwitch(s, a, x);
    } else if a.DoResume? || a.DoYield? || a.Kill? {
      RestYield(s, a, x);
    } else if a.DoKillScan? {
      RestKill(s, a, x);
    } else if a.DoSleepEnter? || a.DoSleepMark? {
      RestToSleep(s, a, x);
    } else {
      RestFromSleep(s, a, x);
    }
  }

  lemma {:induction false} RestInside(s: Kernel, a: Step, x: nat)
    requires LocalOk(s) && CanLock(s, a) && (a.Enter? || a.Change? || a.SleepOn? || a.Wakeup? || a.Leave?)
    requires x < |s.procs|
    ensures Slept(s, a, DoLock(s, a), x) && Still(s, DoLock(s, a), x)
  {
    hide LocalOk;
    SleepShape(s, x);
  }

  lemma {:induction false} RestSignal(s: Kernel, a: Step, x: nat)
    requires LocalOk(s) && CanLock(s, a) && (a.DoSignal? || a.Acquire?) && x < |s.procs|
    ensures Slept(s, a, DoLock(s, a), x) && Still(s, DoLock(s, a), x)
  {
    hide LocalOk;
    SleepShape(s, x);
  }

  lemma {:induction false} RestAcquire(s: Kernel, a: Step, x: nat)
    requires LocalOk(s) && CanLock(s, a) && (a.DoAcqTest? || a.Release?) && x < |s.procs|
    ensures Slept(s, a, DoLock(s, a), x) && Still(s, DoLock(s, a), x)
  {
    hide LocalOk;
    SleepShape(s, x);
  }

  lemma {:induction false} RestLock(s: Kernel, a: Step, x: nat)
    requires LocalOk(s) && CanLock(s, a) && x < |s.procs|
    ensures Slept(s, a, DoLock(s, a), x) && Still(s, DoLock(s, a), x)
  {
    hide LocalOk, DoLock, Slept, Still;
    if a.DoSignal? || a.Acquire? {
      RestSignal(s, a, x);
    } else if a.DoAcqTest? || a.Release? {
      RestAcquire(s, a, x);
    } else {
      RestInside(s, a, x);
    }
  }

  lemma {:induction false} RestIrq(s: Kernel, a: Step, x: nat)
    requires LocalOk(s) && CanIrq(s, a) && x < |s.procs|
    ensures Slept(s, a, DoIrq(s, a), x) && Still(s, DoIrq(s, a), x)
  {
    hide LocalOk;
    SleepShape(s, x);
  }

  lemma {:induction false} SleptExit(s: Kernel, a: Step, x: nat)
    requires LocalOk(s) && CanFamily(s, a) && (a.Exit? || a.DoReparent? || a.DoExitZombie?) && x < |s.procs|
    ensures Slept(s, a, DoFamily(s, a), x)
  {
    hide LocalOk;
    SleepShape(s, x);
  }

  lemma {:induction false} SleptReparentWake(s: Kernel, a: Step, x: nat)
    requires LocalOk(s) && CanFamily(s, a) && a.DoReparentWake? && x < |s.procs|
    ensures Slept(s, a, DoFamily(s, a), x)
  {
    hide LocalOk;
    SleepShape(s, x);
  }

  lemma {:induction false} SleptExitWake(s: Kernel, a: Step, x: nat)
    requires LocalOk(s) && CanFamily(s, a) && a.DoExitWake? && x < |s.procs|
    ensures Slept(s, a, DoFamily(s, a), x)
  {
    hide LocalOk;
    SleepShape(s, x);
  }

  lemma {:induction false} SleptWait(s: Kernel, a: Step, x: nat)
    requires LocalOk(s) && CanFamily(s, a) && (a.Wait? || a.DoWaitScan?) && x < |s.procs|
    ensures Slept(s, a, DoFamily(s, a), x)
  {
    hide LocalOk;
    SleepShape(s, x);
  }

  lemma {:induction false} SleptFork(s: Kernel, a: Step, x: nat)
    requires LocalOk(s) && ForkOk(s) && CanFamily(s, a) && (a.Fork? || a.DoForkParent? || a.DoForkRun?)
    requires x < |s.procs|
    ensures Slept(s, a, DoFamily(s, a), x)
  {
    hide LocalOk;
    SleepShape(s, x);
    assert Forking(s.procs[a.i].pc) || a.Fork?;
  }

  lemma {:induction false} SleptFamily(s: Kernel, a: Step, x: nat)
    requires LocalOk(s) && ForkOk(s) && CanFamily(s, a) && x < |s.procs|
    ensures Slept(s, a, DoFamily(s, a), x)
  {
    hide LocalOk, ForkOk, DoFamily, Slept;
    if a.Exit? || a.DoReparent? || a.DoExitZombie? {
      SleptExit(s, a, x);
    } else if a.DoReparentWake? {
      SleptReparentWake(s, a, x);
    } else if a.DoExitWake? {
      SleptExitWake(s, a, x);
    } else if a.Wait? || a.DoWaitScan? {
      SleptWait(s, a, x);
    } else {
      SleptFork(s, a, x);
    }
  }

  /** A step ends a process's sleep if and only if it wakes the channel it sleeps on, or kills it. */
  lemma {:induction false} SleepsUntilCalled(s: Kernel, a: Step, x: nat)
    requires Inv(s) && Can(s, a) && x < |s.procs|
    ensures Slept(s, a, Do(s, a), x)
  {
    hide LocalOk, CpuOk, SpinsOk, HeldOk, SleepOk, WaitOk, WaitLockOk, ParentOk, PidOk, HistoryOk, ForkOk, Slept,
      DoThread, DoLock, DoFamily, DoIrq, CanThread, CanLock, CanFamily, CanIrq;
    if CanThread(s, a) {
      RestThread(s, a, x);
    } else if CanLock(s, a) {
      RestLock(s, a, x);
    } else if CanFamily(s, a) {
      SleptFamily(s, a, x);
    } else {
      RestIrq(s, a, x);
    }
  }

  lemma {:induction false} RunLength(s: Kernel, run: seq<Step>, s': Kernel)
    requires Inv(s) && Reaches(s, run, s')
    ensures |s'.procs| == |s.procs|
    decreases |run|
  {
    hide Inv, Can, Do;
    if run != [] {
      StepKept(s, run[0]);
      H.SameLength(s, run[0]);
      RunLength(Do(s, run[0]), run[1..], s');
    }
  }

  /** Somewhere in the run process x is called. */
  ghost predicate Called(s: Kernel, run: seq<Step>, x: nat)
    decreases |run|
  {
    && run != [] && Can(s, run[0]) && x < |s.procs|
    && (Calls(s, run[0], x) || Called(Do(s, run[0]), run[1..], x))
  }

  /** Over every run: who sleeps at the beginning and not at the end was called. */
  lemma {:induction false} AwakeWasCalled(s: Kernel, run: seq<Step>, s': Kernel, x: nat)
    requires Inv(s) && Reaches(s, run, s') && x < |s.procs| && s.procs[x].state == SLEEPING
    ensures x < |s'.procs|
    ensures Called(s, run, x) || (s'.procs[x].state == SLEEPING && s'.procs[x].chan == s.procs[x].chan)
    decreases |run|
  {
    hide Inv, Can, Do, Calls;
    if run != [] {
      StepKept(s, run[0]);
      SleepsUntilCalled(s, run[0], x);
      if !Calls(s, run[0], x) {
        AwakeWasCalled(Do(s, run[0]), run[1..], s', x);
      } else {
        RunLength(Do(s, run[0]), run[1..], s');
      }
    }
  }

  // ----- a child that has been made is started -------------------------------------------------------

  /** Its maker is still in fork, at this child. */
  predicate Made(s: Kernel, y: nat)
    requires y < |s.procs|
  {
    s.procs[y].state == USED ==>
      var x := s.procs[y].forker;
      x < |s.procs| && Forking(s.procs[x].pc) && Core(s.procs[x].pc).np == y
  }

  ghost predicate Nursed(s: Kernel) {
    forall y :: 0 <= y < |s.procs| ==> Made(s, y)
  }

  lemma {:induction false} NursedExit(s: Kernel, a: Step, y: nat)
    requires LocalOk(s) && CanFamily(s, a) && (a.Exit? || a.DoReparent? || a.DoExitZombie?) && y < |s.procs|
    requires Made(s, y)
    ensures |DoFamily(s, a).procs| == |s.procs| && Made(DoFamily(s, a), y)
  {
    hide LocalOk;
    SleepShape(s, y);
    SleepShape(s, a.i);
  }

  lemma {:induction false} NursedWakes(s: Kernel, a: Step, y: nat)
    requires LocalOk(s) && CanFamily(s, a) && (a.DoReparentWake? || a.DoExitWake?) && y < |s.procs|
    requires Made(s, y)
    ensures |DoFamily(s, a).procs| == |s.procs| && Made(DoFamily(s, a), y)
  {
    hide LocalOk;
    SleepShape(s, y);
    SleepShape(s, a.i);
  }

  lemma {:induction false} NursedWait(s: Kernel, a: Step, y: nat)
    requires LocalOk(s) && CanFamily(s, a) && (a.Wait? || a.DoWaitScan?) && y < |s.procs|
    requires Made(s, y)
    ensures |DoFamily(s, a).procs| == |s.procs| && Made(DoFamily(s, a), y)
  {
    hide LocalOk;
    SleepShape(s, y);
    SleepShape(s, a.i);
    if a.DoWaitScan? && s.procs[a.i].pc.j < |s.procs| {
      SleepShape(s, s.procs[a.i].pc.j);
    }
  }

  lemma {:induction false} NursedFork(s: Kernel, a: Step, y: nat)
    requires LocalOk(s) && CanFamily(s, a) && a.Fork? && y < |s.procs|
    requires Made(s, y)
    ensures |DoFamily(s, a).procs| == |s.procs| && Made(DoFamily(s, a), y)
  {
    hide LocalOk;
    SleepShape(s, a.np);
  }

  lemma {:induction false} NursedForked(s: Kernel, a: Step, y: nat)
    requires LocalOk(s) && ForkOk(s) && CanFamily(s, a) && (a.DoForkParent? || a.DoForkRun?) && y < |s.procs|
    requires Made(s, y)
    ensures |DoFamily(s, a).procs| == |s.procs| && Made(DoFamily(s, a), y)
  {
    hide LocalOk;
    assert Forking(s.procs[a.i].pc);
  }

  lemma {:induction false} NursedFamily(s: Kernel, a: Step, y: nat)
    requires LocalOk(s) && ForkOk(s) && CanFamily(s, a) && y < |s.procs| && Made(s, y)
    ensures |DoFamily(s, a).procs| == |s.procs| && Made(DoFamily(s, a), y)
  {
    hide LocalOk, ForkOk, DoFamily, Made;
    if a.Exit? || a.DoReparent? || a.DoExitZombie? {
      NursedExit(s, a, y);
    } else if a.DoReparentWake? || a.DoExitWake? {
      NursedWakes(s, a, y);
    } else if a.Wait? || a.DoWaitScan? {
      NursedWait(s, a, y);
    } else if a.Fork? {
      NursedFork(s, a, y);
    } else {
      NursedForked(s, a, y);
    }
  }

  /** Steps that concern neither fork, exit nor wait. */
  lemma {:induction false} StepStill(s: Kernel, a: Step, x: nat)
    requires Inv(s) && Can(s, a) && !CanFamily(s, a) && x < |s.procs|
    ensures Still(s, Do(s, a), x)
  {
    hide LocalOk, CpuOk, SpinsOk, HeldOk, SleepOk, WaitOk, WaitLockOk, ParentOk, PidOk, HistoryOk, ForkOk, Slept,
      Still, DoThread, DoLock, DoFamily, DoIrq, CanThread, CanLock, CanFamily, CanIrq;
    if CanThread(s, a) {
      RestThread(s, a, x);
    } else if CanLock(s, a) {
      RestLock(s, a, x);
    } else {
      RestIrq(s, a, x);
    }
  }

  lemma {:induction false} MadeStep(s: Kernel, a: Step, y: nat)
    requires Inv(s) && Can(s, a) && y < |s.procs| && Made(s, y)
    ensures |Do(s, a).procs| == |s.procs| && Made(Do(s, a), y)
  {
    hide LocalOk, CpuOk, SpinsOk, HeldOk, SleepOk, WaitOk, WaitLockOk, ParentOk, PidOk, HistoryOk, ForkOk, Do, Can,
      DoFamily, CanFamily;
    if CanFamily(s, a) {
      H.FamilyDo(s, a);
      NursedFamily(s, a, y);
    } else {
      var x := s.procs[y].forker;
      StepStill(s, a, y);
      H.StepUninvolved(s, a, y);
      if x < |s.procs| {
        H.StepUninvolved(s, a, x);
      }
    }
  }

  lemma {:induction false} NursedRun(s: Kernel, run: seq<Step>, s': Kernel)
    requires Inv(s) && Nursed(s) && Reaches(s, run, s')
    ensures Nursed(s')
    decreases |run|
  {
    hide Inv, Can, Do, Made;
    if run != [] {
      StepKept(s, run[0]);
      H.SameLength(s, run[0]);
      forall y | 0 <= y < |s.procs| ensures Made(Do(s, run[0]), y) {
        MadeStep(s, run[0], y);
      }
      NursedRun(Do(s, run[0]), run[1..], s');
    }
  }

  /** A process that is allocated and not started is the child of a fork that has not returned. */
  lemma {:induction false} NoChildStuck(boot: Kernel, run: seq<Step>, s: Kernel, y: nat)
    requires Booted(boot) && Reaches(boot, run, s) && y < |s.procs| && s.procs[y].state == USED
    ensures var x := s.procs[y].forker;
            x < |s.procs| && Forking(s.procs[x].pc) && Core(s.procs[x].pc).np == y && Alive(s.procs[x].state)
  {
    hide Reaches, LocalOk, CpuOk, SpinsOk, HeldOk, SleepOk, WaitOk, WaitLockOk, ParentOk, PidOk, HistoryOk, ForkOk;
    BootKept(boot);
    BootNursed(boot);
    NursedRun(boot, run, s);
    RunKept(boot, run, s);
    assert Made(s, y);
    ForkingLives(s, s.procs[y].forker);
  }

  lemma {:induction false} BootNursed(boot: Kernel)
    requires Booted(boot)
    ensures Nursed(boot)
  {
  }

  lemma {:induction false} ForkingLives(s: Kernel, x: nat)
    requires LocalOk(s) && x < |s.procs| && Forking(s.procs[x].pc)
    ensures Alive(s.procs[x].state)
  {
    hide LocalOk;
    LocalAt(s, x);
  }

  // ----- wait sleeps for a child ------------------------------------------------------------------------

  ghost predicate ChildBelow(s: Kernel, x: nat, j: nat) {
    exists y :: 0 <= y < j && y < |s.procs| && s.procs[y].parent == Thread(x)
  }

  /** What the scan of wait has noted is there. */
  ghost predicate Noted(s: Kernel, x: nat)
    requires x < |s.procs|
  {
    s.procs[x].pc.WaitScan? && s.procs[x].pc.kids ==> ChildBelow(s, x, s.procs[x].pc.j)
  }

  lemma {:induction false} SameChildBelow(s: Kernel, s': Kernel, x: nat, j: nat)
    requires |s'.procs| == |s.procs|
    requires forall y :: 0 <= y < |s.procs| ==> s'.procs[y].parent == s.procs[y].parent
    ensures ChildBelow(s, x, j) ==> ChildBelow(s', x, j)
  {
    if ChildBelow(s, x, j) {
      var y :| 0 <= y < j && y < |s.procs| && s.procs[y].parent == Thread(x);
      assert s'.procs[y].parent == Thread(x);
    }
  }

  /** With process x in its scan, the other processes change no parent and not its control point. */
  lemma {:induction false} NotedOthers(s: Kernel, a: Step, x: nat)
    requires LocalOk(s) && SpinsOk(s) && CanFamily(s, a) && x < |s.procs| && s.procs[x].pc.WaitScan? && a.i != x
    ensures var s' := DoFamily(s, a);
            && |s'.procs| == |s.procs| && s'.procs[x].pc == s.procs[x].pc
            && forall y :: 0 <= y < |s.procs| ==> s'.procs[y].parent == s.procs[y].parent
  {
    hide LocalOk, SpinsOk;
    SpinMine(s, x);
    SpinMine(s, a.i);
    if a.Fork? {
      SleepShape(s, a.np);
    }
    SleepShape(s, x);
  }

  lemma {:induction false} NotedOwn(s: Kernel, x: nat, fault: bool)
    requires CanWaitScan(s, x) && Noted(s, x)
    ensures |WaitScanEffect(s, x, fault).procs| == |s.procs| && Noted(WaitScanEffect(s, x, fault), x)
  {
    var s' := WaitScanEffect(s, x, fault);
    if s'.procs[x].pc.WaitScan? && s'.procs[x].pc.kids {
      var j := s.procs[x].pc.j;
      if s.procs[j].parent == Thread(x) {
        assert s'.procs[j].parent == Thread(x);
      } else {
        var y :| 0 <= y < j && y < |s.procs| && s.procs[y].parent == Thread(x);
        assert s'.procs[y].parent == Thread(x);
      }
    }
  }

  /** Process x was not in its scan: it has noted nothing. */
  lemma {:induction false} NotedNothing(s: Kernel, a: Step, x: nat)
    requires CanFamily(s, a) && (a.Wait? || a.DoWaitScan?) && x < |s.procs| && !s.procs[x].pc.WaitScan?
    ensures |DoFamily(s, a).procs| == |s.procs|
    ensures DoFamily(s, a).procs[x].pc.WaitScan? ==> !DoFamily(s, a).procs[x].pc.kids
  {
  }

  lemma {:induction false} NoScanInFork(s: Kernel, a: Step, x: nat)
    requires CanFamily(s, a) && (a.Fork? || a.DoForkParent? || a.DoForkRun?)
    requires x < |s.procs| && !s.procs[x].pc.WaitScan?
    ensures |DoFamily(s, a).procs| == |s.procs| && !DoFamily(s, a).procs[x].pc.WaitScan?
  {
  }

  lemma {:induction false} NoScanInExit(s: Kernel, a: Step, x: nat)
    requires CanFamily(s, a) && (a.Exit? || a.DoReparent? || a.DoExitZombie?)
    requires x < |s.procs| && !s.procs[x].pc.WaitScan?
    ensures |DoFamily(s, a).procs| == |s.procs| && !DoFamily(s, a).procs[x].pc.WaitScan?
  {
  }

  lemma {:induction false} NoScanInWakes(s: Kernel, a: Step, x: nat)
    requires CanFamily(s, a) && (a.DoReparentWake? || a.DoExitWake?) && x < |s.procs| && !s.procs[x].pc.WaitScan?
    ensures |DoFamily(s, a).procs| == |s.procs| && !DoFamily(s, a).procs[x].pc.WaitScan?
  {
  }

  lemma {:induction false} NotedFamily(s: Kernel, a: Step, x: nat)
    requires LocalOk(s) && SpinsOk(s) && CanFamily(s, a) && x < |s.procs| && Noted(s, x)
    ensures |DoFamily(s, a).procs| == |s.procs| && Noted(DoFamily(s, a), x)
  {
    hide LocalOk, SpinsOk, ChildBelow, WaitScanEffect, ReparentEffect, ReparentWakeEffect, ExitWakeEffect,
      ForkEffect, ForkParentEffect, ForkRunEffect;
    if !s.procs[x].pc.WaitScan? {
      if a.DoReparentWake? || a.DoExitWake? {
        NoScanInWakes(s, a, x);
      } else if H.OfExit(a) {
        NoScanInExit(s, a, x);
      } else if a.Wait? || a.DoWaitScan? {
        NotedNothing(s, a, x);
      } else {
        NoScanInFork(s, a, x);
      }
    } else if a.i != x {
      NotedOthers(s, a, x);
      SameChildBelow(s, DoFamily(s, a), x, s.procs[x].pc.j);
    } else {
      NotedOwn(s, x, a.fault);
    }
  }

  lemma {:induction false} NotedStep(s: Kernel, a: Step, x: nat)
    requires Inv(s) && Can(s, a) && x < |s.procs| && Noted(s, x)
    ensures |Do(s, a).procs| == |s.procs| && Noted(Do(s, a), x)
  {
    hide LocalOk, CpuOk, SpinsOk, HeldOk, SleepOk, WaitOk, WaitLockOk, ParentOk, PidOk, HistoryOk, ForkOk, Do, Can,
      DoFamily, CanFamily, ChildBelow;
    if CanFamily(s, a) {
      H.FamilyDo(s, a);
      NotedFamily(s, a, x);
    } else {
      StepStill(s, a, x);
      forall y | 0 <= y < |s.procs| ensures Do(s, a).procs[y].parent == s.procs[y].parent {
        H.StepUninvolved(s, a, y);
      }
      if s.procs[x].pc.WaitScan? {
        SameChildBelow(s, Do(s, a), x, s.procs[x].pc.j);
      }
    }
  }

  lemma {:induction false} NotedRun(s: Kernel, run: seq<Step>, s': Kernel, x: nat)
    requires Inv(s) && x < |s.procs| && Noted(s, x) && Reaches(s, run, s')
    ensures x < |s'.procs| && Noted(s', x)
    decreases |run|
  {
    hide Inv, Can, Do, Noted;
    if run != [] {
      StepKept(s, run[0]);
      NotedStep(s, run[0], x);
      NotedRun(Do(s, run[0]), run[1..], s', x);
    }
  }

  /** When the scan of wait ends without a zombie, it has noted children if and only if there are any. */
  lemma {:induction false} WaitKnowsItsChildren(boot: Kernel, run: seq<Step>, s: Kernel, x: nat)
    requires Booted(boot) && Reaches(boot, run, s) && x < |s.procs|
    requires s.procs[x].pc.WaitScan? && s.procs[x].pc.j >= |s.procs|
    ensures s.procs[x].pc.kids <==> exists y :: 0 <= y < |s.procs| && s.procs[y].parent == Thread(x)
  {
    hide Reaches, Inv;
    BootKept(boot);
    RunLength(boot, run, s);
    NotedRun(boot, run, s, x);
    if !s.procs[x].pc.kids {
      forall y | 0 <= y < |s.procs| ensures s.procs[y].parent != Thread(x) {
        WaitFailsWithoutChildren(boot, run, s, x, y);
      }
    }
  }
}
