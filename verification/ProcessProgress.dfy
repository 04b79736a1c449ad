/**
 The locks of kernel/proc.c and kernel/sleeplock.c are taken in one order, wait_lock or another
 spinlock first and p->lock last, so whoever waits for one waits for somebody who goes on.
 */
module ProcessProgress {
  import opened Process
  import opened ProcessRuns

  /** What a process that is on a CPU does next; outside of every call it can at least yield. */
  ghost function Move(s: Kernel, x: nat): (a: Step)
    requires x < |s.procs| && OnCpu(s.procs[x].pc)
  {
    var p := s.procs[x];
    match p.pc
    case Ready => DoYield(x)
    case SwYield(_) => SwitchOut(p.cpu)
    case SwSleep(_) => SwitchOut(p.cpu)
    case SwExit => SwitchOut(p.cpu)
    case Resume(_) => DoResume(x)
    case KillScan(_, _) => DoKillScan(x)
    case Inside(_, owed) => if owed == {} then Leave(x) else var ch :| ch in owed; Wakeup(x, ch)
    case Signal(_, _, _, _) => DoSignal(x)
    case AcqTest(_) => DoAcqTest(x)
    case SleepEnter(_) => DoSleepEnter(x)
    case SleepLocked(_) => DoSleepLocked(x)
    case SleepMark(_) => DoSleepMark(x)
    case SleepBack(_) => DoSleepBack(x)
    case Reacquire(_) => DoReacquire(x)
    case Reparent(_, _) => DoReparent(x)
    case ReparentWake(_, _, _) => DoReparentWake(x)
    case ExitWake(_, _) => DoExitWake(x)
    case ExitZombie => DoExitZombie(x)
    case WaitScan(_, _) => DoWaitScan(x, false)
    case ForkParent(_) => DoForkParent(x)
    case ForkRun(_) => DoForkRun(x)
  }

  /** Who holds p->lock of process j: only j itself keeps it from one step to the next. */
  function ProcHolder(s: Kernel, j: nat): (w: Who) {
    if j < |s.procs| && s.procs[j].lock then Thread(j) else Nobody
  }

  /** Who holds the lock that the next step of process x has to acquire. */
  function Blocker(s: Kernel, x: nat): (w: Who)
    requires x < |s.procs|
  {
    match s.procs[x].pc
    case KillScan(_, j) => ProcHolder(s, j)
    case Signal(_, _, _, j) => if j == x then Nobody else ProcHolder(s, j)
    case ReparentWake(_, _, k) => if k == x then Nobody else ProcHolder(s, k)
    case ExitWake(_, k) => if k == x then Nobody else ProcHolder(s, k)
    case WaitScan(j, _) => if j < |s.procs| && s.procs[j].parent == Thread(x) then ProcHolder(s, j) else Nobody
    case Reacquire(lk) => if lk.WaitLock? then s.waitLock else if lk.k < |s.locks| then s.locks[lk.k].spin else Nobody
    case ForkParent(_) => s.waitLock
    case ForkRun(np) => ProcHolder(s, np)
    case _ => Nobody
  }

  ghost function HandlerMove(s: Kernel, c: nat): (a: Step)
    requires c < |s.handlers| && !s.handlers[c].Ready?
  {
    match s.handlers[c]
    case Inside(_, owed) => if owed == {} then IrqLeave(c) else var ch :| ch in owed; IrqWakeup(c, ch)
    case _ => IrqSignal(c)
  }

  function HandlerBlocker(s: Kernel, c: nat): (w: Who)
    requires c < |s.handlers|
  {
    if s.handlers[c].Signal? then ProcHolder(s, s.handlers[c].j) else Nobody
  }

  lemma {:induction false} OnItsCpu(s: Kernel, x: nat)
    requires CpuOk(s) && x < |s.procs| && OnCpu(s.procs[x].pc)
    ensures s.procs[x].cpu < |s.cpus| && s.cpus[s.procs[x].cpu] == Thread(x)
  {
  }

  lemma {:induction false} MovesAround(s: Kernel, x: nat)
    requires LocalOk(s) && CpuOk(s) && x < |s.procs| && OnCpu(s.procs[x].pc)
    requires var pc := s.procs[x].pc;
             pc.Ready? || pc.SwYield? || pc.SwSleep? || pc.SwExit? || pc.Resume? || pc.KillScan?
    ensures CanThread(s, Move(s, x)) <==> Blocker(s, x) == Nobody
  {
    hide LocalOk, CpuOk;
    LocalAt(s, x);
    OnItsCpu(s, x);
  }

  lemma {:induction false} MovesAsleep(s: Kernel, x: nat)
    requires LocalOk(s) && x < |s.procs|
    requires var pc := s.procs[x].pc;
             pc.SleepEnter? || pc.SleepLocked? || pc.SleepMark? || pc.SleepBack? || pc.Reacquire?
    ensures CanThread(s, Move(s, x)) <==> Blocker(s, x) == Nobody
  {
    hide LocalOk;
    LocalAt(s, x);
  }

  lemma {:induction false} MovesInside(s: Kernel, x: nat)
    requires LocalOk(s) && x < |s.procs|
    requires var pc := s.procs[x].pc; pc.Inside? || pc.Signal? || pc.AcqTest?
    ensures CanLock(s, Move(s, x)) <==> Blocker(s, x) == Nobody
  {
    hide LocalOk;
    LocalAt(s, x);
  }

  lemma {:induction false} MovesFamily(s: Kernel, x: nat)
    requires LocalOk(s) && x < |s.procs|
    requires ExitScan(s.procs[x].pc) || s.procs[x].pc.ExitZombie? || s.procs[x].pc.WaitScan?
             || s.procs[x].pc.ForkParent? || s.procs[x].pc.ForkRun?
    ensures CanFamily(s, Move(s, x)) <==> Blocker(s, x) == Nobody
  {
    hide LocalOk;
    LocalAt(s, x);
  }

  /** A process on a CPU can take its next step if and only if nobody holds the lock it needs. */
  lemma {:induction false} MovesUnlessBlocked(s: Kernel, x: nat)
    requires Inv(s) && x < |s.procs| && OnCpu(s.procs[x].pc)
    ensures Can(s, Move(s, x)) <==> Blocker(s, x) == Nobody
  {
    hide LocalOk, CpuOk, SpinsOk, HeldOk, SleepOk, WaitOk, WaitLockOk, ParentOk, PidOk, HistoryOk, ForkOk, Blocker;
    var pc := s.procs[x].pc;
    if pc.Inside? || pc.Signal? || pc.AcqTest? {
      MovesInside(s, x);
    } else if ExitScan(pc) || pc.ExitZombie? || pc.WaitScan? || pc.ForkParent? || pc.ForkRun? {
      MovesFamily(s, x);
    } else if pc.SleepEnter? || pc.SleepLocked? || pc.SleepMark? || pc.SleepBack? || pc.Reacquire? {
      MovesAsleep(s, x);
    } else {
      MovesAround(s, x);
    }
  }

  lemma {:induction false} HandlerMovesUnlessBlocked(s: Kernel, c: nat)
    requires Inv(s) && c < |s.handlers| && !s.handlers[c].Ready?
    ensures Can(s, HandlerMove(s, c)) <==> HandlerBlocker(s, c) == Nobody
  {
    hide CpuOk, SpinsOk, HeldOk, SleepOk, WaitOk, WaitLockOk, ParentOk, PidOk, HistoryOk, ForkOk;
    assert HandlerAt(s.handlers[c], |s.procs|, |s.locks|);
  }

  /** Who keeps its own p->lock waits for nobody. */
  lemma {:induction false} ProcHolderMoves(s: Kernel, j: nat)
    requires LocalOk(s) && ProcHolder(s, j) != Nobody
    ensures ProcHolder(s, j) == Thread(j) && j < |s.procs| && OnCpu(s.procs[j].pc) && Blocker(s, j) == Nobody
  {
    hide LocalOk;
    LocalAt(s, j);
  }

  /** Who waits for a process while it keeps a spinlock waits for a p->lock. */
  lemma {:induction false} InnerMoves(s: Kernel, y: nat)
    requires LocalOk(s) && y < |s.procs| && (HoldsWait(s.procs[y].pc) || SpinHeld(s.procs[y].pc) >= 0)
    ensures OnCpu(s.procs[y].pc)
    ensures Blocker(s, y) == Nobody
            || (Blocker(s, y).Thread? && Blocker(s, y).i < |s.procs| && OnCpu(s.procs[Blocker(s, y).i].pc)
                && Blocker(s, Blocker(s, y).i) == Nobody)
  {
    hide LocalOk;
    var w := Blocker(s, y);
    if w.Thread? {
      ProcHolderMoves(s, w.i);
    }
  }

  // ----- interrupt handlers do not take wait_lock ---------------------------------------------------

  lemma {:induction false} WaitLockThread(s: Kernel, a: Step)
    requires CanThread(s, a) && !s.waitLock.Handler?
    ensures !DoThread(s, a).waitLock.Handler?
  {
  }

  lemma {:induction false} WaitLockLock(s: Kernel, a: Step)
    requires CanLock(s, a) && !s.waitLock.Handler?
    ensures !DoLock(s, a).waitLock.Handler?
  {
  }

  lemma {:induction false} WaitLockFamily(s: Kernel, a: Step)
    requires CanFamily(s, a) && !s.waitLock.Handler?
    ensures !DoFamily(s, a).waitLock.Handler?
  {
  }

  lemma {:induction false} WaitLockIrq(s: Kernel, a: Step)
    requires CanIrq(s, a) && !s.waitLock.Handler?
    ensures !DoIrq(s, a).waitLock.Handler?
  {
  }

  lemma {:induction false} WaitLockRun(s: Kernel, run: seq<Step>, s': Kernel)
    requires !s.waitLock.Handler? && Reaches(s, run, s')
    ensures !s'.waitLock.Handler?
    decreases |run|
  {
    hide CanThread, CanLock, CanFamily, CanIrq, DoThread, DoLock, DoFamily, DoIrq;
    if run != [] {
      if CanThread(s, run[0]) {
        WaitLockThread(s, run[0]);
      } else if CanLock(s, run[0]) {
        WaitLockLock(s, run[0]);
      } else if CanFamily(s, run[0]) {
        WaitLockFamily(s, run[0]);
      } else {
        WaitLockIrq(s, run[0]);
      }
      WaitLockRun(Do(s, run[0]), run[1..], s');
    }
  }

  // ----- chains of waiting end ---------------------------------------------------------------------------

  /** The step is the next one of w, or of whom w waits for. */
  ghost predicate NextOf(s: Kernel, w: Who, a: Step) {
    match w
    case Nobody => false
    case Thread(y) =>
      y < |s.procs| && OnCpu(s.procs[y].pc) && (a == Move(s, y) || Inner(s, Blocker(s, y), a))
    case Handler(c) =>
      c < |s.handlers| && !s.handlers[c].Ready? && (a == HandlerMove(s, c) || Inner(s, HandlerBlocker(s, c), a))
  }

  /** The step is the next one of the process w. */
  ghost predicate Inner(s: Kernel, w: Who, a: Step) {
    w.Thread? && w.i < |s.procs| && OnCpu(s.procs[w.i].pc) && a == Move(s, w.i)
  }

  lemma {:induction false} ThreadNext(s: Kernel, y: nat) returns (a: Step)
    requires Inv(s) && y < |s.procs| && (HoldsWait(s.procs[y].pc) || SpinHeld(s.procs[y].pc) >= 0)
    ensures Can(s, a) && NextOf(s, Thread(y), a)
  {
    hide LocalOk, CpuOk, SpinsOk, HeldOk, SleepOk, WaitOk, WaitLockOk, ParentOk, PidOk, HistoryOk, ForkOk, Blocker,
      Move, Can, OnCpu, HoldsWait, SpinHeld;
    InnerMoves(s, y);
    MovesUnlessBlocked(s, y);
    a := Move(s, y);
    if Blocker(s, y) != Nobody {
      MovesUnlessBlocked(s, Blocker(s, y).i);
      a := Move(s, Blocker(s, y).i);
    }
  }

  lemma {:induction false} HandlerNext(s: Kernel, c: nat) returns (a: Step)
    requires Inv(s) && c < |s.handlers| && !s.handlers[c].Ready?
    ensures Can(s, a) && NextOf(s, Handler(c), a)
  {
    hide LocalOk, CpuOk, SpinsOk, HeldOk, SleepOk, WaitOk, WaitLockOk, ParentOk, PidOk, HistoryOk, ForkOk, Blocker,
      Move, HandlerMove, Can, OnCpu;
    HandlerMovesUnlessBlocked(s, c);
    a := HandlerMove(s, c);
    if HandlerBlocker(s, c) != Nobody {
      var j := s.handlers[c].j;
      ProcHolderMoves(s, j);
      MovesUnlessBlocked(s, j);
      a := Move(s, j);
    }
  }

  /** What holds a spinlock is at a place where it does. */
  lemma {:induction false} HolderIs(s: Kernel, x: nat)
    requires LocalOk(s) && SpinsOk(s) && x < |s.procs| && OnCpu(s.procs[x].pc)
    requires Blocker(s, x) != Nobody && !s.waitLock.Handler?
    ensures var w := Blocker(s, x);
            && (w.Thread? ==>
                  && w.i < |s.procs| && OnCpu(s.procs[w.i].pc)
                  && (Blocker(s, w.i) == Nobody || HoldsWait(s.procs[w.i].pc) || SpinHeld(s.procs[w.i].pc) >= 0))
            && (w.Handler? ==> w.c < |s.handlers| && !s.handlers[w.c].Ready?)
  {
    hide LocalOk;
    LocalAt(s, x);
    var w := Blocker(s, x);
    if s.procs[x].pc.Reacquire? || s.procs[x].pc.ForkParent? {
      if w.Thread? {
        InnerMoves(s, w.i);
      }
    } else {
      ProcHolderMoves(s, w.i);
    }
  }

  /**
   No deadlock: a process that is on a CPU can take its next step, or the one that holds the lock it
   needs can, or the one that this one waits for.
   */
  lemma {:induction false} NoDeadlock(boot: Kernel, run: seq<Step>, s: Kernel, x: nat) returns (a: Step)
    requires Booted(boot) && Reaches(boot, run, s) && x < |s.procs| && OnCpu(s.procs[x].pc)
    ensures Can(s, a) && (a == Move(s, x) || NextOf(s, Blocker(s, x), a))
  {
    hide Reaches, LocalOk, CpuOk, SpinsOk, HeldOk, SleepOk, WaitOk, WaitLockOk, ParentOk, PidOk, HistoryOk, ForkOk,
      Blocker, Move, HandlerMove, Can, OnCpu, HoldsWait, SpinHeld;
    BootKept(boot);
    RunKept(boot, run, s);
    WaitLockRun(boot, run, s);
    MovesUnlessBlocked(s, x);
    a := Move(s, x);
    var w := Blocker(s, x);
    if w != Nobody {
      HolderIs(s, x);
      if w.Handler? {
        a := HandlerNext(s, w.c);
      } else if Blocker(s, w.i) == Nobody {
        MovesUnlessBlocked(s, w.i);
        a := Move(s, w.i);
      } else {
        a := ThreadNext(s, w.i);
      }
    }
  }

  /** A process that is ready to run and has been switched out can be picked by every idle CPU. */
  lemma {:induction false} ReadyCanRun(s: Kernel, x: nat, c: nat)
    requires Inv(s) && x < |s.procs| && c < |s.cpus| && s.cpus[c] == Nobody
    ensures s.procs[x].state == RUNNABLE && !OnCpu(s.procs[x].pc) <==> Can(s, Dispatch(c, x))
  {
    hide LocalOk, CpuOk, SpinsOk, HeldOk, SleepOk, WaitOk, WaitLockOk, ParentOk, PidOk, HistoryOk, ForkOk;
    LocalAt(s, x);
  }
}
