/**
 Processes (kernel/proc.c) and sleep locks (kernel/sleeplock.c) as interleaved
 steps.  Every process, while it runs on a CPU, is at a control point `pc`; a step
 is one critical section, or the part of one between two lock operations.  Any
 process that is on a CPU, and the scheduler of any idle CPU, may take the next step.
 */
module Process {

  datatype State = UNUSED | USED | SLEEPING | RUNNABLE | RUNNING | ZOMBIE

  /** A lock's owner, a CPU's current process, a parent; Nobody is the null pointer. */
  datatype Who = Nobody | Thread(i: nat) | Handler(c: nat)   // Handler: the interrupt handler of CPU c

  /** What a process sleeps under and for: channel ch of the spinlock k, or a child's exit under wait_lock. */
  datatype Spin = LockOf(k: nat, ch: nat) | WaitLock

  /** Sleep channels: an address guarded by a spinlock, or the address of a process. */
  datatype Chan = NoChan | LockChan(k: nat, ch: nat) | ProcChan(i: nat)

  /** Control points. */
  datatype Pc =
    | Free                                              // unused slot
    | New                                               // allocated, has not run
    | Ready                                             // running, outside of what follows
    | SwYield(back: Pc) | Yielded(back: Pc)             // yield: in sched with p->lock; switched out
    | Resume(back: Pc)                                  //   switched to, releases p->lock and goes back
    | KillScan(pid: int, j: nat)                        // kill: looks at process j
    | Inside(k: nat, owed: set<nat>)                    // holds the spinlock k, has yet to wake these channels
    | Signal(k: nat, owed: set<nat>, ch: nat, j: nat)   //   its wakeup of channel ch is at process j
    | AcqTest(k: nat)                                   // acquiresleep: holds lk, tests locked
    | SleepEnter(lk: Spin)                              // sleep: holds lk, wants p->lock
    | SleepLocked(lk: Spin)                             //   holds both
    | SleepMark(lk: Spin)                               //   lk released, about to set chan and state
    | SwSleep(lk: Spin) | Asleep(lk: Spin)              //   in sched; switched out
    | SleepBack(lk: Spin) | Reacquire(lk: Spin)         //   switched to again; wants lk again
    | Reparent(status: int, j: nat)                     // exit: reparent is at process j
    | ReparentWake(status: int, j: nat, k: nat)         //   and its wakeup(initproc) at process k
    | ExitWake(status: int, k: nat)                     //   wakeup(p->parent) at process k
    | ExitZombie | SwExit | Gone                        //   ZOMBIE; wait_lock released; switched out
    | WaitScan(j: nat, kids: bool)                      // wait: looks at process j
    | ForkParent(np: nat) | ForkRun(np: nat)            // fork: about to set np->parent; np->state

  datatype Proc = Proc(state: State, chan: Chan, killed: bool, xstate: int, pid: nat, parent: Who,
                       lock: bool, pc: Pc, cpu: nat, forker: nat, held: set<nat>)

  /**
   A spinlock and what it guards: the channels whose condition holds at the moment.  A
   process sleeps on a channel only when its condition does not hold, and who makes one
   hold wakes the channel before it lets go of the lock (pipes, the log, the disk, the
   console, the clock).  In a sleep lock, channel 0 is its address and waits for it to be unlocked.
   */
  datatype Monitor = Monitor(spin: Who, ready: set<nat>, locked: bool, pid: nat, holder: nat)

  /** One return from wait: which pid, with which status, to which process. */
  datatype Reap = Reap(pid: nat, status: int, parent: nat)

  /**
   `exited`, `reaped` and `zeroed` are histories: the status each pid gave to exit, what
   wait returned, and whether kill(0) was ever called.  `handlers` says where each CPU's
   interrupt handler is: Ready when there is none, otherwise inside a spinlock.  It may run
   whether the CPU is idle or not.
   */
  datatype Kernel = Kernel(procs: seq<Proc>, cpus: seq<Who>, waitLock: Who, locks: seq<Monitor>, init: nat,
                           nextpid: nat, exited: map<nat, int>, reaped: seq<Reap>, zeroed: bool, handlers: seq<Pc>)

  // ----- steps -----------------------------------------------------------------------

  datatype Step =
    | Dispatch(c: nat, i: nat) | SwitchOut(c: nat) | DoResume(i: nat)
    | DoYield(i: nat) | Kill(i: nat, pid: int) | DoKillScan(i: nat)
    | Enter(i: nat, k: nat) | Change(i: nat, ready: set<nat>) | SleepOn(i: nat, ch: nat)
    | Wakeup(i: nat, ch: nat) | DoSignal(i: nat) | Leave(i: nat)
    | Acquire(i: nat, k: nat) | DoAcqTest(i: nat) | Release(i: nat, k: nat)
    | DoSleepEnter(i: nat) | DoSleepLocked(i: nat) | DoSleepMark(i: nat) | DoSleepBack(i: nat)
    | DoReacquire(i: nat)
    | Exit(i: nat, status: int) | DoReparent(i: nat) | DoReparentWake(i: nat) | DoExitWake(i: nat)
    | DoExitZombie(i: nat)
    | Wait(i: nat) | DoWaitScan(i: nat, fault: bool)
    | Fork(i: nat, np: nat) | DoForkParent(i: nat) | DoForkRun(i: nat)
    | IrqEnter(c: nat, k: nat) | IrqChange(c: nat, ready: set<nat>) | IrqWakeup(c: nat, ch: nat)
    | IrqSignal(c: nat) | IrqLeave(c: nat)

  /** The control points of a process that is current on a CPU. */
  predicate OnCpu(pc: Pc) {
    !(pc.Free? || pc.New? || pc.Yielded? || pc.Asleep? || pc.Gone?)
  }

  /** No spinlock is held here, so interrupts are on and the clock may make the process yield. */
  predicate Preemptible(pc: Pc) {
    pc.Ready? || pc.KillScan? || pc.Reacquire? || pc.ForkParent? || pc.ForkRun?
  }

  /** Where a process is, preempted or not. */
  function Core(pc: Pc): (c: Pc) {
    if pc.SwYield? || pc.Yielded? || pc.Resume? then pc.back else pc
  }

  function ChanOf(i: nat, lk: Spin): (c: Chan) {
    if lk.WaitLock? then ProcChan(i) else LockChan(lk.k, lk.ch)
  }

  predicate FreeSpin(s: Kernel, lk: Spin) {
    if lk.WaitLock? then s.waitLock == Nobody else lk.k < |s.locks| && s.locks[lk.k].spin == Nobody
  }

  /** Set process i to p. */
  function Put(s: Kernel, i: nat, p: Proc): (s': Kernel)
    requires i < |s.procs|
  {
    s.(procs := s.procs[i := p])
  }

  function Goto(s: Kernel, i: nat, pc: Pc): (s': Kernel)
    requires i < |s.procs|
  {
    Put(s, i, s.procs[i].(pc := pc))
  }

  function SetLock(s: Kernel, k: nat, l: Monitor): (s': Kernel)
    requires k < |s.locks|
  {
    s.(locks := s.locks[k := l])
  }

  function SetSpin(s: Kernel, lk: Spin, w: Who): (s': Kernel)
    requires lk.LockOf? ==> lk.k < |s.locks|
  {
    if lk.WaitLock? then s.(waitLock := w) else SetLock(s, lk.k, s.locks[lk.k].(spin := w))
  }

  /** The body of wakeup's loop, for one process. */
  function Woken(p: Proc, chan: Chan): (p': Proc) {
    if p.state == SLEEPING && p.chan == chan then p.(state := RUNNABLE) else p
  }

  /** wakeup by i can deal with process j now: it is i itself, or its lock is free. */
  predicate CanWake(s: Kernel, i: nat, j: nat) {
    j < |s.procs| ==> i == j || !s.procs[j].lock
  }

  function Wake(s: Kernel, i: nat, j: nat, chan: Chan): (s': Kernel) {
    if j < |s.procs| && i != j then Put(s, j, Woken(s.procs[j], chan)) else s
  }

  predicate At(s: Kernel, i: nat) {
    i < |s.procs|
  }

  predicate CanDispatch(s: Kernel, c: nat, i: nat) {
    c < |s.cpus| && s.cpus[c] == Nobody && At(s, i) && !s.procs[i].lock && s.procs[i].state == RUNNABLE
  }

  predicate CanSwitchOut(s: Kernel, c: nat) {
    && c < |s.cpus| && s.cpus[c].Thread? && At(s, s.cpus[c].i)
    && (var pc := s.procs[s.cpus[c].i].pc; pc.SwYield? || pc.SwSleep? || pc.SwExit?)
  }

  predicate CanResume(s: Kernel, i: nat) {
    At(s, i) && s.procs[i].pc.Resume?
  }

  predicate CanYield(s: Kernel, i: nat) {
    At(s, i) && Preemptible(s.procs[i].pc) && !s.procs[i].lock
  }

  predicate CanKill(s: Kernel, i: nat) {
    At(s, i) && s.procs[i].pc.Ready?
  }

  predicate CanKillScan(s: Kernel, i: nat) {
    && At(s, i) && s.procs[i].pc.KillScan?
    && (s.procs[i].pc.j < |s.procs| ==> !s.procs[s.procs[i].pc.j].lock)
  }

  predicate CanEnter(s: Kernel, i: nat, k: nat) {
    At(s, i) && s.procs[i].pc.Ready? && FreeSpin(s, LockOf(k, 0))
  }

  /** Nothing but acquiresleep and releasesleep changes whether a sleep lock is locked. */
  predicate CanChange(s: Kernel, i: nat, ready: set<nat>) {
    && At(s, i) && s.procs[i].pc.Inside? && s.procs[i].pc.k < |s.locks|
    && (0 in ready <==> 0 in s.locks[s.procs[i].pc.k].ready)
  }

  predicate CanSleepOn(s: Kernel, i: nat, ch: nat) {
    && At(s, i) && s.procs[i].pc.Inside? && s.procs[i].pc.owed == {} && s.procs[i].pc.k < |s.locks|
    && ch != 0 && ch !in s.locks[s.procs[i].pc.k].ready
  }

  predicate CanWakeup(s: Kernel, i: nat) {
    At(s, i) && s.procs[i].pc.Inside?
  }

  predicate CanLeave(s: Kernel, i: nat) {
    At(s, i) && s.procs[i].pc.Inside? && s.procs[i].pc.owed == {} && s.procs[i].pc.k < |s.locks|
  }

  predicate CanAcquire(s: Kernel, i: nat, k: nat) {
    At(s, i) && s.procs[i].pc.Ready? && FreeSpin(s, LockOf(k, 0))
  }

  predicate CanAcqTest(s: Kernel, i: nat) {
    At(s, i) && s.procs[i].pc.AcqTest? && s.procs[i].pc.k < |s.locks|
  }

  predicate CanRelease(s: Kernel, i: nat, k: nat) {
    At(s, i) && s.procs[i].pc.Ready? && k in s.procs[i].held && FreeSpin(s, LockOf(k, 0))
  }

  predicate CanSignal(s: Kernel, i: nat) {
    At(s, i) && s.procs[i].pc.Signal? && CanWake(s, i, s.procs[i].pc.j)
  }

  predicate CanSleepEnter(s: Kernel, i: nat) {
    At(s, i) && s.procs[i].pc.SleepEnter? && !s.procs[i].lock
  }

  predicate CanSleepLocked(s: Kernel, i: nat) {
    At(s, i) && s.procs[i].pc.SleepLocked? && SpinOk(s, s.procs[i].pc.lk)
  }

  predicate CanSleepMark(s: Kernel, i: nat) {
    At(s, i) && s.procs[i].pc.SleepMark?
  }

  predicate CanSleepBack(s: Kernel, i: nat) {
    At(s, i) && s.procs[i].pc.SleepBack?
  }

  predicate CanReacquire(s: Kernel, i: nat) {
    At(s, i) && s.procs[i].pc.Reacquire? && FreeSpin(s, s.procs[i].pc.lk)
  }

  predicate CanExit(s: Kernel, i: nat) {
    At(s, i) && s.procs[i].pc.Ready? && i != s.init && s.procs[i].held == {} && s.waitLock == Nobody
  }

  predicate CanReparent(s: Kernel, i: nat) {
    At(s, i) && s.procs[i].pc.Reparent?
  }

  predicate CanReparentWake(s: Kernel, i: nat) {
    At(s, i) && s.procs[i].pc.ReparentWake? && CanWake(s, i, s.procs[i].pc.k)
  }

  predicate CanExitWake(s: Kernel, i: nat) {
    At(s, i) && s.procs[i].pc.ExitWake? && CanWake(s, i, s.procs[i].pc.k)
  }

  predicate CanExitZombie(s: Kernel, i: nat) {
    At(s, i) && s.procs[i].pc.ExitZombie?
  }

  predicate CanWait(s: Kernel, i: nat) {
    At(s, i) && s.procs[i].pc.Ready? && s.waitLock == Nobody
  }

  predicate CanWaitScan(s: Kernel, i: nat) {
    && At(s, i) && s.procs[i].pc.WaitScan?
    && (var j := s.procs[i].pc.j; j < |s.procs| && s.procs[j].parent == Thread(i) ==> !s.procs[j].lock)
  }

  predicate CanFork(s: Kernel, i: nat, np: nat) {
    At(s, i) && s.procs[i].pc.Ready? && At(s, np) && s.procs[np].state == UNUSED && !s.procs[np].lock
  }

  predicate CanForkParent(s: Kernel, i: nat) {
    At(s, i) && s.procs[i].pc.ForkParent? && At(s, s.procs[i].pc.np) && s.waitLock == Nobody
  }

  predicate CanForkRun(s: Kernel, i: nat) {
    At(s, i) && s.procs[i].pc.ForkRun? && At(s, s.procs[i].pc.np) && !s.procs[s.procs[i].pc.np].lock
  }

  predicate SpinOk(s: Kernel, lk: Spin) {
    lk.LockOf? ==> lk.k < |s.locks|
  }

  /** release(&p->lock) after yield, or in forkret. */
  function ResumeEffect(s: Kernel, i: nat): (s': Kernel)
    requires CanResume(s, i)
  {
    Put(s, i, s.procs[i].(lock := false, pc := s.procs[i].pc.back))
  }

  /** yield up to its call of sched. */
  function YieldEffect(s: Kernel, i: nat): (s': Kernel)
    requires CanYield(s, i)
  {
    Put(s, i, s.procs[i].(lock := true, state := RUNNABLE, pc := SwYield(s.procs[i].pc)))
  }

  function KillEffect(s: Kernel, i: nat, pid: int): (s': Kernel)
    requires CanKill(s, i)
  {
    Goto(s.(zeroed := s.zeroed || pid == 0), i, KillScan(pid, 0))
  }

  /** kill's loop body, for one process, and its return. */
  function KillScanEffect(s: Kernel, i: nat): (s': Kernel)
    requires CanKillScan(s, i)
  {
    var pid, j := s.procs[i].pc.pid, s.procs[i].pc.j;
    if j >= |s.procs| then Goto(s, i, Ready)
    else if s.procs[j].pid == pid then Goto(Put(s, j, Killed(s.procs[j])), i, Ready)
    else Goto(s, i, KillScan(pid, j + 1))
  }

  /** acquire of the spinlock k ... */
  function EnterEffect(s: Kernel, i: nat, k: nat): (s': Kernel)
    requires CanEnter(s, i, k)
  {
    Goto(SetSpin(s, LockOf(k, 0), Thread(i)), i, Inside(k, {}))
  }

  /** ... a change of what it guards, after which these conditions hold ... */
  function ChangeEffect(s: Kernel, i: nat, ready: set<nat>): (s': Kernel)
    requires CanChange(s, i, ready)
  {
    var k, owed := s.procs[i].pc.k, s.procs[i].pc.owed;
    Goto(SetLock(s, k, s.locks[k].(ready := ready)), i, Inside(k, owed * ready + (ready - s.locks[k].ready)))
  }

  /** ... while(!condition) sleep(ch, lk) ... */
  function SleepOnEffect(s: Kernel, i: nat, ch: nat): (s': Kernel)
    requires CanSleepOn(s, i, ch)
  {
    Goto(s, i, SleepEnter(LockOf(s.procs[i].pc.k, ch)))
  }

  /** ... wakeup(ch) ... */
  function WakeupEffect(s: Kernel, i: nat, ch: nat): (s': Kernel)
    requires CanWakeup(s, i)
  {
    Goto(s, i, Signal(s.procs[i].pc.k, s.procs[i].pc.owed - {ch}, ch, 0))
  }

  /** ... one process at a time ... */
  function SignalEffect(s: Kernel, i: nat): (s': Kernel)
    requires CanSignal(s, i)
  {
    var k, owed, ch, j := s.procs[i].pc.k, s.procs[i].pc.owed, s.procs[i].pc.ch, s.procs[i].pc.j;
    if j < |s.procs| then Goto(Wake(s, i, j, LockChan(k, ch)), i, Signal(k, owed, ch, j + 1))
    else Goto(s, i, Inside(k, owed))
  }

  /** ... and release. */
  function LeaveEffect(s: Kernel, i: nat): (s': Kernel)
    requires CanLeave(s, i)
  {
    Goto(SetSpin(s, LockOf(s.procs[i].pc.k, 0), Nobody), i, Ready)
  }

  /** acquiresleep: acquire(&lk->lk). */
  function AcquireEffect(s: Kernel, i: nat, k: nat): (s': Kernel)
    requires CanAcquire(s, i, k)
  {
    Goto(SetSpin(s, LockOf(k, 0), Thread(i)), i, AcqTest(k))
  }

  /** sleep: acquire(&p->lock) ... */
  function SleepEnterEffect(s: Kernel, i: nat): (s': Kernel)
    requires CanSleepEnter(s, i)
  {
    Put(s, i, s.procs[i].(lock := true, pc := SleepLocked(s.procs[i].pc.lk)))
  }

  /** ... release(lk) ... */
  function SleepLockedEffect(s: Kernel, i: nat): (s': Kernel)
    requires CanSleepLocked(s, i)
  {
    Goto(SetSpin(s, s.procs[i].pc.lk, Nobody), i, SleepMark(s.procs[i].pc.lk))
  }

  /** ... and the marks, up to the call of sched. */
  function SleepMarkEffect(s: Kernel, i: nat): (s': Kernel)
    requires CanSleepMark(s, i)
  {
    var lk := s.procs[i].pc.lk;
    Put(s, i, s.procs[i].(chan := ChanOf(i, lk), state := SLEEPING, pc := SwSleep(lk)))
  }

  /** sleep after sched: tidy up and release(&p->lock). */
  function SleepBackEffect(s: Kernel, i: nat): (s': Kernel)
    requires CanSleepBack(s, i)
  {
    Put(s, i, s.procs[i].(chan := NoChan, lock := false, pc := Reacquire(s.procs[i].pc.lk)))
  }

  function ExitEffect(s: Kernel, i: nat, status: int): (s': Kernel)
    requires CanExit(s, i)
  {
    Goto(s.(waitLock := Thread(i)), i, Reparent(status, 0))
  }

  function ExitZombieEffect(s: Kernel, i: nat): (s': Kernel)
    requires CanExitZombie(s, i)
  {
    Goto(s.(waitLock := Nobody), i, SwExit)
  }

  function WaitEffect(s: Kernel, i: nat): (s': Kernel)
    requires CanWait(s, i)
  {
    Goto(s.(waitLock := Thread(i)), i, WaitScan(0, false))
  }

  /** scheduler picks process i: it continues where it called sched, or at forkret. */
  function DispatchEffect(s: Kernel, c: nat, i: nat): (s': Kernel)
    requires CanDispatch(s, c, i)
  {
    var p := s.procs[i];
    var pc := if p.pc.Asleep? then SleepBack(p.pc.lk) else if p.pc.Yielded? then Resume(p.pc.back) else Resume(Ready);
    Put(s.(cpus := s.cpus[c := Thread(i)]), i, p.(state := RUNNING, lock := true, pc := pc, cpu := c))
  }

  /** swtch back to the scheduler, which releases p->lock. */
  function SwitchOutEffect(s: Kernel, c: nat): (s': Kernel)
    requires CanSwitchOut(s, c)
  {
    var i := s.cpus[c].i;
    var p := s.procs[i];
    var pc := if p.pc.SwSleep? then Asleep(p.pc.lk) else if p.pc.SwYield? then Yielded(p.pc.back) else Gone;
    Put(s.(cpus := s.cpus[c := Nobody]), i, p.(lock := false, pc := pc))
  }

  /** kill, at the process it finds. */
  function Killed(p: Proc): (p': Proc) {
    p.(killed := true, state := if p.state == SLEEPING then RUNNABLE else p.state)
  }

  /** releasesleep up to its wakeup(lk); the release of lk->lk is a Leave. */
  function ReleaseEffect(s: Kernel, i: nat, k: nat): (s': Kernel)
    requires CanRelease(s, i, k)
  {
    Put(SetLock(s, k, Monitor(Thread(i), s.locks[k].ready + {0}, false, 0, 0)), i,
        s.procs[i].(pc := Signal(k, {}, 0, 0), held := s.procs[i].held - {k}))
  }

  /** sleep's acquire(lk), and back to the loop around it. */
  function ReacquireEffect(s: Kernel, i: nat): (s': Kernel)
    requires CanReacquire(s, i)
  {
    var lk := s.procs[i].pc.lk;
    var pc := if lk.WaitLock? then WaitScan(0, false) else if lk.ch == 0 then AcqTest(lk.k) else Inside(lk.k, {});
    Goto(SetSpin(s, lk, Thread(i)), i, pc)
  }

  function ReparentWakeEffect(s: Kernel, i: nat): (s': Kernel)
    requires CanReparentWake(s, i)
  {
    var st, j, k := s.procs[i].pc.status, s.procs[i].pc.j, s.procs[i].pc.k;
    if k < |s.procs| then Goto(Wake(s, i, k, ProcChan(s.init)), i, ReparentWake(st, j, k + 1))
    else Goto(s, i, Reparent(st, j + 1))
  }

  /** allocproc, at the free slot it finds. */
  function ForkEffect(s: Kernel, i: nat, np: nat): (s': Kernel)
    requires CanFork(s, i, np)
  {
    var child := s.procs[np].(pid := s.nextpid, state := USED, pc := New, forker := i);
    Goto(Put(s, np, child).(nextpid := s.nextpid + 1), i, ForkParent(np))
  }

  function ForkParentEffect(s: Kernel, i: nat): (s': Kernel)
    requires CanForkParent(s, i)
  {
    var np := s.procs[i].pc.np;
    Goto(Put(s, np, s.procs[np].(parent := Thread(i))), i, ForkRun(np))
  }

  function ForkRunEffect(s: Kernel, i: nat): (s': Kernel)
    requires CanForkRun(s, i)
  {
    var np := s.procs[i].pc.np;
    Goto(Put(s, np, s.procs[np].(state := RUNNABLE)), i, Ready)
  }

  /** acquiresleep's test: sleep if locked, else take the lock. */
  function AcqTestEffect(s: Kernel, i: nat): (s': Kernel)
    requires CanAcqTest(s, i)
  {
    var k := s.procs[i].pc.k;
    if s.locks[k].locked then Goto(s, i, SleepEnter(LockOf(k, 0)))
    else Put(SetLock(s, k, Monitor(Nobody, s.locks[k].ready - {0}, true, s.procs[i].pid, i)), i,
             s.procs[i].(pc := Ready, held := s.procs[i].held + {k}))
  }

  /** reparent's loop body, for one process. */
  function ReparentEffect(s: Kernel, i: nat): (s': Kernel)
    requires CanReparent(s, i)
  {
    var st, j := s.procs[i].pc.status, s.procs[i].pc.j;
    if j >= |s.procs| then Goto(s, i, ExitWake(st, 0))
    else if s.procs[j].parent == Thread(i) then
      Goto(Put(s, j, s.procs[j].(parent := Thread(s.init))), i, ReparentWake(st, j, 0))
    else Goto(s, i, Reparent(st, j + 1))
  }

  /** wakeup(p->parent), one process at a time, and then p->lock, xstate and ZOMBIE. */
  function ExitWakeEffect(s: Kernel, i: nat): (s': Kernel)
    requires CanExitWake(s, i)
  {
    var p := s.procs[i];
    var st, k := p.pc.status, p.pc.k;
    if k < |s.procs| then
      Goto(Wake(s, i, k, if p.parent.Thread? then ProcChan(p.parent.i) else NoChan), i, ExitWake(st, k + 1))
    else
      Put(s, i, p.(lock := true, xstate := st, state := ZOMBIE, pc := ExitZombie)).(exited := s.exited[p.pid := st])
  }

  /** freeproc. */
  function Freed(p: Proc): (p': Proc) {
    Proc(UNUSED, NoChan, false, 0, 0, Nobody, false, Free, 0, 0, {})
  }

  /** wait's loop body, for one process, and what follows the loop; `fault` is a failing copyout of the status. */
  function WaitScanEffect(s: Kernel, i: nat, fault: bool): (s': Kernel)
    requires CanWaitScan(s, i)
  {
    var j, kids := s.procs[i].pc.j, s.procs[i].pc.kids;
    if j >= |s.procs| then
      if !kids || s.procs[i].killed then Goto(s.(waitLock := Nobody), i, Ready)
      else Goto(s, i, SleepEnter(WaitLock))
    else if s.procs[j].parent != Thread(i) then Goto(s, i, WaitScan(j + 1, kids))
    else if s.procs[j].state != ZOMBIE then Goto(s, i, WaitScan(j + 1, true))
    else if fault then Goto(s.(waitLock := Nobody), i, Ready)
    else
      var reap := Reap(s.procs[j].pid, s.procs[j].xstate, i);
      Goto(Put(s, j, Freed(s.procs[j])).(waitLock := Nobody, reaped := s.reaped + [reap]), i, Ready)
  }

  // ----- interrupt handlers: acquire, change what the lock guards, wakeup, release -----------------

  function SetHandler(s: Kernel, c: nat, pc: Pc): (s': Kernel)
    requires c < |s.handlers|
  {
    s.(handlers := s.handlers[c := pc])
  }

  predicate CanIrqEnter(s: Kernel, c: nat, k: nat) {
    c < |s.handlers| && s.handlers[c].Ready? && FreeSpin(s, LockOf(k, 0))
  }

  predicate CanIrqChange(s: Kernel, c: nat, ready: set<nat>) {
    && c < |s.handlers| && s.handlers[c].Inside? && s.handlers[c].k < |s.locks|
    && (0 in ready <==> 0 in s.locks[s.handlers[c].k].ready)
  }

  predicate CanIrqWakeup(s: Kernel, c: nat) {
    c < |s.handlers| && s.handlers[c].Inside?
  }

  predicate CanIrqSignal(s: Kernel, c: nat) {
    && c < |s.handlers| && s.handlers[c].Signal?
    && (s.handlers[c].j < |s.procs| ==> !s.procs[s.handlers[c].j].lock)
  }

  predicate CanIrqLeave(s: Kernel, c: nat) {
    c < |s.handlers| && s.handlers[c].Inside? && s.handlers[c].owed == {} && s.handlers[c].k < |s.locks|
  }

  function IrqEnterEffect(s: Kernel, c: nat, k: nat): (s': Kernel)
    requires CanIrqEnter(s, c, k)
  {
    SetHandler(SetSpin(s, LockOf(k, 0), Handler(c)), c, Inside(k, {}))
  }

  function IrqChangeEffect(s: Kernel, c: nat, ready: set<nat>): (s': Kernel)
    requires CanIrqChange(s, c, ready)
  {
    var k, owed := s.handlers[c].k, s.handlers[c].owed;
    SetHandler(SetLock(s, k, s.locks[k].(ready := ready)), c, Inside(k, owed * ready + (ready - s.locks[k].ready)))
  }

  function IrqWakeupEffect(s: Kernel, c: nat, ch: nat): (s': Kernel)
    requires CanIrqWakeup(s, c)
  {
    SetHandler(s, c, Signal(s.handlers[c].k, s.handlers[c].owed - {ch}, ch, 0))
  }

  /** The process that the handler interrupted is RUNNING, so passing over it as the code does changes nothing. */
  function IrqSignalEffect(s: Kernel, c: nat): (s': Kernel)
    requires CanIrqSignal(s, c)
  {
    var k, owed, ch, j := s.handlers[c].k, s.handlers[c].owed, s.handlers[c].ch, s.handlers[c].j;
    if j < |s.procs| then SetHandler(Put(s, j, Woken(s.procs[j], LockChan(k, ch))), c, Signal(k, owed, ch, j + 1))
    else SetHandler(s, c, Inside(k, owed))
  }

  function IrqLeaveEffect(s: Kernel, c: nat): (s': Kernel)
    requires CanIrqLeave(s, c)
  {
    SetHandler(SetSpin(s, LockOf(s.handlers[c].k, 0), Nobody), c, Ready)
  }

  // ----- which steps are possible, and what they do -------------------------------------------

  predicate CanThread(s: Kernel, a: Step) {
    match a
    case Dispatch(c, i) => CanDispatch(s, c, i)
    case SwitchOut(c) => CanSwitchOut(s, c)
    case DoResume(i) => CanResume(s, i)
    case DoYield(i) => CanYield(s, i)
    case Kill(i, _) => CanKill(s, i)
    case DoKillScan(i) => CanKillScan(s, i)
    case DoSleepEnter(i) => CanSleepEnter(s, i)
    case DoSleepLocked(i) => CanSleepLocked(s, i)
    case DoSleepMark(i) => CanSleepMark(s, i)
    case DoSleepBack(i) => CanSleepBack(s, i)
    case DoReacquire(i) => CanReacquire(s, i)
    case _ => false
  }

  predicate CanLock(s: Kernel, a: Step) {
    match a
    case Enter(i, k) => CanEnter(s, i, k)
    case Change(i, ready) => CanChange(s, i, ready)
    case SleepOn(i, ch) => CanSleepOn(s, i, ch)
    case Wakeup(i, _) => CanWakeup(s, i)
    case DoSignal(i) => CanSignal(s, i)
    case Leave(i) => CanLeave(s, i)
    case Acquire(i, k) => CanAcquire(s, i, k)
    case DoAcqTest(i) => CanAcqTest(s, i)
    case Release(i, k) => CanRelease(s, i, k)
    case _ => false
  }

  predicate CanFamily(s: Kernel, a: Step) {
    match a
    case Exit(i, _) => CanExit(s, i)
    case DoReparent(i) => CanReparent(s, i)
    case DoReparentWake(i) => CanReparentWake(s, i)
    case DoExitWake(i) => CanExitWake(s, i)
    case DoExitZombie(i) => CanExitZombie(s, i)
    case Wait(i) => CanWait(s, i)
    case DoWaitScan(i, _) => CanWaitScan(s, i)
    case Fork(i, np) => CanFork(s, i, np)
    case DoForkParent(i) => CanForkParent(s, i)
    case DoForkRun(i) => CanForkRun(s, i)
    case _ => false
  }

  predicate CanIrq(s: Kernel, a: Step) {
    match a
    case IrqEnter(c, k) => CanIrqEnter(s, c, k)
    case IrqChange(c, ready) => CanIrqChange(s, c, ready)
    case IrqWakeup(c, _) => CanIrqWakeup(s, c)
    case IrqSignal(c) => CanIrqSignal(s, c)
    case IrqLeave(c) => CanIrqLeave(s, c)
    case _ => false
  }

  /** Scheduling, sleep and kill. */
  function DoThread(s: Kernel, a: Step): (s': Kernel)
    requires CanThread(s, a)
  {
    match a
    case Dispatch(c, i) => DispatchEffect(s, c, i)
    case SwitchOut(c) => SwitchOutEffect(s, c)
    case DoResume(i) => ResumeEffect(s, i)
    case DoYield(i) => YieldEffect(s, i)
    case Kill(i, pid) => KillEffect(s, i, pid)
    case DoKillScan(i) => KillScanEffect(s, i)
    case DoSleepEnter(i) => SleepEnterEffect(s, i)
    case DoSleepLocked(i) => SleepLockedEffect(s, i)
    case DoSleepMark(i) => SleepMarkEffect(s, i)
    case DoSleepBack(i) => SleepBackEffect(s, i)
    case DoReacquire(i) => ReacquireEffect(s, i)
  }

  /** Spinlocks and sleep locks. */
  function DoLock(s: Kernel, a: Step): (s': Kernel)
    requires CanLock(s, a)
  {
    match a
    case Enter(i, k) => EnterEffect(s, i, k)
    case Change(i, ready) => ChangeEffect(s, i, ready)
    case SleepOn(i, ch) => SleepOnEffect(s, i, ch)
    case Wakeup(i, ch) => WakeupEffect(s, i, ch)
    case DoSignal(i) => SignalEffect(s, i)
    case Leave(i) => LeaveEffect(s, i)
    case Acquire(i, k) => AcquireEffect(s, i, k)
    case DoAcqTest(i) => AcqTestEffect(s, i)
    case Release(i, k) => ReleaseEffect(s, i, k)
  }

  /** exit, wait and fork. */
  function DoFamily(s: Kernel, a: Step): (s': Kernel)
    requires CanFamily(s, a)
  {
    match a
    case Exit(i, status) => ExitEffect(s, i, status)
    case DoReparent(i) => ReparentEffect(s, i)
    case DoReparentWake(i) => ReparentWakeEffect(s, i)
    case DoExitWake(i) => ExitWakeEffect(s, i)
    case DoExitZombie(i) => ExitZombieEffect(s, i)
    case Wait(i) => WaitEffect(s, i)
    case DoWaitScan(i, fault) => WaitScanEffect(s, i, fault)
    case Fork(i, np) => ForkEffect(s, i, np)
    case DoForkParent(i) => ForkParentEffect(s, i)
    case DoForkRun(i) => ForkRunEffect(s, i)
  }

  /** Interrupt handlers. */
  function DoIrq(s: Kernel, a: Step): (s': Kernel)
    requires CanIrq(s, a)
  {
    match a
    case IrqEnter(c, k) => IrqEnterEffect(s, c, k)
    case IrqChange(c, ready) => IrqChangeEffect(s, c, ready)
    case IrqWakeup(c, ch) => IrqWakeupEffect(s, c, ch)
    case IrqSignal(c) => IrqSignalEffect(s, c)
    case IrqLeave(c) => IrqLeaveEffect(s, c)
  }

  predicate Can(s: Kernel, a: Step) {
    CanThread(s, a) || CanLock(s, a) || CanFamily(s, a) || CanIrq(s, a)
  }

  function Do(s: Kernel, a: Step): (s': Kernel)
    requires Can(s, a)
  {
    if CanThread(s, a) then DoThread(s, a)
    else if CanLock(s, a) then DoLock(s, a)
    else if CanFamily(s, a) then DoFamily(s, a)
    else DoIrq(s, a)
  }
}
